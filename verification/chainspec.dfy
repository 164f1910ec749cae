/** The canonical chain as a function of what is put: the specification of `blockchain.dfy`. Writes
are collected in a list and applied together at the end; everything is read from the database
as it was before. */
module ChainSpec {
  type Hash = nat
  type Name = nat

  datatype Option<+T> = None | Some(value: T)

  /** Hashes are injective names. `pos` says whether proof of stake is in force for the block. */
  datatype Header = Header(hash: Hash, number: nat, parentHash: Hash, difficulty: nat, pos: bool)

  datatype Db = Db(
    headers: map<(Hash, nat), Header>, numberToHash: map<nat, Hash>, hashToNumber: map<Hash, nat>,
    td: map<(Hash, nat), nat>)
  {
    predicate Canonical(h: Header) {
      h.number in numberToHash && numberToHash[h.number] == h.hash
    }

    function Header(hash: Hash, number: int): Option<Header> {
      if 0 <= number && (hash, number) in headers then Some(headers[(hash, number)]) else None
    }

    function Td(hash: Hash, number: int): Option<nat> {
      if 0 <= number && (hash, number) in td then Some(td[(hash, number)]) else None
    }

    function TdOf(hash: Hash): Option<nat> {
      if hash in hashToNumber then Td(hash, hashToNumber[hash]) else None
    }
  }

  datatype Op =
    | SetHeader(header: Header)
    | SetTd(key: (Hash, nat), td: nat)
    | SetNumberToHash(number: nat, hash: Hash)
    | SetHashToNumber(hash: Hash, number: nat)
    | DelNumberToHash(number: nat)
    | DelBlock(hash: Hash, number: nat)

  function ApplyOp(db: Db, op: Op): Db {
    match op
    case SetHeader(h) => db.(headers := db.headers[(h.hash, h.number) := h])
    case SetTd(key, td) => db.(td := db.td[key := td])
    case SetNumberToHash(n, h) => db.(numberToHash := db.numberToHash[n := h])
    case SetHashToNumber(h, n) => db.(hashToNumber := db.hashToNumber[h := n])
    case DelNumberToHash(n) => db.(numberToHash := db.numberToHash - {n})
    case DelBlock(h, n) =>
      db.(headers := db.headers - {(h, n)}, hashToNumber := db.hashToNumber - {h}, td := db.td - {(h, n)})
  }

  function Apply(db: Db, ops: seq<Op>): Db {
    if ops == [] then db else ApplyOp(Apply(db, ops[..|ops| - 1]), ops[|ops| - 1])
  }

  /** What is kept in memory, over the database. */
  datatype Chain = Chain(db: Db, heads: map<Name, Hash>, headHeader: Hash, headBlock: Hash)

  // ---- Deleting references ----

  function From(numbers: map<nat, Hash>, n: nat): set<nat> {
    set k | k in numbers && n <= k
  }

  /** The first number from `n` on without a canonical block. */
  function Gap(numbers: map<nat, Hash>, n: nat): (m: nat)
    ensures n <= m && m !in numbers && forall k :: n <= k < m ==> k in numbers
    decreases From(numbers, n)
  {
    if n !in numbers then n
    else
      assert n in From(numbers, n) && n !in From(numbers, n + 1);
      Gap(numbers, n + 1)
  }

  function Deletes(n: nat, m: nat): seq<Op>
    requires n <= m
  {
    seq(m - n, i requires 0 <= i => DelNumberToHash(n + i))
  }

  /** Whether `hash` is canonical at a number from `n` up to `m`. */
  predicate IsAmong(numbers: map<nat, Hash>, hash: Hash, n: nat, m: nat) {
    exists k :: n <= k < m && k in numbers && numbers[k] == hash
  }

  function Reset(numbers: map<nat, Hash>, hash: Hash, n: nat, m: nat, to: Hash): Hash {
    if IsAmong(numbers, hash, n, m) then to else hash
  }

  function ResetHeads(numbers: map<nat, Hash>, heads: map<Name, Hash>, n: nat, m: nat, to: Hash): map<Name, Hash> {
    map name | name in heads :: Reset(numbers, heads[name], n, m, to)
  }

  // ---- Rebuilding ----

  /** The headers from `h` down to the first that is canonical already, or to a gap. */
  function Walk(db: Db, h: Header): seq<Header>
    decreases h.number
  {
    if db.Canonical(h) then []
    else if h.number == 0 then [h]
    else
      match db.Header(h.parentHash, h.number - 1)
      case None => [h]
      case Some(p) => if p.number < h.number then [h] + Walk(db, p) else [h]
  }

  function WalkEnd(db: Db, h: Header): Header
    decreases h.number
  {
    if db.Canonical(h) || h.number == 0 then h
    else
      match db.Header(h.parentHash, h.number - 1)
      case None => h
      case Some(p) => if p.number < h.number then WalkEnd(db, p) else h
  }

  /** Whether the walk ends at a missing header. */
  predicate WalkBreaks(db: Db, h: Header)
    decreases h.number
  {
    if db.Canonical(h) || h.number == 0 then false
    else
      match db.Header(h.parentHash, h.number - 1)
      case None => true
      case Some(p) => p.number < h.number && WalkBreaks(db, p)
  }

  function Lookups(walk: seq<Header>): seq<Op> {
    if walk == [] then []
    else
      [SetNumberToHash(walk[0].number, walk[0].hash), SetHashToNumber(walk[0].hash, walk[0].number)]
      + Lookups(walk[1..])
  }

  /** Whether `hash` is canonical now at the number of a header of the walk other than block zero. */
  predicate IsStale(db: Db, hash: Hash, walk: seq<Header>) {
    exists i :: 0 <= i < |walk| && walk[i].number > 0 && walk[i].number in db.numberToHash
      && db.numberToHash[walk[i].number] == hash
  }

  function RebuildHeads(db: Db, heads: map<Name, Hash>, h: Header): map<Name, Hash> {
    map name | name in heads ::
      if !WalkBreaks(db, h) && IsStale(db, heads[name], Walk(db, h)) then WalkEnd(db, h).hash else heads[name]
  }

  function RebuildHeadBlock(db: Db, headBlock: Hash, h: Header): Hash {
    if IsStale(db, headBlock, Walk(db, h)) then WalkEnd(db, h).hash else headBlock
  }

  // ---- Putting a block ----

  /** The total difficulty of a block that is not under proof of stake; `None` where reading fails. */
  function NewTd(s: Chain, h: Header): Option<nat> {
    var header, block, parent := s.db.TdOf(s.headHeader), s.db.TdOf(s.headBlock), s.db.Td(h.parentHash, h.number - 1);
    if header.None? || block.None? || parent.None? then None else Some(h.difficulty + parent.value)
  }

  function BlockOps(h: Header, td: Option<nat>): seq<Op> {
    (if td.Some? then [SetTd((h.hash, h.number), td.value)] else []) + [SetHeader(h)]
  }

  /** The chain switched over to `h`, whatever its difficulty. */
  function Switch(s: Chain, h: Header, ops: seq<Op>): Chain {
    var numbers := s.db.numberToHash;
    var m := Gap(numbers, h.number + 1);
    var heads := ResetHeads(numbers, s.heads, h.number + 1, m, h.hash);
    var headBlock := Reset(numbers, h.hash, h.number + 1, m, h.hash);
    Chain(Apply(s.db, ops + Deletes(h.number + 1, m) + Lookups(Walk(s.db, h))),
          RebuildHeads(s.db, heads, h), h.hash, RebuildHeadBlock(s.db, headBlock, h))
  }

  /** The block is stored beside the canonical chain. */
  function Store(s: Chain, h: Header, ops: seq<Op>): Chain {
    s.(db := Apply(s.db, ops + [SetHashToNumber(h.hash, h.number)]))
  }

  predicate ParentKnown(s: Chain, h: Header) {
    h.parentHash in s.db.hashToNumber && h.number == s.db.hashToNumber[h.parentHash] + 1
    && s.db.Header(h.parentHash, h.number - 1).Some?
  }

  /** Putting a full block; `None` stands for an exception. The result tells whether the chain was
      switched over. */
  function Put(s: Chain, h: Header, validate: bool): Option<(Chain, bool)> {
    if h.number == 0 || (validate && !ParentKnown(s, h)) then None
    else if h.pos then Some((Switch(s, h, BlockOps(h, None)), true))
    else
      match NewTd(s, h)
      case None => None
      case Some(td) =>
        if td > s.db.TdOf(s.headHeader).value then Some((Switch(s, h, BlockOps(h, Some(td))), true))
        else
          var s' := Store(s, h, BlockOps(h, Some(td)));
          Some((if td > s.db.TdOf(s.headBlock).value then s'.(headBlock := h.hash) else s', false))
  }

  // ---- Deleting a block ----

  /** The canonical headers from `h` up. */
  function Above(db: Db, h: Header, m: nat): seq<Header>
    decreases m - h.number
  {
    if h.number < m && h.number + 1 in db.numberToHash
      && db.Header(db.numberToHash[h.number + 1], h.number + 1).Some? then
      var child := db.Header(db.numberToHash[h.number + 1], h.number + 1).value;
      if child.number == h.number + 1 then [h] + Above(db, child, m) else [h]
    else [h]
  }

  function BlockDeletes(hs: seq<Header>): seq<Op> {
    seq(|hs|, i requires 0 <= i < |hs| => DelBlock(hs[i].hash, hs[i].number))
  }

  predicate Deletes1(hs: seq<Header>, hash: Hash) {
    exists i :: 0 <= i < |hs| && hs[i].hash == hash
  }

  function Remove(s: Chain, hash: Hash): Option<Chain> {
    if hash !in s.db.hashToNumber || s.db.Header(hash, s.db.hashToNumber[hash]).None? then None
    else
      var h := s.db.Header(hash, s.db.hashToNumber[hash]).value;
      if !s.db.Canonical(h) then Some(s.(db := Apply(s.db, BlockDeletes([h]))))
      else
        var m := Gap(s.db.numberToHash, h.number);
        var gone := Above(s.db, h, m);
        Some(Chain(
          Apply(s.db, BlockDeletes(gone) + Deletes(h.number, m)),
          ResetHeads(s.db.numberToHash, s.heads, h.number, m, h.parentHash),
          if Deletes1(gone, s.headHeader) then h.parentHash else s.headHeader,
          Reset(s.db.numberToHash, if Deletes1(gone, s.headBlock) then h.parentHash else s.headBlock,
            h.number, m, h.parentHash)))
  }
}
