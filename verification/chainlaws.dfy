/** What the canonical chain is after any run of block puts, and after deleting a block. */
module ChainLaws {
  import opened ChainSpec

  /** Number `k` of the canonical chain names a stored block that follows its predecessor. */
  predicate Link(db: Db, k: nat)
    requires k in db.numberToHash && (k == 0 || k - 1 in db.numberToHash)
  {
    var hash := db.numberToHash[k];
    (hash, k) in db.headers && db.headers[(hash, k)].hash == hash && db.headers[(hash, k)].number == k
    && (k > 0 ==> db.headers[(hash, k)].parentHash == db.numberToHash[k - 1])
  }

  /** The numbers from zero to `n`, and no others, have a canonical block, each the child of the
      one before. */
  ghost predicate IsChain(db: Db, n: nat) {
    && (forall k: nat :: k in db.numberToHash <==> k <= n)
    && (forall k: nat :: k <= n ==> Link(db, k))
  }

  predicate StoredAt(db: Db, h: Hash, k: nat)
    requires (h, k) in db.headers
  {
    var header := db.headers[(h, k)];
    header.hash == h && header.number == k && h in db.hashToNumber && db.hashToNumber[h] == k
    && (if k == 0 then 0 in db.numberToHash && db.numberToHash[0] == h else (header.parentHash, k - 1) in db.headers)
  }

  /** Every stored block is filed under its own hash and number, and its parent is stored. */
  ghost predicate Stored(db: Db) {
    forall h, k :: (h, k) in db.headers ==> StoredAt(db, h, k)
  }

  predicate OnChain(db: Db, hash: Hash) {
    hash in db.hashToNumber && db.hashToNumber[hash] in db.numberToHash
      && db.numberToHash[db.hashToNumber[hash]] == hash
  }

  /** The canonical part: the index is the ancestor chain of the head, on which all iterators stand. */
  ghost predicate CanonicalOk(s: Chain) {
    && s.headHeader in s.db.hashToNumber
    && IsChain(s.db, s.db.hashToNumber[s.headHeader])
    && OnChain(s.db, s.headHeader)
    && s.headBlock == s.headHeader
    && forall name :: name in s.heads ==> OnChain(s.db, s.heads[name])
  }

  ghost predicate Inv(s: Chain) {
    CanonicalOk(s) && Stored(s.db)
  }

  /** As long as the head has a total difficulty, every stored block has one: that of its parent
      plus its own, and none higher than that of the head. */
  ghost predicate Heaviest(s: Chain) {
    s.db.TdOf(s.headHeader).Some? ==>
      forall h, k :: (h, k) in s.db.headers ==> HasTd(s.db, h, k) && s.db.td[(h, k)] <= s.db.TdOf(s.headHeader).value
  }

  predicate HasTd(db: Db, h: Hash, k: nat)
    requires (h, k) in db.headers
  {
    (h, k) in db.td
    && (k > 0 ==> (db.headers[(h, k)].parentHash, k - 1) in db.td)
    && (k > 0 ==> db.td[(h, k)] == db.td[(db.headers[(h, k)].parentHash, k - 1)] + db.headers[(h, k)].difficulty)
  }

  // ---- Applying lists of writes ----

  lemma {:induction false} ApplyTwice(db: Db, a: seq<Op>, b: seq<Op>)
    ensures Apply(db, a + b) == Apply(Apply(db, a), b)
  {
    if b == [] {
      assert a + b == a;
    } else {
      ApplyTwice(db, a, b[..|b| - 1]);
      assert (a + b)[..|a + b| - 1] == a + b[..|b| - 1];
    }
  }

  lemma {:induction false} ApplyDeletes(db: Db, n: nat, m: nat)
    requires n <= m
    ensures Apply(db, Deletes(n, m)) ==
      db.(numberToHash := map k | k in db.numberToHash && !(n <= k < m) :: db.numberToHash[k])
    decreases m
  {
    if n < m {
      ApplyDeletes(db, n, m - 1);
      assert Deletes(n, m)[..m - n - 1] == Deletes(n, m - 1);
    }
  }

  predicate Descending(walk: seq<Header>) {
    forall i :: 0 <= i < |walk| ==> walk[i].number == walk[0].number - i
  }

  /** The position in the walk of number `k`, if it is there. */
  predicate Covers(walk: seq<Header>, k: nat) {
    walk != [] && walk[0].number - |walk| < k <= walk[0].number
  }

  /** `hash` is in the walk, at number `k`. */
  predicate WalkHas(walk: seq<Header>, hash: Hash, k: nat) {
    exists i :: 0 <= i < |walk| && walk[i].hash == hash && walk[i].number == k
  }

  /** `db'` is `db` with the index entries of the walk written over. */
  ghost predicate Looked(db: Db, db': Db, walk: seq<Header>) {
    && db'.headers == db.headers && db'.td == db.td
    && (forall k: nat :: At(db'.numberToHash, k) == if Covers(walk, k) then Some(WalkAt(walk, k))
      else At(db.numberToHash, k))
    && Numbered(db.hashToNumber, db'.hashToNumber, walk)
  }

  /** Hashes keep their numbers, and those of the walk get theirs. */
  ghost predicate Numbered(old1: map<Hash, nat>, new1: map<Hash, nat>, walk: seq<Header>) {
    && (forall x :: x in old1 ==> x in new1)
    && (forall i :: 0 <= i < |walk| ==> walk[i].hash in new1)
    && (forall x :: x in new1 ==> (x in old1 && new1[x] == old1[x]) || WalkHas(walk, x, new1[x]))
  }

  function At(numbers: map<nat, Hash>, k: nat): Option<Hash> {
    if k in numbers then Some(numbers[k]) else None
  }

  function WalkAt(walk: seq<Header>, k: nat): Hash
    requires Covers(walk, k)
  {
    walk[walk[0].number - k].hash
  }

  lemma {:induction false} ApplyLookups(db: Db, walk: seq<Header>)
    requires Descending(walk)
    ensures Looked(db, Apply(db, Lookups(walk)), walk)
    decreases |walk|
  {
    if walk != [] {
      var first := [SetNumberToHash(walk[0].number, walk[0].hash), SetHashToNumber(walk[0].hash, walk[0].number)];
      assert Lookups(walk) == first + Lookups(walk[1..]);
      ApplyTwice(db, first, Lookups(walk[1..]));
      ApplyLookups(ApplyFirst(db, walk[0]), walk[1..]);
      LookedNext(db, ApplyFirst(db, walk[0]), Apply(db, Lookups(walk)), walk);
    }
  }

  lemma LookedNext(db: Db, db1: Db, db2: Db, walk: seq<Header>)
    requires walk != [] && Descending(walk) && Looked(db1, db2, walk[1..])
    requires db1 == db.(numberToHash := db.numberToHash[walk[0].number := walk[0].hash],
                        hashToNumber := db.hashToNumber[walk[0].hash := walk[0].number])
    ensures Looked(db, db2, walk)
  {
    var rest := walk[1..];
    forall k: nat ensures At(db2.numberToHash, k) == if Covers(walk, k) then Some(WalkAt(walk, k))
      else At(db.numberToHash, k) {
      assert At(db2.numberToHash, k) == if Covers(rest, k) then Some(WalkAt(rest, k)) else At(db1.numberToHash, k);
    }
    forall x | x in db2.hashToNumber
      ensures (x in db.hashToNumber && db2.hashToNumber[x] == db.hashToNumber[x])
        || WalkHas(walk, x, db2.hashToNumber[x])
    {
      if WalkHas(rest, x, db2.hashToNumber[x]) {
        var i :| 0 <= i < |rest| && rest[i].hash == x && rest[i].number == db2.hashToNumber[x];
        assert walk[i + 1].hash == x;
      } else if x == walk[0].hash {
        assert walk[0].hash == x;
      }
    }
    forall i | 0 <= i < |walk| ensures walk[i].hash in db2.hashToNumber {
      if i > 0 {
        assert rest[i - 1].hash in db2.hashToNumber;
      }
    }
  }

  function ApplyFirst(db: Db, h: Header): (db': Db)
    ensures db' == Apply(db, [SetNumberToHash(h.number, h.hash), SetHashToNumber(h.hash, h.number)])
  {
    var both := [SetNumberToHash(h.number, h.hash), SetHashToNumber(h.hash, h.number)];
    assert both[..1] == [SetNumberToHash(h.number, h.hash)];
    assert Apply(db, both[..1]) == ApplyOp(db, both[0]) by {
      assert both[..1][..0] == [];
    }
    db.(numberToHash := db.numberToHash[h.number := h.hash], hashToNumber := db.hashToNumber[h.hash := h.number])
  }

  // ---- Walking back to the canonical chain ----

  /** A header whose ancestry is stored. */
  predicate Anchored(db: Db, h: Header) {
    if h.number == 0 then db.Canonical(h) else (h.parentHash, h.number - 1) in db.headers
  }

  predicate IsStored(db: Db, h: Header) {
    (h.hash, h.number) in db.headers && db.headers[(h.hash, h.number)] == h
  }

  /** What the walk from `h` gives: consecutive descending headers, each the parent of the one
      before, ending just above canonical number `fork`. */
  ghost predicate Walked(db: Db, h: Header, walk: seq<Header>, fork: nat) {
    && fork + |walk| == h.number && fork in db.numberToHash
    && Descending(walk)
    && (if walk == [] then db.Canonical(h) else walk[0] == h && walk[|walk| - 1].parentHash == db.numberToHash[fork])
    && (forall i :: 0 < i < |walk| ==> walk[i].hash == walk[i - 1].parentHash && IsStored(db, walk[i]))
    && (forall i :: 0 <= i < |walk| ==> !db.Canonical(walk[i]))
  }

  lemma {:induction false} WalkWalks(db: Db, h: Header, n: nat) returns (fork: nat)
    requires Stored(db) && IsChain(db, n) && Anchored(db, h)
    ensures Walked(db, h, Walk(db, h), fork) && fork <= n
    ensures !WalkBreaks(db, h) && WalkEnd(db, h).hash == db.numberToHash[fork]
    decreases h.number
  {
    hide Walked, Stored, IsChain;
    if db.Canonical(h) {
      fork := h.number;
      WalkNone(db, h, n);
    } else {
      ParentStored(db, h);
      var p := db.headers[(h.parentHash, h.number - 1)];
      fork := WalkWalks(db, p, n);
      WalkNext(db, h, p, Walk(db, p), fork);
    }
  }

  lemma WalkNone(db: Db, h: Header, n: nat)
    requires IsChain(db, n) && db.Canonical(h)
    ensures Walked(db, h, [], h.number) && h.number <= n
  {
  }

  lemma ParentStored(db: Db, h: Header)
    requires Stored(db) && Anchored(db, h) && !db.Canonical(h)
    ensures h.number > 0 && (h.parentHash, h.number - 1) in db.headers
    ensures var p := db.headers[(h.parentHash, h.number - 1)];
      p.number == h.number - 1 && p.hash == h.parentHash && IsStored(db, p) && Anchored(db, p)
  {
    hide Stored;
    StoredEntry(db, h.parentHash, h.number - 1);
  }

  lemma WalkNext(db: Db, h: Header, p: Header, rest: seq<Header>, fork: nat)
    requires Walked(db, p, rest, fork) && !db.Canonical(h) && h.number == p.number + 1 && h.parentHash == p.hash
    requires IsStored(db, p)
    ensures Walked(db, h, [h] + rest, fork)
  {
    var walk := [h] + rest;
    assert forall i :: 0 < i < |walk| ==> walk[i] == rest[i - 1];
  }

  // ---- Switching over ----

  function SwitchedAt(numbers: map<nat, Hash>, h: Header, walk: seq<Header>, fork: nat, k: nat): Option<Hash>
    requires fork + |walk| == h.number
  {
    if k > h.number then None
    else if k > fork then Some(walk[h.number - k].hash)
    else At(numbers, k)
  }

  lemma GapIs(numbers: map<nat, Hash>, n: nat, k: nat)
    requires forall j: nat :: j in numbers <==> j <= n
    ensures Gap(numbers, k) == if k <= n then n + 1 else k
  {
    if Gap(numbers, k) > k {
      assert Gap(numbers, k) - 1 in numbers;
    }
  }

  /** The database after the writes of a switch over to `h`. */
  ghost predicate Switched(db: Db, db': Db, h: Header, walk: seq<Header>, fork: nat, td: Option<nat>)
    requires fork + |walk| == h.number
  {
    && db'.headers == db.headers[(h.hash, h.number) := h]
    && db'.td == (if td.Some? then db.td[(h.hash, h.number) := td.value] else db.td)
    && (forall k: nat :: At(db'.numberToHash, k) == SwitchedAt(db.numberToHash, h, walk, fork, k))
    && Numbered(db.hashToNumber, db'.hashToNumber, walk)
  }

  lemma BlockOpsApply(db: Db, h: Header, td: Option<nat>)
    ensures Apply(db, BlockOps(h, td)) ==
      db.(headers := db.headers[(h.hash, h.number) := h],
        td := if td.Some? then db.td[(h.hash, h.number) := td.value] else db.td)
  {
    var head := [SetHeader(h)];
    assert head[..0] == [];
    assert Apply(db, head) == ApplyOp(db, SetHeader(h));
    if td.Some? {
      var first := [SetTd((h.hash, h.number), td.value)];
      assert first[..0] == [];
      assert Apply(db, first) == ApplyOp(db, first[0]);
      ApplyTwice(db, first, head);
      assert Apply(Apply(db, first), head) == ApplyOp(Apply(db, first), SetHeader(h)) by {
        assert head[..0] == [];
      }
    } else {
      assert [] + head == head;
    }
  }

  lemma SwitchApplies(db: Db, h: Header, td: Option<nat>, n: nat, fork: nat)
    requires IsChain(db, n) && Walked(db, h, Walk(db, h), fork) && fork <= n
    ensures Switched(db,
      Apply(db, BlockOps(h, td) + Deletes(h.number + 1, Gap(db.numberToHash, h.number + 1)) + Lookups(Walk(db, h))),
                     h, Walk(db, h), fork, td)
  {
    hide *;
    var m, walk := Gap(db.numberToHash, h.number + 1), Walk(db, h);
    var ops, dels, sets := BlockOps(h, td), Deletes(h.number + 1, m), Lookups(walk);
    var d1 := Apply(db, ops);
    var d2 := Apply(d1, dels);
    ApplyTwice(db, ops + dels, sets);
    ApplyTwice(db, ops, dels);
    BlockOpsApply(db, h, td);
    ApplyDeletes(d1, h.number + 1, m);
    WalkedDescends(db, h, walk, fork);
    ApplyLookups(d2, walk);
    SwitchedParts(db, d1, d2, Apply(d2, sets), h, td, n, fork);
  }

  lemma WalkedDescends(db: Db, h: Header, walk: seq<Header>, fork: nat)
    requires Walked(db, h, walk, fork)
    ensures Descending(walk) && fork + |walk| == h.number
  {
  }

  lemma SwitchedParts(db: Db, d1: Db, d2: Db, d3: Db, h: Header, td: Option<nat>, n: nat, fork: nat)
    requires IsChain(db, n) && Walked(db, h, Walk(db, h), fork) && fork <= n
    requires d1 == db.(headers := db.headers[(h.hash, h.number) := h],
      td := if td.Some? then db.td[(h.hash, h.number) := td.value] else db.td)
    requires var m := Gap(db.numberToHash, h.number + 1);
      d2 == d1.(numberToHash := map k | k in d1.numberToHash && !(h.number + 1 <= k < m) :: d1.numberToHash[k])
    requires Looked(d2, d3, Walk(db, h))
    ensures Switched(db, d3, h, Walk(db, h), fork, td)
  {
    hide Walk, Covers, At, SwitchedAt, Gap, Numbered, WalkAt;
    GapIs(db.numberToHash, n, h.number + 1);
    forall k: nat ensures At(d3.numberToHash, k) == SwitchedAt(db.numberToHash, h, Walk(db, h), fork, k) {
      SwitchedNumber(db.numberToHash, d2.numberToHash, d3.numberToHash, h, Walk(db, h), fork, n,
        Gap(db.numberToHash, h.number + 1), k);
    }
  }

  lemma SwitchedNumber(numbers: map<nat, Hash>, kept: map<nat, Hash>, set1: map<nat, Hash>, h: Header,
      walk: seq<Header>, fork: nat, n: nat, m: nat, k: nat)
    requires forall j: nat :: j in numbers <==> j <= n
    requires m == if h.number + 1 <= n then n + 1 else h.number + 1
    requires kept == map j | j in numbers && !(h.number + 1 <= j < m) :: numbers[j]
    requires fork + |walk| == h.number && fork <= n && (walk != [] ==> walk[0] == h)
    requires At(set1, k) == if Covers(walk, k) then Some(WalkAt(walk, k)) else At(kept, k)
    ensures At(set1, k) == SwitchedAt(numbers, h, walk, fork, k)
  {
  }

  /** Block hashes are injective: what is stored under the hash of `h` is `h`. */
  ghost predicate Names(db: Db, h: Header) {
    && (h.hash in db.hashToNumber ==> db.hashToNumber[h.hash] == h.number)
    && (forall k :: (h.hash, k) in db.headers ==> db.headers[(h.hash, k)] == h)
  }

  lemma SwitchedChain(db: Db, db': Db, h: Header, walk: seq<Header>, n: nat, fork: nat, td: Option<nat>)
    requires IsChain(db, n) && Walked(db, h, walk, fork) && fork <= n && Switched(db, db', h, walk, fork, td)
    requires Names(db, h)
    ensures IsChain(db', h.number) && db'.numberToHash[h.number] == h.hash
    ensures forall k :: 0 <= k <= fork ==> db'.numberToHash[k] == db.numberToHash[k]
  {
    forall k: nat ensures k in db'.numberToHash <==> k <= h.number {
      assert At(db'.numberToHash, k) == SwitchedAt(db.numberToHash, h, walk, fork, k);
    }
    forall k: nat | k <= h.number ensures Link(db', k) {
      SwitchedLink(db, db', h, walk, n, fork, td, k);
    }
    assert At(db'.numberToHash, h.number) == SwitchedAt(db.numberToHash, h, walk, fork, h.number);
    forall k | 0 <= k <= fork ensures db'.numberToHash[k] == db.numberToHash[k] {
      assert At(db'.numberToHash, k) == SwitchedAt(db.numberToHash, h, walk, fork, k);
    }
  }

  lemma SwitchedLink(db: Db, db': Db, h: Header, walk: seq<Header>, n: nat, fork: nat, td: Option<nat>, k: nat)
    requires IsChain(db, n) && Walked(db, h, walk, fork) && fork <= n && Switched(db, db', h, walk, fork, td)
    requires Names(db, h)
    requires k <= h.number && k in db'.numberToHash && (k == 0 || k - 1 in db'.numberToHash)
    ensures Link(db', k)
  {
    assert At(db'.numberToHash, k) == SwitchedAt(db.numberToHash, h, walk, fork, k);
    if k > 0 {
      assert At(db'.numberToHash, k - 1) == SwitchedAt(db.numberToHash, h, walk, fork, k - 1);
    }
    if k <= fork {
      assert Link(db, k);
    } else {
      var i := h.number - k;
      assert walk[i].number == walk[0].number - i;
      assert i > 0 ==> IsStored(db, walk[i]);
      assert i + 1 < |walk| ==> walk[i + 1].hash == walk[i].parentHash;
    }
  }

  lemma SwitchedNumbers(db: Db, db': Db, h: Header, walk: seq<Header>, n: nat, fork: nat, td: Option<nat>, x: Hash)
    requires IsChain(db, n) && Stored(db) && Walked(db, h, walk, fork) && fork <= n
    requires Switched(db, db', h, walk, fork, td) && Names(db, h)
    ensures x in db.hashToNumber ==> x in db'.hashToNumber && db'.hashToNumber[x] == db.hashToNumber[x]
    ensures h.hash in db'.hashToNumber && db'.hashToNumber[h.hash] == h.number
  {
    forall y | y in db'.hashToNumber && (y in db.hashToNumber || y == h.hash)
      ensures db'.hashToNumber[y] == if y in db.hashToNumber then db.hashToNumber[y] else h.number
    {
      if WalkHas(walk, y, db'.hashToNumber[y]) {
        var i :| 0 <= i < |walk| && walk[i].hash == y && walk[i].number == db'.hashToNumber[y];
        if i > 0 {
          assert IsStored(db, walk[i]);
          assert StoredAt(db, walk[i].hash, walk[i].number);
        }
      }
    }
    if walk == [] {
      assert Link(db, h.number);
      assert StoredAt(db, h.hash, h.number);
    } else {
      assert walk[0].hash in db'.hashToNumber;
    }
  }

  lemma SwitchedStored(db: Db, db': Db, h: Header, walk: seq<Header>, n: nat, fork: nat, td: Option<nat>)
    requires IsChain(db, n) && Stored(db) && Walked(db, h, walk, fork) && fork <= n
    requires Switched(db, db', h, walk, fork, td) && Names(db, h)
    requires h.number > 0 && Anchored(db, h)
    ensures Stored(db')
  {
    forall x, k | (x, k) in db'.headers ensures StoredAt(db', x, k) {
      SwitchedNumbers(db, db', h, walk, n, fork, td, x);
      SwitchedEntry(db, db', h, walk, fork, td, x, k);
    }
  }

  lemma SwitchedEntry(db: Db, db': Db, h: Header, walk: seq<Header>, fork: nat, td: Option<nat>, x: Hash, k: nat)
    requires Stored(db) && fork + |walk| == h.number && Switched(db, db', h, walk, fork, td) && Names(db, h)
    requires h.number > 0 && Anchored(db, h) && (x, k) in db'.headers
    requires x in db.hashToNumber ==> x in db'.hashToNumber && db'.hashToNumber[x] == db.hashToNumber[x]
    requires h.hash in db'.hashToNumber && db'.hashToNumber[h.hash] == h.number
    ensures StoredAt(db', x, k)
  {
    hide Numbered, Stored;
    if (x, k) in db.headers {
      StoredEntry(db, x, k);
    }
    assert At(db'.numberToHash, 0) == SwitchedAt(db.numberToHash, h, walk, fork, 0);
  }

  // ---- Iterator heads ----

  /** Where a head that stood on the old chain ends up. */
  function Followed(db: Db, h: Header, fork: nat, hash: Hash): Hash
    requires OnChain(db, hash) && fork in db.numberToHash
  {
    if db.hashToNumber[hash] > h.number then h.hash
    else if db.hashToNumber[hash] > fork then db.numberToHash[fork]
    else hash
  }

  lemma OneNumber(db: Db, n: nat, hash: Hash, k: nat)
    requires IsChain(db, n) && Stored(db) && OnChain(db, hash) && k in db.numberToHash && db.numberToHash[k] == hash
    ensures k == db.hashToNumber[hash]
  {
    assert Link(db, k);
    assert StoredAt(db, hash, k);
  }

  lemma HeadFollows(db: Db, h: Header, n: nat, fork: nat, hash: Hash)
    requires IsChain(db, n) && Stored(db) && Walked(db, h, Walk(db, h), fork) && fork <= n && OnChain(db, hash)
    requires Names(db, h)
    requires WalkEnd(db, h).hash == db.numberToHash[fork]
    ensures var m := Gap(db.numberToHash, h.number + 1);
      var mid := Reset(db.numberToHash, hash, h.number + 1, m, h.hash);
      (if IsStale(db, mid, Walk(db, h)) then WalkEnd(db, h).hash else mid) == Followed(db, h, fork, hash)
  {
    GapIs(db.numberToHash, n, h.number + 1);
    var m := Gap(db.numberToHash, h.number + 1);
    var k := db.hashToNumber[hash];
    assert IsAmong(db.numberToHash, hash, h.number + 1, m) <==> k > h.number by {
      if IsAmong(db.numberToHash, hash, h.number + 1, m) {
        var j :| h.number + 1 <= j < m && j in db.numberToHash && db.numberToHash[j] == hash;
        OneNumber(db, n, hash, j);
      }
    }
    if k > h.number {
      NewIsFresh(db, h, n, fork);
    } else {
      StaleAbove(db, h, n, fork, hash);
    }
  }

  /** The new head is not what is canonical now at a number of the walk. */
  lemma NewIsFresh(db: Db, h: Header, n: nat, fork: nat)
    requires IsChain(db, n) && Stored(db) && Walked(db, h, Walk(db, h), fork) && fork <= n && Names(db, h)
    ensures !IsStale(db, h.hash, Walk(db, h))
  {
    hide IsChain, Stored, Names, Walk;
    var walk := Walk(db, h);
    if i :|
      0 <= i < |walk| && walk[i].number > 0 && walk[i].number in db.numberToHash
      && db.numberToHash[walk[i].number] == h.hash
    {
      NameNumber(db, h, n, walk[i].number);
      assert false;
    }
  }

  lemma NameNumber(db: Db, h: Header, n: nat, k: nat)
    requires IsChain(db, n) && Names(db, h) && k in db.numberToHash && db.numberToHash[k] == h.hash
    ensures k == h.number
  {
    assert Link(db, k);
  }

  lemma StaleAbove(db: Db, h: Header, n: nat, fork: nat, hash: Hash)
    requires IsChain(db, n) && Stored(db) && Walked(db, h, Walk(db, h), fork) && fork <= n && OnChain(db, hash)
    requires db.hashToNumber[hash] <= h.number
    ensures IsStale(db, hash, Walk(db, h)) <==> db.hashToNumber[hash] > fork
  {
    var walk, k := Walk(db, h), db.hashToNumber[hash];
    if i :|
      0 <= i < |walk| && walk[i].number > 0 && walk[i].number in db.numberToHash
      && db.numberToHash[walk[i].number] == hash
    {
      OneNumber(db, n, hash, walk[i].number);
      assert walk[i].number == walk[0].number - i;
    }
    if k > fork {
      var i := h.number - k;
      assert walk[i].number == walk[0].number - i;
    }
  }

  // ---- Putting blocks ----

  /** A switch over makes `h` the head of a canonical chain, on which every iterator stands where
      it stood if that is still canonical, at the fork point if it is not, or at `h` if it was
      further than `h`. */
  lemma SwitchKeeps(s: Chain, h: Header, td: Option<nat>) returns (fork: nat)
    requires Inv(s) && Names(s.db, h) && h.number > 0 && Anchored(s.db, h)
    ensures var s' := Switch(s, h, BlockOps(h, td));
      Inv(s') && s'.headHeader == h.hash && s'.db.headers == s.db.headers[(h.hash, h.number) := h]
    ensures Switch(s, h, BlockOps(h, td)).db.td == if td.Some? then s.db.td[(h.hash, h.number) := td.value] else s.db.td
    ensures fork in s.db.numberToHash && fork <= h.number
    ensures var s' := Switch(s, h, BlockOps(h, td));
      s'.heads.Keys == s.heads.Keys && forall name :: name in s.heads ==>
        s'.heads[name] == Followed(s.db, h, fork, s.heads[name])
    ensures Forks(s.db, Switch(s, h, BlockOps(h, td)).db, fork)
  {
    hide Walked, IsChain, Stored, Names, Walk, Apply, Switched;
    var n := s.db.hashToNumber[s.headHeader];
    fork := WalkWalks(s.db, h, n);
    var walk, s' := Walk(s.db, h), Switch(s, h, BlockOps(h, td));
    WalkedDescends(s.db, h, walk, fork);
    SwitchApplies(s.db, h, td, n, fork);
    SwitchedParts0(s.db, s'.db, h, walk, fork, td);
    SwitchedChain(s.db, s'.db, h, walk, n, fork, td);
    SwitchedStored(s.db, s'.db, h, walk, n, fork, td);
    SwitchedNumbers(s.db, s'.db, h, walk, n, fork, td, h.hash);
    SwitchedForks(s.db, s'.db, h, walk, n, fork, td);
    forall name | name in s.heads
      ensures s'.heads[name] == Followed(s.db, h, fork, s.heads[name]) && OnChain(s'.db, s'.heads[name])
    {
      HeadFollows(s.db, h, n, fork, s.heads[name]);
      FollowedOn(s.db, s'.db, h, walk, n, fork, td, s.heads[name]);
    }
    HeadBlockFollows(s, h, n, fork);
    ChainTop(s'.db, h.number);
  }

  lemma SwitchedParts0(db: Db, db': Db, h: Header, walk: seq<Header>, fork: nat, td: Option<nat>)
    requires fork + |walk| == h.number && Switched(db, db', h, walk, fork, td)
    ensures db'.headers == db.headers[(h.hash, h.number) := h]
    ensures db'.td == if td.Some? then db.td[(h.hash, h.number) := td.value] else db.td
  {
  }

  lemma ChainTop(db: Db, n: nat)
    requires IsChain(db, n)
    ensures n in db.numberToHash
  {
  }

  /** `fork` is the last number at which the two chains agree, or the last of one of them. */
  ghost predicate Forks(db: Db, db': Db, fork: nat) {
    && fork in db.numberToHash && fork in db'.numberToHash
    && (forall k: nat :: k <= fork ==>
      k in db.numberToHash && k in db'.numberToHash && db'.numberToHash[k] == db.numberToHash[k])
    && (fork + 1 in db.numberToHash && fork + 1 in db'.numberToHash ==>
      db'.numberToHash[fork + 1] != db.numberToHash[fork + 1])
  }

  lemma SwitchedForks(db: Db, db': Db, h: Header, walk: seq<Header>, n: nat, fork: nat, td: Option<nat>)
    requires IsChain(db, n) && Walked(db, h, walk, fork) && fork <= n && Switched(db, db', h, walk, fork, td)
    ensures Forks(db, db', fork)
  {
    forall k: nat | k <= fork ensures k in db.numberToHash && k in db'.numberToHash
      && db'.numberToHash[k] == db.numberToHash[k] {
      assert At(db'.numberToHash, k) == SwitchedAt(db.numberToHash, h, walk, fork, k);
    }
    assert At(db'.numberToHash, fork + 1) == SwitchedAt(db.numberToHash, h, walk, fork, fork + 1);
    if walk != [] {
      assert walk[|walk| - 1].number == fork + 1 && !db.Canonical(walk[|walk| - 1]);
    }
  }

  lemma FollowedOn(db: Db, db': Db, h: Header, walk: seq<Header>, n: nat, fork: nat, td: Option<nat>, hash: Hash)
    requires IsChain(db, n) && Stored(db) && Walked(db, h, walk, fork) && fork <= n
    requires Switched(db, db', h, walk, fork, td)
    requires Names(db, h) && OnChain(db, hash)
    ensures OnChain(db', Followed(db, h, fork, hash))
  {
    SwitchedNumbers(db, db', h, walk, n, fork, td, hash);
    SwitchedChain(db, db', h, walk, n, fork, td);
    assert Link(db, fork);
    assert StoredAt(db, db.numberToHash[fork], fork);
    SwitchedNumbers(db, db', h, walk, n, fork, td, db.numberToHash[fork]);
  }

  lemma HeadBlockFollows(s: Chain, h: Header, n: nat, fork: nat)
    requires IsChain(s.db, n) && Stored(s.db) && Walked(s.db, h, Walk(s.db, h), fork) && fork <= n && Names(s.db, h)
    ensures var m := Gap(s.db.numberToHash, h.number + 1);
      RebuildHeadBlock(s.db, Reset(s.db.numberToHash, h.hash, h.number + 1, m, h.hash), h) == h.hash
  {
    NewIsFresh(s.db, h, n, fork);
  }

  /** Total difficulties belong to stored blocks that are not under proof of stake. */
  ghost predicate TdStored(db: Db) {
    forall h, k :: (h, k) in db.td ==> (h, k) in db.headers && (k > 0 ==> !db.headers[(h, k)].pos)
  }

  /** What holds after any run of puts. */
  ghost predicate Sound(s: Chain) {
    Inv(s) && TdStored(s.db) && Heaviest(s)
  }

  lemma StoreApplies(db: Db, h: Header, td: nat)
    ensures Apply(db, BlockOps(h, Some(td)) + [SetHashToNumber(h.hash, h.number)]) ==
      db.(headers := db.headers[(h.hash, h.number) := h], td := db.td[(h.hash, h.number) := td],
          hashToNumber := db.hashToNumber[h.hash := h.number])
  {
    BlockOpsApply(db, h, Some(td));
    var ops := BlockOps(h, Some(td)) + [SetHashToNumber(h.hash, h.number)];
    assert ops[..|ops| - 1] == BlockOps(h, Some(td));
  }

  lemma StoreKeeps(s: Chain, h: Header, td: nat)
    requires Inv(s) && Names(s.db, h) && h.number > 0 && Anchored(s.db, h)
    ensures Inv(Store(s, h, BlockOps(h, Some(td))))
  {
    StoreApplies(s.db, h, td);
    var db := Store(s, h, BlockOps(h, Some(td))).db;
    var n := s.db.hashToNumber[s.headHeader];
    forall k: nat | k <= n ensures Link(db, k) {
      assert Link(s.db, k);
    }
    forall x, k | (x, k) in db.headers ensures StoredAt(db, x, k) {
      if (x, k) in s.db.headers {
        assert StoredAt(s.db, x, k);
      }
    }
  }

  /** The new block's total difficulty fits in with the others. */
  lemma HeavierBlock(s: Chain, db: Db, h: Header, td: nat, head: nat)
    requires Heaviest(s) && TdStored(s.db) && Stored(s.db) && Names(s.db, h) && h.number > 0
    requires !h.pos && NewTd(s, h) == Some(td) && head >= td && head >= s.db.TdOf(s.headHeader).value
    requires db.headers == s.db.headers[(h.hash, h.number) := h] && db.td == s.db.td[(h.hash, h.number) := td]
    ensures forall x, k :: (x, k) in db.headers ==> HasTd(db, x, k) && db.td[(x, k)] <= head
    ensures TdStored(db)
  {
    forall x, k | (x, k) in db.headers ensures HasTd(db, x, k) && db.td[(x, k)] <= head {
      HeavierEntry(s, db, h, td, x, k);
    }
  }

  lemma HeavierEntry(s: Chain, db: Db, h: Header, td: nat, x: Hash, k: nat)
    requires Heaviest(s) && TdStored(s.db) && Names(s.db, h) && h.number > 0 && NewTd(s, h) == Some(td)
    requires db.headers == s.db.headers[(h.hash, h.number) := h] && db.td == s.db.td[(h.hash, h.number) := td]
    requires (x, k) in db.headers
    ensures HasTd(db, x, k)
    ensures db.td[(x, k)] == td || ((x, k) in s.db.headers && db.td[(x, k)] <= s.db.TdOf(s.headHeader).value)
  {
    hide Names;
    if (h.hash, h.number) in s.db.headers {
      NamesAt(s.db, h);
      assert HasTd(s.db, h.hash, h.number);
      assert db.td == s.db.td;
    }
    if (x, k) in s.db.headers && (x, k) != (h.hash, h.number) {
      assert HasTd(s.db, x, k);
    }
  }

  lemma NamesAt(db: Db, h: Header)
    requires Names(db, h) && (h.hash, h.number) in db.headers
    ensures db.headers[(h.hash, h.number)] == h
  {
  }

  /** Putting a block never breaks the canonical chain: whatever it returns, the number index is
      the ancestor chain of the head, every iterator stands on it, and the head is heaviest. A
      block under proof of stake that is not validated must have its parent stored. */
  lemma PutKeeps(s: Chain, h: Header, validate: bool)
    requires Sound(s) && Names(s.db, h) && Put(s, h, validate).Some?
    requires h.pos && !validate ==> Anchored(s.db, h)
    ensures Sound(Put(s, h, validate).value.0)
    ensures var (s', switched) := Put(s, h, validate).value;
      s'.db.headers == s.db.headers[(h.hash, h.number) := h]
      && s'.headHeader == (if switched then h.hash else s.headHeader)
      && (!switched ==> s'.db.numberToHash == s.db.numberToHash && s'.heads == s.heads)
  {
    hide Inv, Switch, Store, Heaviest, Stored, HasTd;
    if h.pos {
      PosKeeps(s, h);
    } else {
      var td := NewTd(s, h).value;
      assert Anchored(s.db, h);
      InvHead(s);
      if td > s.db.TdOf(s.headHeader).value {
        PowSwitchKeeps(s, h, td);
      } else {
        PowStoreKeeps(s, h, td);
      }
    }
  }

  lemma InvHead(s: Chain)
    requires Inv(s)
    ensures s.headBlock == s.headHeader
  {
  }

  lemma PosKeeps(s: Chain, h: Header)
    requires Sound(s) && Names(s.db, h) && h.pos && h.number > 0 && Anchored(s.db, h)
    ensures var s' := Switch(s, h, BlockOps(h, None));
      Sound(s') && s'.db.headers == s.db.headers[(h.hash, h.number) := h] && s'.headHeader == h.hash
  {
    hide Switch;
    var s' := Switch(s, h, BlockOps(h, None));
    var fork := SwitchKeeps(s, h, None);
    HeadNumber(s', h);
  }

  lemma HeadNumber(s: Chain, h: Header)
    requires Inv(s) && s.headHeader == h.hash && IsStored(s.db, h)
    ensures s.db.TdOf(s.headHeader) == s.db.Td(h.hash, h.number)
  {
    assert StoredAt(s.db, h.hash, h.number);
  }

  lemma PowSwitchKeeps(s: Chain, h: Header, td: nat)
    requires Sound(s) && Names(s.db, h) && !h.pos && h.number > 0 && Anchored(s.db, h)
    requires NewTd(s, h) == Some(td) && td > s.db.TdOf(s.headHeader).value
    ensures var s' := Switch(s, h, BlockOps(h, Some(td)));
      Sound(s') && s'.db.headers == s.db.headers[(h.hash, h.number) := h] && s'.headHeader == h.hash
  {
    hide Switch, Heaviest;
    var s' := Switch(s, h, BlockOps(h, Some(td)));
    var fork := SwitchKeeps(s, h, Some(td));
    HeadNumber(s', h);
    HeavierBlock(s, s'.db, h, td, td);
    IsHeaviest(s');
  }

  lemma PowStoreKeeps(s: Chain, h: Header, td: nat)
    requires Sound(s) && Names(s.db, h) && !h.pos && h.number > 0 && Anchored(s.db, h)
    requires NewTd(s, h) == Some(td) && td <= s.db.TdOf(s.headHeader).value
    ensures var s' := Store(s, h, BlockOps(h, Some(td)));
      Sound(s') && s'.db.headers == s.db.headers[(h.hash, h.number) := h]
      && s'.headHeader == s.headHeader && s'.db.numberToHash == s.db.numberToHash && s'.heads == s.heads
  {
    hide Store, Heaviest;
    var s' := Store(s, h, BlockOps(h, Some(td)));
    StoreKeeps(s, h, td);
    StoreFrame(s, h, td);
    HeavierBlock(s, s'.db, h, td, s.db.TdOf(s.headHeader).value);
    StoreHead(s, s', h, td);
    IsHeaviest(s');
  }

  lemma StoreFrame(s: Chain, h: Header, td: nat)
    ensures var s' := Store(s, h, BlockOps(h, Some(td)));
      s'.db.headers == s.db.headers[(h.hash, h.number) := h] && s'.db.td == s.db.td[(h.hash, h.number) := td]
      && s'.db.hashToNumber == s.db.hashToNumber[h.hash := h.number]
      && s'.headHeader == s.headHeader && s'.db.numberToHash == s.db.numberToHash && s'.heads == s.heads
  {
    StoreApplies(s.db, h, td);
  }

  /** Storing a block beside the chain does not change the total difficulty of the head. */
  lemma StoreHead(s: Chain, s': Chain, h: Header, td: nat)
    requires Sound(s) && Names(s.db, h) && h.number > 0 && NewTd(s, h) == Some(td) && s'.headHeader == s.headHeader
    requires s'.db.td == s.db.td[(h.hash, h.number) := td]
    requires s'.db.hashToNumber == s.db.hashToNumber[h.hash := h.number]
    ensures s'.db.TdOf(s'.headHeader) == s.db.TdOf(s.headHeader)
  {
    if s.headHeader == h.hash {
      assert Link(s.db, h.number);
      assert HasTd(s.db, h.hash, h.number);
    }
  }

  lemma IsHeaviest(s: Chain)
    requires s.db.TdOf(s.headHeader).Some?
    requires forall x, k :: (x, k) in s.db.headers ==>
      HasTd(s.db, x, k) && s.db.td[(x, k)] <= s.db.TdOf(s.headHeader).value
    ensures Heaviest(s)
  {
  }

  /** A block under proof of stake that is put without validation and whose parent is missing
      always breaks the canonical chain. */
  lemma UnanchoredBreaks(s: Chain, h: Header)
    requires Inv(s) && h.pos && h.number > 0 && !s.db.Canonical(h) && !Anchored(s.db, h)
    ensures Put(s, h, false).Some? && !Inv(Put(s, h, false).value.0)
  {
    hide Switch, IsChain, Stored;
    var s' := Put(s, h, false).value.0;
    UnanchoredIndex(s, h);
    if Inv(s') {
      HeadLinked(s'.db, s'.db.hashToNumber[s'.headHeader], h.number);
      assert At(s'.db.numberToHash, h.number - 1) == At(s.db.numberToHash, h.number - 1);
      HeadLinked(s.db, s.db.hashToNumber[s.headHeader], h.number - 1);
      assert false;
    }
  }

  lemma HeadLinked(db: Db, n: nat, k: nat)
    requires IsChain(db, n) && k in db.numberToHash
    ensures (db.numberToHash[k], k) in db.headers
    ensures k > 0 ==>
      k - 1 in db.numberToHash && db.headers[(db.numberToHash[k], k)].parentHash == db.numberToHash[k - 1]
  {
    assert Link(db, k);
  }

  lemma UnanchoredIndex(s: Chain, h: Header)
    requires Inv(s) && h.pos && h.number > 0 && !s.db.Canonical(h) && !Anchored(s.db, h)
    ensures var s' := Put(s, h, false).value.0;
      && s'.db.headers == s.db.headers[(h.hash, h.number) := h]
      && h.number in s'.db.numberToHash && s'.db.numberToHash[h.number] == h.hash
      && (forall k: nat :: k < h.number ==> At(s'.db.numberToHash, k) == At(s.db.numberToHash, k))
  {
    hide Apply, Deletes, Lookups, BlockOps;
    var m := Gap(s.db.numberToHash, h.number + 1);
    var ops, dels, sets := BlockOps(h, None), Deletes(h.number + 1, m), Lookups(Walk(s.db, h));
    assert Walk(s.db, h) == [h];
    ApplyTwice(s.db, ops + dels, sets);
    ApplyTwice(s.db, ops, dels);
    BlockOpsApply(s.db, h, None);
    ApplyDeletes(Apply(s.db, ops), h.number + 1, m);
    ApplyLookups(Apply(s.db, ops + dels), [h]);
    var db' := Put(s, h, false).value.0.db;
    assert Looked(Apply(s.db, ops + dels), db', [h]);
    assert At(db'.numberToHash, h.number) == Some(h.hash);
  }

  // ---- Runs ----

  /** A full block arrives, or an iterator moves one block up the canonical chain. */
  datatype Event = Block(h: Header) | Advance(name: Name)

  function Genesis(g: Header): Chain {
    Chain(Db(map[(g.hash, 0) := g], map[0 := g.hash], map[g.hash := 0], map[(g.hash, 0) := g.difficulty]), map[],
      g.hash, g.hash)
  }

  function Iterate(s: Chain, name: Name, g: Header): Chain {
    var at := if name in s.heads then s.heads[name] else g.hash;
    if at in s.db.hashToNumber && s.db.hashToNumber[at] + 1 in s.db.numberToHash then
      s.(heads := s.heads[name := s.db.numberToHash[s.db.hashToNumber[at] + 1]])
    else s
  }

  /** Exceptions leave the chain as it was. */
  function Step(s: Chain, e: Event, g: Header, validate: bool): Chain {
    match e
    case Advance(name) => Iterate(s, name, g)
    case Block(h) => if Put(s, h, validate).Some? then Put(s, h, validate).value.0 else s
  }

  function Run(g: Header, events: seq<Event>, validate: bool): Chain {
    if events == [] then Genesis(g)
    else Step(Run(g, events[..|events| - 1], validate), events[|events| - 1], g, validate)
  }

  /** All headers that occur. */
  function Headers(g: Header, events: seq<Event>): set<Header> {
    {g} + set i | 0 <= i < |events| && events[i].Block? :: events[i].h
  }

  ghost predicate Injective(hs: set<Header>) {
    forall h, h' :: h in hs && h' in hs && h.hash == h'.hash ==> h == h'
  }

  /** Everything stored comes from `hs`. */
  ghost predicate From1(db: Db, hs: set<Header>) {
    && (forall key :: key in db.headers ==> db.headers[key] in hs)
    && (forall x :: x in db.hashToNumber ==> (x, db.hashToNumber[x]) in db.headers)
  }

  lemma NamesFrom(db: Db, hs: set<Header>, h: Header)
    requires Stored(db) && From1(db, hs) && Injective(hs) && h in hs
    ensures Names(db, h)
  {
    forall k | (h.hash, k) in db.headers ensures db.headers[(h.hash, k)] == h {
      assert StoredAt(db, h.hash, k);
    }
    if h.hash in db.hashToNumber {
      assert StoredAt(db, h.hash, db.hashToNumber[h.hash]);
    }
  }

  lemma SwitchFrom(s: Chain, h: Header, td: Option<nat>, hs: set<Header>)
    requires Inv(s) && Names(s.db, h) && h.number > 0 && Anchored(s.db, h) && From1(s.db, hs) && h in hs
    ensures From1(Switch(s, h, BlockOps(h, td)).db, hs)
  {
    hide Walk, Switched, IsChain, Apply, Walked, Names, Numbered, OnChain;
    var n := s.db.hashToNumber[s.headHeader];
    var fork := WalkWalks(s.db, h, n);
    var walk, db := Walk(s.db, h), Switch(s, h, BlockOps(h, td)).db;
    WalkedDescends(s.db, h, walk, fork);
    SwitchApplies(s.db, h, td, n, fork);
    SwitchedParts0(s.db, db, h, walk, fork, td);
    SwitchedNumbered(s.db, db, h, walk, fork, td);
    NumberedFrom(s.db, db, h, walk, fork);
  }

  lemma NumberedFrom(db: Db, db': Db, h: Header, walk: seq<Header>, fork: nat)
    requires Numbered(db.hashToNumber, db'.hashToNumber, walk) && Walked(db, h, walk, fork)
    requires db'.headers == db.headers[(h.hash, h.number) := h]
    requires forall x :: x in db.hashToNumber ==> (x, db.hashToNumber[x]) in db.headers
    ensures forall x :: x in db'.hashToNumber ==> (x, db'.hashToNumber[x]) in db'.headers
  {
    forall x | x in db'.hashToNumber ensures (x, db'.hashToNumber[x]) in db'.headers {
      if WalkHas(walk, x, db'.hashToNumber[x]) {
        var i :| 0 <= i < |walk| && walk[i].hash == x && walk[i].number == db'.hashToNumber[x];
        assert i > 0 ==> IsStored(db, walk[i]);
      }
    }
  }

  lemma SwitchedNumbered(db: Db, db': Db, h: Header, walk: seq<Header>, fork: nat, td: Option<nat>)
    requires fork + |walk| == h.number && Switched(db, db', h, walk, fork, td)
    ensures Numbered(db.hashToNumber, db'.hashToNumber, walk)
  {
  }

  lemma PutFrom(s: Chain, h: Header, validate: bool, hs: set<Header>)
    requires Sound(s) && Names(s.db, h) && Put(s, h, validate).Some? && From1(s.db, hs) && h in hs
    requires h.pos ==> validate
    ensures From1(Put(s, h, validate).value.0.db, hs)
  {
    hide Switch, Store, Inv, Heaviest, HasTd;
    if h.pos {
      SwitchFrom(s, h, None, hs);
    } else {
      var td := NewTd(s, h).value;
      SwitchFrom(s, h, Some(td), hs);
      StoreFrame(s, h, td);
    }
  }

  lemma IterateKeeps(s: Chain, name: Name, g: Header)
    requires Sound(s)
    ensures Sound(Iterate(s, name, g))
  {
    hide Heaviest, TdStored, Stored, IsChain;
    var s' := Iterate(s, name, g);
    if s' != s {
      NextOnChain(s.db, s.db.hashToNumber[s.headHeader],
        s.db.hashToNumber[if name in s.heads then s.heads[name] else g.hash] + 1);
    }
    SameHeaviest(s, s');
  }

  lemma NextOnChain(db: Db, n: nat, k: nat)
    requires IsChain(db, n) && Stored(db) && k in db.numberToHash
    ensures OnChain(db, db.numberToHash[k])
  {
    assert Link(db, k);
    assert StoredAt(db, db.numberToHash[k], k);
  }

  lemma SameHeaviest(s: Chain, s': Chain)
    requires Heaviest(s) && s'.db == s.db && s'.headHeader == s.headHeader
    ensures Heaviest(s')
  {
  }

  lemma GenesisSound(g: Header)
    requires g.number == 0
    ensures Sound(Genesis(g)) && From1(Genesis(g).db, {g})
  {
    var s := Genesis(g);
    assert Link(s.db, 0);
    assert StoredAt(s.db, g.hash, 0);
  }

  /** After any run of block puts and iterator steps, with reorganizations of any depth: the number
      index is exactly the ancestor chain of the head, every iterator is on it, and no stored
      block is heavier than the head. */
  lemma {:induction false} RunSound(g: Header, events: seq<Event>, validate: bool, hs: set<Header>)
    requires g.number == 0 && Headers(g, events) <= hs && Injective(hs)
    requires validate || forall h :: h in hs ==> !h.pos
    ensures Sound(Run(g, events, validate)) && From1(Run(g, events, validate).db, hs)
  {
    if events == [] {
      GenesisSound(g);
    } else {
      var rest, e := events[..|events| - 1], events[|events| - 1];
      assert Headers(g, rest) <= hs by {
        forall h | h in Headers(g, rest) ensures h in hs {
          if h != g {
            var i :| 0 <= i < |rest| && rest[i].Block? && rest[i].h == h;
            assert events[i].h in Headers(g, events);
          }
        }
      }
      RunSound(g, rest, validate, hs);
      var s := Run(g, rest, validate);
      match e
      case Advance(name) => IterateKeeps(s, name, g);
      case Block(h) =>
        assert events[|events| - 1].h in Headers(g, events);
        NamesFrom(s.db, hs, h);
        if Put(s, h, validate).Some? {
          AcceptedAnchored(s, h, validate);
          PutKeeps(s, h, validate);
          PutFrom(s, h, validate, hs);
        }
    }
  }

  lemma AcceptedAnchored(s: Chain, h: Header, validate: bool)
    requires Sound(s) && Put(s, h, validate).Some? && (h.pos ==> validate)
    ensures Anchored(s.db, h)
  {
    hide Switch, Store, Sound, TdStored, Stored;
    SoundTd(s);
    if (h.parentHash, h.number - 1) in s.db.td {
      TdHasHeader(s.db, h.parentHash, h.number - 1);
    }
  }

  lemma SoundTd(s: Chain)
    requires Sound(s)
    ensures TdStored(s.db)
  {
    hide Inv, TdStored, Heaviest;
  }

  lemma TdHasHeader(db: Db, x: Hash, k: nat)
    requires TdStored(db) && (x, k) in db.td
    ensures (x, k) in db.headers
  {
  }

  // ---- Deleting a block ----

  function CanonicalAt(db: Db, k: nat): Header
    requires k in db.numberToHash && (db.numberToHash[k], k) in db.headers
  {
    db.headers[(db.numberToHash[k], k)]
  }

  lemma {:induction false} AboveIs(db: Db, n: nat, h: Header)
    requires IsChain(db, n) && h.number <= n && db.Canonical(h) && IsStored(db, h)
    ensures |Above(db, h, n + 1)| == n + 1 - h.number
    ensures forall k: nat :: h.number <= k <= n ==>
      Link(db, k) && Above(db, h, n + 1)[k - h.number] == CanonicalAt(db, k)
    decreases n - h.number
  {
    assert Link(db, h.number);
    if h.number < n {
      assert Link(db, h.number + 1);
      var child := CanonicalAt(db, h.number + 1);
      AboveIs(db, n, child);
      assert Above(db, h, n + 1) == [h] + Above(db, child, n + 1);
    }
  }

  ghost predicate Gone(db: Db, db': Db, hs: seq<Header>) {
    && db'.headers == (map key | key in db.headers && !Listed(hs, key) :: db.headers[key])
    && db'.td == (map key | key in db.td && !Listed(hs, key) :: db.td[key])
    && db'.hashToNumber == (map x | x in db.hashToNumber && !Deletes1(hs, x) :: db.hashToNumber[x])
    && db'.numberToHash == db.numberToHash
  }

  predicate Listed(hs: seq<Header>, key: (Hash, nat)) {
    exists i :: 0 <= i < |hs| && hs[i].hash == key.0 && hs[i].number == key.1
  }

  lemma {:induction false} ApplyBlockDeletes(db: Db, hs: seq<Header>)
    ensures Gone(db, Apply(db, BlockDeletes(hs)), hs)
  {
    if hs == [] {
      assert BlockDeletes(hs) == [];
      var db' := Apply(db, BlockDeletes(hs));
      assert db' == db;
    } else {
      var rest, h := hs[..|hs| - 1], hs[|hs| - 1];
      ApplyBlockDeletes(db, rest);
      assert BlockDeletes(hs)[..|hs| - 1] == BlockDeletes(rest);
      assert Apply(db, BlockDeletes(hs)) == ApplyOp(Apply(db, BlockDeletes(rest)), DelBlock(h.hash, h.number));
      GoneNext(db, Apply(db, BlockDeletes(rest)), rest, h);
      assert rest + [h] == hs;
    }
  }

  lemma GoneNext(db: Db, d1: Db, rest: seq<Header>, h: Header)
    requires Gone(db, d1, rest)
    ensures Gone(db, ApplyOp(d1, DelBlock(h.hash, h.number)), rest + [h])
  {
    var hs := rest + [h];
    assert forall key :: Listed(hs, key) <==> Listed(rest, key) || (h.hash == key.0 && h.number == key.1) by {
      forall key: (Hash, nat) ensures Listed(hs, key) <==> Listed(rest, key) || (h.hash == key.0 && h.number == key.1) {
        if h.hash == key.0 && h.number == key.1 {
          assert hs[|rest|] == h;
        }
        if i :| 0 <= i < |rest| && rest[i].hash == key.0 && rest[i].number == key.1 {
          assert hs[i] == rest[i];
        }
      }
    }
    assert forall x :: Deletes1(hs, x) <==> Deletes1(rest, x) || h.hash == x by {
      forall x ensures Deletes1(hs, x) <==> Deletes1(rest, x) || h.hash == x {
        if h.hash == x {
          assert hs[|rest|] == h;
        }
        if i :| 0 <= i < |rest| && rest[i].hash == x {
          assert hs[i] == rest[i];
        }
      }
    }
  }

  /** The blocks deleted with a canonical block are the canonical ones from it up. */
  lemma GoneIsChain(db: Db, n: nat, h: Header, x: Hash)
    requires IsChain(db, n) && Stored(db) && h.number <= n && db.Canonical(h) && IsStored(db, h)
    ensures Deletes1(Above(db, h, n + 1), x) <==> OnChain(db, x) && db.hashToNumber[x] >= h.number
    ensures forall k :: Listed(Above(db, h, n + 1), (x, k)) ==> OnChain(db, x) && k == db.hashToNumber[x] >= h.number
    ensures OnChain(db, x) && db.hashToNumber[x] >= h.number ==> Listed(Above(db, h, n + 1), (x, db.hashToNumber[x]))
  {
    hide Above, Stored, IsChain;
    var gone := Above(db, h, n + 1);
    GoneEntry(db, n, h, h.number);
    forall i: nat | i < |gone|
      ensures gone[i].number == h.number + i && OnChain(db, gone[i].hash)
      ensures db.hashToNumber[gone[i].hash] == h.number + i {
      GoneEntry(db, n, h, h.number + i);
    }
    if OnChain(db, x) && db.hashToNumber[x] >= h.number {
      var k := db.hashToNumber[x];
      ChainDomain(db, n);
      GoneEntry(db, n, h, k);
      assert gone[k - h.number].hash == x && gone[k - h.number].number == k;
    }
  }

  lemma StoredEntry(db: Db, x: Hash, k: nat)
    requires Stored(db) && (x, k) in db.headers
    ensures StoredAt(db, x, k)
  {
  }

  lemma GoneEntry(db: Db, n: nat, h: Header, k: nat)
    requires IsChain(db, n) && Stored(db) && h.number <= k <= n && db.Canonical(h) && IsStored(db, h)
    ensures |Above(db, h, n + 1)| == n + 1 - h.number
    ensures var g := Above(db, h, n + 1)[k - h.number];
      g.number == k && k in db.numberToHash && g.hash == db.numberToHash[k] && OnChain(db, g.hash)
        && db.hashToNumber[g.hash] == k
  {
    hide Above, Stored;
    AboveIs(db, n, h);
    assert Link(db, k);
    StoredEntry(db, db.numberToHash[k], k);
  }

  lemma RemoveParts(s: Chain, h: Header)
    requires Inv(s) && IsStored(s.db, h) && s.db.Canonical(h) && h.number > 0
    ensures Remove(s, h.hash).Some?
    ensures var n, s' := s.db.hashToNumber[s.headHeader], Remove(s, h.hash).value;
      h.number <= n && Gone(s.db, s'.db.(numberToHash := s.db.numberToHash), Above(s.db, h, n + 1))
      && s'.db.numberToHash == (map k | k in s.db.numberToHash && !(h.number <= k < n + 1) :: s.db.numberToHash[k])
      && s'.heads == ResetHeads(s.db.numberToHash, s.heads, h.number, n + 1, h.parentHash)
      && s'.headHeader == (if Deletes1(Above(s.db, h, n + 1), s.headHeader) then h.parentHash else s.headHeader)
      && s'.headBlock == Reset(s.db.numberToHash, s'.headHeader, h.number, n + 1, h.parentHash)
  {
    hide Above, Apply, IsChain, Deletes1, Deletes, BlockDeletes, Gap, Gone, Stored, Reset, ResetHeads;
    var n := s.db.hashToNumber[s.headHeader];
    StoredEntry(s.db, h.hash, h.number);
    ChainDomain(s.db, n);
    GapIs(s.db.numberToHash, n, h.number);
    var gone := Above(s.db, h, n + 1);
    ApplyTwice(s.db, BlockDeletes(gone), Deletes(h.number, n + 1));
    ApplyBlockDeletes(s.db, gone);
    ApplyDeletes(Apply(s.db, BlockDeletes(gone)), h.number, n + 1);
    GoneIndex(s.db, Apply(s.db, BlockDeletes(gone)), gone);
    var db' := Remove(s, h.hash).value.db;
    assert db'.(numberToHash := s.db.numberToHash) == Apply(s.db, BlockDeletes(gone));
  }

  lemma ChainDomain(db: Db, n: nat)
    requires IsChain(db, n)
    ensures forall k: nat :: k in db.numberToHash <==> k <= n
  {
  }

  lemma GoneIndex(db: Db, db': Db, hs: seq<Header>)
    requires Gone(db, db', hs)
    ensures db'.numberToHash == db.numberToHash
  {
  }

  /** Deleting a canonical block leaves exactly the chain up to its parent, with every head and
      every iterator that stood above moved to the parent. */
  lemma RemoveCanonical(s: Chain, h: Header)
    requires Inv(s) && IsStored(s.db, h) && s.db.Canonical(h) && h.number > 0
    ensures Remove(s, h.hash).Some?
    ensures var s' := Remove(s, h.hash).value;
      CanonicalOk(s') && s'.headHeader == h.parentHash && s'.db.hashToNumber[s'.headHeader] == h.number - 1
    ensures var s' := Remove(s, h.hash).value;
      forall k: nat :: k < h.number ==>
        k in s.db.numberToHash && k in s'.db.numberToHash && s'.db.numberToHash[k] == s.db.numberToHash[k]
    ensures var s' := Remove(s, h.hash).value;
      s'.heads.Keys == s.heads.Keys && forall name :: name in s.heads ==>
        s'.heads[name] == if s.db.hashToNumber[s.heads[name]] >= h.number then h.parentHash else s.heads[name]
    ensures var s' := Remove(s, h.hash).value;
      forall x, k :: (x, k) in s'.db.headers <==> (x, k) in s.db.headers && !(OnChain(s.db, x) && k >= h.number)
    ensures var s' := Remove(s, h.hash).value;
      && (forall x: Hash :: x in s'.db.hashToNumber <==>
        x in s.db.hashToNumber && !(OnChain(s.db, x) && s.db.hashToNumber[x] >= h.number))
      && forall x: Hash, k: nat :: (x, k) in s'.db.td <==>
        (x, k) in s.db.td && !(OnChain(s.db, x) && k == s.db.hashToNumber[x] >= h.number)
  {
    hide Above, Remove, Gone, IsChain, Stored, ResetHeads, Reset, Deletes1;
    RemoveParts(s, h);
    var n, s' := s.db.hashToNumber[s.headHeader], Remove(s, h.hash).value;
    ChainDomain(s.db, n);
    GoneStays(s.db, s'.db, n, h);
    GoneRest(s.db, s'.db, n, h);
    ParentOn(s.db, n, h);
    GoneIsChain(s.db, n, h, s.headHeader);
    CutChain(s.db, s'.db, n, h);
    GoneNumber(s.db, s'.db, n, h, h.parentHash);
    ResetOne(s.db, n, h, h.parentHash);
    ResetAll(s.db.numberToHash, s.heads, h.number, n + 1, h.parentHash);
    forall name | name in s.heads
      ensures s'.heads[name] == if s.db.hashToNumber[s.heads[name]] >= h.number then h.parentHash else s.heads[name]
      ensures OnChain(s'.db, s'.heads[name])
    {
      ResetOne(s.db, n, h, s.heads[name]);
      GoneNumber(s.db, s'.db, n, h, s'.heads[name]);
    }
  }

  lemma ResetAll(numbers: map<nat, Hash>, heads: map<Name, Hash>, n: nat, m: nat, to: Hash)
    ensures ResetHeads(numbers, heads, n, m, to).Keys == heads.Keys
    ensures forall name :: name in heads ==>
      ResetHeads(numbers, heads, n, m, to)[name] == Reset(numbers, heads[name], n, m, to)
  {
  }

  lemma ResetOne(db: Db, n: nat, h: Header, hash: Hash)
    requires IsChain(db, n) && Stored(db) && OnChain(db, hash) && h.number <= n
    ensures Reset(db.numberToHash, hash, h.number, n + 1, h.parentHash) ==
      if db.hashToNumber[hash] >= h.number then h.parentHash else hash
  {
    if IsAmong(db.numberToHash, hash, h.number, n + 1) {
      var j :| h.number <= j < n + 1 && j in db.numberToHash && db.numberToHash[j] == hash;
      OneNumber(db, n, hash, j);
    }
  }

  lemma ParentOn(db: Db, n: nat, h: Header)
    requires IsChain(db, n) && Stored(db) && IsStored(db, h) && db.Canonical(h) && 0 < h.number <= n
    ensures OnChain(db, h.parentHash) && db.hashToNumber[h.parentHash] == h.number - 1
  {
    hide Stored;
    assert Link(db, h.number) && Link(db, h.number - 1);
    StoredEntry(db, h.parentHash, h.number - 1);
  }

  /** A canonical hash below the cut keeps its number. */
  lemma GoneNumber(db: Db, db': Db, n: nat, h: Header, x: Hash)
    requires IsChain(db, n) && Stored(db) && IsStored(db, h) && db.Canonical(h) && h.number <= n
    requires Gone(db, db'.(numberToHash := db.numberToHash), Above(db, h, n + 1))
    requires db'.numberToHash == map k | k in db.numberToHash && !(h.number <= k < n + 1) :: db.numberToHash[k]
    ensures OnChain(db, x) && db.hashToNumber[x] < h.number ==>
      OnChain(db', x) && db'.hashToNumber[x] == db.hashToNumber[x]
  {
    hide Above;
    GoneIsChain(db, n, h, x);
  }

  lemma GoneStays(db: Db, db': Db, n: nat, h: Header)
    requires IsChain(db, n) && Stored(db) && IsStored(db, h) && db.Canonical(h) && h.number <= n
    requires Gone(db, db'.(numberToHash := db.numberToHash), Above(db, h, n + 1))
    ensures forall x: Hash, k: nat :: (x, k) in db'.headers <==>
      (x, k) in db.headers && !(OnChain(db, x) && k >= h.number)
    ensures forall key :: key in db'.headers ==> key in db.headers && db'.headers[key] == db.headers[key]
  {
    hide Above, Stored, IsChain, Deletes1, Listed;
    forall x: Hash, k: nat ensures (x, k) in db'.headers <==>
      (x, k) in db.headers && !(OnChain(db, x) && k >= h.number) {
      GoneIsChain(db, n, h, x);
      if (x, k) in db.headers {
        StoredEntry(db, x, k);
      }
    }
  }

  lemma GoneRest(db: Db, db': Db, n: nat, h: Header)
    requires IsChain(db, n) && Stored(db) && IsStored(db, h) && db.Canonical(h) && h.number <= n
    requires Gone(db, db'.(numberToHash := db.numberToHash), Above(db, h, n + 1))
    ensures forall x: Hash :: x in db'.hashToNumber <==>
      x in db.hashToNumber && !(OnChain(db, x) && db.hashToNumber[x] >= h.number)
    ensures forall x: Hash, k: nat :: (x, k) in db'.td <==>
      (x, k) in db.td && !(OnChain(db, x) && k == db.hashToNumber[x] >= h.number)
  {
    hide Above, Stored, IsChain, Deletes1, Listed;
    forall x: Hash
      ensures x in db'.hashToNumber <==>
        x in db.hashToNumber && !(OnChain(db, x) && db.hashToNumber[x] >= h.number)
      ensures forall k: nat :: (x, k) in db'.td <==>
        (x, k) in db.td && !(OnChain(db, x) && k == db.hashToNumber[x] >= h.number)
    {
      GoneIsChain(db, n, h, x);
    }
  }

  lemma CutChain(db: Db, db': Db, n: nat, h: Header)
    requires IsChain(db, n) && Stored(db) && 0 < h.number <= n
    requires db'.numberToHash == map k | k in db.numberToHash && !(h.number <= k < n + 1) :: db.numberToHash[k]
    requires forall x: Hash, k: nat :: (x, k) in db'.headers <==>
      (x, k) in db.headers && !(OnChain(db, x) && k >= h.number)
    requires forall key :: key in db'.headers ==> key in db.headers && db'.headers[key] == db.headers[key]
    ensures IsChain(db', h.number - 1)
  {
    forall k: nat | k <= h.number - 1 ensures Link(db', k) {
      assert Link(db, k);
    }
  }

  /** What deleting a canonical block can break: a stored block whose parent is gone. It breaks
      the storage of ancestors exactly if a side chain branches off from a deleted block. */
  lemma RemoveOrphans(s: Chain, h: Header)
    requires Inv(s) && IsStored(s.db, h) && s.db.Canonical(h) && h.number > 0
    ensures Remove(s, h.hash).Some?
    ensures Stored(Remove(s, h.hash).value.db) <==> NoBranch(s.db, h)
  {
    hide Above, Remove, Gone, IsChain, OnChain, Deletes1, Reset, ResetHeads, Stored, StoredAt;
    RemoveParts(s, h);
    var n, s' := s.db.hashToNumber[s.headHeader], Remove(s, h.hash).value;
    GoneStays(s.db, s'.db, n, h);
    if NoBranch(s.db, h) {
      AllKept(s.db, s'.db, n, h);
    } else {
      BranchLost(s.db, s'.db, h);
    }
  }

  lemma AllKept(db: Db, db': Db, n: nat, h: Header)
    requires IsChain(db, n) && Stored(db) && IsStored(db, h) && db.Canonical(h) && 0 < h.number <= n
    requires Gone(db, db'.(numberToHash := db.numberToHash), Above(db, h, n + 1))
    requires db'.numberToHash == map k | k in db.numberToHash && !(h.number <= k < n + 1) :: db.numberToHash[k]
    requires forall x: Hash, k: nat :: (x, k) in db'.headers <==>
      (x, k) in db.headers && !(OnChain(db, x) && k >= h.number)
    requires NoBranch(db, h)
    ensures Stored(db')
  {
    hide Above, Gone, IsChain, OnChain, Stored, StoredAt, NoBranch;
    forall x, k | (x, k) in db'.headers ensures StoredAt(db', x, k) {
      KeptStored(db, db', n, h, x, k);
    }
    AllStored(db');
  }

  lemma BranchLost(db: Db, db': Db, h: Header)
    requires forall x: Hash, k: nat :: (x, k) in db'.headers <==>
      (x, k) in db.headers && !(OnChain(db, x) && k >= h.number)
    requires forall key :: key in db'.headers ==> key in db.headers && db'.headers[key] == db.headers[key]
    requires !NoBranch(db, h)
    ensures !Stored(db')
  {
    hide OnChain, Stored;
    var x, k :| (x, k) in db.headers && !OnChain(db, x) && k > h.number && OnChain(db, db.headers[(x, k)].parentHash);
    OrphanLost(db, db', h, x, k);
  }

  /** No stored side block is the child of a canonical block from `h` up. */
  ghost predicate NoBranch(db: Db, h: Header) {
    forall x, k :: (x, k) in db.headers && !OnChain(db, x) && k > h.number ==>
      !OnChain(db, db.headers[(x, k)].parentHash)
  }

  lemma AllStored(db: Db)
    requires forall x, k :: (x, k) in db.headers ==> StoredAt(db, x, k)
    ensures Stored(db)
  {
  }

  lemma OrphanLost(db: Db, db': Db, h: Header, x: Hash, k: nat)
    requires forall x: Hash, k: nat :: (x, k) in db'.headers <==>
      (x, k) in db.headers && !(OnChain(db, x) && k >= h.number)
    requires forall key :: key in db'.headers ==> key in db.headers && db'.headers[key] == db.headers[key]
    requires (x, k) in db.headers && !OnChain(db, x) && k > h.number && OnChain(db, db.headers[(x, k)].parentHash)
    ensures !Stored(db')
  {
    assert (x, k) in db'.headers && (db.headers[(x, k)].parentHash, k - 1) !in db'.headers;
    assert !StoredAt(db', x, k);
  }

  lemma KeptStored(db: Db, db': Db, n: nat, h: Header, x: Hash, k: nat)
    requires IsChain(db, n) && Stored(db) && IsStored(db, h) && db.Canonical(h) && 0 < h.number <= n
    requires Gone(db, db'.(numberToHash := db.numberToHash), Above(db, h, n + 1))
    requires db'.numberToHash == map k | k in db.numberToHash && !(h.number <= k < n + 1) :: db.numberToHash[k]
    requires forall x: Hash, k: nat :: (x, k) in db'.headers <==>
      (x, k) in db.headers && !(OnChain(db, x) && k >= h.number)
    requires NoBranch(db, h) && (x, k) in db'.headers
    ensures StoredAt(db', x, k)
  {
    hide Above, Stored, Listed;
    StoredEntry(db, x, k);
    GoneIsChain(db, n, h, x);
    CutAt(db, db', n, h, x, k);
    if k > 0 {
      StoredEntry(db, db.headers[(x, k)].parentHash, k - 1);
      if OnChain(db, x) {
        assert Link(db, k);
      }
    }
  }

  lemma CutAt(db: Db, db': Db, n: nat, h: Header, x: Hash, k: nat)
    requires Gone(db, db'.(numberToHash := db.numberToHash), Above(db, h, n + 1)) && (x, k) in db'.headers
    ensures (x, k) in db.headers && db'.headers[(x, k)] == db.headers[(x, k)]
  {
    hide Above, Listed, Deletes1;
  }
}
