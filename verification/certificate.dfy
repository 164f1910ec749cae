/** The commit certificate that a header carries: what a node writes once it has a precommit
majority, and what every other node accepts. Functions here are the specification of
`extradata.dfy`; RLP is taken as nested lists. */
module Certificates {
  import opened Powers
  import opened Ballots
  import opened BitArrays
  import opened VoteBooks

  const MAX_SAFE_INTEGER: nat := 0x1F_FFFF_FFFF_FFFF

  type Evidence = nat

  /** What is signed. A precommit signed for aggregation does not name the validator's index. */
  datatype Message =
    | Proposing(height: nat, round: nat, POLRound: int, hash: Hash)
    | Voting(height: nat, round: nat, kind: VoteType, hash: Hash, index: Option<nat>)

  /** Signatures cannot be forged, so one is known by who made it and of what. */
  datatype Signature =
    | Single(scheme: SignatureType, signer: nat, message: Message)
    | Aggregate(parts: set<Signature>)

  datatype Item =
    | Number(value: nat)
    | Element(word: Word)
    | Proof(signature: Signature)
    | Address(validator: nat)
    | Witness(evidence: Evidence)
    | Blank
    | List(items: seq<Item>)

  /** The chain around a header: the committee, the cap on evidence, the hash of the header with
      given evidence, and the proposer of each round. */
  datatype Chain = Chain(c: Committee, maxEvidence: nat, headerHash: seq<Evidence> -> Hash, proposer: nat -> nat)

  datatype Proposal = Proposal(signature: Signature, proposer: nat)

  /** The precommits as a vote set holds them: one by one, aggregated, or not proven. */
  datatype Precommits =
    | Recorded(book: VoteBook)
    | Aggregated(signature: Signature, bits: BitArray)
    | Unproven

  datatype ExtraData = ExtraData(
    evidence: seq<Evidence>, round: nat, commitRound: nat, POLRound: int, proposal: Proposal,
    voteSet: Option<Precommits>)

  // ---- Signatures ----

  function Recover(c: Committee, s: Signature, m: Message): nat {
    if s.Single? && s.scheme == ECDSA && s.message == m then s.signer else |c.powers|
  }

  function Ballot(v: Vote): Message {
    Voting(v.height, v.round, v.kind, v.hash, if v.scheme == ECDSA then Some(v.index) else None)
  }

  function SignatureOf(v: Vote): Signature {
    Single(v.scheme, v.signer, Ballot(v))
  }

  function VoteFrom(c: Committee, round: nat, hash: Hash, s: Signature, index: nat): Vote {
    Vote(c.height, round, Precommit, hash, index, ECDSA,
      Recover(c, s, Voting(c.height, round, Precommit, hash, Some(index))))
  }

  predicate VerifyAggregate(keys: set<nat>, m: Message, s: Signature) {
    s == Aggregate(set i | i in keys :: Single(BLS, i, m))
  }

  // ---- Writing ----

  function Rounds(x: ExtraData): Item
    requires -1 <= x.POLRound
  {
    if x.round == x.commitRound then List([Number(x.round), Number(x.POLRound + 1)])
    else List([Number(x.round), Number(x.POLRound + 1), Number(x.commitRound)])
  }

  function VoteItem(b: VoteBook, i: nat): Item {
    if i in b.votes && Some(b.votes[i].hash) == b.maj23 then Proof(SignatureOf(b.votes[i])) else List([])
  }

  function VoteItems(b: VoteBook, n: nat): seq<Item> {
    seq(n, i requires 0 <= i => VoteItem(b, i))
  }

  function AggregatedSignature(b: VoteBook): Signature {
    Aggregate(set i | i in b.votes && Some(b.votes[i].hash) == b.maj23 :: SignatureOf(b.votes[i]))
  }

  function BitsItem(bits: BitArray): Item {
    List([Number(bits.length), List(seq(|bits.elems|, i requires 0 <= i < |bits.elems| => Element(bits.elems[i])))])
  }

  function ProposalItem(scheme: SignatureType, p: Proposal): Item {
    if scheme == ECDSA then Proof(p.signature) else List([Address(p.proposer), Proof(p.signature)])
  }

  function WitnessItems(evidence: seq<Evidence>): seq<Item> {
    seq(|evidence|, i requires 0 <= i < |evidence| => Witness(evidence[i]))
  }

  /** What is written for the precommits recorded in `b`. */
  function PrecommitItems(c: Committee, b: VoteBook): seq<Item> {
    if c.scheme == ECDSA then VoteItems(b, |c.powers|)
    else [Proof(AggregatedSignature(b)), BitsItem(AggregatedBits(b, b.bits.length))]
  }

  /** Some element is a negative number, which cannot be written. */
  predicate Negative(bits: BitArray) {
    exists k :: 0 <= k < |bits.elems| && bits.elems[k][31]
  }

  function Gaps(n: nat): (items: seq<Item>)
    ensures |items| == n && forall i :: 0 <= i < n ==> items[i] == List([])
  {
    seq(n, _ => List([]))
  }

  /** Without a vote set, gaps for `size` validators; `None` stands for an exception. */
  function WritePrecommits(c: Committee, votes: Option<VoteBook>, size: Option<nat>): Option<seq<Item>> {
    match votes
    case None =>
      if size.None? then None
      else if c.scheme == ECDSA then Some(Gaps(size.value))
      else Some([Blank, BitsItem(Empty(size.value))])
    case Some(b) =>
      if b.maj23.None? && (c.scheme == BLS || b.votes != map[]) then None
      else if c.scheme == BLS && Negative(AggregatedBits(b, b.bits.length)) then None
      else Some(PrecommitItems(c, b))
  }

  function Write(c: Committee, x: ExtraData, votes: Option<VoteBook>, size: Option<nat>): Option<seq<Item>>
    requires -1 <= x.POLRound
  {
    match WritePrecommits(c, votes, size)
    case None => None
    case Some(items) => Some([List(WitnessItems(x.evidence)), Rounds(x), ProposalItem(c.scheme, x.proposal)] + items)
  }

  // ---- Reading ----

  function ReadNumber(item: Item): Option<nat> {
    if item.Number? && item.value <= MAX_SAFE_INTEGER then Some(item.value) else None
  }

  function ReadEvidence(chain: Chain, item: Item): Option<seq<Evidence>> {
    if item.List? && |item.items| <= chain.maxEvidence &&
      forall i :: 0 <= i < |item.items| ==> item.items[i].Witness?
    then
      Some(seq(|item.items|, i requires 0 <= i < |item.items| && item.items[i].Witness? => item.items[i].evidence))
    else None
  }

  /** Round, POL round and commit round; a third number is refused when it repeats the first. */
  function ReadRounds(item: Item): Option<(nat, int, nat)> {
    if !item.List? || (|item.items| != 2 && |item.items| != 3) then None
    else
      var round, pol := ReadNumber(item.items[0]), ReadNumber(item.items[1]);
      if round.None? || pol.None? || pol.value >= MAX_SAFE_INTEGER then None
      else if |item.items| == 2 then Some((round.value, pol.value - 1, round.value))
      else
        var commit := ReadNumber(item.items[2]);
        if commit.None? || commit == round then None
        else Some((round.value, pol.value - 1, commit.value))
  }

  /** ECDSA and BLS signatures differ in length. */
  predicate IsSingle(item: Item, scheme: SignatureType) {
    item.Proof? && item.signature.Single? && item.signature.scheme == scheme
  }

  function ReadProposal(c: Committee, item: Item, m: Message): Option<Proposal> {
    if c.scheme == ECDSA then
      if IsSingle(item, ECDSA) then
        Some(Proposal(item.signature, Recover(c, item.signature, m)))
      else None
    else
      if item.List? && |item.items| == 2 && item.items[0].Address? && item.items[1].Proof?
        && !IsSingle(item.items[1], ECDSA) then
        Some(Proposal(item.items[1].signature, item.items[0].validator))
      else None
  }

  /** Whether the proposer of the round signed the proposal. */
  predicate ProposalVerifies(chain: Chain, p: Proposal, m: Message) {
    p.proposer == chain.proposer(m.round)
    && (chain.c.scheme == BLS ==> p.signature == Single(BLS, p.proposer, m))
    && p.proposer < |chain.c.powers|
  }

  /** One entry of the list of precommits: an empty list, or the signature of validator `index`. */
  function ReadVote(c: Committee, round: nat, hash: Hash, b: VoteBook, item: Item, index: nat): Option<VoteBook> {
    match item
    case List(items) => if items == [] then Some(b) else None
    case Proof(s) =>
      if !IsSingle(item, ECDSA) then None
      else
        var (b', outcome) := Add(c, round, Precommit, b, VoteFrom(c, round, hash, s, index));
        if outcome == Accepted then Some(b') else None
    case _ => None
  }

  function ReadVotes(c: Committee, round: nat, hash: Hash, items: seq<Item>, n: nat): Option<VoteBook>
    requires n <= |items|
  {
    if n == 0 then Some(NewBook(c))
    else
      match ReadVotes(c, round, hash, items, n - 1)
      case None => None
      case Some(b) => ReadVote(c, round, hash, b, items[n - 1], n - 1)
  }

  function ReadBits(item: Item): Option<BitArray> {
    if item.List? && |item.items| == 2 && ReadNumber(item.items[0]).Some? && item.items[1].List? then
      var elems := item.items[1].items;
      if forall i :: 0 <= i < |elems| ==> elems[i].Element? then
        Some(BitArray(item.items[0].value,
          seq(|elems|, i requires 0 <= i < |elems| && elems[i].Element? => elems[i].word)))
      else None
    else None
  }

  function Keys(bits: BitArray, n: nat): set<nat> {
    set i: nat | i < n && bits.GetIndex(i)
  }

  /** The aggregate is taken over only if it verifies for validators with enough power; a bit
      that names nobody is an exception. */
  function ReadAggregate(c: Committee, s: Signature, bits: BitArray, m: Message): Option<Precommits> {
    var keys := Keys(bits, bits.length);
    if exists i :: i in keys && i >= |c.powers| then None
    else if VerifyAggregate(keys, m, s) && Power(c.powers, keys) > Total(c.powers) * 2 / 3 then
      Some(Aggregated(s, bits))
    else Some(Unproven)
  }

  function ReadPrecommits(c: Committee, round: nat, hash: Hash, items: seq<Item>): Option<Precommits> {
    if c.scheme == ECDSA then
      if |items| != |c.powers| then None
      else
        match ReadVotes(c, round, hash, items, |items|)
        case None => None
        case Some(b) => Some(Recorded(b))
    else if |items| == 2 && items[0].Proof? && ReadBits(items[1]).Some? then
      ReadAggregate(c, items[0].signature, ReadBits(items[1]).value, Voting(c.height, round, Precommit, hash, None))
    else None
  }

  /** Reading against the validator set; `None` stands for an exception. */
  function Read(chain: Chain, values: seq<Item>): Option<ExtraData> {
    if |values| < 3 then None
    else
      match (ReadEvidence(chain, values[0]), ReadRounds(values[1]))
      case (Some(evidence), Some((round, pol, commitRound))) =>
        var hash := chain.headerHash(evidence);
        var m := Proposing(chain.c.height, round, pol, hash);
        (match ReadProposal(chain.c, values[2], m)
        case None => None
        case Some(p) =>
          if !ProposalVerifies(chain, p, m) then None
          else
            match ReadPrecommits(chain.c, commitRound, hash, values[3..])
            case None => None
            case Some(v) => Some(ExtraData(evidence, round, commitRound, pol, p, Some(v))))
      case _ => None
  }

  predicate IsBitsItem(item: Item) {
    item.List? && |item.items| == 2 && item.items[0].Number? && item.items[1].List?
    && forall i :: 0 <= i < |item.items[1].items| ==> item.items[1].items[i].Element?
  }

  /** Without a validator set the precommits are only looked at for their shape. */
  predicate BareShape(c: Committee, items: seq<Item>) {
    if c.scheme == ECDSA then
      forall i :: 0 <= i < |items| ==> items[i].Proof? || items[i] == List([])
    else
      && |items| <= 2
      && (|items| > 0 ==> items[0].Proof? || items[0] == Blank)
      && (|items| > 1 ==> IsBitsItem(items[1]))
  }

  /** Reading without a validator set: nothing is verified, and there are no votes. */
  function ReadBare(chain: Chain, values: seq<Item>): Option<ExtraData> {
    if |values| < 3 then None
    else
      match (ReadEvidence(chain, values[0]), ReadRounds(values[1]))
      case (Some(evidence), Some((round, pol, commitRound))) =>
        var m := Proposing(chain.c.height, round, pol, chain.headerHash(evidence));
        (match ReadProposal(chain.c, values[2], m)
        case None => None
        case Some(p) =>
          if BareShape(chain.c, values[3..]) then Some(ExtraData(evidence, round, commitRound, pol, p, None)) else None)
      case _ => None
  }

  function Maj23(chain: Chain, x: ExtraData): Option<Hash> {
    match x.voteSet
    case Some(Recorded(b)) => b.maj23
    case Some(Aggregated(_, _)) => Some(chain.headerHash(x.evidence))
    case _ => None
  }

  /** The final check: there is a majority, and it is for the proposed block. */
  predicate Validates(chain: Chain, x: ExtraData) {
    Maj23(chain, x) == Some(chain.headerHash(x.evidence))
  }
}
