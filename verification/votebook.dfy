/** What a vote set knows, as values: the specification of the classes in `vote.dfy`, and the
laws of its bookkeeping over every sequence of votes and peer claims. */
module VoteBooks {
  import opened Powers
  import opened Ballots
  import opened BitArrays

  /** The votes for one hash. */
  datatype Tally = Tally(peerMaj23: bool, votes: map<nat, Vote>, sum: nat)
  {
    function Add(v: Vote, power: nat): Tally {
      if v.index in votes then this
      else this.(votes := votes[v.index := v], sum := sum + power)
    }
  }

  /** The votes of one kind in one round. `votes` maps a validator to its recorded vote. */
  datatype VoteBook = VoteBook(
    votes: map<nat, Vote>, bits: Bits, sum: nat, maj23: Option<Hash>,
    tallies: map<Hash, Tally>, peerMaj23s: map<Peer, Hash>)

  /** What adding a vote reports: nothing, a conflicting earlier vote, or an exception. */
  datatype Outcome = Accepted | Conflicting(existing: Vote) | Duplicate | BadSignature | UnwantedRound

  function NewBook(c: Committee): VoteBook {
    VoteBook(map[], Empty(|c.powers|), 0, None, map[], map[])
  }

  function TallyFor(b: VoteBook, hash: Hash): Tally {
    if hash in b.tallies then b.tallies[hash] else Tally(false, map[], 0)
  }

  /** Recording the vote itself, ahead of the tally for its hash. */
  function Record(c: Committee, b: VoteBook, v: Vote): VoteBook
    requires v.index < |c.powers|
  {
    if v.index !in b.votes then
      b.(votes := b.votes[v.index := v], bits := b.bits.SetIndex(v.index, true), sum := b.sum + c.powers[v.index])
    else if b.maj23 == Some(v.hash) then
      b.(votes := b.votes[v.index := v], bits := b.bits.SetIndex(v.index, true))
    else
      b
  }

  /** Counting a recorded vote for its hash, and declaring a majority when it reaches the quorum. */
  function Count(c: Committee, b: VoteBook, v: Vote): VoteBook
    requires v.index < |c.powers|
  {
    var before := TallyFor(b, v.hash);
    var tally := before.Add(v, c.powers[v.index]);
    var b' := b.(tallies := b.tallies[v.hash := tally]);
    if before.sum < Quorum(c.powers) <= tally.sum && b.maj23 == None then
      b'.(maj23 := Some(v.hash), votes := b.votes + tally.votes)
    else
      b'
  }

  function AddVerified(c: Committee, b: VoteBook, v: Vote): (VoteBook, Outcome)
    requires v.index < |c.powers|
  {
    if v.index in b.votes && b.votes[v.index].hash == v.hash then
      (b, Duplicate)
    else
      var b' := Record(c, b, v);
      if v.index in b.votes && !(v.hash in b.tallies && b.tallies[v.hash].peerMaj23) then
        (b', Conflicting(b.votes[v.index]))
      else
        (Count(c, b', v), Accepted)
  }

  predicate Fits(c: Committee, round: nat, kind: VoteType, v: Vote) {
    v.height == c.height && v.round == round && v.kind == kind && v.scheme == c.scheme
  }

  function Add(c: Committee, round: nat, kind: VoteType, b: VoteBook, v: Vote): (VoteBook, Outcome)
  {
    if !Fits(c, round, kind, v) then (b, Accepted)
    else if !c.Verifies(v) then (b, BadSignature)
    else AddVerified(c, b, v)
  }

  /** `None` when the peer has claimed another hash before, which is an exception. */
  function SetPeerMaj23(b: VoteBook, peer: Peer, hash: Hash): Option<VoteBook> {
    if peer in b.peerMaj23s then
      if b.peerMaj23s[peer] == hash then Some(b) else None
    else
      Some(b.(peerMaj23s := b.peerMaj23s[peer := hash],
              tallies := b.tallies[hash := TallyFor(b, hash).(peerMaj23 := true)]))
  }

  predicate HasTwoThirdsAny(c: Committee, b: VoteBook) {
    b.sum > Total(c.powers) * 2 / 3
  }

  /** The bits of all votes, less those below `n` that are not recorded for the majority. */
  function AggregatedBits(b: VoteBook, n: nat): (bits: Bits)
    ensures bits.length == b.bits.length
    ensures forall i: nat :: i < bits.length ==>
      bits.Stored(i) == (b.bits.Stored(i) && (i < n ==> i in b.votes && Some(b.votes[i].hash) == b.maj23))
    ensures forall i: nat :: i >= bits.length ==> bits.Stored(i) == b.bits.Stored(i)
  {
    if n == 0 then b.bits
    else
      var bits := AggregatedBits(b, n - 1);
      if n - 1 in b.votes && Some(b.votes[n - 1].hash) == b.maj23 then bits else bits.SetIndex(n - 1, false)
  }

  // ---- Invariant of the bookkeeping ----

  predicate TallyValid(c: Committee, round: nat, kind: VoteType, hash: Hash, t: Tally) {
    && t.sum == Power(c.powers, t.votes.Keys)
    && forall i :: i in t.votes ==>
      t.votes[i].index == i && t.votes[i].hash == hash && Fits(c, round, kind, t.votes[i]) && c.Verifies(t.votes[i])
  }

  predicate RecordedValid(c: Committee, round: nat, kind: VoteType, b: VoteBook) {
    && b.sum == Power(c.powers, b.votes.Keys)
    && forall i :: i in b.votes ==>
      b.votes[i].index == i && Fits(c, round, kind, b.votes[i]) && c.Verifies(b.votes[i])
  }

  ghost predicate BitsValid(c: Committee, b: VoteBook) {
    && b.bits.length == |c.powers|
    && b.votes.Keys <= Everyone(c.powers)
    && forall i: nat :: b.bits.Stored(i) <==> i in b.votes
  }

  predicate TalliesValid(c: Committee, round: nat, kind: VoteType, b: VoteBook) {
    forall h :: h in b.tallies ==>
      TallyValid(c, round, kind, h, b.tallies[h]) && b.tallies[h].votes.Keys <= b.votes.Keys
  }

  predicate Reached(c: Committee, b: VoteBook, hash: Hash) {
    hash in b.tallies && b.tallies[hash].sum >= Quorum(c.powers)
  }

  /** A majority is declared exactly when some hash has reached the quorum. */
  predicate MajorityValid(c: Committee, b: VoteBook) {
    match b.maj23
    case None => forall h :: h in b.tallies ==> !Reached(c, b, h)
    case Some(h) => MajorityRecorded(c, b, h)
  }

  ghost predicate BookValid(c: Committee, round: nat, kind: VoteType, b: VoteBook) {
    && RecordedValid(c, round, kind, b)
    && BitsValid(c, b)
    && TalliesValid(c, round, kind, b)
    && MajorityValid(c, b)
  }

  /** `hash` has a quorum, and everyone counted for it is recorded with a vote for it. */
  predicate MajorityRecorded(c: Committee, b: VoteBook, hash: Hash) {
    && Reached(c, b, hash)
    && forall i :: i in b.tallies[hash].votes ==> i in b.votes && b.votes[i].hash == hash
  }

  function For(b: VoteBook, hash: Hash): set<nat> {
    set i | i in b.votes && b.votes[i].hash == hash
  }

  lemma NewBookValid(c: Committee, round: nat, kind: VoteType)
    ensures BookValid(c, round, kind, NewBook(c))
  {
    PowerNone(c.powers, |c.powers|);
    assert NewBook(c).votes.Keys == {};
  }

  lemma TallyAdd(c: Committee, round: nat, kind: VoteType, t: Tally, v: Vote)
    requires TallyValid(c, round, kind, v.hash, t)
    requires Fits(c, round, kind, v) && c.Verifies(v)
    ensures TallyValid(c, round, kind, v.hash, t.Add(v, c.powers[v.index]))
    ensures t.Add(v, c.powers[v.index]).votes.Keys == t.votes.Keys + {v.index}
    ensures t.sum <= t.Add(v, c.powers[v.index]).sum
  {
    if v.index !in t.votes {
      PowerAdd(c.powers, t.votes.Keys, v.index);
      assert t.votes[v.index := v].Keys == t.votes.Keys + {v.index};
    }
  }

  lemma RecordValid(c: Committee, round: nat, kind: VoteType, b: VoteBook, v: Vote)
    requires BookValid(c, round, kind, b)
    requires Fits(c, round, kind, v) && c.Verifies(v)
    ensures BookValid(c, round, kind, Record(c, b, v))
    ensures v.index in Record(c, b, v).votes
    ensures b.maj23 == Some(v.hash) ==> Record(c, b, v).votes[v.index].hash == v.hash
  {
    var b' := Record(c, b, v);
    assert b'.votes.Keys == b.votes.Keys + {v.index};
    assert BitsValid(c, b');
    if v.index !in b.votes {
      PowerAdd(c.powers, b.votes.Keys, v.index);
    } else {
      assert b'.votes.Keys == b.votes.Keys;
    }
    assert RecordedValid(c, round, kind, b');
    assert TalliesValid(c, round, kind, b');
  }

  lemma CountTallies(c: Committee, round: nat, kind: VoteType, b: VoteBook, v: Vote)
    requires RecordedValid(c, round, kind, b) && TalliesValid(c, round, kind, b) && v.index in b.votes
    requires Fits(c, round, kind, v) && c.Verifies(v)
    ensures RecordedValid(c, round, kind, Count(c, b, v))
    ensures TalliesValid(c, round, kind, Count(c, b, v))
    ensures Count(c, b, v).votes.Keys == b.votes.Keys
  {
    var before := TallyFor(b, v.hash);
    PowerNone(c.powers, |c.powers|);
    assert v.hash !in b.tallies ==> before.votes.Keys == {};
    TallyAdd(c, round, kind, before, v);
    var b' := Count(c, b, v);
    assert b'.votes.Keys == b.votes.Keys;
    assert b'.tallies[v.hash] == before.Add(v, c.powers[v.index]);
  }

  lemma CountMajority(c: Committee, round: nat, kind: VoteType, b: VoteBook, v: Vote)
    requires TalliesValid(c, round, kind, b) && MajorityValid(c, b) && v.index in b.votes
    requires b.maj23 == Some(v.hash) ==> b.votes[v.index].hash == v.hash
    requires Fits(c, round, kind, v) && c.Verifies(v)
    ensures MajorityValid(c, Count(c, b, v))
    ensures b.maj23.Some? ==> Count(c, b, v).maj23 == b.maj23
  {
    var before := TallyFor(b, v.hash);
    PowerNone(c.powers, |c.powers|);
    assert v.hash !in b.tallies ==> before.votes.Keys == {};
    TallyAdd(c, round, kind, before, v);
    var b' := Count(c, b, v);
    assert b'.tallies[v.hash] == before.Add(v, c.powers[v.index]);
    if b.maj23 == None {
      assert v.hash in b.tallies ==> !Reached(c, b, v.hash);
    }
  }

  lemma CountValid(c: Committee, round: nat, kind: VoteType, b: VoteBook, v: Vote)
    requires BookValid(c, round, kind, b) && v.index in b.votes
    requires b.maj23 == Some(v.hash) ==> b.votes[v.index].hash == v.hash
    requires Fits(c, round, kind, v) && c.Verifies(v)
    ensures BookValid(c, round, kind, Count(c, b, v))
    ensures b.maj23.Some? ==> Count(c, b, v).maj23 == b.maj23
  {
    CountTallies(c, round, kind, b, v);
    CountMajority(c, round, kind, b, v);
  }

  /** Adding any vote keeps the bookkeeping invariant, and an established majority. */
  lemma AddValid(c: Committee, round: nat, kind: VoteType, b: VoteBook, v: Vote)
    requires BookValid(c, round, kind, b)
    ensures BookValid(c, round, kind, Add(c, round, kind, b, v).0)
    ensures b.maj23.Some? ==> Add(c, round, kind, b, v).0.maj23 == b.maj23
  {
    if Fits(c, round, kind, v) && c.Verifies(v) {
      RecordValid(c, round, kind, b, v);
      CountValid(c, round, kind, Record(c, b, v), v);
    }
  }

  /** A peer's claim never changes what is recorded, counted or decided. */
  lemma SetPeerValid(c: Committee, round: nat, kind: VoteType, b: VoteBook, peer: Peer, hash: Hash)
    requires BookValid(c, round, kind, b) && SetPeerMaj23(b, peer, hash).Some?
    ensures BookValid(c, round, kind, SetPeerMaj23(b, peer, hash).value)
    ensures SetPeerMaj23(b, peer, hash).value.maj23 == b.maj23
  {
    PowerNone(c.powers, |c.powers|);
    var b' := SetPeerMaj23(b, peer, hash).value;
    var t := TallyFor(b, hash);
    assert hash !in b.tallies ==> t.votes.Keys == {};
    if peer !in b.peerMaj23s {
      assert b'.tallies[hash] == t.(peerMaj23 := true);
      assert TallyValid(c, round, kind, hash, b'.tallies[hash]);
      assert forall h :: h in b.tallies ==>
        h in b'.tallies && b'.tallies[h].sum == b.tallies[h].sum && b'.tallies[h].votes == b.tallies[h].votes;
    }
  }

  // ---- What one vote changes ----

  /** `b'` differs from `b` at most by vote `v`: recorded, perhaps counted, perhaps completing a
      majority that replaces conflicting records. */
  ghost predicate Differs(b: VoteBook, b': VoteBook, v: Vote) {
    && b'.votes.Keys == b.votes.Keys + {v.index}
    && (forall i :: i in b'.votes ==>
        || (i in b.votes && b'.votes[i] == b.votes[i])
        || (i == v.index && b'.votes[i] == v)
        || (Has(b, v.hash, i) && b'.votes[i].hash == v.hash))
    && (forall h, i :: Has(b', h, i) ==> Has(b, h, i) || (h == v.hash && i == v.index))
    && (forall h, i :: Has(b, h, i) ==> Has(b', h, i))
  }

  /** Validator `i` is counted for `hash`. */
  predicate Has(b: VoteBook, hash: Hash, i: nat) {
    hash in b.tallies && i in b.tallies[hash].votes
  }

  lemma CountDiffers(c: Committee, b: VoteBook, v: Vote)
    requires v.index < |c.powers| && v.index in b.votes
    requires forall h, i :: Has(b, h, i) ==> i in b.votes && b.tallies[h].votes[i].hash == h
    ensures Count(c, b, v).votes.Keys == b.votes.Keys
    ensures forall i :: i in b.votes ==>
      var w := Count(c, b, v).votes[i];
      w == b.votes[i] || (i == v.index && w == v) || (Has(b, v.hash, i) && w.hash == v.hash)
    ensures forall h, i :: Has(Count(c, b, v), h, i) <==> Has(b, h, i) || (h == v.hash && i == v.index)
  {
    var b' := Count(c, b, v);
    var tally := TallyFor(b, v.hash).Add(v, c.powers[v.index]);
    assert b'.tallies == b.tallies[v.hash := tally];
    assert forall i :: i in tally.votes ==> i == v.index || Has(b, v.hash, i);
  }

  lemma AddDiffers(c: Committee, b: VoteBook, v: Vote)
    requires v.index < |c.powers|
    requires forall h, i :: Has(b, h, i) ==> i in b.votes && b.tallies[h].votes[i].hash == h
    ensures Differs(b, AddVerified(c, b, v).0, v)
    ensures v.index !in b.votes ==> Has(AddVerified(c, b, v).0, v.hash, v.index)
  {
    var r := Record(c, b, v);
    assert r.votes.Keys == b.votes.Keys + {v.index};
    assert r.tallies == b.tallies;
    assert forall h, i :: Has(r, h, i) <==> Has(b, h, i);
    CountDiffers(c, r, v);
    assert Differs(b, r, v);
    assert Differs(b, Count(c, r, v), v);
  }

  /** A hash for which a quorum is counted means that a majority has been declared. */
  lemma CountedQuorum(c: Committee, round: nat, kind: VoteType, b: VoteBook, hash: Hash, voters: set<nat>)
    requires TalliesValid(c, round, kind, b) && MajorityValid(c, b)
    requires hash in b.tallies && forall i :: i in voters ==> i in b.tallies[hash].votes
    requires Power(c.powers, voters) >= Quorum(c.powers)
    ensures b.maj23.Some?
  {
    PowerMonotone(c.powers, voters, b.tallies[hash].votes.Keys);
    assert Reached(c, b, hash);
  }
}
