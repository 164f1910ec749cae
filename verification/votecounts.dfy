/** Which votes count when validators vote more than once: a validator's first vote does, and any
later one for a hash that a peer has claimed before. */
module VoteCounts {
  import opened Powers
  import opened Ballots
  import opened VoteBooks
  import opened VoteRuns

  // ---- One vote ----

  /** The vote is the validator's first, or for another hash that was claimed. */
  predicate CountsNow(b: VoteBook, v: Vote) {
    v.index !in b.votes
    || (b.votes[v.index].hash != v.hash && v.hash in b.tallies && b.tallies[v.hash].peerMaj23)
  }

  /** Just the vote itself is counted, if it counts. */
  lemma AddCounts(c: Committee, round: nat, kind: VoteType, b: VoteBook, v: Vote)
    requires BookValid(c, round, kind, b) && Fits(c, round, kind, v) && c.Verifies(v)
    ensures var b' := Add(c, round, kind, b, v).0;
      forall h: Hash, i: nat :: Has(b', h, i) <==> Has(b, h, i) || (h == v.hash && i == v.index && CountsNow(b, v))
  {
    hide Count, BitsValid, MajorityValid;
    var r := Record(c, b, v);
    assert r.tallies == b.tallies && r.votes.Keys == b.votes.Keys + {v.index};
    assert forall h: Hash, i: nat :: Has(r, h, i) <==> Has(b, h, i);
    if CountsNow(b, v) {
      forall h: Hash, i: nat | Has(r, h, i) ensures i in r.votes && r.tallies[h].votes[i].hash == h {
        assert TallyValid(c, round, kind, h, b.tallies[h]);
      }
      CountDiffers(c, r, v);
    }
  }

  /** What is recorded for a hash was counted for it, unless the hash has the majority. */
  ghost predicate RecordsCounted(b: VoteBook) {
    forall i :: i in b.votes ==> Has(b, b.votes[i].hash, i) || b.maj23 == Some(b.votes[i].hash)
  }

  lemma AddRecords(c: Committee, round: nat, kind: VoteType, b: VoteBook, v: Vote)
    requires BookValid(c, round, kind, b) && Fits(c, round, kind, v) && c.Verifies(v) && RecordsCounted(b)
    ensures RecordsCounted(Add(c, round, kind, b, v).0)
  {
    hide BookValid, Differs;
    var b' := Add(c, round, kind, b, v).0;
    AddCounts(c, round, kind, b, v);
    AddValid(c, round, kind, b, v);
    RecordedFrom(c, round, kind, b, v);
  }

  lemma RecordedFrom(c: Committee, round: nat, kind: VoteType, b: VoteBook, v: Vote)
    requires BookValid(c, round, kind, b) && Fits(c, round, kind, v) && c.Verifies(v)
    ensures var b' := Add(c, round, kind, b, v).0;
      forall i :: i in b'.votes ==>
        || (i in b.votes && b'.votes[i] == b.votes[i])
        || (i == v.index && b'.votes[i] == v && (CountsNow(b, v) || b.maj23 == Some(v.hash)))
        || (Has(b, v.hash, i) && b'.votes[i].hash == v.hash)
  {
    hide Count, BitsValid, MajorityValid;
    var r := Record(c, b, v);
    if CountsNow(b, v) {
      forall h: Hash, i: nat | Has(r, h, i) ensures i in r.votes && r.tallies[h].votes[i].hash == h {
        assert TallyValid(c, round, kind, h, b.tallies[h]);
      }
      CountDiffers(c, r, v);
    }
  }

  // ---- A run ----

  /** Only a peer's first claim is one. */
  predicate HasClaimed(ops: seq<Op>, peer: Peer) {
    ops != [] &&
    (HasClaimed(ops[..|ops| - 1], peer) || (ops[|ops| - 1].PeerClaim? && ops[|ops| - 1].peer == peer))
  }

  predicate Claims(ops: seq<Op>, op: Op, hash: Hash) {
    op.PeerClaim? && op.hash == hash && !HasClaimed(ops, op.peer)
  }

  /** Some peer has claimed a majority for the hash. */
  predicate Claimed(ops: seq<Op>, hash: Hash) {
    ops != [] && (Claimed(ops[..|ops| - 1], hash) || Claims(ops[..|ops| - 1], ops[|ops| - 1], hash))
  }

  predicate Counts(p: Poll, ops: seq<Op>, op: Op, hash: Hash, i: nat) {
    p.VotesFor(op, i, hash) && (!p.Voted(ops, i) || Claimed(ops, hash))
  }

  /** Validator `i` has a vote for the hash that counts. */
  predicate Counted(p: Poll, ops: seq<Op>, hash: Hash, i: nat) {
    ops != [] && (Counted(p, ops[..|ops| - 1], hash, i) || Counts(p, ops[..|ops| - 1], ops[|ops| - 1], hash, i))
  }

  function CountedFor(p: Poll, ops: seq<Op>, hash: Hash): set<nat> {
    set i: nat | i < |p.c.powers| && Counted(p, ops, hash, i)
  }

  ghost predicate ClaimsExact(ops: seq<Op>, b: VoteBook) {
    && (forall peer :: peer in b.peerMaj23s <==> HasClaimed(ops, peer))
    && (forall h :: h in b.tallies && b.tallies[h].peerMaj23 <==> Claimed(ops, h))
  }

  ghost predicate CountsExact(p: Poll, ops: seq<Op>, b: VoteBook) {
    && (forall h: Hash, i: nat :: Has(b, h, i) ==> Counted(p, ops, h, i))
    && (forall h: Hash, i: nat :: Counted(p, ops, h, i) && b.maj23 != Some(h) ==> Has(b, h, i))
    && RecordsCounted(b)
  }

  lemma {:induction false} RunClaims(p: Poll, ops: seq<Op>)
    ensures ClaimsExact(ops, p.Run(ops))
  {
    hide Add, SetPeerMaj23;
    if ops != [] {
      RunClaims(p, ops[..|ops| - 1]);
      StepClaims(p, p.Run(ops[..|ops| - 1]), ops[|ops| - 1]);
    }
  }

  lemma StepClaims(p: Poll, b: VoteBook, op: Op)
    ensures var b' := p.Step(b, op);
      && (forall peer :: peer in b'.peerMaj23s <==> peer in b.peerMaj23s || (op.PeerClaim? && op.peer == peer))
      && forall h: Hash :: h in b'.tallies && b'.tallies[h].peerMaj23 <==>
           || (h in b.tallies && b.tallies[h].peerMaj23)
           || (op.PeerClaim? && op.hash == h && op.peer !in b.peerMaj23s)
  {
    hide Count, Record;
    if op.AddVote? && p.Admits(op.vote) {
      VoteKeepsClaims(p.c, b, op.vote);
    }
  }

  lemma VoteKeepsClaims(c: Committee, b: VoteBook, v: Vote)
    requires v.index < |c.powers|
    ensures var r := Record(c, b, v);
      && r.tallies == b.tallies && r.peerMaj23s == b.peerMaj23s == Count(c, r, v).peerMaj23s
      && forall h: Hash :: h in Count(c, r, v).tallies && Count(c, r, v).tallies[h].peerMaj23 <==>
           h in b.tallies && b.tallies[h].peerMaj23
  {
    var r := Record(c, b, v);
    assert Count(c, r, v).tallies == r.tallies[v.hash := TallyFor(r, v.hash).Add(v, c.powers[v.index])];
  }

  lemma {:induction false} RunCounts(p: Poll, ops: seq<Op>)
    ensures CountsExact(p, ops, p.Run(ops))
  {
    hide BookValid, Add, ClaimsExact;
    if ops != [] {
      var rest, op := ops[..|ops| - 1], ops[|ops| - 1];
      RunCounts(p, rest);
      RunClaims(p, rest);
      p.RunValid(rest);
      if op.AddVote? && p.Admits(op.vote) {
        StepCounts(p, rest, p.Run(rest), op.vote);
        assert ops == rest + [op];
      } else {
        IdleKeeps(p, p.Run(rest), op);
      }
    }
  }

  lemma IdleKeeps(p: Poll, b: VoteBook, op: Op)
    requires op.PeerClaim? || !p.Admits(op.vote)
    ensures var b' := p.Step(b, op);
      && b'.votes == b.votes && b'.maj23 == b.maj23
      && forall h: Hash, i: nat :: Has(b', h, i) <==> Has(b, h, i)
  {
  }

  lemma StepCounts(p: Poll, ops: seq<Op>, b: VoteBook, v: Vote)
    requires BookValid(p.c, p.round, p.kind, b) && p.Admits(v)
    requires ClaimsExact(ops, b) && CountsExact(p, ops, b) && p.Sound(ops, b) && p.Complete(ops, b)
    ensures CountsExact(p, ops + [AddVote(v)], p.Step(b, AddVote(v)))
  {
    hide BookValid, Add, RecordsCounted;
    var op, b' := AddVote(v), p.Step(b, AddVote(v));
    var more := ops + [op];
    assert more[..|more| - 1] == ops && more[|more| - 1] == op;
    assert p.Voted(ops, v.index) <==> v.index in b.votes by {
      if v.index in b.votes {
        assert p.VotedFor(ops, v.index, b.votes[v.index].hash);
      }
    }
    AddCounts(p.c, p.round, p.kind, b, v);
    AddRecords(p.c, p.round, p.kind, b, v);
    AddValid(p.c, p.round, p.kind, b, v);
    CountsNowExactly(p, ops, b, v);
    assert forall h: Hash, i: nat :: Counts(p, ops, op, h, i) ==> h == v.hash && i == v.index;
    assert forall h: Hash, i: nat :: Counted(p, more, h, i) <==> Counted(p, ops, h, i) || Counts(p, ops, op, h, i);
    assert b'.maj23 != Some(v.hash) ==> b.maj23 != Some(v.hash);
  }

  lemma CountsNowExactly(p: Poll, ops: seq<Op>, b: VoteBook, v: Vote)
    requires p.Admits(v) && ClaimsExact(ops, b) && RecordsCounted(b) && (p.Voted(ops, v.index) <==> v.index in b.votes)
    ensures CountsNow(b, v) ==> Counts(p, ops, AddVote(v), v.hash, v.index)
    ensures Counts(p, ops, AddVote(v), v.hash, v.index) ==>
      CountsNow(b, v) || Has(b, v.hash, v.index) || b.maj23 == Some(v.hash)
  {
  }

  /** For every sequence of votes and claims, double votes and all: a majority is declared exactly
      when some hash has a quorum of validators with a vote for it that counts. */
  lemma MajorityExactly(p: Poll, ops: seq<Op>)
    ensures p.Run(ops).maj23.Some? <==> exists h :: Power(p.c.powers, CountedFor(p, ops, h)) >= Quorum(p.c.powers)
    ensures p.Run(ops).maj23.Some? ==>
      Power(p.c.powers, CountedFor(p, ops, p.Run(ops).maj23.value)) >= Quorum(p.c.powers)
  {
    hide Counted, RecordedValid, BitsValid, Poll.Sound, Poll.Complete, RecordsCounted;
    p.RunValid(ops);
    RunCounts(p, ops);
    var b := p.Run(ops);
    if b.maj23.Some? {
      var h := b.maj23.value;
      PowerMonotone(p.c.powers, b.tallies[h].votes.Keys, CountedFor(p, ops, h));
    } else if h :| Power(p.c.powers, CountedFor(p, ops, h)) >= Quorum(p.c.powers) {
      PowerNone(p.c.powers, |p.c.powers|);
      assert CountedFor(p, ops, h) != {};
      var i :| i in CountedFor(p, ops, h);
      assert Has(b, h, i);
      CountedQuorum(p.c, p.round, p.kind, b, h, CountedFor(p, ops, h));
    }
  }

  // ---- Conflicts ----

  /** Everything recorded or counted is one of the votes that were given. */
  ghost predicate Given(ops: seq<Op>, b: VoteBook) {
    && (forall i :: i in b.votes ==> AddVote(b.votes[i]) in ops)
    && (forall h, i :: h in b.tallies && i in b.tallies[h].votes ==> AddVote(b.tallies[h].votes[i]) in ops)
  }

  lemma {:induction false} RunGiven(p: Poll, ops: seq<Op>)
    ensures Given(ops, p.Run(ops))
  {
    hide Add, SetPeerMaj23;
    if ops != [] {
      var rest, op := ops[..|ops| - 1], ops[|ops| - 1];
      RunGiven(p, rest);
      assert ops == rest + [op];
      match op
      case AddVote(v) => AddGiven(p, ops, p.Run(rest), v);
      case PeerClaim(peer, hash) => ClaimGiven(p, ops, p.Run(rest), op);
    }
  }

  lemma ClaimGiven(p: Poll, ops: seq<Op>, b: VoteBook, op: Op)
    requires op.PeerClaim? && Given(ops, b)
    ensures Given(ops, p.Step(b, op))
  {
  }

  lemma AddGiven(p: Poll, ops: seq<Op>, b: VoteBook, v: Vote)
    requires Given(ops, b) && AddVote(v) in ops
    ensures Given(ops, Add(p.c, p.round, p.kind, b, v).0)
  {
    hide Count, Record;
    if p.Admits(v) {
      var r := Record(p.c, b, v);
      assert Given(ops, r) by { RecordGiven(p.c, ops, b, v); }
      CountGiven(p.c, ops, r, v);
    }
  }

  lemma RecordGiven(c: Committee, ops: seq<Op>, b: VoteBook, v: Vote)
    requires Given(ops, b) && AddVote(v) in ops && v.index < |c.powers|
    ensures Given(ops, Record(c, b, v))
  {
  }

  lemma CountGiven(c: Committee, ops: seq<Op>, b: VoteBook, v: Vote)
    requires Given(ops, b) && AddVote(v) in ops && v.index < |c.powers|
    ensures Given(ops, Count(c, b, v))
  {
    var tally := TallyFor(b, v.hash).Add(v, c.powers[v.index]);
    assert forall i :: i in tally.votes ==> AddVote(tally.votes[i]) in ops;
    assert Count(c, b, v).tallies == b.tallies[v.hash := tally];
  }

  /** A conflict that is reported is a double vote: the validator signed another hash in the same
      round before. Every double vote is reported, unless its hash was claimed or voted for before. */
  lemma ConflictIsDoubleVote(p: Poll, ops: seq<Op>, v: Vote)
    ensures var outcome := Add(p.c, p.round, p.kind, p.Run(ops), v).1;
      && (outcome.Conflicting? ==>
        var w := outcome.existing;
        && AddVote(w) in ops && w.index == v.index && w.hash != v.hash
        && p.c.Verifies(w) && w.height == v.height && w.round == v.round && w.kind == v.kind)
      && (p.Admits(v) && p.Voted(ops, v.index) && !p.VotedFor(ops, v.index, v.hash) && !Claimed(ops, v.hash) ==>
        outcome.Conflicting?)
      && (outcome.Duplicate? ==> p.VotedFor(ops, v.index, v.hash))
  {
    hide BitsValid, TalliesValid, MajorityValid, Counted;
    var b := p.Run(ops);
    p.RunValid(ops);
    RunClaims(p, ops);
    RunGiven(p, ops);
  }

  ghost predicate VotedOnlyFor(p: Poll, ops: seq<Op>, i: nat, hash: Hash) {
    forall h: Hash :: p.VotedFor(ops, i, h) ==> h == hash
  }

  /** What adding a vote reports. A vote for something else is passed over, one by the wrong signer is
      refused, the first of a validator is accepted; one that a validator repeats that has voted for
      nothing else is a duplicate, and no repeated vote is accepted unless its hash was claimed. */
  lemma Outcomes(p: Poll, ops: seq<Op>, v: Vote)
    ensures var (b', outcome) := Add(p.c, p.round, p.kind, p.Run(ops), v);
      var fits := v.height == p.c.height && v.round == p.round && v.kind == p.kind && v.scheme == p.c.scheme;
      && (!fits ==> outcome == Accepted && b' == p.Run(ops))
      && (outcome == BadSignature <==> fits && !p.c.Verifies(v))
      && (fits && p.c.Verifies(v) && !p.Voted(ops, v.index) ==> outcome == Accepted)
      && (fits && p.c.Verifies(v) && p.VotedFor(ops, v.index, v.hash) && !Claimed(ops, v.hash) ==>
        outcome.Duplicate? || outcome.Conflicting?)
      && (fits && p.c.Verifies(v) && p.VotedFor(ops, v.index, v.hash) && VotedOnlyFor(p, ops, v.index, v.hash) ==>
        outcome.Duplicate?)
  {
    hide BitsValid, TalliesValid, MajorityValid, Counted;
    var b := p.Run(ops);
    p.RunValid(ops);
    RunClaims(p, ops);
    if v.index in b.votes {
      assert p.VotedFor(ops, v.index, b.votes[v.index].hash);
    }
    if p.VotedFor(ops, v.index, v.hash) {
      var k :| 0 <= k < |ops| && p.VotesFor(ops[k], v.index, v.hash);
      assert p.Votes(ops[k], v.index);
    }
  }

  // ---- Claims and turnout ----

  /** What a peer claimed first. */
  function FirstClaim(ops: seq<Op>, peer: Peer): Option<Hash> {
    if ops == [] then None
    else
      var before, op := FirstClaim(ops[..|ops| - 1], peer), ops[|ops| - 1];
      if before.None? && op.PeerClaim? && op.peer == peer then Some(op.hash) else before
  }

  lemma {:induction false} RunFirstClaim(p: Poll, ops: seq<Op>, peer: Peer)
    ensures var claims := p.Run(ops).peerMaj23s;
      FirstClaim(ops, peer) == if peer in claims then Some(claims[peer]) else None
  {
    hide Add;
    if ops != [] {
      RunFirstClaim(p, ops[..|ops| - 1], peer);
      var b, op := p.Run(ops[..|ops| - 1]), ops[|ops| - 1];
      if op.AddVote? {
        SameClaims(p, b, op.vote);
      }
    }
  }

  lemma SameClaims(p: Poll, b: VoteBook, v: Vote)
    ensures Add(p.c, p.round, p.kind, b, v).0.peerMaj23s == b.peerMaj23s
  {
    hide Count, Record;
    if p.Admits(v) {
      VoteKeepsClaims(p.c, b, v);
    }
  }

  /** A claim is an exception exactly if its peer claimed another hash first. */
  lemma ClaimRefusedExactly(p: Poll, ops: seq<Op>, peer: Peer, hash: Hash)
    ensures SetPeerMaj23(p.Run(ops), peer, hash).None? <==>
      FirstClaim(ops, peer).Some? && FirstClaim(ops, peer) != Some(hash)
  {
    RunFirstClaim(p, ops, peer);
  }

  /** The turnout is known exactly when more than two thirds of all power has voted. */
  lemma TurnoutIsTwoThirds(p: Poll, ops: seq<Op>)
    ensures HasTwoThirdsAny(p.c, p.Run(ops)) <==> 3 * Power(p.c.powers, p.Voters(ops)) > 2 * Total(p.c.powers)
  {
    p.SumIsTurnout(ops);
  }
}
