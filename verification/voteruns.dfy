/** A vote set over its whole life: what its counters and its majority say about the votes it
has been given, for every sequence of votes and peer claims. */
module VoteRuns {
  import opened Powers
  import opened Ballots
  import opened VoteBooks

  datatype Op = AddVote(vote: Vote) | PeerClaim(peer: Peer, hash: Hash)

  /** The vote sets of one kind in one round of a committee. */
  datatype Poll = Poll(c: Committee, round: nat, kind: VoteType)
  {
    predicate Admits(v: Vote) { Fits(c, round, kind, v) && c.Verifies(v) }

    /** Exceptions leave the vote set as it is. */
    function Step(b: VoteBook, op: Op): VoteBook
    {
      match op
      case AddVote(v) => Add(c, round, kind, b, v).0
      case PeerClaim(peer, hash) =>
        match SetPeerMaj23(b, peer, hash)
        case None => b
        case Some(b') => b'
    }

    function Run(ops: seq<Op>): VoteBook
    {
      if ops == [] then NewBook(c)
      else Step(Run(ops[..|ops| - 1]), ops[|ops| - 1])
    }

    predicate Votes(op: Op, i: nat) {
      op.AddVote? && Admits(op.vote) && op.vote.index == i
    }

    predicate VotesFor(op: Op, i: nat, hash: Hash) {
      Votes(op, i) && op.vote.hash == hash
    }

    predicate VotedFor(ops: seq<Op>, i: nat, hash: Hash) {
      exists k :: 0 <= k < |ops| && VotesFor(ops[k], i, hash)
    }

    predicate Voted(ops: seq<Op>, i: nat) {
      exists k :: 0 <= k < |ops| && Votes(ops[k], i)
    }

    function VotersFor(ops: seq<Op>, hash: Hash): set<nat> {
      set i: nat | i < |c.powers| && VotedFor(ops, i, hash)
    }

    function Voters(ops: seq<Op>): set<nat> {
      set i: nat | i < |c.powers| && Voted(ops, i)
    }

    /** No validator voted for two hashes. */
    ghost predicate NoDoubleVotes(ops: seq<Op>) {
      forall i, h, h' :: VotedFor(ops, i, h) && VotedFor(ops, i, h') ==> h == h'
    }

    /** Everything recorded or counted was voted for. */
    ghost predicate Sound(ops: seq<Op>, b: VoteBook) {
      && (forall i :: i in b.votes ==> VotedFor(ops, i, b.votes[i].hash))
      && (forall h, i :: Has(b, h, i) ==> VotedFor(ops, i, h))
    }

    /** Every voter is recorded, and counted as long as nobody votes twice. */
    ghost predicate Complete(ops: seq<Op>, b: VoteBook) {
      && (forall i :: Voted(ops, i) ==> i in b.votes)
      && (NoDoubleVotes(ops) ==> forall h, i :: VotedFor(ops, i, h) ==> Has(b, h, i))
    }

    lemma VotedExtends(ops: seq<Op>, op: Op, i: nat)
      ensures forall h :: VotedFor(ops + [op], i, h) <==> VotedFor(ops, i, h) || VotesFor(op, i, h)
      ensures Voted(ops + [op], i) <==> Voted(ops, i) || Votes(op, i)
    {
      var more := ops + [op];
      assert more[|ops|] == op;
      assert forall k :: 0 <= k < |ops| ==> more[k] == ops[k];
    }

    lemma StepDiffers(b: VoteBook, v: Vote)
      requires BookValid(c, round, kind, b) && Admits(v)
      ensures Differs(b, Step(b, AddVote(v)), v)
      ensures v.index !in b.votes ==> Has(Step(b, AddVote(v)), v.hash, v.index)
    {
      forall h, i | Has(b, h, i)
        ensures i in b.votes && b.tallies[h].votes[i].hash == h
      {
        assert TallyValid(c, round, kind, h, b.tallies[h]);
      }
      AddDiffers(c, b, v);
    }

    lemma ClaimKeepsVotes(b: VoteBook, op: Op)
      requires op.PeerClaim? || !Admits(op.vote)
      ensures Step(b, op).votes == b.votes
      ensures forall h, i :: Has(Step(b, op), h, i) <==> Has(b, h, i)
    {
    }

    lemma DiffersSound(ops: seq<Op>, b: VoteBook, b': VoteBook, v: Vote)
      requires Sound(ops, b) && Admits(v) && Differs(b, b', v)
      ensures Sound(ops + [AddVote(v)], b')
    {
      var op := AddVote(v);
      forall i | i in b'.votes ensures VotedFor(ops + [op], i, b'.votes[i].hash) {
        VotedExtends(ops, op, i);
      }
      forall h, i | Has(b', h, i) ensures VotedFor(ops + [op], i, h) {
        VotedExtends(ops, op, i);
      }
    }

    lemma ClaimSound(ops: seq<Op>, b: VoteBook, op: Op)
      requires op.PeerClaim? || !Admits(op.vote)
      requires Sound(ops, b)
      ensures Sound(ops + [op], Step(b, op))
    {
      ClaimKeepsVotes(b, op);
      var b', more := Step(b, op), ops + [op];
      forall i | i in b'.votes ensures VotedFor(more, i, b'.votes[i].hash) {
        VotedExtends(ops, op, i);
      }
      forall h, i | Has(b', h, i) ensures VotedFor(more, i, h) {
        assert Has(b, h, i);
        VotedExtends(ops, op, i);
      }
    }

    lemma NoDoubleVotesBefore(ops: seq<Op>, op: Op)
      requires NoDoubleVotes(ops + [op])
      ensures NoDoubleVotes(ops)
    {
      forall i, h, h' | VotedFor(ops, i, h) && VotedFor(ops, i, h') ensures h == h' {
        VotedExtends(ops, op, i);
        assert VotedFor(ops + [op], i, h) && VotedFor(ops + [op], i, h');
      }
    }

    lemma DiffersComplete(ops: seq<Op>, b: VoteBook, b': VoteBook, v: Vote)
      requires Sound(ops, b) && Complete(ops, b) && Admits(v) && Differs(b, b', v)
      requires v.index !in b.votes ==> Has(b', v.hash, v.index)
      ensures Complete(ops + [AddVote(v)], b')
    {
      var op := AddVote(v);
      var more := ops + [op];
      forall i | Voted(more, i) ensures i in b'.votes {
        VotedExtends(ops, op, i);
      }
      if NoDoubleVotes(more) {
        NoDoubleVotesBefore(ops, op);
        forall h, i | VotedFor(more, i, h) ensures Has(b', h, i) {
          VotedExtends(ops, op, i);
        }
      }
    }

    lemma ClaimComplete(ops: seq<Op>, b: VoteBook, op: Op)
      requires op.PeerClaim? || !Admits(op.vote)
      requires Complete(ops, b)
      ensures Complete(ops + [op], Step(b, op))
    {
      ClaimKeepsVotes(b, op);
      var b', more := Step(b, op), ops + [op];
      forall i | Voted(more, i) ensures i in b'.votes {
        VotedExtends(ops, op, i);
      }
      if NoDoubleVotes(more) {
        NoDoubleVotesBefore(ops, op);
        forall h, i | VotedFor(more, i, h) ensures Has(b', h, i) {
          VotedExtends(ops, op, i);
        }
      }
    }

    lemma StepValid(b: VoteBook, op: Op)
      requires BookValid(c, round, kind, b)
      ensures BookValid(c, round, kind, Step(b, op))
      ensures b.maj23.Some? ==> Step(b, op).maj23 == b.maj23
    {
      match op
      case AddVote(v) => AddValid(c, round, kind, b, v);
      case PeerClaim(peer, hash) =>
        if SetPeerMaj23(b, peer, hash).Some? {
          SetPeerValid(c, round, kind, b, peer, hash);
        }
    }

    /** The bookkeeping invariant holds after every sequence of operations, and every tally holds
        exactly who it should. */
    lemma {:induction false} RunValid(ops: seq<Op>)
      ensures BookValid(c, round, kind, Run(ops)) && Sound(ops, Run(ops)) && Complete(ops, Run(ops))
    {
      if ops == [] {
        NewBookValid(c, round, kind);
      } else {
        var rest, op := ops[..|ops| - 1], ops[|ops| - 1];
        assert ops == rest + [op];
        RunValid(rest);
        StepValid(Run(rest), op);
        if op.AddVote? && Admits(op.vote) {
          StepDiffers(Run(rest), op.vote);
          DiffersSound(rest, Run(rest), Run(ops), op.vote);
          DiffersComplete(rest, Run(rest), Run(ops), op.vote);
        } else {
          ClaimSound(rest, Run(rest), op);
          ClaimComplete(rest, Run(rest), op);
        }
      }
    }

    /** `sum` is the power of everyone who voted, whatever they voted for, so `hasTwoThirdsAny`
        asks whether more than two thirds took part. */
    lemma SumIsTurnout(ops: seq<Op>)
      ensures Run(ops).sum == Power(c.powers, Voters(ops))
    {
      RunValid(ops);
      var b := Run(ops);
      assert forall i :: i in b.votes ==> Voted(ops, i) by {
        forall i | i in b.votes ensures Voted(ops, i) {
          assert VotedFor(ops, i, b.votes[i].hash);
        }
      }
      assert b.votes.Keys == Voters(ops);
    }

    /** A declared majority is real: validators holding a quorum voted for that hash. */
    lemma MajorityIsQuorum(ops: seq<Op>, hash: Hash)
      requires Run(ops).maj23 == Some(hash)
      ensures Power(c.powers, VotersFor(ops, hash)) >= Quorum(c.powers)
    {
      RunValid(ops);
      PowerMonotone(c.powers, Run(ops).tallies[hash].votes.Keys, VotersFor(ops, hash));
    }

    /** Without double votes, the majority is declared for exactly the hash that has a quorum. */
    lemma QuorumIsMajority(ops: seq<Op>, hash: Hash)
      requires NoDoubleVotes(ops)
      ensures Run(ops).maj23 == Some(hash) <==> Power(c.powers, VotersFor(ops, hash)) >= Quorum(c.powers)
    {
      if Run(ops).maj23 == Some(hash) {
        MajorityIsQuorum(ops, hash);
      } else if Power(c.powers, VotersFor(ops, hash)) >= Quorum(c.powers) {
        RunValid(ops);
        AllCounted(ops, Run(ops), hash);
        QuorumIsDeclared(ops, Run(ops), hash);
        MajorityIsQuorum(ops, Run(ops).maj23.value);
        OneQuorum(ops, hash, Run(ops).maj23.value);
      }
    }

    lemma AllCounted(ops: seq<Op>, b: VoteBook, hash: Hash)
      requires Complete(ops, b) && NoDoubleVotes(ops)
      ensures forall i :: i in VotersFor(ops, hash) ==> Has(b, hash, i)
    {
      forall i | i in VotersFor(ops, hash) ensures Has(b, hash, i) {
        assert VotedFor(ops, i, hash);
      }
    }

    lemma QuorumIsDeclared(ops: seq<Op>, b: VoteBook, hash: Hash)
      requires TalliesValid(c, round, kind, b) && MajorityValid(c, b)
      requires forall i :: i in VotersFor(ops, hash) ==> Has(b, hash, i)
      requires Power(c.powers, VotersFor(ops, hash)) >= Quorum(c.powers)
      ensures b.maj23.Some?
    {
      var i := SomeVoter(ops, hash);
      assert Has(b, hash, i);
      CountedQuorum(c, round, kind, b, hash, VotersFor(ops, hash));
    }

    lemma OneQuorum(ops: seq<Op>, hash: Hash, other: Hash)
      requires NoDoubleVotes(ops)
      requires Power(c.powers, VotersFor(ops, hash)) >= Quorum(c.powers)
      requires Power(c.powers, VotersFor(ops, other)) >= Quorum(c.powers)
      ensures hash == other
    {
      PowerNone(c.powers, |c.powers|);
      PowerMonotone(c.powers, VotersFor(ops, hash), Everyone(c.powers));
      var i := QuorumsMeet(c.powers, VotersFor(ops, hash), VotersFor(ops, other), {});
      assert VotedFor(ops, i, hash) && VotedFor(ops, i, other);
    }

    lemma SomeVoter(ops: seq<Op>, hash: Hash) returns (i: nat)
      requires Power(c.powers, VotersFor(ops, hash)) >= Quorum(c.powers)
      ensures i in VotersFor(ops, hash)
    {
      PowerNone(c.powers, |c.powers|);
      assert VotersFor(ops, hash) != {};
      i :| i in VotersFor(ops, hash);
    }

    /** Once declared, a majority stays whatever happens afterwards, and the recorded votes for
        it keep holding a quorum, so a certificate can always be cut from them. */
    lemma {:induction false} MajorityIsFinal(ops: seq<Op>, more: seq<Op>, hash: Hash)
      requires Run(ops).maj23 == Some(hash)
      ensures Run(ops + more).maj23 == Some(hash)
      ensures Power(c.powers, For(Run(ops + more), hash)) >= Quorum(c.powers)
    {
      RunValid(ops + more);
      if more == [] {
        assert ops + more == ops;
      } else {
        var rest, op := more[..|more| - 1], more[|more| - 1];
        assert (ops + more)[..|ops + more| - 1] == ops + rest;
        MajorityIsFinal(ops, rest, hash);
        RunValid(ops + rest);
        StepValid(Run(ops + rest), op);
      }
      var b := Run(ops + more);
      PowerMonotone(c.powers, b.tallies[hash].votes.Keys, For(b, hash));
    }
  }
}
