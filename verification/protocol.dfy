/** What one node keeps true while it handles any event, relative to the log of honest votes. */
module Protocol {
  import opened Powers
  import opened Ballots
  import opened VoteBooks
  import opened RoundBooks
  import opened StateSpec
  import opened Agreement

  /** Every majority the node sees is backed by a quorum, and more than two thirds took part. */
  ghost predicate Supported(c: Committee, log: Log, hv: HeightVotes) {
    forall r, k :: hv.Maj23(r, k).Some? ==> HasQuorum(c, log, k, r, hv.Maj23(r, k).value) && hv.TwoThirdsAny(c, r, k)
  }

  /** Everything counted for an honest validator was signed by it. */
  ghost predicate Genuine(c: Committee, log: Log, hv: HeightVotes) {
    forall r, k, h, i :: hv.Counts(r, k, h, i) && c.Honest(i) ==> Cast(log, k, r, h, i)
  }

  predicate SignedUpTo(log: Log, me: nat, round: nat, step: Step) {
    forall a :: 0 <= a < |log| && log[a].index == me ==>
      log[a].round < round
      || (log[a].round == round && (if log[a].kind == Prevote then PREVOTE else PRECOMMIT) <= step)
  }

  predicate Locked(s: Node, v: Vote) {
    s.lockedBlock.Some? && s.lockedBlock.value.hash == v.hash && v.round <= s.lockedRound
  }

  /** For every block it precommitted, the node is still locked or was released. */
  ghost predicate KeepsLocks(c: Committee, log: Log, me: nat, s: Node) {
    forall a :: 0 <= a < |log| && log[a].index == me && log[a].kind == Precommit && log[a].hash != EMPTY_HASH ==>
      Locked(s, log[a]) || Released(c, log, log[a].round, log[a].hash, s.round)
  }

  predicate LockShape(s: Node) {
    match s.lockedBlock
    case None => s.lockedRound == -1
    case Some(_) => 0 <= s.lockedRound <= s.round && (s.lockedRound == s.round ==> PRECOMMIT <= s.step)
  }

  predicate RoundShape(s: Node) {
    && !s.broken
    && NEW_HEIGHT <= s.step <= COMMIT
    && (s.votes.round == s.round + 1 || (s.votes.round == 0 && s.round == 0))
    && (s.step == NEW_HEIGHT ==> s.round == 0)
    && (forall t :: t in s.timeouts ==>
      t.round <= s.round && t.step in {NEW_HEIGHT, PROPOSE, PREVOTE_WAIT, PRECOMMIT_WAIT})
  }

  ghost predicate CommitsBacked(c: Committee, log: Log, s: Node) {
    forall k :: 0 <= k < |s.commits| ==> Decided(c, log, s.commits[k])
  }

  ghost predicate Decided(c: Committee, log: Log, hash: Hash) {
    hash != EMPTY_HASH && exists round :: HasQuorum(c, log, Precommit, round, hash)
  }

  /** The votes signed so far, including those of the event being handled. */
  function Signed(log: Log, s: Node): Log {
    log + s.outbox
  }

  /** The vote books are in order and nothing in them is forged. */
  ghost predicate Books(c: Committee, log: Log, hv: HeightVotes) {
    hv.Valid(c) && Genuine(c, log, hv)
  }

  /** All but the shape of the lock, which signing a precommit completes. */
  ghost predicate Steady(c: Committee, me: nat, log: Log, s: Node) {
    && c.Honest(me)
    && Disciplined(c, Signed(log, s))
    && Books(c, Signed(log, s), s.votes)
    && Supported(c, Signed(log, s), s.votes)
    && (forall k :: 0 <= k < |s.outbox| ==> s.outbox[k].index == me)
    && SignedUpTo(Signed(log, s), me, s.round, s.step)
    && KeepsLocks(c, Signed(log, s), me, s)
    && RoundShape(s)
    && CommitsBacked(c, Signed(log, s), s)
  }

  ghost predicate Sane(c: Committee, me: nat, log: Log, s: Node) {
    Steady(c, me, log, s) && LockShape(s)
  }

  lemma BooksGrow(c: Committee, log: Log, more: Log, hv: HeightVotes, hv': HeightVotes)
    requires Books(c, log, hv) && OnlyOpens(c, hv, hv')
    ensures Books(c, log + more, hv')
  {
    OpeningKeepsValid(c, hv, hv');
    OpeningKeepsCounts(c, hv, hv');
    forall r, k, h, i | hv'.Counts(r, k, h, i) && c.Honest(i) ensures Cast(log + more, k, r, h, i) {
      assert hv.Counts(r, k, h, i);
      var a :| 0 <= a < |log| && IsBallot(log[a], k, r, h, i);
      assert (log + more)[a] == log[a];
    }
  }

  // ---- Signing ----

  lemma SupportedGrows(c: Committee, log: Log, more: Log, hv: HeightVotes)
    requires Supported(c, log, hv)
    ensures Supported(c, log + more, hv)
  {
    forall r, k | hv.Maj23(r, k).Some?
      ensures HasQuorum(c, log + more, k, r, hv.Maj23(r, k).value)
    {
      QuorumGrows(c, log, more, k, r, hv.Maj23(r, k).value);
    }
  }

  lemma CommitsGrow(c: Committee, log: Log, more: Log, s: Node)
    requires CommitsBacked(c, log, s)
    ensures CommitsBacked(c, log + more, s)
  {
    forall k | 0 <= k < |s.commits| ensures Decided(c, log + more, s.commits[k]) {
      var round :| HasQuorum(c, log, Precommit, round, s.commits[k]);
      QuorumGrows(c, log, more, Precommit, round, s.commits[k]);
    }
  }

  lemma KeepsLocksGrows(c: Committee, log: Log, v: Vote, me: nat, s: Node)
    requires KeepsLocks(c, log, me, s)
    requires v.index == me && v.kind == Precommit && v.hash != EMPTY_HASH ==> Locked(s, v)
    ensures KeepsLocks(c, log + [v], me, s)
  {
    var more := log + [v];
    forall a | 0 <= a < |more| && more[a].index == me && more[a].kind == Precommit && more[a].hash != EMPTY_HASH
      ensures Locked(s, more[a]) || Released(c, more, more[a].round, more[a].hash, s.round)
    {
      if a < |log| {
        assert more[a] == log[a];
        if !Locked(s, log[a]) {
          ReleaseGrows(c, log, [v], log[a].round, log[a].hash, s.round, s.round);
        }
      }
    }
  }

  /** When one more vote keeps the log disciplined. */
  lemma Extend(c: Committee, log: Log, v: Vote)
    requires Disciplined(c, log)
    requires c.Verifies(v) && c.Honest(v.index) && v.height == c.height && v.scheme == c.scheme
    requires forall a :: 0 <= a < |log| && log[a].index == v.index ==> Precedes(log[a], v)
    requires v.kind == Precommit && v.hash != EMPTY_HASH ==> HasQuorum(c, log, Prevote, v.round, v.hash)
    requires forall a :: 0 <= a < |log| && LockBroken(log[a], v) ==>
      Released(c, log, log[a].round, log[a].hash, v.round)
    ensures Disciplined(c, log + [v])
  {
    var more := log + [v];
    assert forall a :: 0 <= a < |log| ==> more[a] == log[a] && more[..a] == log[..a];
    assert more[..|log|] == log;
    ExtendOrder(c, log, v);
    ExtendJustified(c, log, v);
    ExtendLoyal(c, log, v);
  }

  lemma ExtendOrder(c: Committee, log: Log, v: Vote)
    requires Authentic(c, log) && Orderly(log)
    requires c.Verifies(v) && c.Honest(v.index) && v.height == c.height && v.scheme == c.scheme
    requires forall a :: 0 <= a < |log| && log[a].index == v.index ==> Precedes(log[a], v)
    ensures Authentic(c, log + [v]) && Orderly(log + [v])
  {
  }

  lemma ExtendJustified(c: Committee, log: Log, v: Vote)
    requires Justified(c, log)
    requires v.kind == Precommit && v.hash != EMPTY_HASH ==> HasQuorum(c, log, Prevote, v.round, v.hash)
    ensures Justified(c, log + [v])
  {
    var more := log + [v];
    forall a | 0 <= a < |more| && more[a].kind == Precommit && more[a].hash != EMPTY_HASH
      ensures HasQuorum(c, more[..a], Prevote, more[a].round, more[a].hash)
    {
      assert more[..a] == log[..a];
      assert a == |log| ==> log[..a] == log;
    }
  }

  lemma ExtendLoyal(c: Committee, log: Log, v: Vote)
    requires Loyal(c, log)
    requires forall a :: 0 <= a < |log| && LockBroken(log[a], v) ==>
      Released(c, log, log[a].round, log[a].hash, v.round)
    ensures Loyal(c, log + [v])
  {
    var more := log + [v];
    forall a, b | 0 <= a < b < |more| && LockBroken(more[a], more[b])
      ensures Released(c, more[..b], more[a].round, more[a].hash, more[b].round)
    {
      assert more[..b] == log[..b];
      assert b == |log| ==> log[..b] == log;
    }
  }

  function StepOf(kind: VoteType): Step {
    if kind == Prevote then PREVOTE else PRECOMMIT
  }

  /** Signing a vote the protocol allows at this point keeps every invariant. */
  lemma CastVote(m: Machine, log: Log, s: Node, kind: VoteType, hash: Hash)
    requires Steady(m.c, m.me, log, s) && s.step < StepOf(kind)
    requires kind == Prevote && s.lockedBlock.Some? ==> hash == s.lockedBlock.value.hash
    requires kind == Precommit && hash != EMPTY_HASH ==>
      HasQuorum(m.c, Signed(log, s), Prevote, s.round, hash) && m.Holds(s.lockedBlock, hash) && s.lockedRound == s.round
    ensures Steady(m.c, m.me, log, m.At(m.Sign(s, kind, hash), s.round, StepOf(kind)))
  {
    var before := Signed(log, s);
    var s' := m.At(m.Sign(s, kind, hash), s.round, StepOf(kind));
    if m.env.canSign {
      var v := Vote(m.c.height, s.round, kind, hash, m.me, m.c.scheme, m.me);
      assert Signed(log, s') == before + [v];
      Extend(m.c, before, v);
      SupportedGrows(m.c, before, [v], s.votes);
      BooksGrow(m.c, before, [v], s.votes, s.votes);
      KeepsLocksGrows(m.c, before, v, m.me, s);
      CommitsGrow(m.c, before, [v], s);
    } else {
      assert Signed(log, s') == before;
    }
  }

  lemma EnterPrevoteSane(m: Machine, log: Log, s: Node)
    requires Sane(m.c, m.me, log, s)
    ensures Sane(m.c, m.me, log, m.EnterPrevote(s, s.round))
  {
    if m.Past(s, s.round, PREVOTE) {
    } else if s.lockedBlock.Some? {
      CastVote(m, log, s, Prevote, s.lockedBlock.value.hash);
    } else if s.proposalBlock.None? || m.env.preprocess == Invalid {
      CastVote(m, log, s, Prevote, EMPTY_HASH);
    } else if m.env.preprocess == Valid {
      var s' := s.(proposalExecuted := true);
      assert Signed(log, s') == Signed(log, s);
      assert Steady(m.c, m.me, log, s');
      CastVote(m, log, s', Prevote, s.proposalBlock.value.hash);
    }
  }

  /** A prevote majority in a round after the lock lets the node hold any lock, or none. */
  lemma Relock(c: Committee, log: Log, me: nat, s: Node, s': Node, round: nat, other: Hash)
    requires KeepsLocks(c, log, me, s) && s'.round == s.round
    requires HasQuorum(c, log, Prevote, round, other) && round <= s.round
    requires s.lockedBlock.Some? ==> s.lockedBlock.value.hash != other && s.lockedRound < round
    ensures KeepsLocks(c, log, me, s')
  {
    forall a | 0 <= a < |log| && log[a].index == me && log[a].kind == Precommit && log[a].hash != EMPTY_HASH
      ensures Released(c, log, log[a].round, log[a].hash, s'.round)
    {
      if Locked(s, log[a]) {
        assert log[a].round < round && log[a].hash != other;
      }
    }
  }

  /** The guard against an outdated proof of lock never fires. */
  lemma {:induction false} PolIsCurrent(hv: HeightVotes, round: nat, i: nat)
    requires round <= i && hv.Maj23(round, Prevote).Some?
    ensures hv.POLInfo(i).Some? && round <= hv.POLInfo(i).value
  {
    if hv.Maj23(i, Prevote).Some? {
    } else {
      PolIsCurrent(hv, round, i - 1);
    }
  }

  lemma EnterPrecommitSane(m: Machine, log: Log, s: Node)
    requires Sane(m.c, m.me, log, s)
    ensures Sane(m.c, m.me, log, m.EnterPrecommit(s, s.round))
  {
    if !m.Past(s, s.round, PRECOMMIT) {
      var maj := s.votes.Maj23(s.round, Prevote);
      if maj.None? {
        CastVote(m, log, s, Precommit, EMPTY_HASH);
      } else {
        PolIsCurrent(s.votes, s.round, s.votes.round);
        PrecommitCases(m, s, maj.value);
        PrecommitWithMajority(m, log, s, maj.value);
      }
    }
  }

  lemma PrecommitCases(m: Machine, s: Node, hash: Hash)
    requires !m.Past(s, s.round, PRECOMMIT) && s.votes.Maj23(s.round, Prevote) == Some(hash)
    requires s.votes.POLInfo(s.votes.round).Some? && s.round <= s.votes.POLInfo(s.votes.round).value
    ensures m.EnterPrecommit(s, s.round) == m.At(m.PrecommitMajority(s, s.round, hash), s.round, PRECOMMIT)
  {
    hide Machine.PrecommitMajority, HeightVotes.POLInfo, HeightVotes.Maj23;
  }

  lemma PrecommitWithMajority(m: Machine, log: Log, s: Node, hash: Hash)
    requires Sane(m.c, m.me, log, s) && s.step < PRECOMMIT
    requires s.votes.Maj23(s.round, Prevote) == Some(hash)
    ensures Sane(m.c, m.me, log, m.At(m.PrecommitMajority(s, s.round, hash), s.round, PRECOMMIT))
  {
    hide Sane, HeightVotes.Maj23, Machine.Sign;
    if hash != EMPTY_HASH && m.Holds(s.lockedBlock, hash) {
      PrecommitLocked(m, log, s, s.(lockedRound := s.round), hash);
    } else if hash != EMPTY_HASH && m.Holds(s.proposalBlock, hash) {
      PrecommitLocked(m, log, s,
        s.(lockedRound := s.round, lockedBlock := s.proposalBlock, lockedExecuted := s.proposalExecuted), hash);
    } else if hash != EMPTY_HASH {
      PrecommitNil(m, log, s,
        m.Unlock(s).(proposalBlock := None, proposalBlockHash := Some(hash), proposalExecuted := false), hash);
    } else if s.lockedBlock.Some? {
      PrecommitNil(m, log, s, m.Unlock(s), hash);
    } else {
      SaneShape(m.c, m.me, log, s);
      PrecommitNil(m, log, s, s, hash);
    }
  }

  lemma SaneShape(c: Committee, me: nat, log: Log, s: Node)
    requires Sane(c, me, log, s)
    ensures LockShape(s)
  {
  }

  /** Precommitting the majority block and locking on it, anew or again. */
  lemma PrecommitLocked(m: Machine, log: Log, s: Node, s': Node, hash: Hash)
    requires Sane(m.c, m.me, log, s) && s.step < PRECOMMIT
    requires s.votes.Maj23(s.round, Prevote) == Some(hash)
    requires s' == s.(lockedRound := s.round, lockedBlock := s'.lockedBlock, lockedExecuted := s'.lockedExecuted)
    requires m.Holds(s'.lockedBlock, hash)
    ensures Sane(m.c, m.me, log, m.At(m.Sign(s', Precommit, hash), s.round, PRECOMMIT))
  {
    var L := Signed(log, s);
    assert Signed(log, s') == L;
    if m.Holds(s.lockedBlock, hash) {
      assert KeepsLocks(m.c, L, m.me, s');
    } else {
      Relock(m.c, L, m.me, s, s', s.round, hash);
    }
    CastVote(m, log, s', Precommit, hash);
  }

  /** Precommitting nil and giving up the lock, released by the majority for another hash. */
  lemma PrecommitNil(m: Machine, log: Log, s: Node, s': Node, hash: Hash)
    requires Sane(m.c, m.me, log, s) && s.step < PRECOMMIT
    requires s.votes.Maj23(s.round, Prevote) == Some(hash)
    requires hash != EMPTY_HASH ==> !m.Holds(s.lockedBlock, hash)
    requires s'.lockedBlock == None && s'.lockedRound == -1
    requires s' == s.(lockedRound := -1, lockedBlock := None, lockedExecuted := s'.lockedExecuted,
      proposalBlock := s'.proposalBlock, proposalBlockHash := s'.proposalBlockHash,
        proposalExecuted := s'.proposalExecuted)
    ensures Sane(m.c, m.me, log, m.At(m.Sign(s', Precommit, EMPTY_HASH), s.round, PRECOMMIT))
  {
    var L := Signed(log, s);
    assert Signed(log, s') == L;
    if m.Holds(s.lockedBlock, hash) {
      assert KeepsLocks(m.c, L, m.me, s');
    } else {
      Relock(m.c, L, m.me, s, s', s.round, hash);
    }
    CastVote(m, log, s', Precommit, EMPTY_HASH);
  }

  lemma OpenedSupport(c: Committee, log: Log, hv: HeightVotes, hv': HeightVotes)
    requires Books(c, log, hv) && Supported(c, log, hv) && OnlyOpens(c, hv, hv')
    ensures Books(c, log, hv') && Supported(c, log, hv')
  {
    OpeningKeepsCounts(c, hv, hv');
    assert log + [] == log;
    BooksGrow(c, log, [], hv, hv');
  }

  lemma MoveSane(m: Machine, log: Log, s: Node, s': Node)
    requires Sane(m.c, m.me, log, s)
    requires s'.outbox == s.outbox && s'.commits == s.commits && s'.lockedBlock == s.lockedBlock
    requires s'.lockedRound == s.lockedRound
    requires s.round < s'.round || (s.round == s'.round && s.step <= s'.step)
    requires RoundShape(s')
    requires OnlyOpens(m.c, s.votes, s'.votes)
    ensures Sane(m.c, m.me, log, s')
  {
    OpenedSupport(m.c, Signed(log, s), s.votes, s'.votes);
    var L := Signed(log, s);
    assert Signed(log, s') == L;
    forall a | 0 <= a < |L| && L[a].index == m.me && L[a].kind == Precommit && L[a].hash != EMPTY_HASH
      ensures Locked(s', L[a]) || Released(m.c, L, L[a].round, L[a].hash, s'.round)
    {
      if !Locked(s, L[a]) {
        assert L + [] == L;
        ReleaseGrows(m.c, L, [], L[a].round, L[a].hash, s.round, s'.round);
      }
    }
  }

  lemma EnterPrevoteWaitSane(m: Machine, log: Log, s: Node)
    requires Sane(m.c, m.me, log, s)
    requires s.votes.TwoThirdsAny(m.c, s.round, Prevote)
    ensures Sane(m.c, m.me, log, m.EnterPrevoteWait(s, s.round))
  {
    MoveSane(m, log, s, m.EnterPrevoteWait(s, s.round));
  }

  lemma EnterPrecommitWaitSane(m: Machine, log: Log, s: Node, round: nat)
    requires Sane(m.c, m.me, log, s) && round <= s.round
    requires s.votes.TwoThirdsAny(m.c, round, Precommit)
    ensures Sane(m.c, m.me, log, m.EnterPrecommitWait(s, round))
  {
    MoveSane(m, log, s, m.EnterPrecommitWait(s, round));
  }

  lemma EnterProposeSane(m: Machine, log: Log, s: Node)
    requires Sane(m.c, m.me, log, s)
    ensures Sane(m.c, m.me, log, m.EnterPropose(s, s.round))
  {
    if !m.Past(s, s.round, PROPOSE) {
      var s' := m.At(m.Schedule(s, s.round, PROPOSE), s.round, PROPOSE);
      MoveSane(m, log, s, s');
      EnterPrevoteSane(m, log, s');
    }
  }

  lemma EnterNewRoundSane(m: Machine, log: Log, s: Node, round: nat)
    requires Sane(m.c, m.me, log, s)
    ensures Sane(m.c, m.me, log, m.EnterNewRound(s, round))
    ensures round <= m.EnterNewRound(s, round).round
    ensures forall r, k :: m.EnterNewRound(s, round).votes.Maj23(r, k) == s.votes.Maj23(r, k)
    ensures forall r, k :: s.votes.TwoThirdsAny(m.c, r, k) ==> m.EnterNewRound(s, round).votes.TwoThirdsAny(m.c, r, k)
  {
    if !(round < s.round || (s.round == round && s.step != NEW_HEIGHT)) {
      SetRoundOpens(m.c, s.votes, round + 1);
      OpeningKeepsCounts(m.c, s.votes, s.votes.SetRound(m.c, round + 1));
      var s1 := m.At(s, round, NEW_ROUND);
      var s2 := if round == 0 then s1
                else s1.(proposal := None, proposalBlockHash := None, proposalBlock := None, proposalExecuted := false);
      var s3 := s2.(votes := s2.votes.SetRound(m.c, round + 1), triggeredTimeoutPrecommit := false);
      MoveSane(m, log, s, s3);
      EnterProposeSane(m, log, s3);
      EnterProposeFrame(m, s3);
    }
  }

  lemma EnterProposeFrame(m: Machine, s: Node)
    ensures m.EnterPropose(s, s.round).votes == s.votes && m.EnterPropose(s, s.round).round == s.round
  {
  }

  lemma CommitSane(m: Machine, log: Log, s: Node, hash: Hash)
    requires Sane(m.c, m.me, log, s) && Decided(m.c, Signed(log, s), hash)
    ensures Sane(m.c, m.me, log, s.(commits := s.commits + [hash]))
  {
    var s' := s.(commits := s.commits + [hash]);
    assert Signed(log, s') == Signed(log, s);
  }

  lemma FinalizeCommitSane(m: Machine, log: Log, s: Node)
    requires Sane(m.c, m.me, log, s) && s.step == COMMIT
    ensures Sane(m.c, m.me, log, m.FinalizeCommit(s))
  {
    var s' := s.(proposalExecuted := true);
    MoveSane(m, log, s, s');
    if s.commitRound >= 0 {
      var maj := s.votes.Maj23(s.commitRound, Precommit);
      if maj.Some? && maj.value != EMPTY_HASH {
        assert Decided(m.c, Signed(log, s'), maj.value);
        CommitSane(m, log, s', maj.value);
      }
    }
  }

  lemma EnterCommitSane(m: Machine, log: Log, s: Node, commitRound: nat)
    requires Sane(m.c, m.me, log, s) && s.votes.Maj23(commitRound, Precommit).Some?
    requires s.step != NEW_HEIGHT
    ensures Sane(m.c, m.me, log, m.EnterCommit(s, commitRound))
  {
    if s.step < COMMIT {
      var maj := s.votes.Maj23(commitRound, Precommit);
      var s1 := if m.Holds(s.lockedBlock, maj.value)
                then s.(proposalBlockHash := maj, proposalBlock := s.lockedBlock, proposalExecuted := s.lockedExecuted)
                else s;
      var s2 := if m.Holds(s1.proposalBlock, maj.value) then s1
                else s1.(proposalBlock := None, proposalBlockHash := maj, proposalExecuted := false);
      var s3 := s2.(step := COMMIT, commitRound := commitRound);
      MoveSane(m, log, s, s3);
      FinalizeCommitSane(m, log, s3);
    }
  }

  lemma TryUnlockSane(m: Machine, log: Log, s: Node, round: nat)
    requires Sane(m.c, m.me, log, s)
    ensures Sane(m.c, m.me, log, m.TryUnlock(s, round))
  {
    var s' := m.TryUnlock(s, round);
    if s' != s {
      assert Signed(log, s') == Signed(log, s);
      Relock(m.c, Signed(log, s), m.me, s, s', round, s.votes.Maj23(round, Prevote).value);
    }
  }

  lemma NotePrevotesSane(m: Machine, log: Log, s: Node, round: nat)
    requires Sane(m.c, m.me, log, s)
    ensures Sane(m.c, m.me, log, m.NotePrevotes(s, round))
  {
    var s1 := m.TryUnlock(s, round);
    TryUnlockSane(m, log, s, round);
    FollowMajoritySane(m, log, s1, round);
  }

  lemma FollowMajorityFrame(m: Machine, s: Node, round: nat)
    ensures var s' := m.FollowMajority(s, round);
      s' == s.(proposalBlock := s'.proposalBlock, proposalBlockHash := s'.proposalBlockHash,
               proposalExecuted := s'.proposalExecuted, validRound := s'.validRound, validBlock := s'.validBlock)
  {
  }

  lemma FollowMajoritySane(m: Machine, log: Log, s: Node, round: nat)
    requires Sane(m.c, m.me, log, s)
    ensures Sane(m.c, m.me, log, m.FollowMajority(s, round))
  {
    hide Machine.FollowMajority;
    FollowMajorityFrame(m, s, round);
    MoveSane(m, log, s, m.FollowMajority(s, round));
  }

  lemma AfterPrevoteCases(m: Machine, s: Node, round: nat)
    ensures var s1, s' := m.NotePrevotes(s, round), m.AfterPrevote(s, round);
      || s' == s1 || s' == m.EnterNewRound(s1, round) || s' == m.EnterPrecommit(s1, s1.round)
      || s' == m.EnterPrevote(s1, s1.round)
      || (s1.votes.TwoThirdsAny(m.c, s1.round, Prevote) && s' == m.EnterPrevoteWait(s1, s1.round))
  {
    hide Machine.NotePrevotes, Machine.EnterNewRound, Machine.EnterPrecommit, Machine.EnterPrevote,
      Machine.EnterPrevoteWait;
  }

  lemma AfterPrevoteSane(m: Machine, log: Log, s: Node, round: nat)
    requires Sane(m.c, m.me, log, s)
    ensures Sane(m.c, m.me, log, m.AfterPrevote(s, round))
  {
    hide *;
    var s1 := m.NotePrevotes(s, round);
    AfterPrevoteCases(m, s, round);
    NotePrevotesSane(m, log, s, round);
    EnterNewRoundSane(m, log, s1, round);
    EnterPrecommitSane(m, log, s1);
    EnterPrevoteSane(m, log, s1);
    if s1.votes.TwoThirdsAny(m.c, s1.round, Prevote) {
      EnterPrevoteWaitSane(m, log, s1);
    }
  }

  lemma EnterPrecommitAt(m: Machine, log: Log, s: Node, round: nat)
    requires Sane(m.c, m.me, log, s) && round <= s.round
    ensures Sane(m.c, m.me, log, m.EnterPrecommit(s, round))
    ensures m.EnterPrecommit(s, round).votes == s.votes && m.EnterPrecommit(s, round).round == s.round
    ensures s.step <= m.EnterPrecommit(s, round).step
  {
    if round == s.round {
      EnterPrecommitSane(m, log, s);
    }
    EnterPrecommitFrame(m, s, round);
  }

  lemma EnterPrecommitFrame(m: Machine, s: Node, round: nat)
    requires round <= s.round && !m.EnterPrecommit(s, round).broken
    ensures m.EnterPrecommit(s, round).votes == s.votes && m.EnterPrecommit(s, round).round == s.round
    ensures s.step <= m.EnterPrecommit(s, round).step
  {
  }

  lemma EnterNewRoundLeavesStart(m: Machine, s: Node, round: nat)
    ensures m.EnterNewRound(s, round).step != NEW_HEIGHT || m.EnterNewRound(s, round) == s
    ensures round == s.round ==> m.EnterNewRound(s, round).step != NEW_HEIGHT
  {
  }

  lemma AfterPrecommitSane(m: Machine, log: Log, s: Node, round: nat)
    requires Sane(m.c, m.me, log, s)
    ensures Sane(m.c, m.me, log, m.AfterPrecommit(s, round))
  {
    var maj := s.votes.Maj23(round, Precommit);
    EnterNewRoundSane(m, log, s, round);
    EnterNewRoundLeavesStart(m, s, round);
    var s1 := m.EnterNewRound(s, round);
    if maj.Some? {
      EnterPrecommitAt(m, log, s1, round);
      var s2 := m.EnterPrecommit(s1, round);
      assert s2.votes.Maj23(round, Precommit) == maj;
      if maj.value != EMPTY_HASH {
        EnterCommitSane(m, log, s2, round);
        EnterNewRoundSane(m, log, m.EnterCommit(s2, round), 0);
      } else {
        EnterPrecommitWaitSane(m, log, s2, round);
      }
    } else if s.round <= round && s.votes.TwoThirdsAny(m.c, round, Precommit) {
      EnterPrecommitWaitSane(m, log, s1, round);
    }
  }

  lemma AddProposalBlockSane(m: Machine, log: Log, s: Node, block: Block)
    requires Sane(m.c, m.me, log, s)
    ensures Sane(m.c, m.me, log, m.AddProposalBlock(s, block))
  {
    var s1 := m.AcceptBlock(s, block);
    MoveSane(m, log, s, s1);
    EnterPrevoteSane(m, log, s1);
    var s2 := m.EnterPrevote(s1, s1.round);
    EnterPrecommitSane(m, log, s2);
    if s1.step == COMMIT {
      FinalizeCommitSane(m, log, s1);
    }
  }

  lemma PrecommitTimeout(m: Machine, log: Log, s: Node)
    requires Sane(m.c, m.me, log, s)
    ensures Sane(m.c, m.me, log, m.EnterNewRound(m.EnterPrecommit(s, s.round), s.round + 1))
  {
    hide *;
    EnterPrecommitSane(m, log, s);
    EnterNewRoundSane(m, log, m.EnterPrecommit(s, s.round), s.round + 1);
  }

  lemma HandleTimeoutCases(m: Machine, s: Node, height: nat, ti: Timeout)
    requires ti.round <= s.round && ti.step in {NEW_HEIGHT, PROPOSE, PREVOTE_WAIT, PRECOMMIT_WAIT}
    ensures var s' := m.HandleTimeout(s, height, ti);
      || s' == s || s' == m.EnterNewRound(s, 0) || s' == m.EnterPrevote(s, s.round)
        || s' == m.EnterPrecommit(s, s.round)
      || s' == m.EnterNewRound(m.EnterPrecommit(s, s.round), s.round + 1)
  {
  }

  lemma TimerKnown(m: Machine, log: Log, s: Node, ti: Timeout)
    requires Sane(m.c, m.me, log, s) && ti in s.timeouts
    ensures ti.round <= s.round && ti.step in {NEW_HEIGHT, PROPOSE, PREVOTE_WAIT, PRECOMMIT_WAIT}
  {
  }

  lemma HandleTimeoutSane(m: Machine, log: Log, s: Node, height: nat, ti: Timeout)
    requires Sane(m.c, m.me, log, s) && ti in s.timeouts
    ensures Sane(m.c, m.me, log, m.HandleTimeout(s, height, ti))
  {
    hide *;
    TimerKnown(m, log, s, ti);
    HandleTimeoutCases(m, s, height, ti);
    EnterNewRoundSane(m, log, s, 0);
    EnterPrevoteSane(m, log, s);
    EnterPrecommitSane(m, log, s);
    PrecommitTimeout(m, log, s);
  }

  // ---- Incoming votes ----

  lemma BooksSupport(c: Committee, log: Log, hv: HeightVotes)
    requires Books(c, log, hv)
    ensures Supported(c, log, hv)
  {
    forall r, k | hv.Maj23(r, k).Some?
      ensures HasQuorum(c, log, k, r, hv.Maj23(r, k).value) && hv.TwoThirdsAny(c, r, k)
    {
      var hash := hv.Maj23(r, k).value;
      MajorityCounted(c, hv, r, k, hash);
      var counted := hv.rounds[r].Of(k).tallies[hash].votes.Keys;
      forall i | i in counted && i < |c.powers| ensures i in Backers(c, log, k, r, hash) {
        assert hv.Counts(r, k, hash, i);
      }
      PowerMonotone(c.powers, counted, Backers(c, log, k, r, hash));
    }
  }

  /** Signatures cannot be forged: a vote that verifies for an honest validator is in the log. */
  predicate Unforged(c: Committee, log: Log, v: Vote) {
    c.Verifies(v) && c.Honest(v.index) && v.height == c.height && v.scheme == c.scheme ==> v in log
  }

  lemma AddVoteBooks(c: Committee, log: Log, hv: HeightVotes, v: Vote, peer: Peer)
    requires Books(c, log, hv) && Unforged(c, log, v)
    ensures Books(c, log, hv.AddVote(c, v, peer).0)
  {
    AddVoteKeeps(c, hv, v, peer);
    var hv' := hv.AddVote(c, v, peer).0;
    forall r, k, h, i | hv'.Counts(r, k, h, i) && c.Honest(i) ensures Cast(log, k, r, h, i) {
      if !hv.Counts(r, k, h, i) {
        var a :| 0 <= a < |log| && log[a] == v;
        assert IsBallot(log[a], k, r, h, i);
      }
    }
  }

  lemma SetPeerBooks(c: Committee, log: Log, hv: HeightVotes, round: nat, kind: VoteType, peer: Peer, hash: Hash)
    requires Books(c, log, hv)
    ensures Books(c, log, hv.SetPeer(round, kind, peer, hash))
  {
    SetPeerKeeps(c, hv, round, kind, peer, hash);
    var hv' := hv.SetPeer(round, kind, peer, hash);
    assert forall r :: r in hv'.rounds ==>
      BookValid(c, r, Prevote, hv'.rounds[r].prevotes) && BookValid(c, r, Precommit, hv'.rounds[r].precommits);
  }

  lemma ReceiveSane(c: Committee, me: nat, log: Log, s: Node, hv: HeightVotes)
    requires Sane(c, me, log, s) && Books(c, Signed(log, s), hv) && hv.round == s.votes.round
    ensures Sane(c, me, log, s.(votes := hv))
  {
    var s' := s.(votes := hv);
    assert Signed(log, s') == Signed(log, s);
    BooksSupport(c, Signed(log, s), hv);
    assert KeepsLocks(c, Signed(log, s), me, s');
  }

  lemma AddVoteSane(m: Machine, log: Log, s: Node, v: Vote, peer: Peer)
    requires Sane(m.c, m.me, log, s) && Unforged(m.c, Signed(log, s), v)
    ensures Sane(m.c, m.me, log, m.AddVote(s, v, peer))
  {
    AddVoteBooks(m.c, Signed(log, s), s.votes, v, peer);
    var s' := s.(votes := s.votes.AddVote(m.c, v, peer).0);
    ReceiveSane(m.c, m.me, log, s, s'.votes);
    AfterPrevoteSane(m, log, s', v.round);
    AfterPrecommitSane(m, log, s', v.round);
  }

  lemma SetProposalSane(m: Machine, log: Log, s: Node, p: Proposal, signatureOk: bool)
    requires Sane(m.c, m.me, log, s)
    ensures Sane(m.c, m.me, log, m.SetProposal(s, p, signatureOk))
  {
    MoveSane(m, log, s, m.SetProposal(s, p, signatureOk));
  }

  /** What the surroundings can make happen: timers that were set, and votes nobody forged. */
  predicate Possible(c: Committee, log: Log, s: Node, event: Event) {
    match event
    case TimerFired(height, timeout) => height == c.height ==> timeout in s.timeouts
    case VoteArrived(v, _) => Unforged(c, log, v)
    case _ => true
  }

  /** Whatever happens, a node keeps its invariants. */
  lemma HandleSane(m: Machine, log: Log, s: Node, event: Event)
    requires Sane(m.c, m.me, log, s) && s.outbox == [] && Possible(m.c, log, s, event)
    ensures Sane(m.c, m.me, log, m.Handle(s, event))
  {
    assert Signed(log, s) == log;
    match event
    case TimerFired(height, timeout) =>
      if height == m.c.height {
        HandleTimeoutSane(m, log, s, height, timeout);
      }
    case ProposalArrived(proposal, signatureOk) => SetProposalSane(m, log, s, proposal, signatureOk);
    case BlockArrived(block) => AddProposalBlockSane(m, log, s, block);
    case VoteArrived(vote, peer) => AddVoteSane(m, log, s, vote, peer);
    case PeerClaimed(height, round, kind, peer, hash) =>
      SetPeerBooks(m.c, log, s.votes, round, kind, peer, hash);
      ReceiveSane(m.c, m.me, log, s, s.votes.SetPeer(round, kind, peer, hash));
  }
}
