/** A node does not wait for what it has: it prevotes once the proposal is complete, and not before
unless time is up; and it moves on with the block, or the votes, that it was waiting for. */
module Prompt {
  import opened Ballots
  import opened RoundBooks
  import opened StateSpec
  import opened Agreement
  import opened Protocol
  import opened Network
  import opened Answers
  import Progress
  import VoteBooks

  /** A node that waits for the proposal does not have all of it, and no block comes before its
      proposal. */
  predicate Waits(s: Node) {
    && (s.step == PROPOSE ==> !Complete(s))
    && (s.step <= PROPOSE && s.proposal.None? ==> s.proposalBlock.None?)
  }

  lemma PrevoteWaits(m: Machine, s: Node)
    requires m.env.preprocess != Committed
    ensures Waits(m.EnterPrevote(s, s.round))
  {
    hide Machine.EnterPrevote, Complete;
    PrevoteMoves(m, s);
  }

  lemma LaterWaits(s: Node, s': Node)
    requires Waits(s) && Stays(s, s') && s'.proposalBlock in {None, s.proposalBlock}
    requires s'.step == s.step || s'.step > PROPOSE
    ensures Waits(s')
  {
    hide HeightVotes.Maj23;
  }

  lemma PrevoteWaitSteps(m: Machine, s: Node)
    ensures var t := m.EnterPrevoteWait(s, s.round).step; t == s.step || t > PROPOSE
  {
    hide HeightVotes.TwoThirdsAny;
  }

  lemma PrecommitSteps(m: Machine, s: Node, round: nat)
    requires round <= s.round
    ensures var t := m.EnterPrecommit(s, round).step; t == s.step || t > PROPOSE
  {
    hide HeightVotes.Maj23, HeightVotes.POLInfo, Machine.PrecommitMajority;
    forall hash { MajorityStays(m, s, round, hash); }
  }

  lemma VotingWaits(m: Machine, s: Node, round: nat)
    requires Waits(s) && round <= s.round
    ensures Waits(m.EnterPrevoteWait(s, s.round)) && Waits(m.EnterPrecommit(s, round))
    ensures Waits(m.EnterPrecommitWait(s, round))
  {
    hide Waits, Machine.EnterPrevoteWait, Machine.EnterPrecommit, Machine.EnterPrecommitWait, HeightVotes.TwoThirdsAny;
    PrevoteWaitStays(m, s);
    PrevoteWaitSteps(m, s);
    LaterWaits(s, m.EnterPrevoteWait(s, s.round));
    PrecommitStays(m, s, round);
    PrecommitSteps(m, s, round);
    LaterWaits(s, m.EnterPrecommit(s, round));
    PrecommitWaitStays(m, s, round);
    LaterWaits(s, m.EnterPrecommitWait(s, round));
  }

  lemma ProposeWaits(m: Machine, s: Node)
    requires m.env.preprocess != Committed && s.step < PROPOSE && Waits(s)
    ensures Waits(m.EnterPropose(s, s.round))
  {
    hide Machine.EnterPropose;
    ProposeStays(m, s);
    ProposeMoves(m, s);
  }

  lemma NewRoundWaits(m: Machine, s: Node, round: nat)
    requires m.env.preprocess != Committed && (round == 0 ==> Waits(s))
    ensures m.EnterNewRound(s, round) == s || Waits(m.EnterNewRound(s, round))
  {
    hide Machine.EnterPropose, HeightVotes.Maj23, HeightVotes.SetRound;
    if !(round < s.round || (s.round == round && s.step != NEW_HEIGHT)) {
      StartWaits(m, s, round);
      var s1 := m.StartRound(s, round);
      var s2 := s1.(votes := s1.votes.SetRound(m.c, round + 1), triggeredTimeoutPrecommit := false);
      ProposeWaits(m, s2);
    }
  }

  lemma StartWaits(m: Machine, s: Node, round: nat)
    requires round == 0 ==> s.round == 0 && s.step == NEW_HEIGHT && Waits(s)
    ensures m.StartRound(s, round).proposal.None? ==> m.StartRound(s, round).proposalBlock.None?
    ensures m.StartRound(s, round).step == NEW_ROUND
  {
  }

  lemma CommitWaits(m: Machine, s: Node, round: nat)
    requires Waits(s)
    ensures Waits(m.EnterCommit(s, round)) && Waits(m.FinalizeCommit(s))
  {
    hide Machine.FinalizeCommit, Machine.AdoptBlock, HeightVotes.Maj23;
    FinalizeFrame(m, s);
    forall hash { FinalizeFrame(m, m.AdoptBlock(s, hash).(step := COMMIT, commitRound := round)); }
  }

  /** As far as a prevote of this round has not been answered. */
  predicate WaitsBut(s: Node, round: nat) {
    && (s.step == PROPOSE && Complete(s) ==> s.proposal.value.POLRound == round)
    && (s.step <= PROPOSE && s.proposal.None? ==> s.proposalBlock.None?)
  }

  lemma NoteWaits(m: Machine, s: Node, round: nat)
    requires WaitsBut(s, round)
    ensures WaitsBut(m.NotePrevotes(s, round), round)
  {
    hide Machine.NotePrevotes, HeightVotes.Maj23;
    NoteFrame(m, s, round);
  }

  lemma AfterPrevoteWaits(m: Machine, s: Node, round: nat)
    requires m.env.preprocess != Committed && WaitsBut(s, round)
    requires s.votes.Maj23(round, Prevote).Some? ==> s.votes.TwoThirdsAny(m.c, round, Prevote)
    ensures Waits(m.AfterPrevote(s, round))
  {
    hide Machine.NotePrevotes, Machine.EnterNewRound, Machine.EnterPrecommit, Machine.EnterPrevote,
      Machine.EnterPrevoteWait, HeightVotes.TwoThirdsAny, HeightVotes.Maj23;
    var s1 := m.NotePrevotes(s, round);
    NoteFrame(m, s, round);
    NoteWaits(m, s, round);
    if s1.round < round {
      NewRoundWaits(m, s1, round);
      NewRoundEnters(m, s1, round);
    }
    if s1.step > PROPOSE {
      VotingWaits(m, s1, s1.round);
    }
    PrevoteWaits(m, s1);
  }

  lemma AfterPrecommitWaits(m: Machine, s: Node, round: nat)
    requires m.env.preprocess != Committed && Waits(s)
    ensures Waits(m.AfterPrecommit(s, round))
  {
    hide Machine.EnterNewRound, Machine.EnterPrecommit, Machine.EnterCommit, Machine.EnterPrecommitWait,
      HeightVotes.TwoThirdsAny, HeightVotes.Maj23, Waits;
    NewRoundEnters(m, s, round);
    NewRoundWaits(m, s, round);
    var s1 := m.EnterNewRound(s, round);
    PrecommitStays(m, s1, round);
    VotingWaits(m, s1, round);
    var s2 := m.EnterPrecommit(s1, round);
    VotingWaits(m, s2, round);
    CommitWaits(m, s2, round);
    NewRoundWaits(m, m.EnterCommit(s2, round), 0);
  }

  lemma BlockWaits(m: Machine, s: Node, block: Block)
    requires m.env.preprocess != Committed && Waits(s)
    ensures Waits(m.AddProposalBlock(s, block))
  {
    hide Machine.EnterPrevote, Machine.EnterPrecommit, Machine.FinalizeCommit, Machine.AcceptBlock, HeightVotes.Maj23;
    var s1 := m.AcceptBlock(s, block);
    AcceptFrame(m, s, block);
    PrevoteWaits(m, s1);
    PrevoteStays(m, s1);
    var s2 := m.EnterPrevote(s1, s1.round);
    VotingWaits(m, s2, s2.round);
    FinalizeFrame(m, s1);
  }

  lemma TimeoutWaits(m: Machine, s: Node, height: nat, ti: Timeout)
    requires m.env.preprocess != Committed && Waits(s)
    requires ti.round <= s.round && ti.step in {NEW_HEIGHT, PROPOSE, PREVOTE_WAIT, PRECOMMIT_WAIT}
    ensures Waits(m.HandleTimeout(s, height, ti))
  {
    hide Machine.HandleTimeout, Machine.EnterPrevote, Machine.EnterPrecommit, Machine.EnterNewRound, Waits;
    HandleTimeoutCases(m, s, height, ti);
    NewRoundWaits(m, s, 0);
    PrevoteWaits(m, s);
    VotingWaits(m, s, s.round);
    NewRoundWaits(m, m.EnterPrecommit(s, s.round), s.round + 1);
  }

  lemma ReceivedWaits(m: Machine, s: Node, v: Vote, peer: Peer)
    requires Waits(s)
    ensures var (votes, outcome) := s.votes.AddVote(m.c, v, peer);
      WaitsBut(s.(votes := votes), v.round)
      && (outcome != VoteBooks.Accepted || v.kind == Precommit ==> Waits(s.(votes := votes)))
  {
    hide HeightVotes.AddVote, HeightVotes.Maj23, HeightVotes.TwoThirdsAny;
    VoteTallies(m.c, s.votes, v, peer);
  }

  lemma VoteWaits(m: Machine, log: Log, s: Node, v: Vote, peer: Peer)
    requires m.env.preprocess != Committed && Waits(s)
    requires Sane(m.c, m.me, log, s) && Unforged(m.c, Signed(log, s), v)
    ensures Waits(m.AddVote(s, v, peer))
  {
    hide HeightVotes.AddVote, HeightVotes.Maj23, HeightVotes.TwoThirdsAny, Machine.AfterPrevote,
      Machine.AfterPrecommit, Waits, WaitsBut, Sane;
    var s1 := s.(votes := s.votes.AddVote(m.c, v, peer).0);
    ReceivedWaits(m, s, v, peer);
    Progress.ReceivedSane(m, log, s, v, peer);
    MajorityTurnout(m.c, m.me, log, s1, v.round);
    if s.votes.AddVote(m.c, v, peer).1 == VoteBooks.Accepted {
      if v.kind == Prevote {
        AfterPrevoteWaits(m, s1, v.round);
      } else {
        AfterPrecommitWaits(m, s1, v.round);
      }
    }
  }

  lemma MajorityTurnout(c: Committee, me: nat, log: Log, s: Node, round: nat)
    requires Sane(c, me, log, s)
    ensures s.votes.Maj23(round, Prevote).Some? ==> s.votes.TwoThirdsAny(c, round, Prevote)
  {
    hide HeightVotes.Maj23, HeightVotes.TwoThirdsAny;
  }

  lemma ClaimWaits(m: Machine, s: Node, height: nat, round: nat, kind: VoteType, peer: Peer, hash: Hash)
    requires Waits(s)
    ensures Waits(m.SetVoteMaj23(s, height, round, kind, peer, hash))
  {
    hide HeightVotes.SetPeer, HeightVotes.Maj23, HeightVotes.TwoThirdsAny;
    ClaimTallies(m.c, s.votes, round, kind, peer, hash);
  }

  lemma HandleWaits(m: Machine, log: Log, s: Node, event: Event)
    requires m.env.preprocess != Committed && Waits(s)
    requires Sane(m.c, m.me, log, s) && s.outbox == [] && Possible(m.c, log, s, event)
    ensures Waits(m.Handle(s, event))
  {
    hide Sane, Machine.HandleTimeout, Machine.AddProposalBlock, Machine.AddVote, Machine.SetVoteMaj23,
      HeightVotes.Maj23;
    assert Signed(log, s) == log;
    match event
    case TimerFired(height, timeout) =>
      if height == m.c.height {
        TimerKnown(m, log, s, timeout);
        TimeoutWaits(m, s, height, timeout);
      } else {
        OtherHeightTimer(m, s, height, timeout);
      }
    case ProposalArrived(_, _) =>
    case BlockArrived(block) => BlockWaits(m, s, block);
    case VoteArrived(v, peer) => VoteWaits(m, log, s, v, peer);
    case PeerClaimed(height, round, kind, peer, hash) => ClaimWaits(m, s, height, round, kind, peer, hash);
  }

  /** In every run in which no block turns out to be committed already, a node that waits for the
      proposal does not have it, with its block and the majority that it is based on. */
  lemma {:induction false} RunWaits(c: Committee, start: World, actions: seq<Action>, i: nat)
    requires Fresh(c, start) && i in Run(c, start, actions).nodes
    requires forall a :: a in actions ==> a.env.preprocess != Committed
    ensures Waits(Run(c, start, actions).nodes[i])
  {
    hide Sane, Possible, Machine.Handle, Waits;
    if actions == [] {
      StartWaiting(c, start, i);
    } else {
      var before, a := actions[..|actions| - 1], actions[|actions| - 1];
      var w := Run(c, start, before);
      RunSane(c, start, before);
      NodesRemain(c, start, before);
      NodesRemain(c, start, actions);
      assert actions == before + [a];
      RunWaits(c, start, before, i);
      if a.i == i && Possible(c, w.log, Idle(w, i), a.event) {
        assert Waits(Idle(w, i)) by { IdleWaits(w, i); }
        HandleWaits(Machine(c, i, a.env), w.log, Idle(w, i), a.event);
      }
    }
  }

  lemma StartWaiting(c: Committee, start: World, i: nat)
    requires Fresh(c, start) && i in start.nodes
    ensures Waits(start.nodes[i])
  {
  }

  lemma IdleWaits(w: World, i: nat)
    requires i in w.nodes && Waits(w.nodes[i])
    ensures Waits(Idle(w, i))
  {
  }

  // ---- Nothing is done too early ----

  /** There is a proposal, and the majority that it is based on is known. */
  predicate PolKnown(s: Node) {
    s.proposal.Some? &&
    (s.proposal.value.POLRound < 0 || s.votes.Maj23(s.proposal.value.POLRound, Prevote).Some?)
  }

  /** No prevote is signed. */
  predicate Quiet(s: Node, s': Node) {
    s.outbox <= s'.outbox && forall k :: |s.outbox| <= k < |s'.outbox| ==> s'.outbox[k].kind == Precommit
  }

  predicate Caused(s: Node, s': Node) {
    s.outbox <= s'.outbox && (Quiet(s, s') || PolKnown(s'))
  }

  /** What is committed is the proposal, whose block is at hand and has a precommit majority. */
  predicate Commits(s: Node, s': Node) {
    s'.commits == s.commits ||
    (s'.step == COMMIT && s'.commitRound >= 0 && s'.proposal.Some? && s'.proposalBlock.Some? &&
     var hash := s'.proposal.value.hash;
     && s'.commits == s.commits + [hash] && s'.proposalBlock.value.hash == hash != EMPTY_HASH
     && s'.votes.Maj23(s'.commitRound, Precommit) == Some(hash))
  }

  predicate Sober(s: Node, s': Node) {
    Caused(s, s') && Commits(s, s')
  }

  lemma SoberThen(s: Node, s1: Node, s2: Node)
    requires Sober(s, s1) && Quiet(s1, s2) && s1.commits == s.commits && Commits(s1, s2)
    requires s2.proposal == s1.proposal && s2.votes == s1.votes
    ensures Sober(s, s2)
  {
    hide HeightVotes.Maj23;
  }

  lemma QuietMajority(m: Machine, s: Node, round: nat, hash: Hash)
    ensures Quiet(s, m.PrecommitMajority(s, round, hash))
  {
    var s' := m.Relock(s, round, hash);
    RelockOutbox(m, s, round, hash);
    BallotsAre(m, s.round, Precommit, EMPTY_HASH);
    BallotsAre(m, s.round, Precommit, hash);
  }

  lemma RelockOutbox(m: Machine, s: Node, round: nat, hash: Hash)
    ensures m.Relock(s, round, hash).outbox == s.outbox && m.Relock(s, round, hash).round == s.round
  {
  }

  lemma BallotsAre(m: Machine, round: nat, kind: VoteType, hash: Hash)
    ensures forall k :: 0 <= k < |m.Ballots(round, kind, hash)| ==> m.Ballots(round, kind, hash)[k].kind == kind
  {
  }

  lemma QuietPrecommit(m: Machine, s: Node, round: nat)
    requires round <= s.round
    ensures Quiet(s, m.EnterPrecommit(s, round))
  {
    hide HeightVotes.Maj23, HeightVotes.POLInfo, Machine.PrecommitMajority, Machine.Ballots;
    BallotsAre(m, s.round, Precommit, EMPTY_HASH);
    forall hash { QuietMajority(m, s, round, hash); }
  }

  lemma QuietWaits(m: Machine, s: Node, round: nat)
    ensures m.EnterPrevoteWait(s, round).outbox == s.outbox == m.EnterPrecommitWait(s, round).outbox
  {
    hide HeightVotes.TwoThirdsAny;
  }

  lemma PrevoteGrows(m: Machine, s: Node, round: nat)
    ensures s.outbox <= m.EnterPrevote(s, round).outbox
  {
    hide Machine.Ballots;
  }

  lemma ProposeSober(m: Machine, s: Node)
    ensures Sober(s, m.EnterPropose(s, s.round))
  {
    hide Machine.EnterPrevote, HeightVotes.Maj23;
    var s' := m.At(m.Schedule(s, s.round, PROPOSE), s.round, PROPOSE);
    PrevoteStays(m, s');
    PrevoteGrows(m, s', s.round);
  }

  lemma NewRoundSober(m: Machine, s: Node, round: nat)
    ensures Sober(s, m.EnterNewRound(s, round)) && m.EnterNewRound(s, round).commits == s.commits
  {
    hide Machine.EnterPropose, HeightVotes.SetRound, HeightVotes.Maj23, Commits;
    NewRoundEnters(m, s, round);
    var s1 := m.StartRound(s, round);
    ProposeSober(m, s1.(votes := s1.votes.SetRound(m.c, round + 1), triggeredTimeoutPrecommit := false));
    assert Commits(s, m.EnterNewRound(s, round)) by { Uncommitted(s, m.EnterNewRound(s, round)); }
  }

  lemma Uncommitted(s: Node, s': Node)
    requires s'.commits == s.commits
    ensures Commits(s, s')
  {
  }

  lemma FinalizeSober(m: Machine, s: Node)
    ensures var s' := m.FinalizeCommit(s); s'.outbox == s.outbox && Commits(s, s')
  {
    hide HeightVotes.Maj23;
  }

  lemma CommitSober(m: Machine, s: Node, round: nat)
    ensures var s' := m.EnterCommit(s, round); s'.outbox == s.outbox && Commits(s, s')
  {
    hide HeightVotes.Maj23, Machine.FinalizeCommit, Machine.AdoptBlock;
    forall hash { AdoptFrame(m, s, hash); }
    forall hash { AdoptOutbox(m, s, hash); }
    forall hash { FinalizeSober(m, m.AdoptBlock(s, hash).(step := COMMIT, commitRound := round)); }
  }

  lemma AdoptOutbox(m: Machine, s: Node, hash: Hash)
    ensures m.AdoptBlock(s, hash).outbox == s.outbox
  {
  }

  lemma NoteOutbox(m: Machine, s: Node, round: nat)
    ensures m.NotePrevotes(s, round).outbox == s.outbox
  {
    hide HeightVotes.Maj23;
  }

  lemma AfterPrevoteSober(m: Machine, s: Node, round: nat)
    ensures Sober(s, m.AfterPrevote(s, round))
  {
    hide Machine.NotePrevotes, Machine.EnterNewRound, Machine.EnterPrecommit, Machine.EnterPrevote,
      Machine.EnterPrevoteWait, HeightVotes.TwoThirdsAny, HeightVotes.Maj23;
    var s1 := m.NotePrevotes(s, round);
    NoteFrame(m, s, round);
    NoteOutbox(m, s, round);
    NewRoundSober(m, s1, round);
    QuietPrecommit(m, s1, s1.round);
    PrecommitStays(m, s1, s1.round);
    QuietWaits(m, s1, s1.round);
    PrevoteWaitStays(m, s1);
    PrevoteStays(m, s1);
    PrevoteGrows(m, s1, s1.round);
  }

  lemma AfterPrecommitSober(m: Machine, s: Node, round: nat)
    requires Calm(s)
    ensures Sober(s, m.AfterPrecommit(s, round))
  {
    hide Machine.EnterNewRound, Machine.EnterPrecommit, Machine.EnterCommit, Machine.EnterPrecommitWait, Sober,
      HeightVotes.TwoThirdsAny, HeightVotes.Maj23, Quiet, Commits, Calm, Stays;
    var s1 := m.EnterNewRound(s, round);
    NewRoundSober(m, s, round);
    NewRoundEnters(m, s, round);
    AfterStart(s, s1, round);
    WaitSober(m, s, s1, round);
    PrecommitSober(m, s, s1, round);
    var s2 := m.EnterPrecommit(s1, round);
    WaitSober(m, s, s2, round);
    EndSober(m, s, s2, round);
    SoberSelf(s);
  }

  lemma SoberSelf(s: Node)
    ensures Sober(s, s)
  {
  }

  lemma PrecommitSober(m: Machine, s: Node, s1: Node, round: nat)
    requires Sober(s, s1) && s1.commits == s.commits && round <= s1.round
    ensures var s2 := m.EnterPrecommit(s1, round);
      Sober(s, s2) && s2.commits == s.commits && s2.round == s1.round && s1.step <= s2.step
  {
    hide Machine.EnterPrecommit, Sober, Quiet;
    QuietPrecommit(m, s1, round);
    PrecommitStays(m, s1, round);
    Uncommitted(s1, m.EnterPrecommit(s1, round));
    SoberThen(s, s1, m.EnterPrecommit(s1, round));
  }

  lemma WaitSober(m: Machine, s: Node, s1: Node, round: nat)
    requires Sober(s, s1) && s1.commits == s.commits && round <= s1.round
    ensures Sober(s, m.EnterPrecommitWait(s1, round))
  {
    hide Machine.EnterPrecommitWait, Sober;
    QuietWaits(m, s1, round);
    PrecommitWaitStays(m, s1, round);
    SoberThen(s, s1, m.EnterPrecommitWait(s1, round));
  }

  /** The step after the commit does nothing. */
  lemma EndSober(m: Machine, s: Node, s2: Node, round: nat)
    requires Sober(s, s2) && s2.commits == s.commits && NEW_HEIGHT < s2.step
    ensures Sober(s, m.EnterNewRound(m.EnterCommit(s2, round), 0))
  {
    hide Machine.EnterNewRound, Machine.EnterCommit, Sober;
    CommitSober(m, s2, round);
    CommitEnters(m, s2, round);
    var s3 := m.EnterCommit(s2, round);
    CommitSteps(m, s2, round);
    NewRoundEnters(m, s3, 0);
    SoberThen(s, s2, s3);
  }

  lemma CommitSteps(m: Machine, s: Node, round: nat)
    ensures m.EnterCommit(s, round).step >= s.step
  {
    hide HeightVotes.Maj23, Machine.FinalizeCommit, Machine.AdoptBlock;
    forall hash { FinalizeFrame(m, m.AdoptBlock(s, hash).(step := COMMIT, commitRound := round)); }
  }

  lemma BlockSober(m: Machine, s: Node, block: Block)
    ensures Sober(s, m.AddProposalBlock(s, block))
  {
    hide Machine.EnterPrevote, Machine.EnterPrecommit, Machine.FinalizeCommit, Machine.AcceptBlock, HeightVotes.Maj23;
    var s1 := m.AcceptBlock(s, block);
    AcceptFrame(m, s, block);
    AcceptOutbox(m, s, block);
    PrevoteStays(m, s1);
    PrevoteGrows(m, s1, s1.round);
    var s2 := m.EnterPrevote(s1, s1.round);
    QuietPrecommit(m, s2, s2.round);
    PrecommitStays(m, s2, s2.round);
    FinalizeSober(m, s1);
  }

  lemma AcceptOutbox(m: Machine, s: Node, block: Block)
    ensures m.AcceptBlock(s, block).outbox == s.outbox
  {
    hide HeightVotes.Maj23;
  }

  lemma TimeoutSober(m: Machine, s: Node, height: nat, ti: Timeout)
    requires ti.round <= s.round && ti.step in {NEW_HEIGHT, PREVOTE_WAIT, PRECOMMIT_WAIT}
    ensures Sober(s, m.HandleTimeout(s, height, ti))
  {
    hide Machine.EnterPrecommit, Machine.EnterNewRound, Sober, HeightVotes.Maj23;
    SoberSelf(s);
    NewRoundSober(m, s, 0);
    QuietPrecommit(m, s, s.round);
    PrecommitStays(m, s, s.round);
    var s1 := m.EnterPrecommit(s, s.round);
    NewRoundSober(m, s1, ti.round + 1);
    PrecommitSober(m, s, s, s.round);
    FirstQuiet(s, s1, m.EnterNewRound(s1, ti.round + 1));
  }

  lemma FirstQuiet(s: Node, s1: Node, s2: Node)
    requires Quiet(s, s1) && s1.commits == s.commits && Sober(s1, s2)
    ensures Sober(s, s2)
  {
    hide HeightVotes.Maj23;
  }

  /** A prevote before time is up has the whole proposal as its cause, and a commit is always of the
      node's proposal. */
  lemma HandleSober(m: Machine, log: Log, s: Node, event: Event)
    requires Sane(m.c, m.me, log, s) && Calm(s) && Possible(m.c, log, s, event)
    ensures Commits(s, m.Handle(s, event))
    ensures !(event.TimerFired? && event.timeout.step == PROPOSE) ==> Caused(s, m.Handle(s, event))
  {
    hide Sane, Machine.HandleTimeout, Machine.AddProposalBlock, Machine.AfterPrevote, Machine.AfterPrecommit, Calm,
      HeightVotes.Maj23, HeightVotes.AddVote, HeightVotes.SetPeer;
    match event
    case TimerFired(height, timeout) =>
      if height == m.c.height {
        TimerKnown(m, log, s, timeout);
        if timeout.step == PROPOSE {
          PrevoteTimeout(m, s, timeout);
        } else {
          TimeoutSober(m, s, height, timeout);
        }
      } else {
        OtherHeightTimer(m, s, height, timeout);
      }
    case ProposalArrived(_, _) =>
    case BlockArrived(block) => BlockSober(m, s, block);
    case VoteArrived(v, peer) =>
      var s1 := s.(votes := s.votes.AddVote(m.c, v, peer).0);
      StillCalm(s, s1);
      AfterPrevoteSober(m, s1, v.round);
      AfterPrecommitSober(m, s1, v.round);
    case PeerClaimed(_, _, _, _, _) =>
  }

  lemma PrevoteTimeout(m: Machine, s: Node, ti: Timeout)
    requires ti.round <= s.round && ti.step == PROPOSE
    ensures m.HandleTimeout(s, m.c.height, ti).commits == s.commits
  {
    hide Machine.EnterPrevote;
    PrevoteStays(m, s);
  }

  /** In every run: an honest node prevotes for its round when the time for proposals is up, or when it
      has the proposal of the round and the prevote majority that this is based on. */
  lemma PrevotesHaveCause(c: Committee, start: World, actions: seq<Action>, a: Action, k: nat)
    requires Fresh(c, start)
    requires var w := Run(c, start, actions);
      |w.log| <= k < |Act(c, w, a).log| && Act(c, w, a).log[k].kind == Prevote
    ensures var w' := Act(c, Run(c, start, actions), a);
      a.i in w'.nodes
      && ((a.event.TimerFired? && a.event.timeout.step == PROPOSE) || PolKnown(w'.nodes[a.i]))
  {
    hide Run, Possible, Sane, Machine.Handle, Fresh, Calm, Answered, PolKnown;
    var w := Run(c, start, actions);
    RunSane(c, start, actions);
    var s := Idle(w, a.i);
    RunAnswered(c, start, actions, a.i);
    IdleAnswered(c, w, a.i);
    HandleSober(Machine(c, a.i, a.env), w.log, s, a.event);
  }

  /** And it commits nothing but the block that was proposed to it in its round. */
  lemma CommitsAreProposed(c: Committee, start: World, actions: seq<Action>, a: Action, i: nat)
    requires Fresh(c, start) && i in Run(c, start, actions).nodes
    ensures var w := Run(c, start, actions);
      i in Act(c, w, a).nodes && Commits(w.nodes[i], Act(c, w, a).nodes[i])
  {
    hide Run, Possible, Sane, Machine.Handle, Fresh, Calm, Answered, Commits;
    var w := Run(c, start, actions);
    RunSane(c, start, actions);
    RunAnswered(c, start, actions, i);
    IdleAnswered(c, w, i);
    if a.i == i && Possible(c, w.log, Idle(w, i), a.event) {
      HandleSober(Machine(c, i, a.env), w.log, Idle(w, i), a.event);
      assert Commits(w.nodes[i], Act(c, w, a).nodes[i]) by { IdleCommits(w, i, Act(c, w, a).nodes[i]); }
    } else {
      Uncommitted(w.nodes[i], Act(c, w, a).nodes[i]);
    }
  }

  lemma IdleCommits(w: World, i: nat, s: Node)
    requires i in w.nodes && Commits(Idle(w, i), s)
    ensures Commits(w.nodes[i], s)
  {
    hide HeightVotes.Maj23;
  }
}
