/** Nodes do not stop: what they wait for has a timer, a timer moves them on, and a decided block is
committed as soon as it can be. */
module Progress {
  import opened Ballots
  import opened RoundBooks
  import opened StateSpec
  import opened Agreement
  import opened Protocol
  import opened Network
  import VoteBooks
  import opened Validity

  /** Every step in which a node only waits has its timer. */
  predicate Timed(s: Node) {
    && (s.step in {NEW_HEIGHT, PROPOSE, PREVOTE_WAIT} ==> Timeout(s.round, s.step) in s.timeouts)
    && (s.triggeredTimeoutPrecommit ==> Timeout(s.round, PRECOMMIT_WAIT) in s.timeouts)
  }

  lemma PrevoteTimed(m: Machine, s: Node, round: nat)
    requires Timed(s) && round == s.round
    ensures Timed(m.EnterPrevote(s, round))
  {
    hide Machine.Ballots;
  }

  lemma VotingTimed(m: Machine, s: Node, round: nat)
    requires Timed(s) && round == s.round
    ensures Timed(m.EnterPrevote(s, round)) && Timed(m.EnterPrevoteWait(s, round))
    ensures Timed(m.EnterPropose(s, round))
  {
    hide HeightVotes.TwoThirdsAny, Machine.EnterPrevote, Machine.IsProposalComplete;
    PrevoteTimed(m, s, round);
    PrevoteTimed(m, m.At(m.Schedule(s, round, PROPOSE), round, PROPOSE), round);
  }

  lemma RelockTimed(m: Machine, s: Node, round: nat, hash: Hash)
    ensures var s' := m.PrecommitMajority(s, round, hash);
      s'.round == s.round && s'.step == s.step && s'.timeouts == s.timeouts
      && s'.triggeredTimeoutPrecommit == s.triggeredTimeoutPrecommit
  {
  }

  lemma PrecommitTimed(m: Machine, s: Node, round: nat)
    requires Timed(s) && round <= s.round
    ensures Timed(m.EnterPrecommit(s, round)) && Timed(m.EnterPrecommitWait(s, round))
  {
    hide HeightVotes.Maj23, HeightVotes.TwoThirdsAny, HeightVotes.POLInfo, Machine.PrecommitMajority, Machine.Ballots;
    WaitTimed(m, s, round);
    forall hash { RelockTimed(m, s, round, hash); }
  }

  lemma WaitTimed(m: Machine, s: Node, round: nat)
    requires Timed(s) && round <= s.round
    ensures Timed(m.EnterPrecommitWait(s, round))
  {
    hide HeightVotes.TwoThirdsAny;
  }

  lemma CommitTimed(m: Machine, s: Node, round: nat)
    requires Timed(s)
    ensures Timed(m.EnterCommit(s, round)) && Timed(m.FinalizeCommit(s))
  {
    hide HeightVotes.Maj23, HeightVotes.TwoThirdsAny, HeightVotes.POLInfo, HeightVotes.SetRound;
  }

  lemma NewRoundTimed(m: Machine, s: Node, round: nat)
    requires Timed(s)
    ensures Timed(m.EnterNewRound(s, round)) || m.EnterNewRound(s, round).broken
  {
    hide Machine.EnterPropose;
    var s1 := m.StartRound(s, round);
    var s2 := s1.(votes := s1.votes.SetRound(m.c, round + 1), triggeredTimeoutPrecommit := false);
    VotingTimed(m, s2, round);
  }

  lemma NotBroken(c: Committee, me: nat, log: Log, s: Node)
    requires Sane(c, me, log, s)
    ensures !s.broken
  {
  }

  lemma AfterPrevoteTimed(m: Machine, log: Log, s: Node, round: nat)
    requires Sane(m.c, m.me, log, s) && Timed(s)
    ensures Timed(m.AfterPrevote(s, round))
  {
    hide Timed, Sane, Machine.AfterPrevote, Machine.NotePrevotes, Machine.EnterNewRound, Machine.EnterPrecommit,
      Machine.EnterPrevote, Machine.EnterPrevoteWait;
    var s1 := m.NotePrevotes(s, round);
    AfterPrevoteCases(m, s, round);
    NoteTimed(m, s, round);
    NotePrevotesSane(m, log, s, round);
    EnterNewRoundSane(m, log, s1, round);
    NotBroken(m.c, m.me, log, m.EnterNewRound(s1, round));
    NewRoundTimed(m, s1, round);
    VotingTimed(m, s1, s1.round);
    PrecommitTimed(m, s1, s1.round);
  }

  lemma NoteTimed(m: Machine, s: Node, round: nat)
    requires Timed(s)
    ensures Timed(m.NotePrevotes(s, round))
  {
    hide HeightVotes.Maj23, HeightVotes.TwoThirdsAny, HeightVotes.POLInfo, HeightVotes.SetRound;
  }

  lemma AfterPrecommitTimed(m: Machine, log: Log, s: Node, round: nat)
    requires Sane(m.c, m.me, log, s) && Timed(s)
    ensures Timed(m.AfterPrecommit(s, round))
  {
    hide Timed, Sane, Machine.EnterNewRound, Machine.EnterPrecommit, Machine.EnterCommit, Machine.EnterPrecommitWait;
    var s1 := m.EnterNewRound(s, round);
    EnterNewRoundSane(m, log, s, round);
    NotBroken(m.c, m.me, log, s1);
    NewRoundTimed(m, s, round);
    PrecommitTimed(m, s1, round);
    EnterPrecommitAt(m, log, s1, round);
    var s2 := m.EnterPrecommit(s1, round);
    PrecommitTimed(m, s2, round);
    CommitTimed(m, s2, round);
    NewRoundTimed(m, m.EnterCommit(s2, round), 0);
    var maj := s.votes.Maj23(round, Precommit);
    if maj.Some? && maj.value != EMPTY_HASH {
      StaysCommitted(m, log, s, round);
    }
  }

  /** The last step after a commit does nothing: no exception there. */
  lemma StaysCommitted(m: Machine, log: Log, s: Node, round: nat)
    requires Sane(m.c, m.me, log, s)
    requires s.votes.Maj23(round, Precommit).Some? && s.votes.Maj23(round, Precommit).value != EMPTY_HASH
    ensures var s2 := m.EnterPrecommit(m.EnterNewRound(s, round), round);
      !m.EnterNewRound(m.EnterCommit(s2, round), 0).broken
  {
    hide Sane, Machine.EnterNewRound, Machine.EnterPrecommit, Machine.EnterCommit, Machine.EnterPrecommitWait;
    AfterPrecommitSane(m, log, s, round);
    NotBroken(m.c, m.me, log, m.AfterPrecommit(s, round));
  }

  lemma BlockTimed(m: Machine, s: Node, block: Block)
    requires Timed(s)
    ensures Timed(m.AddProposalBlock(s, block))
  {
    hide Timed, Machine.EnterPrecommit, Machine.EnterPrevote, Machine.FinalizeCommit;
    var s1 := m.AcceptBlock(s, block);
    AcceptTimed(m, s, block);
    VotingTimed(m, s1, s1.round);
    var s2 := m.EnterPrevote(s1, s1.round);
    PrecommitTimed(m, s2, s2.round);
    CommitTimed(m, s1, 0);
  }

  lemma AcceptTimed(m: Machine, s: Node, block: Block)
    requires Timed(s)
    ensures Timed(m.AcceptBlock(s, block))
  {
  }

  lemma TimeoutTimed(m: Machine, log: Log, s: Node, height: nat, ti: Timeout)
    requires Sane(m.c, m.me, log, s) && Timed(s) && ti in s.timeouts
    ensures Timed(m.HandleTimeout(s, height, ti))
  {
    hide Timed, Sane, Machine.HandleTimeout, Machine.EnterPrecommit, Machine.EnterPrevote, Machine.EnterNewRound;
    TimerKnown(m, log, s, ti);
    HandleTimeoutCases(m, s, height, ti);
    EnterNewRoundSane(m, log, s, 0);
    NotBroken(m.c, m.me, log, m.EnterNewRound(s, 0));
    NewRoundTimed(m, s, 0);
    VotingTimed(m, s, s.round);
    PrecommitTimed(m, s, s.round);
    PrecommitTimeout(m, log, s);
    NotBroken(m.c, m.me, log, m.EnterNewRound(m.EnterPrecommit(s, s.round), s.round + 1));
    NewRoundTimed(m, m.EnterPrecommit(s, s.round), s.round + 1);
  }

  lemma VoteTimed(m: Machine, log: Log, s: Node, v: Vote, peer: Peer)
    requires Sane(m.c, m.me, log, s) && Unforged(m.c, Signed(log, s), v) && Timed(s)
    ensures Timed(m.AddVote(s, v, peer))
  {
    hide Sane, Machine.AfterPrevote, Machine.AfterPrecommit, HeightVotes.AddVote;
    var s' := s.(votes := s.votes.AddVote(m.c, v, peer).0);
    ReceivedSane(m, log, s, v, peer);
    AfterPrevoteTimed(m, log, s', v.round);
    AfterPrecommitTimed(m, log, s', v.round);
  }

  lemma ReceivedSane(m: Machine, log: Log, s: Node, v: Vote, peer: Peer)
    requires Sane(m.c, m.me, log, s) && Unforged(m.c, Signed(log, s), v)
    ensures Sane(m.c, m.me, log, s.(votes := s.votes.AddVote(m.c, v, peer).0))
  {
    hide HeightVotes.AddVote;
    SaneBooks(m.c, m.me, log, s);
    AddVoteBooks(m.c, Signed(log, s), s.votes, v, peer);
    SameRound(m.c, s.votes, v, peer);
    ReceiveSane(m.c, m.me, log, s, s.votes.AddVote(m.c, v, peer).0);
  }

  lemma SaneBooks(c: Committee, me: nat, log: Log, s: Node)
    requires Sane(c, me, log, s)
    ensures Books(c, Signed(log, s), s.votes)
  {
  }

  lemma SameRound(c: Committee, hv: HeightVotes, v: Vote, peer: Peer)
    ensures hv.AddVote(c, v, peer).0.round == hv.round
  {
  }

  lemma HandleTimed(m: Machine, log: Log, s: Node, event: Event)
    requires Sane(m.c, m.me, log, s) && s.outbox == [] && Possible(m.c, log, s, event) && Timed(s)
    ensures Timed(m.Handle(s, event))
  {
    hide Sane, Machine.AddVote, Machine.AddProposalBlock, Machine.HandleTimeout;
    assert Signed(log, s) == log;
    match event
    case TimerFired(height, timeout) =>
      if height == m.c.height {
        TimeoutTimed(m, log, s, height, timeout);
      } else {
        OtherHeightTimer(m, s, height, timeout);
      }
    case ProposalArrived(_, _) =>
    case BlockArrived(block) => BlockTimed(m, s, block);
    case VoteArrived(vote, peer) => VoteTimed(m, log, s, vote, peer);
    case PeerClaimed(_, _, _, _, _) =>
  }

  /** In every run, a node that waits for the height to start, for a proposal, or for more votes has
      a timer for it. */
  lemma {:induction false} RunTimed(c: Committee, start: World, actions: seq<Action>, i: nat)
    requires Fresh(c, start) && i in Run(c, start, actions).nodes
    ensures Timed(Run(c, start, actions).nodes[i])
  {
    hide Sane, Possible, Machine.Handle, Timed;
    if actions == [] {
      StartTimed(c, start, i);
    } else {
      var before, a := actions[..|actions| - 1], actions[|actions| - 1];
      var w := Run(c, start, before);
      RunSane(c, start, before);
      RunTimed(c, start, before, i);
      if a.i == i && Possible(c, w.log, Idle(w, i), a.event) {
        IdleTimed(w, i);
        HandleTimed(Machine(c, i, a.env), w.log, Idle(w, i), a.event);
      }
    }
  }

  lemma StartTimed(c: Committee, start: World, i: nat)
    requires Fresh(c, start) && i in start.nodes
    ensures Timed(start.nodes[i])
  {
  }

  lemma IdleTimed(w: World, i: nat)
    requires i in w.nodes && Timed(w.nodes[i])
    ensures Timed(Idle(w, i))
  {
  }

  // ---- What a timer does ----

  lemma PrevoteSigns(m: Machine, s: Node)
    requires s.step == PROPOSE && m.env.canSign && m.env.preprocess != Committed
    ensures var s' := m.EnterPrevote(s, s.round);
      && s'.step == PREVOTE && s'.round == s.round
      && s'.outbox == s.outbox + m.Ballots(s.round, Prevote,
           if s.lockedBlock.Some? then s.lockedBlock.value.hash
           else if s.proposalBlock.Some? && m.env.preprocess == Valid then s.proposalBlock.value.hash
           else EMPTY_HASH)
  {
    hide Machine.Ballots;
  }

  /** What a node that may sign prevotes when its propose timer fires: its lock, or else the block
      that it holds if executing it succeeds, or else nil. */
  lemma ProposeTimeout(m: Machine, s: Node)
    requires s.step == PROPOSE && m.env.canSign && m.env.preprocess != Committed
    ensures var s' := m.Handle(s, TimerFired(m.c.height, Timeout(s.round, PROPOSE)));
      && s'.step == PREVOTE && s'.round == s.round && |s'.outbox| == |s.outbox| + 1
      && var v := s'.outbox[|s.outbox|];
        && v.kind == Prevote && v.round == s.round && v.index == m.me
        && v.hash == if s.lockedBlock.Some? then s.lockedBlock.value.hash
                     else if s.proposalBlock.Some? && m.env.preprocess == Valid then s.proposalBlock.value.hash
                     else EMPTY_HASH
  {
    hide Machine.EnterPrevote, Machine.EnterNewRound, Machine.EnterPropose, Machine.EnterPrecommit;
    PrevoteSigns(m, s);
  }

  /** When the timer of what a node waits for fires, the node moves on, unless it is just committing
      the block that it would execute. */
  lemma TimerMovesOn(m: Machine, log: Log, s: Node, ti: Timeout)
    requires Sane(m.c, m.me, log, s) && Timed(s) && ti in s.timeouts && ti.round == s.round
    requires ti.step == s.step || (ti.step == PRECOMMIT_WAIT && s.triggeredTimeoutPrecommit && s.step <= PRECOMMIT_WAIT)
    requires m.env.preprocess != Committed
    ensures var s' := m.Handle(s, TimerFired(m.c.height, ti));
      if ti.step == NEW_HEIGHT then s'.step >= PROPOSE
      else if ti.step == PROPOSE then s'.step == PREVOTE
      else if ti.step == PREVOTE_WAIT then s'.step == PRECOMMIT
      else s'.round == s.round + 1 && s'.step >= PROPOSE
  {
    hide Sane, Machine.EnterPrecommit, Machine.EnterPrevote, Machine.EnterNewRound;
    TimerKnown(m, log, s, ti);
    PrevoteMoves(m, s);
    PrecommitMoves(m, log, s);
    if s.step == NEW_HEIGHT {
      AtStart(m.c, m.me, log, s);
      NewRoundMoves(m, log, s, 0);
    }
    EnterPrecommitSane(m, log, s);
    NewRoundMoves(m, log, m.EnterPrecommit(s, s.round), s.round + 1);
  }

  lemma AtStart(c: Committee, me: nat, log: Log, s: Node)
    requires Sane(c, me, log, s) && s.step == NEW_HEIGHT
    ensures s.round == 0
  {
  }

  lemma PrevoteMoves(m: Machine, s: Node)
    requires m.env.preprocess != Committed
    ensures s.step < PREVOTE ==> m.EnterPrevote(s, s.round).step == PREVOTE
  {
  }

  lemma PrecommitMoves(m: Machine, log: Log, s: Node)
    requires Sane(m.c, m.me, log, s)
    ensures m.EnterPrecommit(s, s.round).round == s.round
    ensures s.step < PRECOMMIT ==> m.EnterPrecommit(s, s.round).step == PRECOMMIT
  {
    hide Machine.PrecommitMajority;
    EnterPrecommitSane(m, log, s);
    MajorityRound(m, s);
  }

  lemma MajorityRound(m: Machine, s: Node)
    ensures forall hash :: m.PrecommitMajority(s, s.round, hash).round == s.round
  {
  }

  lemma NewRoundMoves(m: Machine, log: Log, s: Node, round: nat)
    requires Sane(m.c, m.me, log, s)
    requires round > s.round || (round == s.round && s.step == NEW_HEIGHT)
    ensures m.EnterNewRound(s, round).round == round && m.EnterNewRound(s, round).step >= PROPOSE
  {
    hide Sane, Machine.EnterPropose;
    EnterNewRoundSane(m, log, s, round);
    NotBroken(m.c, m.me, log, m.EnterNewRound(s, round));
    var s1 := m.StartRound(s, round);
    var s2 := s1.(votes := s1.votes.SetRound(m.c, round + 1), triggeredTimeoutPrecommit := false);
    EnterProposeFrame(m, s2);
    ProposeMoves(m, s2);
  }

  lemma ProposeMoves(m: Machine, s: Node)
    requires s.step == NEW_ROUND
    ensures m.EnterPropose(s, s.round).step >= PROPOSE
  {
  }

  // ---- A decided block is committed ----

  /** A node that holds the proposed block commits it on the vote that completes its majority, or on
      any later one, if executing, sealing and logging succeed. */
  lemma DecidedIsCommitted(m: Machine, log: Log, s: Node, v: Vote, peer: Peer)
    requires Safe(m.c) && Sane(m.c, m.me, log, s) && s.outbox == [] && Unforged(m.c, log, v)
    requires v.height == m.c.height && v.kind == Precommit && v.round == s.round && NEW_HEIGHT < s.step < COMMIT
    requires var (votes, outcome) := s.votes.AddVote(m.c, v, peer);
      outcome == VoteBooks.Accepted && votes.Maj23(s.round, Precommit).Some?
      && var hash := votes.Maj23(s.round, Precommit).value;
        hash != EMPTY_HASH && s.proposal.Some? && s.proposal.value.hash == hash && m.Holds(s.proposalBlock, hash)
    requires m.env.commitExec == Valid && m.env.sealMatches && m.env.walOk
    ensures var hash := s.votes.AddVote(m.c, v, peer).0.Maj23(s.round, Precommit).value;
      m.Handle(s, VoteArrived(v, peer)).commits == s.commits + [hash]
  {
    hide Sane, HeightVotes.AddVote, Machine.EnterPrecommit, Machine.EnterCommit, Machine.EnterNewRound;
    var s' := s.(votes := s.votes.AddVote(m.c, v, peer).0);
    assert Signed(log, s) == log;
    ReceivedSane(m, log, s, v, peer);
    var hash := s'.votes.Maj23(s.round, Precommit).value;
    StaysPut(m, s', s.round);
    PrecommitKeepsBlock(m, log, s', hash);
    var s2 := m.EnterPrecommit(s', s.round);
    CommitsBlock(m, s2, s.round, hash);
    var s3 := m.EnterCommit(s2, s.round);
    StaysPut(m, s3, 0);
  }

  lemma StaysPut(m: Machine, s: Node, round: nat)
    requires round <= s.round && s.step != NEW_HEIGHT
    ensures m.EnterNewRound(s, round) == s
  {
  }

  /** A precommit majority excludes a prevote majority for anything else, so the block is kept. */
  lemma PrecommitKeepsBlock(m: Machine, log: Log, s: Node, hash: Hash)
    requires Safe(m.c) && Sane(m.c, m.me, log, s) && s.step < COMMIT
    requires s.votes.Maj23(s.round, Precommit) == Some(hash) && hash != EMPTY_HASH
    requires s.proposal.Some? && s.proposal.value.hash == hash && m.Holds(s.proposalBlock, hash)
    ensures var s' := m.EnterPrecommit(s, s.round);
      && s'.proposal == s.proposal && m.Holds(s'.proposalBlock, hash) && s'.commits == s.commits
      && s'.votes == s.votes && s'.round == s.round && s'.step < COMMIT && s.step <= s'.step
  {
    hide Sane;
    if s.votes.Maj23(s.round, Prevote).Some? {
      OneMajority(m, log, s, hash);
    }
    EnterPrecommitSane(m, log, s);
    NotBroken(m.c, m.me, log, m.EnterPrecommit(s, s.round));
  }

  lemma MajorityBacked(m: Machine, log: Log, s: Node, kind: VoteType, hash: Hash)
    requires Sane(m.c, m.me, log, s) && s.votes.Maj23(s.round, kind) == Some(hash)
    ensures HasQuorum(m.c, Signed(log, s), kind, s.round, hash)
  {
    hide HasQuorum;
  }

  lemma SaneLog(c: Committee, me: nat, log: Log, s: Node)
    requires Sane(c, me, log, s)
    ensures Disciplined(c, Signed(log, s))
  {
  }

  lemma OneMajority(m: Machine, log: Log, s: Node, hash: Hash)
    requires Safe(m.c) && Sane(m.c, m.me, log, s) && hash != EMPTY_HASH
    requires s.votes.Maj23(s.round, Precommit) == Some(hash) && s.votes.Maj23(s.round, Prevote).Some?
    ensures s.votes.Maj23(s.round, Prevote) == Some(hash)
  {
    hide Sane;
    var L, other := Signed(log, s), s.votes.Maj23(s.round, Prevote).value;
    MajorityBacked(m, log, s, Precommit, hash);
    MajorityBacked(m, log, s, Prevote, other);
    SaneLog(m.c, m.me, log, s);
    var a := HonestBacker(m.c, L, Precommit, s.round, hash);
    assert HasQuorum(m.c, L[..a], Prevote, s.round, hash);
    assert L[..a] + L[a..] == L;
    QuorumGrows(m.c, L[..a], L[a..], Prevote, s.round, hash);
    OneQuorumPerRound(m.c, L, Prevote, s.round, hash, other);
  }

  lemma CommitsBlock(m: Machine, s: Node, round: nat, hash: Hash)
    requires s.step < COMMIT && s.votes.Maj23(round, Precommit) == Some(hash) && hash != EMPTY_HASH
    requires s.proposal.Some? && s.proposal.value.hash == hash && m.Holds(s.proposalBlock, hash)
    requires m.env.commitExec == Valid && m.env.sealMatches && m.env.walOk
    ensures var s' := m.EnterCommit(s, round);
      s'.commits == s.commits + [hash] && s'.step == COMMIT && s'.round == s.round
  {
  }
}
