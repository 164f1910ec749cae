/** Nodes vote for blocks, and commit blocks, only after executing them. */
module Validity {
  import opened Powers
  import opened Ballots
  import opened RoundBooks
  import opened StateSpec
  import opened Agreement
  import opened Protocol
  import opened Network

  predicate IsBlock(block: Option<Block>, hash: Hash) {
    block.Some? && block.value.hash == hash
  }

  /** The block that an event brings. */
  function Brought(event: Event): Option<Block> {
    if event.BlockArrived? then Some(event.block) else None
  }

  /** The node has the block as its proposal block, or it just arrives. */
  predicate AtHand(s: Node, block: Option<Block>, hash: Hash) {
    IsBlock(s.proposalBlock, hash) || IsBlock(block, hash)
  }

  /** A prevote for a block, of a node that was in state `s` when the event came. */
  predicate PrevoteRight(env: Env, s: Node, block: Option<Block>, v: Vote) {
    v.kind == Prevote && v.hash != EMPTY_HASH ==>
      IsBlock(s.lockedBlock, v.hash) || (env.preprocess == Valid && AtHand(s, block, v.hash))
  }

  /** A block that the node has executed, before or now. */
  predicate Ran(env: Env, s: Node, block: Option<Block>, hash: Hash) {
    || (s.proposalExecuted && IsBlock(s.proposalBlock, hash))
    || (s.lockedExecuted && IsBlock(s.lockedBlock, hash))
    || ((env.preprocess == Valid || env.commitExec == Valid)
        && (AtHand(s, block, hash) || IsBlock(s.lockedBlock, hash)))
  }

  /** Marks of execution are on blocks only. */
  predicate Marked(s: Node) {
    (s.proposalExecuted ==> s.proposalBlock.Some?) && (s.lockedExecuted ==> s.lockedBlock.Some?)
  }

  predicate OutboxRight(env: Env, s0: Node, block: Option<Block>, s: Node) {
    s0.outbox <= s.outbox && forall k :: |s0.outbox| <= k < |s.outbox| ==> PrevoteRight(env, s0, block, s.outbox[k])
  }

  predicate CommitsRight(env: Env, s0: Node, block: Option<Block>, s: Node) {
    s0.commits <= s.commits && forall k :: |s0.commits| <= k < |s.commits| ==> Ran(env, s0, block, s.commits[k])
  }

  predicate LockRight(s0: Node, s: Node) {
    s.lockedBlock == None || s.lockedBlock == s0.lockedBlock
    || (s.lockedBlock.value.hash != EMPTY_HASH && s.lockedRound >= 0
        && s.votes.Maj23(s.lockedRound, Prevote) == Some(s.lockedBlock.value.hash))
  }

  predicate BlocksRight(s0: Node, block: Option<Block>, s: Node) {
    && (s.proposalBlock.Some? ==>
          AtHand(s0, block, s.proposalBlock.value.hash) || IsBlock(s0.lockedBlock, s.proposalBlock.value.hash))
    && (s.lockedBlock.Some? ==>
          AtHand(s0, block, s.lockedBlock.value.hash) || IsBlock(s0.lockedBlock, s.lockedBlock.value.hash))
  }

  predicate MarksRight(env: Env, s0: Node, block: Option<Block>, s: Node) {
    && Marked(s)
    && (s.proposalExecuted ==> Ran(env, s0, block, s.proposalBlock.value.hash))
    && (s.lockedExecuted ==> Ran(env, s0, block, s.lockedBlock.value.hash))
  }

  /** What holds at every moment while a node that was in state `s0` handles an event. */
  predicate Right(env: Env, s0: Node, block: Option<Block>, s: Node) {
    && OutboxRight(env, s0, block, s) && CommitsRight(env, s0, block, s)
    && LockRight(s0, s) && BlocksRight(s0, block, s) && MarksRight(env, s0, block, s)
  }

  /** The node has not locked anything new, nor taken its locked block for the proposal. */
  predicate Early(env: Env, s0: Node, block: Option<Block>, s: Node) {
    && Right(env, s0, block, s) && (s.lockedBlock == None || s.lockedBlock == s0.lockedBlock)
    && (s.proposalBlock.Some? ==> AtHand(s0, block, s.proposalBlock.value.hash))
  }

  lemma PrevoteSound(m: Machine, s0: Node, block: Option<Block>, s: Node, round: nat)
    requires Early(m.env, s0, block, s)
    ensures Early(m.env, s0, block, m.EnterPrevote(s, round))
  {
  }

  lemma ProposeSound(m: Machine, s0: Node, block: Option<Block>, s: Node, round: nat)
    requires Early(m.env, s0, block, s)
    ensures Early(m.env, s0, block, m.EnterPropose(s, round))
  {
    hide Machine.EnterPrevote, OutboxRight, CommitsRight;
    if !m.Past(s, round, PROPOSE) {
      var s' := m.At(m.Schedule(s, round, PROPOSE), round, PROPOSE);
      SameVotes(m.env, s0, block, s, s');
      PrevoteSound(m, s0, block, s', round);
    }
  }

  lemma SameVotes(env: Env, s0: Node, block: Option<Block>, s: Node, s': Node)
    requires OutboxRight(env, s0, block, s) && s'.outbox == s.outbox
    requires CommitsRight(env, s0, block, s) && s'.commits == s.commits
    ensures OutboxRight(env, s0, block, s') && CommitsRight(env, s0, block, s')
  {
  }

  /** What only moves round, step, timers and the opened rounds along changes nothing of this. */
  lemma MoveSound(env: Env, s0: Node, block: Option<Block>, s: Node, s': Node)
    requires Right(env, s0, block, s)
    requires s'.outbox == s.outbox && s'.commits == s.commits
    requires s'.lockedBlock == s.lockedBlock && s'.lockedRound == s.lockedRound && s'.lockedExecuted == s.lockedExecuted
    requires s'.proposalBlock == None || s'.proposalBlock == s.proposalBlock
    requires s'.proposalExecuted ==> s.proposalExecuted && s'.proposalBlock == s.proposalBlock
    requires forall r :: s'.votes.Maj23(r, Prevote) == s.votes.Maj23(r, Prevote)
    ensures Right(env, s0, block, s') && (Early(env, s0, block, s) ==> Early(env, s0, block, s'))
  {
    hide OutboxRight, CommitsRight, Ran, AtHand;
    SameVotes(env, s0, block, s, s');
  }

  /** Without a proposal, proposing is only waiting. */
  lemma ProposeWaits(m: Machine, s: Node, round: nat)
    requires s.proposal == None
    ensures var s' := m.EnterPropose(s, round);
      s' == s.(round := s'.round, step := s'.step, timeouts := s'.timeouts)
  {
    hide Machine.EnterPrevote;
  }

  /** In a later round there is no proposal yet, so nothing is voted for. */
  lemma NewRoundSound(m: Machine, s0: Node, block: Option<Block>, s: Node, round: nat)
    requires Right(m.env, s0, block, s)
    requires round == 0 ==> Early(m.env, s0, block, s) || s.step != NEW_HEIGHT
    ensures Right(m.env, s0, block, m.EnterNewRound(s, round))
    ensures Early(m.env, s0, block, s) ==> Early(m.env, s0, block, m.EnterNewRound(s, round))
  {
    hide Right, Early, Machine.EnterPropose, HeightVotes.SetRound, HeightVotes.Maj23;
    if !(round < s.round || (s.round == round && s.step != NEW_HEIGHT)) {
      var s2 := m.StartRound(s, round);
      MoveSound(m.env, s0, block, s, s2.(broken := true));
      SetRoundOpens(m.c, s.votes, round + 1);
      OpeningKeepsCounts(m.c, s.votes, s.votes.SetRound(m.c, round + 1));
      var s3 := s2.(votes := s2.votes.SetRound(m.c, round + 1), triggeredTimeoutPrecommit := false);
      MoveSound(m.env, s0, block, s, s3);
      if round == 0 {
        ProposeSound(m, s0, block, s3, round);
        EarlyIsRight(m.env, s0, block, m.EnterPropose(s3, round));
      } else {
        ProposeWaits(m, s3, round);
        MoveSound(m.env, s0, block, s3, m.EnterPropose(s3, round));
      }
    }
  }

  lemma EarlyIsRight(env: Env, s0: Node, block: Option<Block>, s: Node)
    requires Early(env, s0, block, s)
    ensures Right(env, s0, block, s)
  {
  }

  /** Precommits are no prevotes. */
  lemma PrecommitSigned(m: Machine, s0: Node, block: Option<Block>, s: Node, hash: Hash)
    requires OutboxRight(m.env, s0, block, s)
    ensures OutboxRight(m.env, s0, block, m.Sign(s, Precommit, hash))
  {
  }

  /** A new lock is on the majority's block. */
  lemma RelockSound(m: Machine, s0: Node, block: Option<Block>, s: Node, round: nat, hash: Hash)
    requires Right(m.env, s0, block, s) && s.votes.Maj23(round, Prevote) == Some(hash)
    ensures Right(m.env, s0, block, m.Relock(s, round, hash))
  {
    hide OutboxRight, CommitsRight, Ran, AtHand;
    SameVotes(m.env, s0, block, s, m.Relock(s, round, hash));
  }

  lemma PrecommitSound(m: Machine, s0: Node, block: Option<Block>, s: Node, round: nat)
    requires Right(m.env, s0, block, s)
    ensures Right(m.env, s0, block, m.EnterPrecommit(s, round))
  {
    hide OutboxRight, CommitsRight, Ran, AtHand, Machine.Relock, Machine.Sign, HeightVotes.POLInfo;
    var maj := s.votes.Maj23(round, Prevote);
    if !m.Past(s, round, PRECOMMIT) && maj.None? {
      SignSound(m, s0, block, s, round, EMPTY_HASH);
    } else if !m.Past(s, round, PRECOMMIT) {
      SameVotes(m.env, s0, block, s, s.(broken := true));
      RelockSound(m, s0, block, s, round, maj.value);
      var s' := m.Relock(s, round, maj.value);
      SignSound(m, s0, block, s', round, EMPTY_HASH);
      SignSound(m, s0, block, s', round, maj.value);
    }
  }

  lemma SignSound(m: Machine, s0: Node, block: Option<Block>, s: Node, round: nat, hash: Hash)
    requires Right(m.env, s0, block, s)
    ensures Right(m.env, s0, block, m.At(m.Sign(s, Precommit, hash), round, PRECOMMIT))
  {
    hide OutboxRight, CommitsRight, Ran, AtHand;
    PrecommitSigned(m, s0, block, s, hash);
    var s' := m.At(m.Sign(s, Precommit, hash), round, PRECOMMIT);
    SameOutbox(m.env, s0, block, m.Sign(s, Precommit, hash), s');
    SameCommits(m.env, s0, block, s, s');
  }

  lemma SameOutbox(env: Env, s0: Node, block: Option<Block>, s: Node, s': Node)
    requires OutboxRight(env, s0, block, s) && s'.outbox == s.outbox
    ensures OutboxRight(env, s0, block, s')
  {
  }

  lemma SameCommits(env: Env, s0: Node, block: Option<Block>, s: Node, s': Node)
    requires CommitsRight(env, s0, block, s) && s'.commits == s.commits
    ensures CommitsRight(env, s0, block, s')
  {
  }

  lemma FinalizeCases(m: Machine, s: Node)
    ensures var s' := m.FinalizeCommit(s);
      || s' == s || s' == s.(broken := true)
      || (s.proposalBlock.Some? && (s.proposalExecuted || m.env.commitExec == Valid)
          && (s' == s.(proposalExecuted := true)
              || s' == s.(proposalExecuted := true, commits := s.commits + [s.proposalBlock.value.hash])))
  {
    hide HeightVotes.Maj23;
  }

  lemma ExecutedSound(env: Env, s0: Node, block: Option<Block>, s: Node)
    requires Right(env, s0, block, s) && s.proposalBlock.Some? && (s.proposalExecuted || env.commitExec == Valid)
    ensures Right(env, s0, block, s.(proposalExecuted := true))
    ensures Ran(env, s0, block, s.proposalBlock.value.hash)
  {
    hide OutboxRight, CommitsRight, AtHand;
    SameVotes(env, s0, block, s, s.(proposalExecuted := true));
  }

  lemma CommittedSound(env: Env, s0: Node, block: Option<Block>, s: Node, hash: Hash)
    requires Right(env, s0, block, s) && Ran(env, s0, block, hash)
    ensures Right(env, s0, block, s.(commits := s.commits + [hash]))
  {
    hide OutboxRight, AtHand, Ran;
    SameOutbox(env, s0, block, s, s.(commits := s.commits + [hash]));
  }

  lemma FinalizeSound(m: Machine, s0: Node, block: Option<Block>, s: Node)
    requires Right(m.env, s0, block, s)
    ensures Right(m.env, s0, block, m.FinalizeCommit(s))
  {
    hide Right, Early, Machine.FinalizeCommit;
    FinalizeCases(m, s);
    MoveSound(m.env, s0, block, s, s.(broken := true));
    if s.proposalBlock.Some? && (s.proposalExecuted || m.env.commitExec == Valid) {
      ExecutedSound(m.env, s0, block, s);
      CommittedSound(m.env, s0, block, s.(proposalExecuted := true), s.proposalBlock.value.hash);
    }
  }

  lemma CommitSound(m: Machine, s0: Node, block: Option<Block>, s: Node, round: nat)
    requires Right(m.env, s0, block, s)
    ensures Right(m.env, s0, block, m.EnterCommit(s, round))
  {
    hide OutboxRight, CommitsRight, Ran, AtHand, Machine.FinalizeCommit;
    var maj := s.votes.Maj23(round, Precommit);
    SameVotes(m.env, s0, block, s, s.(broken := true));
    if s.step < COMMIT && maj.Some? {
      var s' := m.AdoptBlock(s, maj.value).(step := COMMIT, commitRound := round);
      SameVotes(m.env, s0, block, s, s');
      FinalizeSound(m, s0, block, s');
    }
  }

  lemma NotePrevotesSound(m: Machine, s0: Node, block: Option<Block>, s: Node, round: nat)
    requires Early(m.env, s0, block, s)
    ensures Early(m.env, s0, block, m.NotePrevotes(s, round))
  {
    hide Early, Machine.TryUnlock, Machine.FollowMajority;
    UnlockSound(m, s0, block, s, round);
    FollowSound(m, s0, block, m.TryUnlock(s, round), round);
  }

  lemma UnlockSound(m: Machine, s0: Node, block: Option<Block>, s: Node, round: nat)
    requires Early(m.env, s0, block, s)
    ensures Early(m.env, s0, block, m.TryUnlock(s, round))
  {
    hide OutboxRight, CommitsRight, Ran, AtHand, HeightVotes.Maj23;
    SameVotes(m.env, s0, block, s, m.Unlock(s));
  }

  lemma FollowSound(m: Machine, s0: Node, block: Option<Block>, s: Node, round: nat)
    requires Early(m.env, s0, block, s)
    ensures Early(m.env, s0, block, m.FollowMajority(s, round))
  {
    hide Right, Early, HeightVotes.Maj23;
    EarlyIsRight(m.env, s0, block, s);
    MoveSound(m.env, s0, block, s, m.FollowMajority(s, round));
  }

  lemma WaitFrame(m: Machine, s: Node, round: nat)
    ensures var s' := m.EnterPrevoteWait(s, round);
      s' == s.(round := s'.round, step := s'.step, timeouts := s'.timeouts, broken := s'.broken)
    ensures var s' := m.EnterPrecommitWait(s, round);
      s' == s.(timeouts := s'.timeouts, triggeredTimeoutPrecommit := s'.triggeredTimeoutPrecommit, broken := s'.broken)
  {
    hide HeightVotes.TwoThirdsAny;
  }

  lemma WaitsSound(m: Machine, s0: Node, block: Option<Block>, s: Node, round: nat)
    requires Right(m.env, s0, block, s)
    ensures Right(m.env, s0, block, m.EnterPrevoteWait(s, round))
    ensures Right(m.env, s0, block, m.EnterPrecommitWait(s, round))
  {
    hide Right, Early, HeightVotes.Maj23, Machine.EnterPrevoteWait, Machine.EnterPrecommitWait;
    WaitFrame(m, s, round);
    MoveSound(m.env, s0, block, s, m.EnterPrevoteWait(s, round));
    MoveSound(m.env, s0, block, s, m.EnterPrecommitWait(s, round));
  }

  lemma AfterPrevoteSound(m: Machine, s0: Node, block: Option<Block>, s: Node, round: nat)
    requires Early(m.env, s0, block, s)
    ensures Right(m.env, s0, block, m.AfterPrevote(s, round))
  {
    hide Right, Early, Machine.AfterPrevote, Machine.NotePrevotes, Machine.EnterNewRound, Machine.EnterPrecommit,
      Machine.EnterPrevote, Machine.EnterPrevoteWait;
    AfterPrevoteCases(m, s, round);
    NotePrevotesSound(m, s0, block, s, round);
    var s1 := m.NotePrevotes(s, round);
    EarlyIsRight(m.env, s0, block, s1);
    NewRoundSound(m, s0, block, s1, round);
    PrecommitSound(m, s0, block, s1, s1.round);
    PrevoteSound(m, s0, block, s1, s1.round);
    EarlyIsRight(m.env, s0, block, m.EnterPrevote(s1, s1.round));
    WaitsSound(m, s0, block, s1, s1.round);
  }

  lemma StepLeft(m: Machine, s: Node, round: nat)
    requires s.step != NEW_HEIGHT
    ensures m.EnterPrecommit(s, round).step != NEW_HEIGHT && m.EnterCommit(s, round).step != NEW_HEIGHT
  {
  }

  lemma AfterPrecommitSound(m: Machine, s0: Node, block: Option<Block>, s: Node, round: nat)
    requires Early(m.env, s0, block, s) && (s.step == NEW_HEIGHT ==> s.round == 0)
    ensures Right(m.env, s0, block, m.AfterPrecommit(s, round))
  {
    hide Right, Early, Machine.EnterNewRound, Machine.EnterPrecommit, Machine.EnterCommit, Machine.EnterPrecommitWait;
    EarlyIsRight(m.env, s0, block, s);
    NewRoundSound(m, s0, block, s, round);
    EnterNewRoundLeavesStart(m, s, round);
    var s1 := m.EnterNewRound(s, round);
    WaitsSound(m, s0, block, s1, round);
    PrecommitSound(m, s0, block, s1, round);
    var s2 := m.EnterPrecommit(s1, round);
    WaitsSound(m, s0, block, s2, round);
    CommitSound(m, s0, block, s2, round);
    StartLeft(m, s, round);
    StepLeft(m, s1, round);
    StepLeft(m, s2, round);
    NewRoundSound(m, s0, block, m.EnterCommit(s2, round), 0);
  }

  lemma StartLeft(m: Machine, s: Node, round: nat)
    requires s.step == NEW_HEIGHT ==> s.round == 0
    ensures m.EnterNewRound(s, round).step != NEW_HEIGHT
  {
    hide Machine.EnterPropose;
    var s1 := m.StartRound(s, round);
    var s2 := s1.(votes := s1.votes.SetRound(m.c, round + 1), triggeredTimeoutPrecommit := false);
    ProposeForward(m, s2, round);
    EnterProposeFrame(m, s2);
  }

  lemma BlockSound(m: Machine, s: Node, block: Block)
    requires Marked(s)
    ensures Right(m.env, s, Some(block), m.AddProposalBlock(s, block))
  {
    hide Right, Early, Machine.EnterPrecommit, Machine.EnterPrevote, Machine.FinalizeCommit;
    AcceptSound(m, s, block);
    if s.proposalBlock.None? {
      var s1 := m.AcceptBlock(s, block);
      EarlyIsRight(m.env, s, Some(block), s1);
      PrevoteSound(m, s, Some(block), s1, s1.round);
      var s2 := m.EnterPrevote(s1, s1.round);
      EarlyIsRight(m.env, s, Some(block), s2);
      PrecommitSound(m, s, Some(block), s2, s2.round);
      FinalizeSound(m, s, Some(block), s1);
    }
  }

  lemma AcceptSound(m: Machine, s: Node, block: Block)
    requires Marked(s)
    ensures Right(m.env, s, Some(block), s)
    ensures s.proposalBlock.None? ==> Early(m.env, s, Some(block), m.AcceptBlock(s, block))
  {
  }

  lemma StartSound(env: Env, s: Node, block: Option<Block>)
    requires Marked(s)
    ensures Early(env, s, block, s)
  {
  }

  lemma TimeoutSound(m: Machine, s: Node, height: nat, ti: Timeout)
    requires Marked(s) && (s.step == NEW_HEIGHT ==> s.round == 0)
    requires ti.round <= s.round && ti.step in {NEW_HEIGHT, PROPOSE, PREVOTE_WAIT, PRECOMMIT_WAIT}
    ensures Right(m.env, s, None, m.HandleTimeout(s, height, ti))
  {
    hide Right, Early, Machine.HandleTimeout, Machine.EnterPrecommit, Machine.EnterPrevote, Machine.EnterNewRound;
    HandleTimeoutCases(m, s, height, ti);
    StartSound(m.env, s, None);
    EarlyIsRight(m.env, s, None, s);
    NewRoundSound(m, s, None, s, 0);
    PrevoteSound(m, s, None, s, s.round);
    EarlyIsRight(m.env, s, None, m.EnterPrevote(s, s.round));
    PrecommitSound(m, s, None, s, s.round);
    NewRoundSound(m, s, None, m.EnterPrecommit(s, s.round), s.round + 1);
  }

  lemma VoteSound(m: Machine, s: Node, vote: Vote, peer: Peer)
    requires Marked(s) && (s.step == NEW_HEIGHT ==> s.round == 0)
    ensures Right(m.env, s, None, m.AddVote(s, vote, peer))
  {
    hide Right, Early, Machine.AfterPrevote, Machine.AfterPrecommit, HeightVotes.AddVote;
    StartSound(m.env, s, None);
    EarlyIsRight(m.env, s, None, s);
    var s' := s.(votes := s.votes.AddVote(m.c, vote, peer).0);
    VotesSound(m.env, s, s');
    EarlyIsRight(m.env, s, None, s');
    AfterPrevoteSound(m, s, None, s', vote.round);
    AfterPrecommitSound(m, s, None, s', vote.round);
  }

  lemma VotesSound(env: Env, s: Node, s': Node)
    requires Marked(s) && s' == s.(votes := s'.votes)
    ensures Early(env, s, None, s')
  {
  }

  lemma HandleSound(m: Machine, log: Log, s: Node, event: Event)
    requires Sane(m.c, m.me, log, s) && Possible(m.c, log, s, event) && Marked(s)
    ensures Right(m.env, s, Brought(event), m.Handle(s, event))
  {
    hide Right, Early, Machine.AddVote, Machine.AddProposalBlock, Machine.HandleTimeout;
    StartSound(m.env, s, None);
    EarlyIsRight(m.env, s, None, s);
    match event
    case TimerFired(height, timeout) =>
      if height == m.c.height {
        TimerKnown(m, log, s, timeout);
        TimeoutSound(m, s, height, timeout);
      } else {
        OtherHeightTimer(m, s, height, timeout);
      }
    case ProposalArrived(p, ok) => MoveSound(m.env, s, None, s, m.SetProposal(s, p, ok));
    case BlockArrived(block) => BlockSound(m, s, block);
    case VoteArrived(vote, peer) => VoteSound(m, s, vote, peer);
    case PeerClaimed(height, round, kind, peer, hash) =>
      VotesSound(m.env, s, m.SetVoteMaj23(s, height, round, kind, peer, hash));
      EarlyIsRight(m.env, s, None, m.SetVoteMaj23(s, height, round, kind, peer, hash));
  }

  // ---- Over runs ----

  /** Node `a.i` holds the block, and executing it succeeds. */
  predicate Executes(c: Committee, w: World, a: Action, hash: Hash) {
    && a.i in w.nodes && Possible(c, w.log, Idle(w, a.i), a.event)
    && a.env.preprocess == Valid && AtHand(w.nodes[a.i], Brought(a.event), hash)
  }

  /** Some honest node executed the block in the run. */
  ghost predicate Executed(c: Committee, start: World, actions: seq<Action>, hash: Hash) {
    exists k :: 0 <= k < |actions| && Executes(c, Run(c, start, actions[..k]), actions[k], hash)
  }

  /** Node `i` holds the block, and executing it succeeds, for its prevote or when it commits. */
  predicate Runs(c: Committee, w: World, a: Action, i: nat, hash: Hash) {
    && a.i == i && i in w.nodes && Possible(c, w.log, Idle(w, i), a.event)
    && (a.env.preprocess == Valid || a.env.commitExec == Valid)
    && (AtHand(w.nodes[i], Brought(a.event), hash) || IsBlock(w.nodes[i].lockedBlock, hash))
  }

  ghost predicate RanBy(c: Committee, start: World, actions: seq<Action>, i: nat, hash: Hash) {
    exists k :: 0 <= k < |actions| && Runs(c, Run(c, start, actions[..k]), actions[k], i, hash)
  }

  lemma ExecutedLater(c: Committee, start: World, actions: seq<Action>, hash: Hash)
    requires actions != [] && Executed(c, start, actions[..|actions| - 1], hash)
    ensures Executed(c, start, actions, hash)
  {
    hide Run, Executes;
    var before := actions[..|actions| - 1];
    var k :| 0 <= k < |before| && Executes(c, Run(c, start, before[..k]), before[k], hash);
    assert before[..k] == actions[..k];
  }

  lemma RanLater(c: Committee, start: World, actions: seq<Action>, i: nat, hash: Hash)
    requires actions != [] && RanBy(c, start, actions[..|actions| - 1], i, hash)
    ensures RanBy(c, start, actions, i, hash)
  {
    hide Run, Runs;
    var before := actions[..|actions| - 1];
    var k :| 0 <= k < |before| && Runs(c, Run(c, start, before[..k]), before[k], i, hash);
    assert before[..k] == actions[..k];
  }

  /** A quorum has an honest vote in it. */
  lemma HonestBacker(c: Committee, log: Log, kind: VoteType, round: nat, hash: Hash) returns (a: nat)
    requires Safe(c) && HasQuorum(c, log, kind, round, hash)
    ensures a < |log| && log[a].kind == kind && log[a].hash == hash && log[a].round == round
  {
    var backers := Backers(c, log, kind, round, hash);
    var i := QuorumsMeet(c.powers, backers, backers, c.faulty);
    a :| 0 <= a < |log| && IsBallot(log[a], kind, round, hash, i);
  }

  /** What holds of one node after a run. */
  ghost predicate NodeValid(c: Committee, start: World, actions: seq<Action>, i: nat, s: Node) {
    && Marked(s)
    && (s.proposalExecuted ==> RanBy(c, start, actions, i, s.proposalBlock.value.hash))
    && (s.lockedExecuted ==> RanBy(c, start, actions, i, s.lockedBlock.value.hash))
    && (forall k :: 0 <= k < |s.commits| ==> RanBy(c, start, actions, i, s.commits[k]))
    && (s.lockedBlock.Some? ==> Executed(c, start, actions, s.lockedBlock.value.hash))
  }

  ghost predicate LogValid(c: Committee, start: World, actions: seq<Action>, log: Log) {
    forall k :: 0 <= k < |log| && log[k].kind == Prevote && log[k].hash != EMPTY_HASH ==>
      Executed(c, start, actions, log[k].hash)
  }

  ghost predicate RunValid(c: Committee, start: World, actions: seq<Action>) {
    var w := Run(c, start, actions);
    LogValid(c, start, actions, w.log) && forall i :: i in w.nodes ==> NodeValid(c, start, actions, i, w.nodes[i])
  }

  lemma LogStep(c: Committee, start: World, actions: seq<Action>, s: Node)
    requires actions != [] && RunValid(c, start, actions[..|actions| - 1])
    requires var w, a := Run(c, start, actions[..|actions| - 1]), actions[|actions| - 1];
      a.i in w.nodes && Possible(c, w.log, Idle(w, a.i), a.event)
      && OutboxRight(a.env, Idle(w, a.i), Brought(a.event), s)
    ensures LogValid(c, start, actions, Run(c, start, actions[..|actions| - 1]).log + s.outbox)
  {
    hide Run, Possible;
    var before, a := actions[..|actions| - 1], actions[|actions| - 1];
    var w := Run(c, start, before);
    var log := w.log + s.outbox;
    forall k | 0 <= k < |log| && log[k].kind == Prevote && log[k].hash != EMPTY_HASH
      ensures Executed(c, start, actions, log[k].hash)
    {
      if k < |w.log| {
        assert log[k] == w.log[k];
        ExecutedLater(c, start, actions, log[k].hash);
      } else {
        var v := s.outbox[k - |w.log|];
        assert PrevoteRight(a.env, Idle(w, a.i), Brought(a.event), v);
        if IsBlock(w.nodes[a.i].lockedBlock, v.hash) {
          assert NodeValid(c, start, before, a.i, w.nodes[a.i]);
          ExecutedLater(c, start, actions, v.hash);
        } else {
          assert Executes(c, Run(c, start, actions[..|before|]), actions[|before|], v.hash);
        }
      }
    }
  }

  lemma RanStep(c: Committee, start: World, actions: seq<Action>, hash: Hash)
    requires actions != [] && RunValid(c, start, actions[..|actions| - 1])
    requires var w, a := Run(c, start, actions[..|actions| - 1]), actions[|actions| - 1];
      a.i in w.nodes && Possible(c, w.log, Idle(w, a.i), a.event)
      && Ran(a.env, Idle(w, a.i), Brought(a.event), hash)
    ensures RanBy(c, start, actions, actions[|actions| - 1].i, hash)
  {
    hide Run, Possible, AtHand;
    var before, a := actions[..|actions| - 1], actions[|actions| - 1];
    var w := Run(c, start, before);
    assert NodeValid(c, start, before, a.i, w.nodes[a.i]);
    var s := w.nodes[a.i];
    if (s.proposalExecuted && IsBlock(s.proposalBlock, hash)) || (s.lockedExecuted && IsBlock(s.lockedBlock, hash)) {
      RanLater(c, start, actions, a.i, hash);
    } else {
      HandAtIdle(w, a, hash);
      assert Runs(c, Run(c, start, actions[..|before|]), actions[|before|], a.i, hash);
    }
  }

  lemma HandAtIdle(w: World, a: Action, hash: Hash)
    requires a.i in w.nodes
    ensures AtHand(Idle(w, a.i), Brought(a.event), hash) == AtHand(w.nodes[a.i], Brought(a.event), hash)
  {
  }

  lemma NodeStep(c: Committee, start: World, actions: seq<Action>, s: Node)
    requires actions != [] && RunValid(c, start, actions[..|actions| - 1]) && Safe(c)
    requires var w, a := Run(c, start, actions[..|actions| - 1]), actions[|actions| - 1];
      a.i in w.nodes && Possible(c, w.log, Idle(w, a.i), a.event)
      && Right(a.env, Idle(w, a.i), Brought(a.event), s) && Supported(c, w.log + s.outbox, s.votes)
      && LogValid(c, start, actions, w.log + s.outbox)
    ensures NodeValid(c, start, actions, actions[|actions| - 1].i, s)
  {
    hide Run, Possible, AtHand, Ran, Executed, RanBy, OutboxRight, HeightVotes.Maj23, HasQuorum, BlocksRight;
    var before, a := actions[..|actions| - 1], actions[|actions| - 1];
    var w := Run(c, start, before);
    var s0 := Idle(w, a.i);
    assert NodeValid(c, start, before, a.i, w.nodes[a.i]);
    forall hash | Ran(a.env, s0, Brought(a.event), hash) ensures RanBy(c, start, actions, a.i, hash) {
      RanStep(c, start, actions, hash);
    }
    forall k | 0 <= k < |s.commits| ensures RanBy(c, start, actions, a.i, s.commits[k]) {
      if k < |s0.commits| {
        assert s.commits[k] == s0.commits[k];
        RanLater(c, start, actions, a.i, s.commits[k]);
      }
    }
    if s.lockedBlock.Some? {
      if s.lockedBlock == s0.lockedBlock {
        ExecutedLater(c, start, actions, s.lockedBlock.value.hash);
      } else {
        var k := HonestBacker(c, w.log + s.outbox, Prevote, s.lockedRound, s.lockedBlock.value.hash);
      }
    }
  }

  lemma OtherStep(c: Committee, start: World, actions: seq<Action>, i: nat, s: Node)
    requires actions != [] && NodeValid(c, start, actions[..|actions| - 1], i, s)
    ensures NodeValid(c, start, actions, i, s)
  {
    hide Run, RanBy, Executed;
    var before := actions[..|actions| - 1];
    forall hash | RanBy(c, start, before, i, hash) ensures RanBy(c, start, actions, i, hash) {
      RanLater(c, start, actions, i, hash);
    }
    forall hash | Executed(c, start, before, hash) ensures Executed(c, start, actions, hash) {
      ExecutedLater(c, start, actions, hash);
    }
  }

  lemma LogLater(c: Committee, start: World, actions: seq<Action>, log: Log)
    requires actions != [] && LogValid(c, start, actions[..|actions| - 1], log)
    ensures LogValid(c, start, actions, log)
  {
    hide Run, Executed;
    forall hash | Executed(c, start, actions[..|actions| - 1], hash) ensures Executed(c, start, actions, hash) {
      ExecutedLater(c, start, actions, hash);
    }
  }

  lemma {:induction false} AlwaysValid(c: Committee, start: World, actions: seq<Action>)
    requires Safe(c) && Fresh(c, start)
    ensures RunValid(c, start, actions)
  {
    hide Possible, Sane, Right, NodeValid, LogValid, Supported, Machine.Handle;
    if actions == [] {
      StartValid(c, start);
    } else {
      var before, a := actions[..|actions| - 1], actions[|actions| - 1];
      var w, w' := Run(c, start, before), Run(c, start, actions);
      AlwaysValid(c, start, before);
      RunSane(c, start, before);
      LogLater(c, start, actions, w.log);
      forall i | i in w.nodes ensures NodeValid(c, start, actions, i, w.nodes[i]) {
        OtherStep(c, start, actions, i, w.nodes[i]);
      }
      if a.i in w.nodes && Possible(c, w.log, Idle(w, a.i), a.event) {
        var m := Machine(c, a.i, a.env);
        var s := m.Handle(Idle(w, a.i), a.event);
        MarkedAt(c, start, before, a.i);
        HandleSound(m, w.log, Idle(w, a.i), a.event);
        HandleSane(m, w.log, Idle(w, a.i), a.event);
        SaneSupports(c, a.i, w.log, s);
        RightParts(a.env, Idle(w, a.i), Brought(a.event), s);
        LogStep(c, start, actions, s);
        NodeStep(c, start, actions, s);
      }
    }
  }

  lemma StartValid(c: Committee, start: World)
    requires Fresh(c, start)
    ensures RunValid(c, start, [])
  {
  }

  lemma MarkedAt(c: Committee, start: World, actions: seq<Action>, i: nat)
    requires RunValid(c, start, actions) && i in Run(c, start, actions).nodes
    ensures Marked(Idle(Run(c, start, actions), i))
  {
    hide Run;
    assert NodeValid(c, start, actions, i, Run(c, start, actions).nodes[i]);
  }

  lemma SaneSupports(c: Committee, me: nat, log: Log, s: Node)
    requires Sane(c, me, log, s)
    ensures Supported(c, log + s.outbox, s.votes)
  {
  }

  lemma RightParts(env: Env, s0: Node, block: Option<Block>, s: Node)
    requires Right(env, s0, block, s)
    ensures OutboxRight(env, s0, block, s)
  {
  }

  /** Validity: as long as faulty validators hold less than a third of the power, every block for
      which an honest node prevotes was executed by an honest node that held it. */
  lemma PrevotesAreValid(c: Committee, start: World, actions: seq<Action>, k: nat)
    requires Safe(c) && Fresh(c, start) && k < |Run(c, start, actions).log|
    requires var v := Run(c, start, actions).log[k]; v.kind == Prevote && v.hash != EMPTY_HASH
    ensures Executed(c, start, actions, Run(c, start, actions).log[k].hash)
  {
    hide Run, Executed;
    AlwaysValid(c, start, actions);
  }

  /** So was every block with a prevote or precommit quorum. */
  lemma QuorumIsValid(c: Committee, start: World, actions: seq<Action>, kind: VoteType, round: nat, hash: Hash)
    requires Safe(c) && Fresh(c, start) && hash != EMPTY_HASH
    requires HasQuorum(c, Run(c, start, actions).log, kind, round, hash)
    ensures Executed(c, start, actions, hash)
  {
    hide Run, Executed, HasQuorum;
    var log := Run(c, start, actions).log;
    RunDisciplined(c, start, actions);
    var a := HonestBacker(c, log, kind, round, hash);
    if kind == Precommit {
      var b := HonestBacker(c, log[..a], Prevote, round, hash);
      PrevotesAreValid(c, start, actions, b);
    } else {
      PrevotesAreValid(c, start, actions, a);
    }
  }

  /** And so was every block that is committed; the node that commits it executed it itself. */
  lemma CommitsAreValid(c: Committee, start: World, actions: seq<Action>, i: nat, k: nat)
    requires Safe(c) && Fresh(c, start)
    requires i in Run(c, start, actions).nodes && k < |Run(c, start, actions).nodes[i].commits|
    ensures var hash := Run(c, start, actions).nodes[i].commits[k];
      Executed(c, start, actions, hash) && RanBy(c, start, actions, i, hash)
  {
    hide Run, Executed, RanBy, HasQuorum, Disciplined, AllSane, Fresh;
    AlwaysValid(c, start, actions);
    assert NodeValid(c, start, actions, i, Run(c, start, actions).nodes[i]);
    RunSane(c, start, actions);
    var round, hash := Commitment(c, Run(c, start, actions), i, k);
    QuorumIsValid(c, start, actions, Precommit, round, hash);
  }

  /** What one action signs: a prevote for a block is for the node's lock, or for a block that it
      holds and has just executed; so it is nil if there is no lock and executing fails. */
  lemma ActPrevotes(c: Committee, start: World, actions: seq<Action>, a: Action, k: nat)
    requires Safe(c) && Fresh(c, start)
    requires var w := Run(c, start, actions);
      |w.log| <= k < |Act(c, w, a).log| && Act(c, w, a).log[k].kind == Prevote
    ensures var w := Run(c, start, actions);
      a.i in w.nodes
      && var v, s := Act(c, w, a).log[k], w.nodes[a.i];
        (v.hash != EMPTY_HASH ==>
           IsBlock(s.lockedBlock, v.hash) || (a.env.preprocess == Valid && AtHand(s, Brought(a.event), v.hash)))
        && (s.lockedBlock == None && a.env.preprocess != Valid ==> v.hash == EMPTY_HASH)
  {
    hide Run, Possible, Sane, Machine.Handle, Fresh;
    var w := Run(c, start, actions);
    AlwaysValid(c, start, actions);
    RunSane(c, start, actions);
    MarkedAt(c, start, actions, a.i);
    var s := Machine(c, a.i, a.env).Handle(Idle(w, a.i), a.event);
    HandleSound(Machine(c, a.i, a.env), w.log, Idle(w, a.i), a.event);
    assert Act(c, w, a).log[k] == s.outbox[k - |w.log|];
  }
}
