/** The consensus state machine of one node at one height, as a function of what arrives. This is
the specification of the class in `state.dfy`; `protocol.dfy` proves what it guarantees. */
module StateSpec {
  import opened Ballots
  import opened VoteBooks
  import opened RoundBooks

  type Step = nat

  const NEW_HEIGHT: Step := 1
  const NEW_ROUND: Step := 2
  const PROPOSE: Step := 3
  const PREVOTE: Step := 4
  const PREVOTE_WAIT: Step := 5
  const PRECOMMIT: Step := 6
  const PRECOMMIT_WAIT: Step := 7
  const COMMIT: Step := 8

  datatype Proposal = Proposal(height: nat, round: nat, POLRound: int, hash: Hash)

  /** `proposerActive` says whether the proposer named in the block is an active validator. */
  datatype Block = Block(hash: Hash, proposerActive: bool)

  datatype Timeout = Timeout(round: nat, step: Step)

  datatype Execution = Valid | Invalid | Committed

  /** What the surroundings answer while one event is handled: whether the node may sign, how
      executing the proposal block ends, and whether sealing and logging the block succeed. */
  datatype Env = Env(canSign: bool, preprocess: Execution, commitExec: Execution, sealMatches: bool, walOk: bool)

  /** `broken` records an exception that the code raises for a situation it considers impossible.
      `outbox` collects the votes signed, `timeouts` the timers set, `commits` the blocks
      handed over for commit. */
  datatype Node = Node(
    round: nat, step: Step,
    proposal: Option<Proposal>, proposalBlockHash: Option<Hash>, proposalBlock: Option<Block>, proposalExecuted: bool,
    lockedRound: int, lockedBlock: Option<Block>, lockedExecuted: bool,
    validRound: int, validBlock: Option<Block>,
    votes: HeightVotes, commitRound: int, triggeredTimeoutPrecommit: bool,
    outbox: seq<Vote>, timeouts: set<Timeout>, commits: seq<Hash>, broken: bool)

  datatype Event =
    | TimerFired(height: nat, timeout: Timeout)
    | ProposalArrived(proposal: Proposal, signatureOk: bool)
    | BlockArrived(block: Block)
    | VoteArrived(vote: Vote, peer: Peer)
    | PeerClaimed(height: nat, round: nat, kind: VoteType, peer: Peer, hash: Hash)

  /** One node at one height, while it handles one event: `me` is its validator index. */
  datatype Machine = Machine(c: Committee, me: nat, env: Env)
  {
    predicate Past(s: Node, round: nat, step: Step) {
      round < s.round || (s.round == round && step <= s.step)
    }

    function Ballots(round: nat, kind: VoteType, hash: Hash): seq<Vote> {
      if env.canSign then [Vote(c.height, round, kind, hash, me, c.scheme, me)] else []
    }

    function Sign(s: Node, kind: VoteType, hash: Hash): Node {
      s.(outbox := s.outbox + Ballots(s.round, kind, hash))
    }

    function At(s: Node, round: nat, step: Step): Node {
      s.(round := round, step := step)
    }

    function Schedule(s: Node, round: nat, step: Step): Node {
      s.(timeouts := s.timeouts + {Timeout(round, step)})
    }

    function Unlock(s: Node): Node {
      s.(lockedRound := -1, lockedBlock := None, lockedExecuted := false)
    }

    predicate Holds(block: Option<Block>, hash: Hash) {
      block.Some? && block.value.hash == hash
    }

    predicate IsProposalComplete(s: Node) {
      && s.proposal.Some? && s.proposalBlock.Some?
      && (s.proposal.value.POLRound < 0 || s.votes.Maj23(s.proposal.value.POLRound, Prevote).Some?)
    }

    function SetProposal(s: Node, p: Proposal, signatureOk: bool): Node {
      if s.proposal.Some? then s
      else if p.height != c.height || p.round != s.round then s
      else if p.POLRound < -1 || (p.POLRound >= 0 && p.POLRound >= p.round) then s
      else if !signatureOk then s
      else s.(proposal := Some(p), proposalBlockHash := Some(p.hash))
    }

    /** The valid block is updated when its majority was known before the block itself. */
    function AcceptBlock(s: Node, block: Block): Node {
      var s' := s.(proposalBlock := Some(block));
      var maj := s.votes.Maj23(s.round, Prevote);
      if maj.Some? && maj.value != EMPTY_HASH && s.validRound < s.round && s.proposalBlockHash == maj then
        s'.(validRound := s.round, validBlock := Some(block))
      else s'
    }

    function AddProposalBlock(s: Node, block: Block): Node {
      if s.proposalBlock.Some? || s.proposal.None? || s.proposalBlockHash.None? then s
      else if !block.proposerActive || s.proposalBlockHash != Some(block.hash) then s
      else
        var s1 := AcceptBlock(s, block);
        if s1.step <= PROPOSE && IsProposalComplete(s1) then
          var s2 := EnterPrevote(s1, s1.round);
          if s.votes.Maj23(s.round, Prevote).Some? then EnterPrecommit(s2, s2.round) else s2
        else if s1.step == COMMIT then FinalizeCommit(s1)
        else s1
    }

    /** A new round forgets the proposal, except for the first one. */
    function StartRound(s: Node, round: nat): Node {
      var s1 := At(s, round, NEW_ROUND);
      if round == 0 then s1
      else s1.(proposal := None, proposalBlockHash := None, proposalBlock := None, proposalExecuted := false)
    }

    function EnterNewRound(s: Node, round: nat): Node {
      if round < s.round || (s.round == round && s.step != NEW_HEIGHT) then s
      else
        var s2 := StartRound(s, round);
        if s2.votes.round != 0 && round + 1 < s2.votes.round then s2.(broken := true)
        else EnterPropose(s2.(votes := s2.votes.SetRound(c, round + 1), triggeredTimeoutPrecommit := false), round)
    }

    function EnterPropose(s: Node, round: nat): Node {
      if Past(s, round, PROPOSE) then s
      else
        var s' := At(Schedule(s, round, PROPOSE), round, PROPOSE);
        if IsProposalComplete(s') then EnterPrevote(s', round) else s'
    }

    function EnterPrevote(s: Node, round: nat): Node {
      if Past(s, round, PREVOTE) then s
      else if s.lockedBlock.Some? then At(Sign(s, Prevote, s.lockedBlock.value.hash), round, PREVOTE)
      else if s.proposalBlock.None? then At(Sign(s, Prevote, EMPTY_HASH), round, PREVOTE)
      else
        match env.preprocess
        case Valid => At(Sign(s.(proposalExecuted := true), Prevote, s.proposalBlock.value.hash), round, PREVOTE)
        case Invalid => At(Sign(s, Prevote, EMPTY_HASH), round, PREVOTE)
        case Committed => s
    }

    function EnterPrevoteWait(s: Node, round: nat): Node {
      if Past(s, round, PREVOTE_WAIT) then s
      else if !s.votes.TwoThirdsAny(c, round, Prevote) then s.(broken := true)
      else At(Schedule(s, round, PREVOTE_WAIT), round, PREVOTE_WAIT)
    }

    function EnterPrecommit(s: Node, round: nat): Node {
      if Past(s, round, PRECOMMIT) then s
      else
        var maj := s.votes.Maj23(round, Prevote);
        if maj.None? then At(Sign(s, Precommit, EMPTY_HASH), round, PRECOMMIT)
        else
          var pol := s.votes.POLInfo(s.votes.round);
          if pol.Some? && pol.value < round then s.(broken := true)
          else At(PrecommitMajority(s, round, maj.value), round, PRECOMMIT)
    }

    /** The lock that a prevote majority for `hash` calls for. */
    function Relock(s: Node, round: nat, hash: Hash): Node {
      if hash == EMPTY_HASH then if s.lockedBlock.Some? then Unlock(s) else s
      else if Holds(s.lockedBlock, hash) then s.(lockedRound := round)
      else if Holds(s.proposalBlock, hash) then
        s.(lockedRound := round, lockedBlock := s.proposalBlock, lockedExecuted := s.proposalExecuted)
      else AskFor(Unlock(s), hash)
    }

    function AskFor(s: Node, hash: Hash): Node {
      s.(proposalBlock := None, proposalBlockHash := Some(hash), proposalExecuted := false)
    }

    /** The node precommits the majority block if that leaves it locked on it, and nil if not. */
    function PrecommitMajority(s: Node, round: nat, hash: Hash): Node {
      var s' := Relock(s, round, hash);
      Sign(s', Precommit, if hash != EMPTY_HASH && Holds(s'.lockedBlock, hash) then hash else EMPTY_HASH)
    }

    function EnterPrecommitWait(s: Node, round: nat): Node {
      if round < s.round || (s.round == round && s.triggeredTimeoutPrecommit) then s
      else if !s.votes.TwoThirdsAny(c, round, Precommit) then s.(broken := true)
      else Schedule(s, round, PRECOMMIT_WAIT).(triggeredTimeoutPrecommit := true)
    }

    function EnterCommit(s: Node, commitRound: nat): Node {
      if COMMIT <= s.step then s
      else
        var maj := s.votes.Maj23(commitRound, Precommit);
        if maj.None? then s.(broken := true)
        else
          FinalizeCommit(AdoptBlock(s, maj.value).(step := COMMIT, commitRound := commitRound))
    }

    /** The locked block becomes the proposal block when it is the decided one; any other
        proposal block is dropped and the decided one asked for. */
    function AdoptBlock(s: Node, hash: Hash): Node {
      var s1 := if Holds(s.lockedBlock, hash)
                then s.(proposalBlockHash := Some(hash), proposalBlock := s.lockedBlock,
                  proposalExecuted := s.lockedExecuted)
                else s;
      if Holds(s1.proposalBlock, hash) then s1
      else AskFor(s1, hash)
    }

    function FinalizeCommit(s: Node): Node {
      if s.step != COMMIT then s.(broken := true)
      else if s.commitRound < 0 then s
      else
        var maj := s.votes.Maj23(s.commitRound, Precommit);
        if maj.None? || maj.value == EMPTY_HASH then s
        else if s.proposal.None? || s.proposal.value.hash != maj.value then s
        else if !Holds(s.proposalBlock, maj.value) then s
        else if !s.proposalExecuted && env.commitExec != Valid then s
        else
          var s' := s.(proposalExecuted := true);
          if !env.sealMatches || !env.walOk then s'
          else s'.(commits := s'.commits + [maj.value])
    }

    /** A prevote majority for something else, later than the lock, releases it. */
    function TryUnlock(s: Node, round: nat): Node {
      var maj := s.votes.Maj23(round, Prevote);
      if maj.Some? && s.lockedBlock.Some? && s.lockedRound < round <= s.round && s.lockedBlock.value.hash != maj.value
      then Unlock(s) else s
    }

    /** A prevote majority of the current round makes its block the valid one, or asks for it. */
    function FollowMajority(s: Node, round: nat): Node {
      var maj := s.votes.Maj23(round, Prevote);
      if maj.Some? && maj.value != EMPTY_HASH && s.validRound < round && round == s.round then
        if s.proposalBlockHash == maj then s.(validRound := round, validBlock := s.proposalBlock)
        else AskFor(s, maj.value)
      else s
    }

    function NotePrevotes(s: Node, round: nat): Node {
      FollowMajority(TryUnlock(s, round), round)
    }

    function AfterPrevote(s: Node, round: nat): Node {
      var maj := s.votes.Maj23(round, Prevote);
      var s1 := NotePrevotes(s, round);
      if s1.round < round && s1.votes.TwoThirdsAny(c, round, Prevote) then EnterNewRound(s1, round)
      else if s1.round == round && PREVOTE <= s1.step then
        if maj.Some? && (IsProposalComplete(s1) || maj.value == EMPTY_HASH) then EnterPrecommit(s1, round)
        else if s1.votes.TwoThirdsAny(c, round, Prevote) then EnterPrevoteWait(s1, round)
        else s1
      else if s1.proposal.Some? && 0 <= s1.proposal.value.POLRound == round && IsProposalComplete(s1) then
        EnterPrevote(s1, s1.round)
      else s1
    }

    function AfterPrecommit(s: Node, round: nat): Node {
      var maj := s.votes.Maj23(round, Precommit);
      if maj.Some? then
        var s1 := EnterPrecommit(EnterNewRound(s, round), round);
        if maj.value != EMPTY_HASH then EnterNewRound(EnterCommit(s1, round), 0)
        else EnterPrecommitWait(s1, round)
      else if s.round <= round && s.votes.TwoThirdsAny(c, round, Precommit) then
        EnterPrecommitWait(EnterNewRound(s, round), round)
      else s
    }

    /** A vote that raises an exception is still recorded as far as the vote set got. */
    function AddVote(s: Node, vote: Vote, peer: Peer): Node
    {
      if vote.height != c.height then s
      else
        var (votes, outcome) := s.votes.AddVote(c, vote, peer);
        var s' := s.(votes := votes);
        if outcome != Accepted then s'
        else if vote.kind == Prevote then AfterPrevote(s', vote.round)
        else AfterPrecommit(s', vote.round)
    }

    function HandleTimeout(s: Node, height: nat, ti: Timeout): Node {
      if height != c.height || ti.round < s.round || (ti.round == s.round && ti.step < s.step) then s
      else if ti.step == NEW_HEIGHT then EnterNewRound(s, 0)
      else if ti.step == NEW_ROUND then EnterPropose(s, 0)
      else if ti.step == PROPOSE then EnterPrevote(s, ti.round)
      else if ti.step == PREVOTE_WAIT then EnterPrecommit(s, ti.round)
      else if ti.step == PRECOMMIT_WAIT then EnterNewRound(EnterPrecommit(s, ti.round), ti.round + 1)
      else s.(broken := true)
    }

    /** The claim is passed on only when it is about another height. */
    function SetVoteMaj23(s: Node, height: nat, round: nat, kind: VoteType, peer: Peer, hash: Hash): Node {
      if height == c.height then s
      else s.(votes := s.votes.SetPeer(round, kind, peer, hash))
    }

    function Handle(s: Node, event: Event): Node
    {
      match event
      case TimerFired(height, timeout) => HandleTimeout(s, height, timeout)
      case ProposalArrived(proposal, signatureOk) => SetProposal(s, proposal, signatureOk)
      case BlockArrived(block) => AddProposalBlock(s, block)
      case VoteArrived(vote, peer) => AddVote(s, vote, peer)
      case PeerClaimed(height, round, kind, peer, hash) => SetVoteMaj23(s, height, round, kind, peer, hash)
    }
  }

  /** A node that has just moved to this height. The hash of the last proposal block of the
      previous height is not cleared. */
  function NewNode(stale: Option<Hash>): Node {
    Node(0, NEW_HEIGHT, None, stale, None, false, -1, None, false, -1, None,
         HeightVotes(0, map[], map[]), -1, false, [], {Timeout(0, NEW_HEIGHT)}, [], false)
  }
}
