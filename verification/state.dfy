/** The consensus state machine as the node runs it: an object whose handlers assign its fields.
Every handler is proved to compute what `statespec.dfy` says, for which `protocol.dfy` and
`network.dfy` prove the guarantees. `env` is what the surroundings answer while it runs. */
module StateMachines {
  import opened Ballots
  import opened VoteBooks
  import opened RoundBooks
  import opened StateSpec
  import opened Votes

  class StateMachine {
    const c: Committee
    const me: nat

    var round: nat
    var step: Step
    var triggeredTimeoutPrecommit: bool

    var proposal: Option<Proposal>
    var proposalBlockHash: Option<Hash>
    var proposalBlock: Option<Block>
    var proposalExecuted: bool

    var lockedRound: int
    var lockedBlock: Option<Block>
    var lockedExecuted: bool

    var validRound: int
    var validBlock: Option<Block>

    var votes: HeightVoteSet
    var commitRound: int

    var outbox: seq<Vote>
    var timeouts: set<Timeout>
    var commits: seq<Hash>
    var broken: bool

    /** Moving to a new height. The hash of the last proposal block is left as it was. */
    constructor NewBlockHeader(c: Committee, me: nat, stale: Option<Hash>)
      ensures Valid() && fresh(votes) && this.c == c && this.me == me
      ensures State() == NewNode(stale)
    {
      this.c, this.me := c, me;
      round, step, triggeredTimeoutPrecommit := 0, NEW_HEIGHT, false;
      proposal, proposalBlockHash, proposalBlock, proposalExecuted := None, stale, None, false;
      lockedRound, lockedBlock, lockedExecuted := -1, None, false;
      validRound, validBlock := -1, None;
      votes := new HeightVoteSet(c);
      commitRound := -1;
      outbox, timeouts, commits, broken := [], {Timeout(0, NEW_HEIGHT)}, [], false;
    }

    ghost predicate Valid()
      reads this
    {
      votes.c == c
    }

    ghost function State(): Node
      reads this, votes
    {
      Node(round, step, proposal, proposalBlockHash, proposalBlock, proposalExecuted,
           lockedRound, lockedBlock, lockedExecuted, validRound, validBlock,
           votes.Model(), commitRound, triggeredTimeoutPrecommit, outbox, timeouts, commits, broken)
    }

    function Maj23(round: nat, kind: VoteType): Option<Hash>
      reads this, votes
    {
      votes.Model().Maj23(round, kind)
    }

    method Update(ghost env: Env, next: nat, nextStep: Step)
      modifies this`round, this`step
      ensures State() == Machine(c, me, env).At(old(State()), next, nextStep)
    {
      round, step := next, nextStep;
    }

    method Schedule(ghost env: Env, next: nat, nextStep: Step)
      modifies this`timeouts
      ensures State() == Machine(c, me, env).Schedule(old(State()), next, nextStep)
    {
      timeouts := timeouts + {Timeout(next, nextStep)};
    }

    method Unlock(ghost env: Env)
      modifies this`lockedRound, this`lockedBlock, this`lockedExecuted
      ensures State() == Machine(c, me, env).Unlock(old(State()))
    {
      lockedRound, lockedBlock, lockedExecuted := -1, None, false;
    }

    method SignVote(env: Env, kind: VoteType, hash: Hash)
      modifies this`outbox
      ensures outbox == old(outbox) + Machine(c, me, env).Ballots(round, kind, hash)
    {
      if env.canSign {
        outbox := outbox + [Vote(c.height, round, kind, hash, me, c.scheme, me)];
      }
    }

    method IsProposalComplete(ghost env: Env) returns (r: bool)
      ensures r == Machine(c, me, env).IsProposalComplete(State())
    {
      if proposal.None? || proposalBlock.None? {
        return false;
      }
      if proposal.value.POLRound < 0 {
        return true;
      }
      r := Maj23(proposal.value.POLRound, Prevote).Some?;
    }

    method SetProposal(env: Env, p: Proposal, signatureOk: bool)
      modifies this
      ensures State() == Machine(c, me, env).SetProposal(old(State()), p, signatureOk) && votes == old(votes)
    {
      if proposal.Some? || p.height != c.height || p.round != round {
        return;
      }
      if p.POLRound < -1 || (p.POLRound >= 0 && p.POLRound >= p.round) {
        return;
      }
      if signatureOk {
        proposal, proposalBlockHash := Some(p), Some(p.hash);
      }
    }

    /** Takes the block, and makes it the valid one if its majority was known before. */
    method AcceptBlock(ghost env: Env, block: Block)
      modifies this`proposalBlock, this`validRound, this`validBlock
      ensures State() == Machine(c, me, env).AcceptBlock(old(State()), block)
    {
      proposalBlock := Some(block);
      var maj23Hash := Maj23(round, Prevote);
      if maj23Hash.Some? && maj23Hash.value != EMPTY_HASH && validRound < round {
        if proposalBlockHash == maj23Hash {
          validRound, validBlock := round, proposalBlock;
        }
      }
    }

    method AddProposalBlock(env: Env, block: Block)
      requires Valid()
      modifies this
      ensures State() == Machine(c, me, env).AddProposalBlock(old(State()), block) && votes == old(votes)
    {
      hide Machine.AcceptBlock, Machine.EnterPrevote, Machine.EnterPrecommit, Machine.FinalizeCommit;
      if proposalBlock.Some? || proposal.None? || proposalBlockHash.None? {
        return;
      }
      if !block.proposerActive || proposalBlockHash.value != block.hash {
        return;
      }
      var maj23Hash := Maj23(round, Prevote);
      AcceptBlock(env, block);
      var complete := IsProposalComplete(env);
      if step <= PROPOSE && complete {
        EnterPrevote(env, round);
        if maj23Hash.Some? {
          EnterPrecommit(env, round);
        }
      } else if step == COMMIT {
        FinalizeCommit(env);
      }
    }

    method StartRound(ghost env: Env, next: nat)
      modifies this`round, this`step, this`proposal, this`proposalBlockHash, this`proposalBlock, this`proposalExecuted
      ensures State() == Machine(c, me, env).StartRound(old(State()), next) && votes == old(votes)
    {
      Update(env, next, NEW_ROUND);
      if next == 0 {
        return;
      }
      proposal, proposalBlockHash, proposalBlock, proposalExecuted := None, None, None, false;
    }

    method EnterNewRound(env: Env, next: nat)
      requires Valid()
      modifies this, votes
      ensures State() == Machine(c, me, env).EnterNewRound(old(State()), next) && votes == old(votes)
    {
      hide Machine.EnterPropose, Machine.StartRound, HeightVotes.SetRound;
      if next < round || (round == next && step != NEW_HEIGHT) {
        return;
      }
      StartRound(env, next);
      var ok := votes.SetRound(next + 1);
      if !ok {
        broken := true;
        return;
      }
      triggeredTimeoutPrecommit := false;
      EnterPropose(env, next);
    }

    method EnterPropose(env: Env, next: nat)
      requires Valid()
      modifies this
      ensures State() == Machine(c, me, env).EnterPropose(old(State()), next) && votes == old(votes)
    {
      if next < round || (round == next && PROPOSE <= step) {
        return;
      }
      Schedule(env, next, PROPOSE);
      Update(env, next, PROPOSE);
      var complete := IsProposalComplete(env);
      if complete {
        EnterPrevote(env, next);
      }
    }

    method EnterPrevote(env: Env, next: nat)
      requires Valid()
      modifies this
      ensures State() == Machine(c, me, env).EnterPrevote(old(State()), next) && votes == old(votes)
    {
      if next < round || (round == next && PREVOTE <= step) {
        return;
      }
      if lockedBlock.Some? {
        SignVote(env, Prevote, lockedBlock.value.hash);
      } else if proposalBlock.None? {
        SignVote(env, Prevote, EMPTY_HASH);
      } else {
        match env.preprocess {
          case Committed => return;
          case Valid =>
            proposalExecuted := true;
            SignVote(env, Prevote, proposalBlock.value.hash);
          case Invalid =>
            SignVote(env, Prevote, EMPTY_HASH);
        }
      }
      Update(env, next, PREVOTE);
    }

    method EnterPrevoteWait(env: Env, next: nat)
      requires Valid()
      modifies this
      ensures State() == Machine(c, me, env).EnterPrevoteWait(old(State()), next) && votes == old(votes)
    {
      if next < round || (round == next && PREVOTE_WAIT <= step) {
        return;
      }
      if !votes.Model().TwoThirdsAny(c, next, Prevote) {
        broken := true;
        return;
      }
      Schedule(env, next, PREVOTE_WAIT);
      Update(env, next, PREVOTE_WAIT);
    }

    method EnterPrecommit(env: Env, next: nat)
      requires Valid()
      modifies this
      ensures State() == Machine(c, me, env).EnterPrecommit(old(State()), next) && votes == old(votes)
    {
      hide Machine.PrecommitMajority, HeightVotes.POLInfo, HeightVotes.Maj23;
      if next < round || (round == next && PRECOMMIT <= step) {
        return;
      }
      var maj23Hash := Maj23(next, Prevote);
      if maj23Hash.None? {
        SignVote(env, Precommit, EMPTY_HASH);
        Update(env, next, PRECOMMIT);
        return;
      }
      var polInfo := votes.POLInfo();
      if polInfo.Some? && polInfo.value < next {
        broken := true;
        return;
      }
      PrecommitMajority(env, next, maj23Hash.value);
      Update(env, next, PRECOMMIT);
    }

    /** The rest of `enterPrecommit`, for a prevote majority. */
    method PrecommitMajority(env: Env, next: nat, maj23Hash: Hash)
      modifies this
      ensures State() == Machine(c, me, env).PrecommitMajority(old(State()), next, maj23Hash) && votes == old(votes)
    {
      hide Machine.Relock;
      var hash := Relock(env, next, maj23Hash);
      SignVote(env, Precommit, hash);
    }

    /** Drops the proposal block in favour of the one named `hash`. */
    method AskFor(ghost env: Env, hash: Hash)
      modifies this`proposalBlock, this`proposalBlockHash, this`proposalExecuted
      ensures State() == Machine(c, me, env).AskFor(old(State()), hash)
    {
      proposalBlock, proposalBlockHash, proposalExecuted := None, Some(hash), false;
    }

    method LockProposal(next: nat)
      modifies this`lockedRound, this`lockedBlock, this`lockedExecuted
      ensures State() == old(State()).(lockedRound := next, lockedBlock := proposalBlock,
        lockedExecuted := proposalExecuted)
    {
      lockedRound, lockedBlock, lockedExecuted := next, proposalBlock, proposalExecuted;
    }

    /** Settles the lock, and says which hash to precommit. */
    method Relock(ghost env: Env, next: nat, maj23Hash: Hash) returns (hash: Hash)
      modifies this`lockedRound, this`lockedBlock, this`lockedExecuted
      modifies this`proposalBlock, this`proposalBlockHash, this`proposalExecuted
      ensures State() == Machine(c, me, env).Relock(old(State()), next, maj23Hash)
      ensures hash == if maj23Hash != EMPTY_HASH && Machine(c, me, env).Holds(lockedBlock, maj23Hash) then maj23Hash
        else EMPTY_HASH
    {
      hide Machine.AskFor;
      if maj23Hash == EMPTY_HASH {
        if lockedBlock.Some? {
          Unlock(env);
        }
        return EMPTY_HASH;
      }
      if lockedBlock.Some? && lockedBlock.value.hash == maj23Hash {
        lockedRound := next;
        return maj23Hash;
      }
      if proposalBlock.Some? && proposalBlock.value.hash == maj23Hash {
        LockProposal(next);
        return maj23Hash;
      }
      Unlock(env);
      AskFor(env, maj23Hash);
      hash := EMPTY_HASH;
    }

    method EnterPrecommitWait(env: Env, next: nat)
      requires Valid()
      modifies this
      ensures State() == Machine(c, me, env).EnterPrecommitWait(old(State()), next) && votes == old(votes)
    {
      if next < round || (round == next && triggeredTimeoutPrecommit) {
        return;
      }
      if !votes.Model().TwoThirdsAny(c, next, Precommit) {
        broken := true;
        return;
      }
      Schedule(env, next, PRECOMMIT_WAIT);
      triggeredTimeoutPrecommit := true;
    }

    method EnterCommit(env: Env, next: nat)
      requires Valid()
      modifies this
      ensures State() == Machine(c, me, env).EnterCommit(old(State()), next) && votes == old(votes)
    {
      hide Machine.FinalizeCommit, Machine.AdoptBlock, HeightVotes.Maj23;
      if COMMIT <= step {
        return;
      }
      var maj23Hash := Maj23(next, Precommit);
      if maj23Hash.None? {
        broken := true;
        return;
      }
      AdoptBlock(env, maj23Hash.value);
      step, commitRound := COMMIT, next;
      FinalizeCommit(env);
    }

    method AdoptBlock(ghost env: Env, maj23Hash: Hash)
      modifies this
      ensures State() == Machine(c, me, env).AdoptBlock(old(State()), maj23Hash) && votes == old(votes)
    {
      if lockedBlock.Some? && lockedBlock.value.hash == maj23Hash {
        proposalBlockHash, proposalBlock, proposalExecuted := Some(maj23Hash), lockedBlock, lockedExecuted;
      }
      if proposalBlock.None? || proposalBlock.value.hash != maj23Hash {
        AskFor(env, maj23Hash);
      }
    }

    method FinalizeCommit(env: Env)
      modifies this
      ensures State() == Machine(c, me, env).FinalizeCommit(old(State())) && votes == old(votes)
    {
      if step != COMMIT {
        broken := true;
        return;
      }
      if commitRound < 0 {
        return;
      }
      var maj23Hash := Maj23(commitRound, Precommit);
      if maj23Hash.None? || maj23Hash.value == EMPTY_HASH {
        return;
      }
      if proposal.None? || proposal.value.hash != maj23Hash.value {
        return;
      }
      if proposalBlock.None? || proposalBlock.value.hash != maj23Hash.value {
        return;
      }
      if !proposalExecuted {
        if env.commitExec != Execution.Valid {
          return;
        }
        proposalExecuted := true;
      }
      if env.sealMatches && env.walOk {
        commits := commits + [maj23Hash.value];
      }
    }

    /** What a prevote majority changes before the node decides where to go. */
    method NotePrevotes(env: Env, r: nat)
      requires Valid()
      modifies this
      ensures State() == Machine(c, me, env).NotePrevotes(old(State()), r) && votes == old(votes)
    {
      var maj23Hash := Maj23(r, Prevote);
      if maj23Hash.Some? {
        if lockedBlock.Some? && lockedRound < r <= round && lockedBlock.value.hash != maj23Hash.value {
          Unlock(env);
        }
        assert State() == Machine(c, me, env).TryUnlock(old(State()), r);
        if maj23Hash.value != EMPTY_HASH && validRound < r && r == round {
          if proposalBlockHash == maj23Hash {
            validRound, validBlock := r, proposalBlock;
          } else {
            AskFor(env, maj23Hash.value);
          }
        }
      }
    }

    method AfterPrevote(env: Env, r: nat)
      requires Valid()
      modifies this, votes
      ensures State() == Machine(c, me, env).AfterPrevote(old(State()), r) && votes == old(votes)
    {
      hide Machine.NotePrevotes, Machine.EnterNewRound, Machine.EnterPrecommit, Machine.EnterPrevote,
        Machine.EnterPrevoteWait;
      var maj23Hash := Maj23(r, Prevote);
      NotePrevotes(env, r);
      var complete := IsProposalComplete(env);
      var any := votes.Model().TwoThirdsAny(c, r, Prevote);
      if round < r && any {
        EnterNewRound(env, r);
      } else if round == r && PREVOTE <= step {
        if maj23Hash.Some? && (complete || maj23Hash.value == EMPTY_HASH) {
          EnterPrecommit(env, r);
        } else if any {
          EnterPrevoteWait(env, r);
        }
      } else if proposal.Some? && 0 <= proposal.value.POLRound == r {
        if complete {
          EnterPrevote(env, round);
        }
      }
    }

    method AfterPrecommit(env: Env, r: nat)
      requires Valid()
      modifies this, votes
      ensures State() == Machine(c, me, env).AfterPrecommit(old(State()), r) && votes == old(votes)
    {
      hide Machine.EnterNewRound, Machine.EnterPrecommit, Machine.EnterCommit, Machine.EnterPrecommitWait;
      var maj23Hash := Maj23(r, Precommit);
      if maj23Hash.Some? {
        EnterNewRound(env, r);
        EnterPrecommit(env, r);
        if maj23Hash.value != EMPTY_HASH {
          EnterCommit(env, r);
          EnterNewRound(env, 0);
        } else {
          EnterPrecommitWait(env, r);
        }
      } else if round <= r && votes.Model().TwoThirdsAny(c, r, Precommit) {
        EnterNewRound(env, r);
        EnterPrecommitWait(env, r);
      }
    }

    method AddVote(env: Env, vote: Vote, peerId: Peer)
      requires Valid()
      modifies this, votes
      ensures State() == Machine(c, me, env).AddVote(old(State()), vote, peerId) && votes == old(votes)
    {
      hide Machine.AfterPrevote, Machine.AfterPrecommit, HeightVotes.AddVote;
      if vote.height != c.height {
        return;
      }
      var outcome := votes.AddVote(vote, peerId);
      if outcome != Accepted {
        return;
      }
      match vote.kind
      case Prevote => AfterPrevote(env, vote.round);
      case Precommit => AfterPrecommit(env, vote.round);
    }

    method HandleTimeout(env: Env, height: nat, ti: Timeout)
      requires Valid()
      modifies this, votes
      ensures State() == Machine(c, me, env).HandleTimeout(old(State()), height, ti) && votes == old(votes)
    {
      hide Machine.EnterNewRound, Machine.EnterPrecommit, Machine.EnterPrevote, Machine.EnterPropose;
      if height != c.height || ti.round < round || (ti.round == round && ti.step < step) {
        return;
      }
      if ti.step == NEW_HEIGHT {
        EnterNewRound(env, 0);
      } else if ti.step == NEW_ROUND {
        EnterPropose(env, 0);
      } else if ti.step == PROPOSE {
        EnterPrevote(env, ti.round);
      } else if ti.step == PREVOTE_WAIT {
        EnterPrecommit(env, ti.round);
      } else if ti.step == PRECOMMIT_WAIT {
        EnterPrecommit(env, ti.round);
        EnterNewRound(env, ti.round + 1);
      } else {
        broken := true;
      }
    }

    method SetVoteMaj23(env: Env, height: nat, r: nat, kind: VoteType, peerId: Peer, hash: Hash)
      requires Valid()
      modifies votes
      ensures State() == Machine(c, me, env).SetVoteMaj23(old(State()), height, r, kind, peerId, hash)
      ensures votes == old(votes)
    {
      if height == c.height {
        return;
      }
      votes.SetPeerMaj23Of(r, kind, peerId, hash);
    }

    method Handle(env: Env, event: Event)
      requires Valid()
      modifies this, votes
      ensures Valid() && votes == old(votes)
      ensures State() == Machine(c, me, env).Handle(old(State()), event)
    {
      hide Machine.HandleTimeout, Machine.SetProposal, Machine.AddProposalBlock, Machine.AddVote, Machine.SetVoteMaj23;
      match event
      case TimerFired(height, timeout) => HandleTimeout(env, height, timeout);
      case ProposalArrived(p, signatureOk) => SetProposal(env, p, signatureOk);
      case BlockArrived(block) => AddProposalBlock(env, block);
      case VoteArrived(vote, peer) => AddVote(env, vote, peer);
      case PeerClaimed(height, r, kind, peer, hash) => SetVoteMaj23(env, height, r, kind, peer, hash);
    }
  }
}
