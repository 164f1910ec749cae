/** What the arrival of a block, of a vote or of a claim does to a node. */
module FollowUps {
  import opened Ballots
  import opened RoundBooks
  import opened StateSpec
  import opened Agreement
  import opened Protocol
  import opened Answers
  import opened Prompt
  import Progress
  import VoteBooks

  // ---- A block ----

  /** A block that is not asked for, or names no active validator, changes nothing. */
  lemma BlockRefused(m: Machine, s: Node, block: Block)
    requires s.proposalBlock.Some? || s.proposal.None? || s.proposalBlockHash != Some(block.hash)
      || !block.proposerActive
    ensures m.Handle(s, BlockArrived(block)) == s
  {
    hide Machine.AcceptBlock, Machine.FinalizeCommit, Machine.EnterPrevote, Machine.EnterPrecommit;
  }

  predicate Asked(s: Node, block: Block) {
    s.proposalBlock.None? && s.proposal.Some? && s.proposalBlockHash == Some(block.hash) && block.proposerActive
  }

  /** The block that was missing moves the node on: to prevote, or at once to precommit if the
      majority is there already. */
  lemma BlockMovesOn(m: Machine, log: Log, s: Node, block: Block)
    requires Sane(m.c, m.me, log, s) && s.outbox == [] && m.env.preprocess != Committed
    requires Asked(s, block) && s.step <= PROPOSE && PolKnown(s)
    ensures var s' := m.Handle(s, BlockArrived(block));
      s'.round == s.round
      && s'.step >= if s.votes.Maj23(s.round, Prevote).Some? then PRECOMMIT else PREVOTE
  {
    hide Sane, Machine.AcceptBlock, Machine.EnterPrevote, Machine.EnterPrecommit, HeightVotes.Maj23;
    var s1 := m.AcceptBlock(s, block);
    AcceptFrame(m, s, block);
    PrevoteStays(m, s1);
    PrevoteMoves(m, s1);
    var s2 := m.EnterPrevote(s1, s1.round);
    PrecommitStays(m, s2, s2.round);
    HandleSane(m, log, s, BlockArrived(block));
    Progress.NotBroken(m.c, m.me, log, m.Handle(s, BlockArrived(block)));
  }

  /** A block that comes later is kept; in commit, it is committed if it is the decided one and
      executing, sealing and logging succeed. */
  lemma LateBlock(m: Machine, s: Node, block: Block)
    requires Asked(s, block) && s.step > PROPOSE
    ensures var s' := m.Handle(s, BlockArrived(block));
      && s'.proposalBlock == Some(block) && s'.step == s.step && s'.round == s.round
      && (s.step == COMMIT && s.commitRound >= 0 && s.votes.Maj23(s.commitRound, Precommit) == Some(block.hash)
          && s.proposal.value.hash == block.hash != EMPTY_HASH
          && m.env.commitExec == Valid && m.env.sealMatches && m.env.walOk ==>
            s'.commits == s.commits + [block.hash])
  {
    hide Machine.AcceptBlock, HeightVotes.Maj23;
    AcceptFrame(m, s, block);
  }

  predicate SameValid(s: Node, s': Node) {
    s'.validRound == s.validRound && s'.validBlock == s.validBlock
  }

  /** A block becomes the valid one exactly if its majority was known before, but had not been taken
      for that of a block at hand. */
  lemma BlockIsValid(m: Machine, s: Node, block: Block)
    requires Asked(s, block)
    ensures var s' := m.Handle(s, BlockArrived(block));
      if s.votes.Maj23(s.round, Prevote) == Some(block.hash) != Some(EMPTY_HASH) && s.validRound < s.round then
        s'.validBlock == Some(block) && s'.validRound == s.round
      else SameValid(s, s')
  {
    hide HeightVotes.Maj23, Machine.EnterPrevote, Machine.EnterPrecommit, Machine.FinalizeCommit;
    var s1 := m.AcceptBlock(s, block);
    PrevoteStays(m, s1);
    PrevoteValid(m, s1);
    var s2 := m.EnterPrevote(s1, s1.round);
    PrecommitValid(m, s2, s2.round);
    FinalizeValid(m, s1);
  }

  lemma PrevoteValid(m: Machine, s: Node)
    ensures SameValid(s, m.EnterPrevote(s, s.round)) && SameValid(s, m.EnterPrevoteWait(s, s.round))
  {
    hide Machine.Ballots, HeightVotes.TwoThirdsAny;
  }

  lemma MajorityValid(m: Machine, s: Node, round: nat, hash: Hash)
    ensures SameValid(s, m.PrecommitMajority(s, round, hash))
  {
    hide Machine.Ballots;
  }

  lemma PrecommitValid(m: Machine, s: Node, round: nat)
    ensures SameValid(s, m.EnterPrecommit(s, round))
  {
    hide HeightVotes.Maj23, HeightVotes.POLInfo, Machine.PrecommitMajority, Machine.Ballots;
    forall hash { MajorityValid(m, s, round, hash); }
  }

  lemma FinalizeValid(m: Machine, s: Node)
    ensures SameValid(s, m.FinalizeCommit(s))
  {
    hide HeightVotes.Maj23;
  }

  // ---- A vote ----

  /** A vote for another height changes nothing, and one that is not accepted only what the vote sets
      have of it. */
  lemma VoteRefused(m: Machine, s: Node, v: Vote, peer: Peer)
    ensures v.height != m.c.height ==> m.Handle(s, VoteArrived(v, peer)) == s
    ensures s.votes.AddVote(m.c, v, peer).1 != VoteBooks.Accepted ==>
      var s' := m.Handle(s, VoteArrived(v, peer)); s' == s.(votes := s'.votes)
  {
    hide HeightVotes.AddVote, Machine.AfterPrevote, Machine.AfterPrecommit;
  }

  /** An accepted prevote of the node's round, once it has prevoted itself, moves it to waiting if more
      than two thirds have prevoted, and to precommit if a majority is for nil or for a proposal that is
      there. */
  lemma PrevoteMovesOn(m: Machine, log: Log, s: Node, v: Vote, peer: Peer)
    requires Sane(m.c, m.me, log, s) && s.outbox == [] && Unforged(m.c, log, v)
    requires v.height == m.c.height && v.kind == Prevote && v.round == s.round && s.step >= PREVOTE
    requires s.votes.AddVote(m.c, v, peer).1 == VoteBooks.Accepted
    ensures var votes, s' := s.votes.AddVote(m.c, v, peer).0, m.Handle(s, VoteArrived(v, peer));
      var maj := votes.Maj23(s.round, Prevote);
      && (votes.TwoThirdsAny(m.c, s.round, Prevote) ==> s'.step >= PREVOTE_WAIT)
      && (maj == Some(EMPTY_HASH) ==> s'.step >= PRECOMMIT)
      && (maj.Some? && s.proposalBlockHash == maj && Complete(s.(votes := votes)) ==> s'.step >= PRECOMMIT)
  {
    hide Sane, HeightVotes.AddVote, HeightVotes.Maj23, HeightVotes.TwoThirdsAny, Machine.NotePrevotes,
      Machine.EnterNewRound, Machine.EnterPrecommit, Machine.EnterPrevote, Machine.EnterPrevoteWait;
    var s1 := s.(votes := s.votes.AddVote(m.c, v, peer).0);
    var s2 := m.NotePrevotes(s1, s.round);
    NoteFrame(m, s1, s.round);
    FollowKeeps(m, s1, s.round);
    PrecommitStays(m, s2, s.round);
    PrevoteWaitStays(m, s2);
    HandleSane(m, log, s, VoteArrived(v, peer));
    Progress.NotBroken(m.c, m.me, log, m.Handle(s, VoteArrived(v, peer)));
    assert Signed(log, s) == log;
    Progress.ReceivedSane(m, log, s, v, peer);
    MajorityTurnout(m.c, m.me, log, s1, s.round);
  }

  lemma FollowKeeps(m: Machine, s: Node, round: nat)
    ensures var maj := s.votes.Maj23(round, Prevote);
      s.proposalBlockHash == maj || maj == Some(EMPTY_HASH) ==>
        m.NotePrevotes(s, round).proposalBlock == s.proposalBlock
  {
    hide HeightVotes.Maj23;
  }

  /** The first prevote of the node's round with which a block has a majority makes the proposal block
      the valid one, if that is the block, and has it asked for, if not. */
  lemma MajorityIsFollowed(m: Machine, s: Node, v: Vote, peer: Peer)
    requires v.height == m.c.height && v.kind == Prevote && v.round == s.round && s.validRound < s.round
    requires s.votes.AddVote(m.c, v, peer).1 == VoteBooks.Accepted
    requires var maj := s.votes.AddVote(m.c, v, peer).0.Maj23(s.round, Prevote); maj.Some? && maj != Some(EMPTY_HASH)
    ensures var maj := s.votes.AddVote(m.c, v, peer).0.Maj23(s.round, Prevote);
      var s' := m.Handle(s, VoteArrived(v, peer));
      if s.proposalBlockHash == maj then s'.validRound == s.round && s'.validBlock == s.proposalBlock
      else s'.proposalBlockHash == maj && s'.proposalBlock.None? && s'.step <= (if s.step >= PREVOTE_WAIT then s.step
        else PREVOTE_WAIT)
  {
    hide HeightVotes.AddVote, HeightVotes.Maj23, HeightVotes.TwoThirdsAny, Machine.NotePrevotes,
      Machine.EnterNewRound, Machine.EnterPrecommit, Machine.EnterPrevote, Machine.EnterPrevoteWait;
    var s1 := s.(votes := s.votes.AddVote(m.c, v, peer).0);
    var s2 := m.NotePrevotes(s1, s.round);
    NoteFollows(m, s1, s.round);
    PrevoteValid(m, s2);
    PrecommitValid(m, s2, s.round);
    WaitKeeps(m, s2);
  }

  lemma NoteFollows(m: Machine, s: Node, round: nat)
    requires round == s.round && s.validRound < round
    requires s.votes.Maj23(round, Prevote).Some? && s.votes.Maj23(round, Prevote) != Some(EMPTY_HASH)
    ensures var maj, s' := s.votes.Maj23(round, Prevote), m.NotePrevotes(s, round);
      && s'.votes == s.votes && s'.round == s.round && s'.step == s.step && s'.proposal == s.proposal
      && if s.proposalBlockHash == maj then s'.validRound == round && s'.validBlock == s.proposalBlock
         else s'.proposalBlockHash == maj && s'.proposalBlock.None?
  {
    hide HeightVotes.Maj23;
  }

  lemma WaitKeeps(m: Machine, s: Node)
    ensures var s' := m.EnterPrevoteWait(s, s.round);
      s'.proposalBlockHash == s.proposalBlockHash && s'.proposalBlock == s.proposalBlock
      && s'.step <= if s.step >= PREVOTE_WAIT then s.step else PREVOTE_WAIT
  {
    hide HeightVotes.TwoThirdsAny;
  }

  // ---- A claim ----

  /** A claim about the node's own height changes nothing at all; one about another height is taken for
      one about this height, and stands unless the peer has made another. */
  lemma ClaimIsMisplaced(m: Machine, s: Node, height: nat, round: nat, kind: VoteType, peer: Peer, hash: Hash)
    ensures var s' := m.Handle(s, PeerClaimed(height, round, kind, peer, hash));
      if height == m.c.height || round !in s.votes.rounds then s' == s
      else
        var b, b' := s.votes.rounds[round].Of(kind), s'.votes.rounds[round].Of(kind);
        && (peer !in b.peerMaj23s ==>
              b'.peerMaj23s == b.peerMaj23s[peer := hash] && hash in b'.tallies && b'.tallies[hash].peerMaj23)
        && (peer in b.peerMaj23s ==> s'.votes == s.votes)
  {
  }
}
