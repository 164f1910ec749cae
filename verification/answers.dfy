/** What a node never leaves undone: it catches up with the votes it has, it prevotes as soon as the
proposal is complete, and it enters commit as soon as a block is decided. */
module Answers {
  import opened Ballots
  import opened RoundBooks
  import opened StateSpec
  import opened Agreement
  import opened Protocol
  import opened Network
  import VoteBooks

  /** The node stays in its round, with its proposal and what it has committed, and goes no step back. */
  predicate Stays(s: Node, s': Node) {
    && s'.round == s.round && s'.step >= s.step && s'.votes == s.votes && s'.proposal == s.proposal
    && s'.commitRound == s.commitRound && s'.commits == s.commits
    && (s.triggeredTimeoutPrecommit ==> s'.triggeredTimeoutPrecommit)
  }

  lemma PrevoteStays(m: Machine, s: Node)
    ensures Stays(s, m.EnterPrevote(s, s.round))
    ensures m.EnterPrevote(s, s.round).triggeredTimeoutPrecommit == s.triggeredTimeoutPrecommit
  {
    hide Machine.Ballots;
  }

  lemma PrevoteMoves(m: Machine, s: Node)
    ensures m.env.preprocess != Committed ==> m.EnterPrevote(s, s.round).step >= PREVOTE
    ensures m.EnterPrevote(s, s.round).proposalBlock == s.proposalBlock
  {
    hide Machine.Ballots;
  }

  lemma PrevoteWaitStays(m: Machine, s: Node)
    ensures Stays(s, m.EnterPrevoteWait(s, s.round))
    ensures m.EnterPrevoteWait(s, s.round).triggeredTimeoutPrecommit == s.triggeredTimeoutPrecommit
    ensures m.EnterPrevoteWait(s, s.round).proposalBlock == s.proposalBlock
    ensures s.votes.TwoThirdsAny(m.c, s.round, Prevote) ==> m.EnterPrevoteWait(s, s.round).step >= PREVOTE_WAIT
  {
    hide HeightVotes.TwoThirdsAny;
  }

  lemma MajorityStays(m: Machine, s: Node, round: nat, hash: Hash)
    ensures Stays(s, m.PrecommitMajority(s, round, hash))
    ensures m.PrecommitMajority(s, round, hash).step == s.step
    ensures m.PrecommitMajority(s, round, hash).triggeredTimeoutPrecommit == s.triggeredTimeoutPrecommit
    ensures m.PrecommitMajority(s, round, hash).proposalBlock in {None, s.proposalBlock}
  {
    hide Machine.Ballots;
  }

  lemma PrecommitStays(m: Machine, s: Node, round: nat)
    requires round <= s.round
    ensures Stays(s, m.EnterPrecommit(s, round))
    ensures m.EnterPrecommit(s, round).triggeredTimeoutPrecommit == s.triggeredTimeoutPrecommit
    ensures m.EnterPrecommit(s, round).proposalBlock in {None, s.proposalBlock}
    ensures round == s.round && !m.EnterPrecommit(s, round).broken ==> m.EnterPrecommit(s, round).step >= PRECOMMIT
  {
    hide HeightVotes.Maj23, HeightVotes.POLInfo, Machine.PrecommitMajority, Machine.Ballots;
    forall hash { MajorityStays(m, s, round, hash); }
  }

  lemma PrecommitWaitStays(m: Machine, s: Node, round: nat)
    requires round <= s.round
    ensures Stays(s, m.EnterPrecommitWait(s, round))
    ensures m.EnterPrecommitWait(s, round).step == s.step
    ensures m.EnterPrecommitWait(s, round).proposalBlock == s.proposalBlock
    ensures round == s.round && s.votes.TwoThirdsAny(m.c, round, Precommit) ==>
      m.EnterPrecommitWait(s, round).triggeredTimeoutPrecommit
    ensures round < s.round ==> m.EnterPrecommitWait(s, round) == s
  {
    hide HeightVotes.TwoThirdsAny;
  }

  /** The proposal and its block are there, and so is the prevote majority that it is based on. */
  predicate Complete(s: Node) {
    && s.proposal.Some? && s.proposalBlock.Some?
    && (s.proposal.value.POLRound < 0 || s.votes.Maj23(s.proposal.value.POLRound, Prevote).Some?)
  }

  lemma ProposeStays(m: Machine, s: Node)
    ensures Stays(s, m.EnterPropose(s, s.round))
    ensures s.step < PROPOSE ==> m.EnterPropose(s, s.round).step >= PROPOSE
    ensures m.EnterPropose(s, s.round).triggeredTimeoutPrecommit == s.triggeredTimeoutPrecommit
  {
    hide Machine.EnterPrevote, Machine.IsProposalComplete;
    PrevoteStays(m, m.At(m.Schedule(s, s.round, PROPOSE), s.round, PROPOSE));
  }

  lemma ProposeMoves(m: Machine, s: Node)
    ensures m.EnterPropose(s, s.round).proposalBlock == s.proposalBlock
    ensures m.env.preprocess != Committed && s.step < PROPOSE && Complete(s) ==>
      m.EnterPropose(s, s.round).step >= PREVOTE
  {
    hide Machine.EnterPrevote;
    PrevoteMoves(m, m.At(m.Schedule(s, s.round, PROPOSE), s.round, PROPOSE));
  }

  ghost predicate SameTallies(c: Committee, hv: HeightVotes, hv': HeightVotes) {
    forall r, k :: hv'.Maj23(r, k) == hv.Maj23(r, k) && hv'.TwoThirdsAny(c, r, k) == hv.TwoThirdsAny(c, r, k)
  }

  lemma OpenedTallies(c: Committee, hv: HeightVotes, next: nat)
    ensures SameTallies(c, hv, hv.SetRound(c, next))
  {
    SetRoundOpens(c, hv, next);
  }

  /** A new round is entered as far as that is not an impossible situation. */
  lemma NewRoundEnters(m: Machine, s: Node, round: nat)
    ensures var s' := m.EnterNewRound(s, round);
      && round <= s'.round && SameTallies(m.c, s.votes, s'.votes)
      && s'.commitRound == s.commitRound && s'.commits == s.commits
      && (s' == s ||
          (s'.round == round && s'.step >= NEW_ROUND && (s'.broken || s'.step >= PROPOSE)
             && s'.proposal == if round == 0 then s.proposal else None))
      && (round < s.round || (round == s.round && s.step != NEW_HEIGHT) <==> s' == s)
      && (s'.round == s.round && s.triggeredTimeoutPrecommit ==> s'.triggeredTimeoutPrecommit || s.step == NEW_HEIGHT)
  {
    hide Machine.EnterPropose, HeightVotes.SetRound, SameTallies;
    OpenedTallies(m.c, s.votes, round + 1);
    SameTalliesSelf(m.c, s.votes);
    var s1 := m.StartRound(s, round);
    ProposeStays(m, s1.(votes := s1.votes.SetRound(m.c, round + 1), triggeredTimeoutPrecommit := false));
  }

  lemma SameTalliesSelf(c: Committee, hv: HeightVotes)
    ensures SameTallies(c, hv, hv)
  {
  }

  // ---- Votes are answered ----

  predicate Decided(hv: HeightVotes, r: nat) {
    hv.Maj23(r, Precommit).Some? && hv.Maj23(r, Precommit) != Some(EMPTY_HASH)
  }

  /** A node has caught up with a round in which more than two thirds voted; if they precommitted, it
      waits for the rest no more than a while; and once a block is decided it has entered commit. */
  predicate Answers(c: Committee, s: Node, r: nat, kind: VoteType) {
    && (s.votes.TwoThirdsAny(c, r, kind) ==> r <= s.round)
    && (kind == Precommit && r == s.round && s.votes.TwoThirdsAny(c, r, kind) ==>
          s.triggeredTimeoutPrecommit || s.commitRound >= 0)
    && (kind == Precommit && Decided(s.votes, r) ==> s.commitRound >= 0)
  }

  ghost predicate Answered(c: Committee, s: Node) {
    forall r: nat, kind :: Answers(c, s, r, kind)
  }

  /** Nothing is waited for before the height starts, and a node in commit knows the round. */
  predicate Calm(s: Node) {
    && s.step >= NEW_HEIGHT
    && (s.step == NEW_HEIGHT ==> s.round == 0 && !s.triggeredTimeoutPrecommit)
    && (s.step >= COMMIT ==> s.commitRound >= 0)
  }

  ghost predicate Onward(c: Committee, s: Node, s': Node) {
    Calm(s) ==>
      && Calm(s') && SameTallies(c, s.votes, s'.votes)
      && s.round <= s'.round && (s.commitRound >= 0 ==> s'.commitRound >= 0)
      && (s'.round == s.round && s.triggeredTimeoutPrecommit ==> s'.triggeredTimeoutPrecommit)
  }

  lemma OnwardThen(c: Committee, s: Node, s1: Node, s2: Node)
    requires Onward(c, s, s1) && Onward(c, s1, s2)
    ensures Onward(c, s, s2)
  {
  }

  lemma StaysOnward(c: Committee, s: Node, s': Node)
    requires Stays(s, s') && (s'.step >= COMMIT ==> s.step >= COMMIT)
    requires s'.step == NEW_HEIGHT ==> s'.triggeredTimeoutPrecommit == s.triggeredTimeoutPrecommit
    ensures Onward(c, s, s')
  {
    SameTalliesSelf(c, s.votes);
  }

  lemma NewRoundOnward(m: Machine, s: Node, round: nat)
    ensures Onward(m.c, s, m.EnterNewRound(s, round))
  {
    hide Machine.EnterNewRound, SameTallies;
    NewRoundEnters(m, s, round);
    NewRoundStep(m, s, round);
  }

  lemma NewRoundStep(m: Machine, s: Node, round: nat)
    ensures m.EnterNewRound(s, round) != s ==> m.EnterNewRound(s, round).step < COMMIT
  {
    hide HeightVotes.SetRound, Machine.IsProposalComplete, Machine.Ballots;
  }

  /** An answer stays one, after anything that goes onward, unless it is to a round just entered. */
  lemma OnwardAnswers(c: Committee, s: Node, s': Node, r: nat, kind: VoteType)
    requires Calm(s) && Onward(c, s, s') && Answers(c, s, r, kind)
    ensures Answers(c, s', r, kind)
  {
  }

  lemma PrevoteStep(m: Machine, s: Node)
    ensures m.EnterPrevote(s, s.round).step >= COMMIT ==> s.step >= COMMIT
    ensures m.EnterPrevoteWait(s, s.round).step >= COMMIT ==> s.step >= COMMIT
  {
    hide HeightVotes.TwoThirdsAny, Machine.Ballots;
  }

  lemma PrecommitStep(m: Machine, s: Node, round: nat)
    ensures round <= s.round && m.EnterPrecommit(s, round).step >= COMMIT ==> s.step >= COMMIT
  {
    hide HeightVotes.Maj23, HeightVotes.POLInfo, Machine.PrecommitMajority;
    forall hash { MajorityStays(m, s, round, hash); }
  }

  lemma PrevoteOnward(m: Machine, s: Node)
    ensures Onward(m.c, s, m.EnterPrevote(s, s.round)) && Onward(m.c, s, m.EnterPrevoteWait(s, s.round))
  {
    hide Machine.EnterPrevote, Machine.EnterPrevoteWait, Onward;
    PrevoteStays(m, s);
    PrevoteWaitStays(m, s);
    PrevoteStep(m, s);
    StaysOnward(m.c, s, m.EnterPrevote(s, s.round));
    StaysOnward(m.c, s, m.EnterPrevoteWait(s, s.round));
  }

  lemma PrecommitOnward(m: Machine, s: Node, round: nat)
    requires round <= s.round
    ensures Onward(m.c, s, m.EnterPrecommit(s, round))
  {
    hide Machine.EnterPrecommit, Onward;
    PrecommitStays(m, s, round);
    PrecommitStep(m, s, round);
    StaysOnward(m.c, s, m.EnterPrecommit(s, round));
  }

  lemma PrecommitWaitOnward(m: Machine, s: Node, round: nat)
    requires round <= s.round && s.step != NEW_HEIGHT
    ensures Onward(m.c, s, m.EnterPrecommitWait(s, round))
  {
    hide Machine.EnterPrecommitWait, Onward;
    PrecommitWaitStays(m, s, round);
    StaysOnward(m.c, s, m.EnterPrecommitWait(s, round));
  }

  lemma FinalizeFrame(m: Machine, s: Node)
    ensures var s' := m.FinalizeCommit(s);
      && s'.round == s.round && s'.step == s.step && s'.votes == s.votes && s'.commitRound == s.commitRound
      && s'.proposal == s.proposal && s'.proposalBlock == s.proposalBlock
      && s'.triggeredTimeoutPrecommit == s.triggeredTimeoutPrecommit
  {
    hide HeightVotes.Maj23;
  }

  lemma AdoptFrame(m: Machine, s: Node, hash: Hash)
    ensures var s' := m.AdoptBlock(s, hash);
      && s'.round == s.round && s'.votes == s.votes && s'.proposal == s.proposal && s'.commits == s.commits
      && s'.triggeredTimeoutPrecommit == s.triggeredTimeoutPrecommit
  {
  }

  lemma CommitEnters(m: Machine, s: Node, round: nat)
    ensures var s' := m.EnterCommit(s, round);
      && s'.round == s.round && s'.votes == s.votes && s'.proposal == s.proposal
      && s'.triggeredTimeoutPrecommit == s.triggeredTimeoutPrecommit
      && (s' == s || s'.broken || (s'.step == COMMIT && s'.commitRound == round))
      && (Calm(s) && s.votes.Maj23(round, Precommit).Some? ==> Calm(s') && s'.commitRound >= 0 && s'.step >= COMMIT)
      && (s.votes.Maj23(round, Precommit).None? ==> s'.step == s.step && s'.commitRound == s.commitRound)
  {
    hide HeightVotes.Maj23, Machine.FinalizeCommit, Machine.AdoptBlock;
    forall hash { AdoptFrame(m, s, hash); }
    forall hash { FinalizeFrame(m, m.AdoptBlock(s, hash).(step := COMMIT, commitRound := round)); }
  }

  lemma CommitOnward(m: Machine, s: Node, round: nat)
    requires s.votes.Maj23(round, Precommit).Some?
    ensures Onward(m.c, s, m.EnterCommit(s, round))
  {
    hide Machine.EnterCommit, HeightVotes.Maj23, SameTallies;
    CommitEnters(m, s, round);
    SameTalliesSelf(m.c, s.votes);
  }

  lemma UnlockFrame(m: Machine, s: Node, round: nat)
    ensures var s' := m.TryUnlock(s, round);
      s' == s.(lockedRound := s'.lockedRound, lockedBlock := s'.lockedBlock, lockedExecuted := s'.lockedExecuted)
  {
    hide HeightVotes.Maj23;
  }

  lemma NoteFrame(m: Machine, s: Node, round: nat)
    ensures var s' := m.NotePrevotes(s, round);
      && s'.round == s.round && s'.step == s.step && s'.votes == s.votes && s'.proposal == s.proposal
      && s'.commits == s.commits && s'.commitRound == s.commitRound
      && s'.triggeredTimeoutPrecommit == s.triggeredTimeoutPrecommit && s'.proposalBlock in {None, s.proposalBlock}
  {
    hide HeightVotes.Maj23, Machine.TryUnlock;
    UnlockFrame(m, s, round);
  }

  lemma NoteOnward(m: Machine, s: Node, round: nat)
    ensures Onward(m.c, s, m.NotePrevotes(s, round))
    ensures m.NotePrevotes(s, round).votes == s.votes && m.NotePrevotes(s, round).round == s.round
  {
    hide HeightVotes.Maj23, SameTallies, Machine.NotePrevotes;
    NoteFrame(m, s, round);
    SameTalliesSelf(m.c, s.votes);
  }

  lemma AfterPrevoteOnward(m: Machine, s: Node, round: nat)
    ensures Onward(m.c, s, m.AfterPrevote(s, round))
    ensures s.votes.TwoThirdsAny(m.c, round, Prevote) ==> round <= m.AfterPrevote(s, round).round
  {
    hide Machine.NotePrevotes, Machine.EnterNewRound, Machine.EnterPrecommit, Machine.EnterPrevote,
      Machine.EnterPrevoteWait, Onward, HeightVotes.TwoThirdsAny, HeightVotes.Maj23, Machine.IsProposalComplete,
      SameTallies;
    var s1, s' := m.NotePrevotes(s, round), m.AfterPrevote(s, round);
    NoteOnward(m, s, round);
    NewRoundOnward(m, s1, round);
    NewRoundEnters(m, s1, round);
    PrecommitOnward(m, s1, s1.round);
    PrecommitStays(m, s1, s1.round);
    PrevoteOnward(m, s1);
    PrevoteStays(m, s1);
    PrevoteWaitStays(m, s1);
    if s' == s1 {
    } else {
      AfterPrevoteCases(m, s, round);
      OnwardThen(m.c, s, s1, s');
    }
  }

  /** What `AfterPrecommit` goes through: into the round, to precommit, and on to commit or to waiting. */
  lemma AfterPrecommitOnward(m: Machine, s: Node, round: nat)
    ensures Onward(m.c, s, m.AfterPrecommit(s, round))
    ensures Calm(s) ==> Answers(m.c, m.AfterPrecommit(s, round), round, Precommit)
  {
    hide Machine.EnterNewRound, Machine.EnterPrecommit, Machine.EnterCommit, Machine.EnterPrecommitWait, Onward,
      HeightVotes.TwoThirdsAny, HeightVotes.Maj23, SameTallies, Calm;
    var s' := m.AfterPrecommit(s, round);
    if Calm(s) {
      var s1 := m.EnterNewRound(s, round);
      NewRoundOnward(m, s, round);
      NewRoundEnters(m, s, round);
      OnwardCalm(m.c, s, s1);
      AfterStart(s, s1, round);
      var s2 := m.EnterPrecommit(s1, round);
      PrecommitOnward(m, s1, round);
      PrecommitStays(m, s1, round);
      OnwardThen(m.c, s, s1, s2);
      OnwardCalm(m.c, s, s2);
      WaitAnswers(m, s, s1, round);
      WaitAnswers(m, s, s2, round);
      if s.votes.Maj23(round, Precommit).Some? {
        CommitAnswers(m, s, s2, round);
      }
      SameTalliesSelf(m.c, s.votes);
      OnwardSelf(m.c, s);
    } else {
      NotCalm(m.c, s, s');
    }
  }

  lemma NotCalm(c: Committee, s: Node, s': Node)
    requires !Calm(s)
    ensures Onward(c, s, s')
  {
  }

  lemma OnwardSelf(c: Committee, s: Node)
    ensures Onward(c, s, s)
  {
  }

  lemma OnwardCalm(c: Committee, s: Node, s': Node)
    requires Calm(s) && Onward(c, s, s')
    ensures Calm(s') && SameTallies(c, s.votes, s'.votes) && s.round <= s'.round
  {
  }

  /** Once a round has been entered, or is past, the height has started. */
  lemma AfterStart(s: Node, s1: Node, round: nat)
    requires Calm(s) && round <= s1.round
    requires s1 == s || s1.step >= NEW_ROUND
    requires round < s.round || (round == s.round && s.step != NEW_HEIGHT) <==> s1 == s
    ensures s1.step > NEW_HEIGHT
  {
  }

  lemma WaitAnswers(m: Machine, s: Node, s1: Node, round: nat)
    requires Calm(s1) && Onward(m.c, s, s1) && round <= s1.round && s1.step != NEW_HEIGHT
    ensures Onward(m.c, s, m.EnterPrecommitWait(s1, round))
    ensures !Decided(s.votes, round) && SameTallies(m.c, s.votes, s1.votes) ==>
      Answers(m.c, m.EnterPrecommitWait(s1, round), round, Precommit)
  {
    hide Machine.EnterPrecommitWait, Onward, HeightVotes.TwoThirdsAny, HeightVotes.Maj23, Calm;
    PrecommitWaitStays(m, s1, round);
    PrecommitWaitOnward(m, s1, round);
    OnwardThen(m.c, s, s1, m.EnterPrecommitWait(s1, round));
  }

  lemma CommitAnswers(m: Machine, s: Node, s2: Node, round: nat)
    requires Calm(s2) && Onward(m.c, s, s2) && round <= s2.round
    requires SameTallies(m.c, s.votes, s2.votes) && s.votes.Maj23(round, Precommit).Some?
    ensures var s' := m.EnterNewRound(m.EnterCommit(s2, round), 0);
      Onward(m.c, s, s') && Answers(m.c, s', round, Precommit)
  {
    hide Machine.EnterCommit, Machine.EnterNewRound, Onward, HeightVotes.TwoThirdsAny, HeightVotes.Maj23, SameTallies,
      Calm;
    TallyAt(m.c, s.votes, s2.votes, round, Precommit);
    CommitOnward(m, s2, round);
    CommitEnters(m, s2, round);
    var s3 := m.EnterCommit(s2, round);
    OnwardThen(m.c, s, s2, s3);
    OnwardCalm(m.c, s2, s3);
    NewRoundOnward(m, s3, 0);
    NewRoundEnters(m, s3, 0);
    OnwardThen(m.c, s, s3, m.EnterNewRound(s3, 0));
  }

  lemma TallyAt(c: Committee, hv: HeightVotes, hv': HeightVotes, r: nat, kind: VoteType)
    requires SameTallies(c, hv, hv')
    ensures hv'.Maj23(r, kind) == hv.Maj23(r, kind)
  {
  }

  /** A vote changes the tallies of its own kind and round at most, and not even those unless it is
      accepted. */
  lemma VoteTallies(c: Committee, hv: HeightVotes, v: Vote, peer: Peer)
    ensures var (hv', outcome) := hv.AddVote(c, v, peer);
      forall r: nat, k :: (r == v.round && k == v.kind ==> outcome != VoteBooks.Accepted) ==>
        hv'.Maj23(r, k) == hv.Maj23(r, k) && hv'.TwoThirdsAny(c, r, k) == hv.TwoThirdsAny(c, r, k)
  {
    hide VoteBooks.Add;
    if hv.OpenFor(c, v.round, peer).Some? {
      var open := hv.OpenFor(c, v.round, peer).value;
      var book := open.rounds[v.round].Of(v.kind);
      RefusedTally(c, v.round, v.kind, book, v);
      assert open.Maj23(v.round, v.kind) == hv.Maj23(v.round, v.kind);
    }
  }

  lemma RefusedTally(c: Committee, round: nat, kind: VoteType, b: VoteBooks.VoteBook, v: Vote)
    ensures var (b', outcome) := VoteBooks.Add(c, round, kind, b, v);
      outcome != VoteBooks.Accepted ==> b'.sum == b.sum && b'.maj23 == b.maj23
  {
  }

  lemma VoteAnswers(m: Machine, s: Node, v: Vote, peer: Peer)
    requires Calm(s) && Answered(m.c, s)
    ensures Calm(m.AddVote(s, v, peer)) && Answered(m.c, m.AddVote(s, v, peer))
  {
    hide HeightVotes.AddVote, HeightVotes.TwoThirdsAny, HeightVotes.Maj23, Machine.AfterPrevote,
      Machine.AfterPrecommit, Onward, Answers, SameTallies, Calm;
    var (votes, outcome) := s.votes.AddVote(m.c, v, peer);
    var s1, s' := s.(votes := votes), m.AddVote(s, v, peer);
    VoteTallies(m.c, s.votes, v, peer);
    StillCalm(s, s1);
    AfterPrevoteOnward(m, s1, v.round);
    AfterPrecommitOnward(m, s1, v.round);
    forall r: nat, k ensures Answers(m.c, s', r, k) {
      assert Answers(m.c, s, r, k);
      if r != v.round || k != v.kind || outcome != VoteBooks.Accepted {
        SameAnswers(m.c, s, s1, r, k);
      }
      if v.height != m.c.height || outcome != VoteBooks.Accepted {
        assert s' in {s, s1};
      } else if r != v.round || k != v.kind {
        OnwardAnswers(m.c, s1, s', r, k);
      } else if v.kind == Prevote {
        CaughtUp(m.c, s1, s', v.round);
      }
    }
    if s' != s && s' != s1 {
      OnwardCalm(m.c, s1, s');
    }
  }

  lemma StillCalm(s: Node, s1: Node)
    requires Calm(s) && s1 == s.(votes := s1.votes)
    ensures Calm(s1)
  {
  }

  lemma SameAnswers(c: Committee, s: Node, s1: Node, r: nat, kind: VoteType)
    requires Answers(c, s, r, kind) && s1 == s.(votes := s1.votes)
    requires s1.votes.Maj23(r, kind) == s.votes.Maj23(r, kind)
    requires s1.votes.TwoThirdsAny(c, r, kind) == s.votes.TwoThirdsAny(c, r, kind)
    ensures Answers(c, s1, r, kind)
  {
  }

  lemma CaughtUp(c: Committee, s1: Node, s': Node, round: nat)
    requires Calm(s1) && Onward(c, s1, s') && (s1.votes.TwoThirdsAny(c, round, Prevote) ==> round <= s'.round)
    ensures Answers(c, s', round, Prevote)
  {
  }

  lemma OnwardAnswered(c: Committee, s: Node, s': Node)
    requires Calm(s) && Answered(c, s) && Onward(c, s, s')
    ensures Calm(s') && Answered(c, s')
  {
    hide Answers, Onward, Calm;
    OnwardCalm(c, s, s');
    forall r: nat, k ensures Answers(c, s', r, k) {
      OnwardAnswers(c, s, s', r, k);
    }
  }

  lemma TimeoutOnward(m: Machine, s: Node, height: nat, ti: Timeout)
    requires ti.round <= s.round && ti.step in {NEW_HEIGHT, PROPOSE, PREVOTE_WAIT, PRECOMMIT_WAIT}
    ensures Onward(m.c, s, m.HandleTimeout(s, height, ti))
  {
    hide Onward, Machine.HandleTimeout, Machine.EnterNewRound, Machine.EnterPrevote, Machine.EnterPrecommit;
    HandleTimeoutCases(m, s, height, ti);
    OnwardSelf(m.c, s);
    NewRoundOnward(m, s, 0);
    PrevoteOnward(m, s);
    PrecommitOnward(m, s, s.round);
    var s1 := m.EnterPrecommit(s, s.round);
    NewRoundOnward(m, s1, s.round + 1);
    OnwardThen(m.c, s, s1, m.EnterNewRound(s1, s.round + 1));
  }

  lemma BlockOnward(m: Machine, s: Node, block: Block)
    ensures Onward(m.c, s, m.AddProposalBlock(s, block))
  {
    hide Machine.EnterPrevote, Machine.EnterPrecommit, Machine.FinalizeCommit, Machine.AcceptBlock, Onward,
      Machine.IsProposalComplete, HeightVotes.Maj23;
    var s1 := m.AcceptBlock(s, block);
    AcceptFrame(m, s, block);
    OnwardSelf(m.c, s);
    SameOnward(m.c, s, s1);
    PrevoteOnward(m, s1);
    PrevoteStays(m, s1);
    var s2 := m.EnterPrevote(s1, s1.round);
    OnwardThen(m.c, s, s1, s2);
    PrecommitOnward(m, s2, s2.round);
    OnwardThen(m.c, s, s2, m.EnterPrecommit(s2, s2.round));
    FinalizeFrame(m, s1);
    SameOnward(m.c, s1, m.FinalizeCommit(s1));
    OnwardThen(m.c, s, s1, m.FinalizeCommit(s1));
  }

  lemma AcceptFrame(m: Machine, s: Node, block: Block)
    ensures var s' := m.AcceptBlock(s, block);
      && s'.round == s.round && s'.step == s.step && s'.votes == s.votes && s'.commitRound == s.commitRound
      && s'.proposal == s.proposal && s'.triggeredTimeoutPrecommit == s.triggeredTimeoutPrecommit
      && s'.commits == s.commits && s'.proposalBlock == Some(block)
  {
    hide HeightVotes.Maj23;
  }

  lemma SameOnward(c: Committee, s: Node, s': Node)
    requires s'.round == s.round && s'.step == s.step && s'.votes == s.votes && s'.commitRound == s.commitRound
    requires s'.triggeredTimeoutPrecommit == s.triggeredTimeoutPrecommit
    ensures Onward(c, s, s')
  {
  }

  lemma ClaimOnward(m: Machine, s: Node, height: nat, round: nat, kind: VoteType, peer: Peer, hash: Hash)
    ensures Onward(m.c, s, m.SetVoteMaj23(s, height, round, kind, peer, hash))
  {
    hide SameTallies, HeightVotes.SetPeer;
    ClaimTallies(m.c, s.votes, round, kind, peer, hash);
    SameTalliesSelf(m.c, s.votes);
  }

  lemma ClaimTallies(c: Committee, hv: HeightVotes, round: nat, kind: VoteType, peer: Peer, hash: Hash)
    ensures SameTallies(c, hv, hv.SetPeer(round, kind, peer, hash))
  {
  }

  lemma HandleAnswers(m: Machine, log: Log, s: Node, event: Event)
    requires Sane(m.c, m.me, log, s) && Possible(m.c, log, s, event)
    requires Calm(s) && Answered(m.c, s)
    ensures Calm(m.Handle(s, event)) && Answered(m.c, m.Handle(s, event))
  {
    hide Sane, Machine.HandleTimeout, Machine.AddProposalBlock, Machine.AddVote, Machine.SetVoteMaj23, Onward,
      Answered, Calm;
    match event
    case TimerFired(height, timeout) =>
      if height == m.c.height {
        TimerKnown(m, log, s, timeout);
        TimeoutOnward(m, s, height, timeout);
        OnwardAnswered(m.c, s, m.Handle(s, event));
      } else {
        OtherHeightTimer(m, s, height, timeout);
      }
    case ProposalArrived(_, _) =>
      SameOnward(m.c, s, m.Handle(s, event));
      OnwardAnswered(m.c, s, m.Handle(s, event));
    case BlockArrived(block) =>
      BlockOnward(m, s, block);
      OnwardAnswered(m.c, s, m.Handle(s, event));
    case VoteArrived(v, peer) => VoteAnswers(m, s, v, peer);
    case PeerClaimed(height, round, kind, peer, hash) =>
      ClaimOnward(m, s, height, round, kind, peer, hash);
      OnwardAnswered(m.c, s, m.Handle(s, event));
  }

  /** In every run: a node is never behind a round in which more than two thirds have prevoted or
      precommitted; where they have precommitted in its own round, it waits for the others no more than
      a while; and it has entered commit if it knows of a precommit majority for a block. */
  lemma {:induction false} RunAnswered(c: Committee, start: World, actions: seq<Action>, i: nat)
    requires Fresh(c, start) && i in Run(c, start, actions).nodes
    ensures var s := Run(c, start, actions).nodes[i]; Calm(s) && Answered(c, s)
  {
    hide Sane, Possible, Machine.Handle, Calm, Answered;
    if actions == [] {
      StartAnswered(c, start, i);
    } else {
      var before, a := actions[..|actions| - 1], actions[|actions| - 1];
      var w := Run(c, start, before);
      RunSane(c, start, before);
      NodesRemain(c, start, before);
      NodesRemain(c, start, actions);
      RunAnswered(c, start, before, i);
      if a.i == i && Possible(c, w.log, Idle(w, i), a.event) {
        IdleAnswered(c, w, i);
        HandleAnswers(Machine(c, i, a.env), w.log, Idle(w, i), a.event);
      }
    }
  }

  lemma StartAnswered(c: Committee, start: World, i: nat)
    requires Fresh(c, start) && i in start.nodes
    ensures Calm(start.nodes[i]) && Answered(c, start.nodes[i])
  {
  }

  lemma IdleAnswered(c: Committee, w: World, i: nat)
    requires i in w.nodes && Calm(w.nodes[i]) && Answered(c, w.nodes[i])
    ensures Calm(Idle(w, i)) && Answered(c, Idle(w, i))
  {
    forall r: nat, k ensures Answers(c, Idle(w, i), r, k) {
      assert Answers(c, w.nodes[i], r, k);
    }
  }
}
