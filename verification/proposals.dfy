/** The proposal that a node holds: signed by the proposer of the round, the first to arrive, and kept
until the round ends. */
module Proposals {
  import opened Ballots
  import opened RoundBooks
  import opened StateSpec
  import opened Agreement
  import opened Protocol
  import opened Network

  /** Before the height starts, the round is zero. */
  predicate AtStart(s: Node) {
    s.step == NEW_HEIGHT ==> s.round == 0
  }

  /** The node keeps its proposal, or lack of one, for the round, and starts a later round without. */
  predicate Kept(s: Node, s': Node) {
    AtStart(s) ==>
      AtStart(s') && if s'.round == s.round then s'.proposal == s.proposal
                     else s'.round > s.round && s'.proposal.None?
  }

  lemma PrevoteKept(m: Machine, s: Node, round: nat)
    requires round == s.round
    ensures Kept(s, m.EnterPrevote(s, round)) && m.EnterPrevote(s, round).round == round
  {
    hide Machine.Ballots;
  }

  lemma ProposeKept(m: Machine, s: Node, round: nat)
    requires round == s.round
    ensures Kept(s, m.EnterPropose(s, round))
  {
    hide Machine.EnterPrevote, Machine.IsProposalComplete;
    PrevoteKept(m, m.At(m.Schedule(s, round, PROPOSE), round, PROPOSE), round);
  }

  lemma NewRoundKept(m: Machine, s: Node, round: nat)
    ensures Kept(s, m.EnterNewRound(s, round))
  {
    hide Machine.EnterPropose, HeightVotes.SetRound;
    var s1 := m.StartRound(s, round);
    ProposeKept(m, s1.(votes := s1.votes.SetRound(m.c, round + 1), triggeredTimeoutPrecommit := false), round);
  }

  lemma PrevoteWaitKept(m: Machine, s: Node, round: nat)
    requires round == s.round
    ensures Kept(s, m.EnterPrevoteWait(s, round))
  {
    hide HeightVotes.TwoThirdsAny;
  }

  lemma MajorityKept(m: Machine, s: Node, round: nat, hash: Hash)
    ensures var s' := m.PrecommitMajority(s, round, hash);
      s'.round == s.round && s'.step == s.step && s'.proposal == s.proposal
  {
    hide Machine.Ballots;
  }

  lemma PrecommitKept(m: Machine, s: Node, round: nat)
    requires round <= s.round
    ensures Kept(s, m.EnterPrecommit(s, round)) && m.EnterPrecommit(s, round).round == s.round
  {
    hide HeightVotes.Maj23, HeightVotes.POLInfo, Machine.PrecommitMajority, Machine.Ballots;
    forall hash { MajorityKept(m, s, round, hash); }
  }

  lemma PrecommitWaitKept(m: Machine, s: Node, round: nat)
    requires round <= s.round
    ensures Kept(s, m.EnterPrecommitWait(s, round))
  {
    hide HeightVotes.TwoThirdsAny;
  }

  lemma FinalizeKept(m: Machine, s: Node)
    ensures Kept(s, m.FinalizeCommit(s))
  {
    hide HeightVotes.Maj23;
  }

  lemma CommitKept(m: Machine, s: Node, round: nat)
    ensures Kept(s, m.EnterCommit(s, round))
  {
    hide HeightVotes.Maj23, Machine.FinalizeCommit;
    forall hash { AdoptKept(m, s, hash); }
    forall hash { FinalizeKept(m, m.AdoptBlock(s, hash).(step := COMMIT, commitRound := round)); }
  }

  lemma AdoptKept(m: Machine, s: Node, hash: Hash)
    ensures var s' := m.AdoptBlock(s, hash); s'.round == s.round && s'.proposal == s.proposal
  {
  }

  lemma NoteKept(m: Machine, s: Node, round: nat)
    ensures var s' := m.NotePrevotes(s, round); s'.round == s.round && s'.step == s.step && s'.proposal == s.proposal
  {
    hide HeightVotes.Maj23;
  }

  lemma AfterPrevoteKept(m: Machine, s: Node, round: nat)
    ensures Kept(s, m.AfterPrevote(s, round))
  {
    hide HeightVotes.Maj23, HeightVotes.TwoThirdsAny, Machine.NotePrevotes, Machine.EnterNewRound,
      Machine.EnterPrecommit, Machine.EnterPrevoteWait, Machine.EnterPrevote, Machine.IsProposalComplete;
    var s1 := m.NotePrevotes(s, round);
    NoteKept(m, s, round);
    NewRoundKept(m, s1, round);
    PrecommitKept(m, s1, s1.round);
    PrevoteWaitKept(m, s1, s1.round);
    PrevoteKept(m, s1, s1.round);
  }

  lemma AfterPrecommitKept(m: Machine, s: Node, round: nat)
    ensures Kept(s, m.AfterPrecommit(s, round))
  {
    hide HeightVotes.Maj23, HeightVotes.TwoThirdsAny, Machine.EnterNewRound, Machine.EnterPrecommit,
      Machine.EnterCommit, Machine.EnterPrecommitWait, Kept;
    var s1 := m.EnterNewRound(s, round);
    NewRoundKept(m, s, round);
    NewRoundReaches(m, s, round);
    PrecommitKept(m, s1, round);
    var s2 := m.EnterPrecommit(s1, round);
    CommitKept(m, s2, round);
    NewRoundKept(m, m.EnterCommit(s2, round), 0);
    PrecommitWaitKept(m, s2, round);
    PrecommitWaitKept(m, s1, round);
    KeptThen(s, s1, s2);
    KeptThen(s, s2, m.EnterPrecommitWait(s2, round));
    KeptThen(s, s1, m.EnterPrecommitWait(s1, round));
    KeptThen(s, s2, m.EnterCommit(s2, round));
    KeptThen(s, m.EnterCommit(s2, round), m.EnterNewRound(m.EnterCommit(s2, round), 0));
    assert Kept(s, s) by { KeptSame(s); }
  }

  lemma NewRoundReaches(m: Machine, s: Node, round: nat)
    ensures round <= m.EnterNewRound(s, round).round
  {
    hide Machine.EnterPropose, HeightVotes.SetRound;
    var s1 := m.StartRound(s, round);
    ProposeStays(m, s1.(votes := s1.votes.SetRound(m.c, round + 1), triggeredTimeoutPrecommit := false), round);
  }

  lemma ProposeStays(m: Machine, s: Node, round: nat)
    requires round == s.round
    ensures m.EnterPropose(s, round).round == round
  {
    hide Machine.EnterPrevote, Machine.IsProposalComplete;
    PrevoteKept(m, m.At(m.Schedule(s, round, PROPOSE), round, PROPOSE), round);
  }

  lemma KeptThen(s: Node, s1: Node, s2: Node)
    requires Kept(s, s1) && Kept(s1, s2)
    ensures Kept(s, s2)
  {
  }

  lemma KeptSame(s: Node)
    ensures Kept(s, s)
  {
  }

  lemma BlockKept(m: Machine, s: Node, block: Block)
    ensures Kept(s, m.AddProposalBlock(s, block))
  {
    hide HeightVotes.Maj23, Machine.EnterPrevote, Machine.EnterPrecommit, Machine.FinalizeCommit,
      Machine.IsProposalComplete;
    var s1 := m.AcceptBlock(s, block);
    PrevoteKept(m, s1, s1.round);
    var s2 := m.EnterPrevote(s1, s1.round);
    PrecommitKept(m, s2, s2.round);
    FinalizeKept(m, s1);
  }

  lemma TimeoutKept(m: Machine, s: Node, height: nat, ti: Timeout)
    requires ti.round <= s.round && (ti.step == NEW_ROUND ==> s.round == 0)
    ensures Kept(s, m.HandleTimeout(s, height, ti))
  {
    hide Machine.EnterNewRound, Machine.EnterPropose, Machine.EnterPrevote, Machine.EnterPrecommit;
    NewRoundKept(m, s, 0);
    ProposeKept(m, s, s.round);
    PrevoteKept(m, s, s.round);
    PrecommitKept(m, s, s.round);
    var s1 := m.EnterPrecommit(s, s.round);
    NewRoundKept(m, s1, ti.round + 1);
    KeptThen(s, s1, m.EnterNewRound(s1, ti.round + 1));
  }

  lemma VoteKept(m: Machine, s: Node, v: Vote, peer: Peer)
    ensures Kept(s, m.AddVote(s, v, peer))
  {
    hide Machine.AfterPrevote, Machine.AfterPrecommit, HeightVotes.AddVote;
    var s' := s.(votes := s.votes.AddVote(m.c, v, peer).0);
    AfterPrevoteKept(m, s', v.round);
    AfterPrecommitKept(m, s', v.round);
  }

  /** A proposal that a node may take: for its height and round, signed by the proposer, with an
      earlier round as the proof of its lock, or none. */
  predicate Fair(c: Committee, s: Node, p: Proposal, signatureOk: bool) {
    signatureOk && p.height == c.height && p.round == s.round && -1 <= p.POLRound < p.round
  }

  /** The first fair proposal of a round is taken, and nothing else that arrives; what was taken stays
      for the round. */
  lemma HandleProposal(m: Machine, s: Node, event: Event)
    requires AtStart(s) && (event.TimerFired? ==> event.height == m.c.height ==>
      event.timeout.round <= s.round && (event.timeout.step == NEW_ROUND ==> s.round == 0))
    ensures var s' := m.Handle(s, event);
      AtStart(s') &&
      if event.ProposalArrived? && s.proposal.None? && Fair(m.c, s, event.proposal, event.signatureOk) then
        s' == s.(proposal := Some(event.proposal), proposalBlockHash := Some(event.proposal.hash))
      else Kept(s, s')
  {
    hide Machine.AddVote, Machine.AddProposalBlock, Machine.HandleTimeout, HeightVotes.SetPeer;
    match event
    case TimerFired(height, timeout) =>
      if height == m.c.height {
        TimeoutKept(m, s, height, timeout);
      } else {
        OtherHeightTimer(m, s, height, timeout);
      }
    case ProposalArrived(_, _) =>
    case BlockArrived(block) => BlockKept(m, s, block);
    case VoteArrived(vote, peer) => VoteKept(m, s, vote, peer);
    case PeerClaimed(_, _, _, _, _) =>
  }

  // ---- Over a run ----

  /** The `k`-th action brings node `i` a fair proposal for the round. */
  predicate Offered(c: Committee, start: World, actions: seq<Action>, i: nat, round: nat, k: nat)
    requires k < |actions|
  {
    var w, a := Run(c, start, actions[..k]), actions[k];
    a.i == i && i in w.nodes && a.event.ProposalArrived?
    && a.event.proposal.round == round && Fair(c, w.nodes[i], a.event.proposal, a.event.signatureOk)
  }

  /** Node `i` holds the first fair proposal for its round, or none if there was none. */
  ghost predicate HoldsFirst(c: Committee, start: World, actions: seq<Action>, i: nat, s: Node) {
    && (s.proposal.None? ==> forall k :: 0 <= k < |actions| ==> !Offered(c, start, actions, i, s.round, k))
    && (s.proposal.Some? ==> exists k :: FirstOffer(c, start, actions, i, s, k))
  }

  ghost predicate FirstOffer(c: Committee, start: World, actions: seq<Action>, i: nat, s: Node, k: nat) {
    && k < |actions| && Offered(c, start, actions, i, s.round, k)
    && s.proposal == Some(actions[k].event.proposal)
    && forall j :: 0 <= j < k ==> !Offered(c, start, actions, i, s.round, j)
  }

  lemma SameOffer(c: Committee, start: World, actions: seq<Action>, a: Action, i: nat, round: nat, k: nat)
    requires k < |actions|
    ensures Offered(c, start, actions + [a], i, round, k) == Offered(c, start, actions, i, round, k)
  {
    assert (actions + [a])[..k] == actions[..k];
  }

  lemma StillFirst(c: Committee, start: World, actions: seq<Action>, a: Action, i: nat, s: Node, s': Node)
    requires HoldsFirst(c, start, actions, i, s) && s'.round == s.round && s'.proposal == s.proposal
    requires s.proposal.None? ==> !Offered(c, start, actions + [a], i, s.round, |actions|)
    ensures HoldsFirst(c, start, actions + [a], i, s')
  {
    hide Offered;
    forall k | 0 <= k < |actions| { SameOffer(c, start, actions, a, i, s.round, k); }
    if s.proposal.Some? {
      var k :| FirstOffer(c, start, actions, i, s, k);
      assert FirstOffer(c, start, actions + [a], i, s', k);
    }
  }

  /** No offer was made for a round that the node had not reached. */
  lemma NoEarlyOffer(c: Committee, start: World, actions: seq<Action>, i: nat, round: nat, k: nat)
    requires Fresh(c, start) && i in start.nodes && k < |actions| && Offered(c, start, actions, i, round, k)
    requires i in Run(c, start, actions).nodes
    ensures round <= Run(c, start, actions).nodes[i].round
  {
    hide Run, Fresh;
    RunForward(c, start, actions[..k], actions[k..], i);
    assert actions[..k] + actions[k..] == actions;
  }

  /** In every run, every node holds the first fair proposal that reached it in its round. */
  lemma {:induction false} RunProposal(c: Committee, start: World, actions: seq<Action>, i: nat)
    requires Fresh(c, start) && i in Run(c, start, actions).nodes
    ensures HoldsFirst(c, start, actions, i, Run(c, start, actions).nodes[i])
  {
    hide HoldsFirst, Offered, Act, Fresh;
    NodesRemain(c, start, actions);
    if actions == [] {
      StartsWithout(c, start, i);
    } else {
      var before, a := actions[..|actions| - 1], actions[|actions| - 1];
      assert actions == before + [a];
      NodesRemain(c, start, before);
      RunProposal(c, start, before, i);
      ActProposal(c, start, before, a, i);
    }
  }

  lemma StartsWithout(c: Committee, start: World, i: nat)
    requires Fresh(c, start) && i in start.nodes
    ensures HoldsFirst(c, start, [], i, start.nodes[i])
  {
  }

  /** The action brings the node a fair proposal. */
  predicate FairNow(c: Committee, s: Node, a: Action, i: nat) {
    a.i == i && a.event.ProposalArrived? && Fair(c, s, a.event.proposal, a.event.signatureOk)
  }

  lemma LastOffer(c: Committee, start: World, actions: seq<Action>, a: Action, i: nat, round: nat)
    requires i in Run(c, start, actions).nodes
    ensures var s := Run(c, start, actions).nodes[i];
      Offered(c, start, actions + [a], i, round, |actions|) <==> FairNow(c, s, a, i) && round == s.round
  {
    hide Run;
    assert (actions + [a])[..|actions|] == actions;
  }

  lemma SaneAt(c: Committee, w: World, i: nat)
    requires AllSane(c, w) && i in w.nodes
    ensures Sane(c, i, w.log, Idle(w, i)) && AtStart(Idle(w, i))
  {
  }

  lemma ActKeeps(c: Committee, w: World, a: Action, i: nat)
    requires AllSane(c, w) && i in w.nodes
    ensures i in Act(c, w, a).nodes
    ensures var s, s' := w.nodes[i], Act(c, w, a).nodes[i];
      if FairNow(c, s, a, i) && s.proposal.None? then
        s'.proposal == Some(a.event.proposal) && s'.round == s.round
      else if s'.round == s.round then s'.proposal == s.proposal
      else s'.round > s.round && s'.proposal.None?
  {
    hide AllSane, Sane, Machine.Handle;
    if a.i == i && Possible(c, w.log, Idle(w, i), a.event) {
      var m := Machine(c, i, a.env);
      SaneAt(c, w, i);
      if a.event.TimerFired? && a.event.height == c.height {
        TimerKnown(m, w.log, Idle(w, i), a.event.timeout);
      }
      HandleProposal(m, Idle(w, i), a.event);
    }
  }

  lemma ActProposal(c: Committee, start: World, actions: seq<Action>, a: Action, i: nat)
    requires Fresh(c, start) && i in start.nodes && i in Run(c, start, actions).nodes
    requires HoldsFirst(c, start, actions, i, Run(c, start, actions).nodes[i])
    ensures i in Act(c, Run(c, start, actions), a).nodes
    ensures HoldsFirst(c, start, actions + [a], i, Act(c, Run(c, start, actions), a).nodes[i])
  {
    hide Run, Fresh, Act, Offered, Fair, AllSane, HoldsFirst;
    var w, more := Run(c, start, actions), actions + [a];
    RunSane(c, start, actions);
    ActKeeps(c, w, a, i);
    var s, s' := w.nodes[i], Act(c, w, a).nodes[i];
    LastOffer(c, start, actions, a, i, s'.round);
    if FairNow(c, s, a, i) && s.proposal.None? {
      TakenFirst(c, start, actions, a, i, s, s');
    } else if s'.round == s.round {
      StillFirst(c, start, actions, a, i, s, s');
    } else {
      forall k | 0 <= k < |more| ensures !Offered(c, start, more, i, s'.round, k) {
        if k < |actions| {
          SameOffer(c, start, actions, a, i, s'.round, k);
          if Offered(c, start, actions, i, s'.round, k) {
            NoEarlyOffer(c, start, actions, i, s'.round, k);
          }
        }
      }
      assert HoldsFirst(c, start, more, i, s') by { NoneHeld(c, start, more, i, s'); }
    }
  }

  lemma NoneHeld(c: Committee, start: World, actions: seq<Action>, i: nat, s: Node)
    requires s.proposal.None? && forall k :: 0 <= k < |actions| ==> !Offered(c, start, actions, i, s.round, k)
    ensures HoldsFirst(c, start, actions, i, s)
  {
  }

  lemma TakenFirst(c: Committee, start: World, actions: seq<Action>, a: Action, i: nat, s: Node, s': Node)
    requires HoldsFirst(c, start, actions, i, s) && s.proposal.None? && s'.round == s.round
    requires Offered(c, start, actions + [a], i, s.round, |actions|) && a.event.ProposalArrived?
    requires s'.proposal == Some(a.event.proposal)
    ensures HoldsFirst(c, start, actions + [a], i, s')
  {
    hide Offered;
    forall k | 0 <= k < |actions| { SameOffer(c, start, actions, a, i, s.round, k); }
    assert FirstOffer(c, start, actions + [a], i, s', |actions|);
  }
}
