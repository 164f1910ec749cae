/** All honest nodes of one height together, and what holds in every run. */
module Network {
  import opened Powers
  import opened Ballots
  import opened RoundBooks
  import opened StateSpec
  import opened Agreement
  import opened Protocol

  /** The honest nodes by validator index, and the votes they have signed so far. */
  datatype World = World(nodes: map<nat, Node>, log: Log)

  /** Node `i` handles one event in the given surroundings. */
  datatype Action = Action(i: nat, event: Event, env: Env)

  /** Node `i` before it handles anything further: its signed votes are in the log. */
  function Idle(w: World, i: nat): Node
    requires i in w.nodes
  {
    w.nodes[i].(outbox := [])
  }

  /** Impossible actions do nothing. */
  function Act(c: Committee, w: World, a: Action): World {
    if a.i in w.nodes && Possible(c, w.log, Idle(w, a.i), a.event) then
      var s := Machine(c, a.i, a.env).Handle(Idle(w, a.i), a.event);
      World(w.nodes[a.i := s], w.log + s.outbox)
    else w
  }

  /** The world after a run: any actions, in any order. */
  function Run(c: Committee, start: World, actions: seq<Action>): World {
    if actions == [] then start
    else Act(c, Run(c, start, actions[..|actions| - 1]), actions[|actions| - 1])
  }

  /** Every honest node has just moved to the height, and nobody has voted. */
  ghost predicate Fresh(c: Committee, w: World) {
    && w.log == []
    && forall i :: i in w.nodes ==> c.Honest(i) && exists stale :: w.nodes[i] == NewNode(stale)
  }

  ghost predicate AllSane(c: Committee, w: World) {
    forall i :: i in w.nodes ==> Sane(c, i, w.log, Idle(w, i))
  }

  lemma FreshSane(c: Committee, w: World)
    requires Fresh(c, w)
    ensures AllSane(c, w)
  {
    forall i | i in w.nodes ensures Sane(c, i, w.log, Idle(w, i)) {
      var s := Idle(w, i);
      assert Signed(w.log, s) == [];
      assert s.votes.rounds == map[];
    }
  }

  /** Votes signed by another validator leave a node's invariants alone. */
  lemma OthersSane(c: Committee, log: Log, more: Log, me: nat, s: Node)
    requires Sane(c, me, log, s) && s.outbox == []
    requires Disciplined(c, log + more)
    requires forall k :: 0 <= k < |more| ==> more[k].index != me
    ensures Sane(c, me, log + more, s)
  {
    assert Signed(log, s) == log && Signed(log + more, s) == log + more;
    SupportedGrows(c, log, more, s.votes);
    BooksGrow(c, log, more, s.votes, s.votes);
    CommitsGrow(c, log, more, s);
    KeepsLocksOthers(c, log, more, me, s);
  }

  lemma KeepsLocksOthers(c: Committee, log: Log, more: Log, me: nat, s: Node)
    requires KeepsLocks(c, log, me, s)
    requires forall k :: 0 <= k < |more| ==> more[k].index != me
    ensures KeepsLocks(c, log + more, me, s)
  {
    var L := log + more;
    forall a | 0 <= a < |L| && L[a].index == me && L[a].kind == Precommit && L[a].hash != EMPTY_HASH
      ensures Locked(s, L[a]) || Released(c, L, L[a].round, L[a].hash, s.round)
    {
      assert L[a] == log[a];
      if !Locked(s, log[a]) {
        ReleaseGrows(c, log, more, log[a].round, log[a].hash, s.round, s.round);
      }
    }
  }

  /** The votes of a handled event move from the outbox to the log. */
  lemma PostSane(c: Committee, me: nat, log: Log, s: Node)
    requires Sane(c, me, log, s)
    ensures Sane(c, me, log + s.outbox, s.(outbox := []))
  {
    var s' := s.(outbox := []);
    assert Signed(log + s.outbox, s') == Signed(log, s);
  }

  lemma ActSane(c: Committee, w: World, a: Action)
    requires AllSane(c, w)
    ensures AllSane(c, Act(c, w, a))
  {
    if a.i in w.nodes && Possible(c, w.log, Idle(w, a.i), a.event) {
      var m := Machine(c, a.i, a.env);
      var s := m.Handle(Idle(w, a.i), a.event);
      HandleSane(m, w.log, Idle(w, a.i), a.event);
      PostSane(c, a.i, w.log, s);
      var w' := Act(c, w, a);
      assert Disciplined(c, w'.log) && w'.log == w.log + s.outbox;
      forall i | i in w'.nodes ensures Sane(c, i, w'.log, Idle(w', i)) {
        if i != a.i {
          OthersSane(c, w.log, s.outbox, i, Idle(w, i));
        }
      }
    }
  }

  /** Every node keeps its invariants in every run. */
  lemma {:induction false} RunSane(c: Committee, start: World, actions: seq<Action>)
    requires Fresh(c, start)
    ensures AllSane(c, Run(c, start, actions))
  {
    if actions == [] {
      FreshSane(c, start);
    } else {
      RunSane(c, start, actions[..|actions| - 1]);
      ActSane(c, Run(c, start, actions[..|actions| - 1]), actions[|actions| - 1]);
    }
  }

  // ---- What every run guarantees ----

  predicate Safe(c: Committee) {
    3 * Power(c.powers, c.faulty) < Total(c.powers)
  }

  /** Agreement: if faulty validators hold less than a third of the power, no two honest nodes
      ever commit different blocks at this height, in whatever rounds. */
  lemma NoFork(c: Committee, start: World, actions: seq<Action>, i: nat, k: nat, j: nat, l: nat)
    requires Safe(c) && Fresh(c, start)
    requires i in Run(c, start, actions).nodes && k < |Run(c, start, actions).nodes[i].commits|
    requires j in Run(c, start, actions).nodes && l < |Run(c, start, actions).nodes[j].commits|
    ensures Run(c, start, actions).nodes[i].commits[k] == Run(c, start, actions).nodes[j].commits[l]
  {
    var w := Run(c, start, actions);
    RunSane(c, start, actions);
    var r, hash := Commitment(c, w, i, k);
    var r', hash' := Commitment(c, w, j, l);
    OneDecision(c, w.log, r, hash, r', hash');
  }

  /** A committed block has precommits from more than two thirds of the power in one round. */
  lemma Commitment(c: Committee, w: World, i: nat, k: nat) returns (round: nat, hash: Hash)
    requires AllSane(c, w) && i in w.nodes && k < |w.nodes[i].commits|
    ensures hash == w.nodes[i].commits[k] && hash != EMPTY_HASH
    ensures HasQuorum(c, w.log, Precommit, round, hash) && Disciplined(c, w.log)
  {
    var s := Idle(w, i);
    assert Sane(c, i, w.log, s) && Signed(w.log, s) == w.log;
    hash := s.commits[k];
    assert Decided(c, w.log, hash);
    round :| HasQuorum(c, w.log, Precommit, round, hash);
  }

  /** Once a block has a precommit quorum, a prevote majority that any honest node sees in a later
      round is for that block. */
  lemma MajoritiesFollowDecision(c: Committee, start: World, actions: seq<Action>, round: nat, hash: Hash, i: nat,
      later: nat)
    requires Safe(c) && Fresh(c, start) && i in Run(c, start, actions).nodes
    requires hash != EMPTY_HASH && HasQuorum(c, Run(c, start, actions).log, Precommit, round, hash)
    requires round < later && Run(c, start, actions).nodes[i].votes.Maj23(later, Prevote).Some?
    ensures Run(c, start, actions).nodes[i].votes.Maj23(later, Prevote) == Some(hash)
  {
    var w := Run(c, start, actions);
    RunSane(c, start, actions);
    var s := Idle(w, i);
    assert Sane(c, i, w.log, s) && Signed(w.log, s) == w.log;
    assert w.log[..|w.log|] == w.log;
    LockPersistence(c, w.log, round, hash, |w.log|, later, s.votes.Maj23(later, Prevote).value);
  }

  /** No honest validator signs two votes of one kind in one round, and each of its precommits for
      a block comes after a prevote majority for that block in that round. */
  lemma HonestVotes(c: Committee, start: World, actions: seq<Action>)
    requires Fresh(c, start) && start.nodes != map[]
    ensures var log := Run(c, start, actions).log;
      forall a, b :: 0 <= a < b < |log| && log[a].index == log[b].index ==>
        log[a].kind != log[b].kind || log[a].round != log[b].round
    ensures var log := Run(c, start, actions).log;
      forall a :: 0 <= a < |log| && log[a].kind == Precommit && log[a].hash != EMPTY_HASH ==>
        HasQuorum(c, log[..a], Prevote, log[a].round, log[a].hash)
  {
    var w := Run(c, start, actions);
    RunSane(c, start, actions);
    NodesRemain(c, start, actions);
    var i :| i in start.nodes;
    assert i in w.nodes && Signed(w.log, Idle(w, i)) == w.log;
    assert Disciplined(c, w.log);
    forall a, b | 0 <= a < b < |w.log| && w.log[a].index == w.log[b].index
      ensures w.log[a].kind != w.log[b].kind || w.log[a].round != w.log[b].round
    {
      assert Precedes(w.log[a], w.log[b]);
    }
  }

  /** The exceptions that the code raises for impossible situations are never raised. */
  lemma NeverBroken(c: Committee, start: World, actions: seq<Action>, i: nat)
    requires Fresh(c, start) && i in Run(c, start, actions).nodes
    ensures !Run(c, start, actions).nodes[i].broken
  {
    RunSane(c, start, actions);
    assert Sane(c, i, Run(c, start, actions).log, Idle(Run(c, start, actions), i));
  }

  lemma {:induction false} NodesRemain(c: Committee, start: World, actions: seq<Action>)
    ensures Run(c, start, actions).nodes.Keys == start.nodes.Keys
  {
    if actions != [] {
      NodesRemain(c, start, actions[..|actions| - 1]);
      var w, a := Run(c, start, actions[..|actions| - 1]), actions[|actions| - 1];
      assert Act(c, w, a).nodes.Keys == w.nodes.Keys;
    }
  }

  /** The votes of every run keep the protocol's rules. */
  lemma RunDisciplined(c: Committee, start: World, actions: seq<Action>)
    requires Fresh(c, start)
    ensures Disciplined(c, Run(c, start, actions).log)
  {
    var w := Run(c, start, actions);
    RunSane(c, start, actions);
    NodesRemain(c, start, actions);
    if start.nodes == map[] {
      NobodyVotes(c, start, actions);
    } else {
      var i :| i in start.nodes;
      assert i in w.nodes && Sane(c, i, w.log, Idle(w, i)) && Signed(w.log, Idle(w, i)) == w.log;
    }
  }

  lemma {:induction false} NobodyVotes(c: Committee, start: World, actions: seq<Action>)
    requires start.nodes == map[]
    ensures Run(c, start, actions) == start
  {
    if actions != [] {
      NobodyVotes(c, start, actions[..|actions| - 1]);
    }
  }

  // ---- Time only moves forward ----

  predicate NotBefore(s: Node, s': Node) {
    s.round < s'.round || (s.round == s'.round && s.step <= s'.step)
  }

  lemma VotingForward(m: Machine, s: Node, round: nat)
    ensures NotBefore(s, m.EnterPrevote(s, round)) && NotBefore(s, m.EnterPrecommit(s, round))
    ensures NotBefore(s, m.EnterPrevoteWait(s, round)) && NotBefore(s, m.EnterPropose(s, round))
  {
    hide Machine.EnterPrevote, Machine.EnterPrecommit, Machine.EnterPropose;
    PrevoteForward(m, s, round);
    PrecommitForward(m, s, round);
    ProposeForward(m, s, round);
  }

  lemma PrevoteForward(m: Machine, s: Node, round: nat)
    ensures NotBefore(s, m.EnterPrevote(s, round))
  {
  }

  lemma PrecommitForward(m: Machine, s: Node, round: nat)
    ensures NotBefore(s, m.EnterPrecommit(s, round))
  {
  }

  lemma ProposeForward(m: Machine, s: Node, round: nat)
    ensures NotBefore(s, m.EnterPropose(s, round))
  {
    hide Machine.EnterPrevote;
    PrevoteForward(m, m.At(m.Schedule(s, round, PROPOSE), round, PROPOSE), round);
  }

  lemma EnterNewRoundForward(m: Machine, s: Node, round: nat)
    ensures NotBefore(s, m.EnterNewRound(s, round))
  {
    if !(round < s.round || (s.round == round && s.step != NEW_HEIGHT))
      && !(s.votes.round != 0 && round + 1 < s.votes.round) {
      var s1 := m.At(s, round, NEW_ROUND);
      var s2 := if round == 0 then s1
                else s1.(proposal := None, proposalBlockHash := None, proposalBlock := None, proposalExecuted := false);
      VotingForward(m, s2.(votes := s2.votes.SetRound(m.c, round + 1), triggeredTimeoutPrecommit := false), round);
    }
  }

  lemma NotePrevotesStays(m: Machine, s: Node, round: nat)
    ensures m.NotePrevotes(s, round).round == s.round && m.NotePrevotes(s, round).step == s.step
  {
  }

  lemma AfterPrevoteForward(m: Machine, s: Node, round: nat)
    requires NEW_HEIGHT <= s.step
    ensures NotBefore(s, m.AfterPrevote(s, round))
  {
    hide Machine.AfterPrevote, Machine.NotePrevotes, Machine.EnterNewRound, Machine.EnterPrecommit,
      Machine.EnterPrevote, Machine.EnterPrevoteWait;
    var s1 := m.NotePrevotes(s, round);
    NotePrevotesStays(m, s, round);
    AfterPrevoteCases(m, s, round);
    EnterNewRoundForward(m, s1, round);
    VotingForward(m, s1, s1.round);
  }

  lemma EnterCommitForward(m: Machine, s: Node, round: nat)
    ensures NotBefore(s, m.EnterCommit(s, round)) && NotBefore(s, m.EnterPrecommitWait(s, round))
    ensures NotBefore(s, m.FinalizeCommit(s))
  {
  }

  lemma AfterPrecommitForward(m: Machine, s: Node, round: nat)
    requires NEW_HEIGHT <= s.step
    ensures NotBefore(s, m.AfterPrecommit(s, round))
  {
    hide Machine.EnterNewRound, Machine.EnterPrecommit, Machine.EnterCommit, Machine.EnterPrecommitWait;
    EnterNewRoundForward(m, s, round);
    var s1 := m.EnterNewRound(s, round);
    VotingForward(m, s1, round);
    var s2 := m.EnterPrecommit(s1, round);
    EnterCommitForward(m, s1, round);
    EnterCommitForward(m, s2, round);
    EnterNewRoundForward(m, m.EnterCommit(s2, round), 0);
  }

  lemma AddProposalBlockForward(m: Machine, s: Node, block: Block)
    ensures NotBefore(s, m.AddProposalBlock(s, block))
  {
    hide Machine.EnterPrecommit, Machine.EnterPrevote, Machine.FinalizeCommit;
    var s1 := m.AcceptBlock(s, block);
    VotingForward(m, s1, s1.round);
    VotingForward(m, m.EnterPrevote(s1, s1.round), m.EnterPrevote(s1, s1.round).round);
    EnterCommitForward(m, s1, 0);
  }

  lemma HandleTimeoutForward(m: Machine, s: Node, height: nat, ti: Timeout)
    requires NEW_HEIGHT <= s.step
    requires ti.round <= s.round && ti.step in {NEW_HEIGHT, PROPOSE, PREVOTE_WAIT, PRECOMMIT_WAIT}
    ensures NotBefore(s, m.HandleTimeout(s, height, ti))
  {
    hide Machine.HandleTimeout, Machine.EnterNewRound, Machine.EnterPrecommit, Machine.EnterPrevote;
    HandleTimeoutCases(m, s, height, ti);
    EnterNewRoundForward(m, s, 0);
    VotingForward(m, s, s.round);
    EnterNewRoundForward(m, m.EnterPrecommit(s, s.round), s.round + 1);
  }

  lemma HandleForward(m: Machine, log: Log, s: Node, event: Event)
    requires Sane(m.c, m.me, log, s) && Possible(m.c, log, s, event)
    ensures NotBefore(s, m.Handle(s, event))
  {
    hide Machine.AfterPrevote, Machine.AfterPrecommit, Machine.HandleTimeout, Machine.AddProposalBlock;
    match event
    case TimerFired(height, timeout) =>
      if height == m.c.height {
        TimerKnown(m, log, s, timeout);
        HandleTimeoutForward(m, s, height, timeout);
      } else {
        OtherHeightTimer(m, s, height, timeout);
      }
    case ProposalArrived(_, _) =>
    case BlockArrived(block) => AddProposalBlockForward(m, s, block);
    case VoteArrived(vote, peer) =>
      var s' := s.(votes := s.votes.AddVote(m.c, vote, peer).0);
      AfterPrevoteForward(m, s', vote.round);
      AfterPrecommitForward(m, s', vote.round);
    case PeerClaimed(_, _, _, _, _) =>
  }

  lemma OtherHeightTimer(m: Machine, s: Node, height: nat, ti: Timeout)
    requires height != m.c.height
    ensures m.HandleTimeout(s, height, ti) == s
  {
  }

  lemma ActForward(c: Committee, w: World, a: Action, i: nat)
    requires AllSane(c, w) && i in w.nodes
    ensures i in Act(c, w, a).nodes && NotBefore(w.nodes[i], Act(c, w, a).nodes[i])
  {
    hide Sane, Possible, Machine.Handle;
    if a.i == i && Possible(c, w.log, Idle(w, i), a.event) {
      assert Sane(c, i, w.log, Idle(w, i));
      HandleForward(Machine(c, i, a.env), w.log, Idle(w, i), a.event);
    }
  }

  /** Within the height, round and step of every node only grow, in lexicographic order. */
  lemma {:induction false} RunForward(c: Committee, start: World, actions: seq<Action>, more: seq<Action>, i: nat)
    requires Fresh(c, start) && i in start.nodes
    ensures i in Run(c, start, actions).nodes && i in Run(c, start, actions + more).nodes
    ensures NotBefore(Run(c, start, actions).nodes[i], Run(c, start, actions + more).nodes[i])
  {
    hide Act, AllSane, Fresh;
    NodesRemain(c, start, actions);
    NodesRemain(c, start, actions + more);
    if more == [] {
      assert actions + more == actions;
    } else {
      var rest, a := more[..|more| - 1], more[|more| - 1];
      assert (actions + more)[..|actions + more| - 1] == actions + rest;
      RunForward(c, start, actions, rest, i);
      RunSane(c, start, actions + rest);
      NodesRemain(c, start, actions + rest);
      ActForward(c, Run(c, start, actions + rest), a, i);
    }
  }
}
