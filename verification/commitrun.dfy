/** A run in which a node commits a block: what agreement says is not said of nothing. */
module CommitRun {
  import opened Powers
  import opened Ballots
  import opened VoteBooks
  import opened RoundBooks
  import opened StateSpec
  import opened Protocol
  import opened Network

  lemma OneIsQuorum(c: Committee)
    requires c.powers == [1]
    ensures Quorum(c.powers) == 1
  {
    assert 0 in Everyone([1]) && PowerBelow([1], Everyone([1]), 0) == 0 && PowerBelow([1], Everyone([1]), 1) == 1;
  }

  /** With a single validator, its first vote makes a majority. */
  lemma FirstVoteDecides(c: Committee, hv: HeightVotes, v: Vote, peer: Peer)
    requires c.powers == [1] && v.index == 0 && c.Verifies(v) && Fits(c, 0, v.kind, v)
    requires 0 in hv.rounds && hv.rounds[0].Of(v.kind) == NewBook(c)
    ensures var (after, outcome) := hv.AddVote(c, v, peer);
      && outcome == Accepted && after.round == hv.round && after.rounds.Keys == hv.rounds.Keys
      && after.Maj23(0, v.kind) == Some(v.hash)
      && (forall k :: k != v.kind ==> after.rounds[0].Of(k) == hv.rounds[0].Of(k))
      && (forall r :: r in hv.rounds && r != 0 ==> after.rounds[r] == hv.rounds[r])
  {
    OneIsQuorum(c);
  }

  const ALONE: Committee := Committee(1, ECDSA, [1], {})
  const SMOOTH: Env := Env(true, Valid, Valid, true, true)
  const NODE: Machine := Machine(ALONE, 0, SMOOTH)

  function VoteFor(kind: VoteType, hash: Hash): Vote {
    Vote(1, 0, kind, hash, 0, ECDSA, 0)
  }

  // ---- The node after each of five events ----

  function Started(): Node {
    NewNode(None).(step := PROPOSE, votes := HeightVotes(0, map[], map[]).SetRound(ALONE, 1),
                   timeouts := {Timeout(0, NEW_HEIGHT), Timeout(0, PROPOSE)})
  }

  function Proposed(hash: Hash): Node {
    Started().(proposal := Some(Proposal(1, 0, -1, hash)), proposalBlockHash := Some(hash))
  }

  function Prevoted(hash: Hash): Node {
    Proposed(hash).(proposalBlock := Some(Block(hash, true)), proposalExecuted := true, step := PREVOTE)
  }

  function VotesAfter(hv: HeightVotes, kind: VoteType, hash: Hash): HeightVotes {
    hv.AddVote(ALONE, VoteFor(kind, hash), 0).0
  }

  function Precommitted(hash: Hash): Node {
    var block := Some(Block(hash, true));
    Prevoted(hash).(votes := VotesAfter(Started().votes, Prevote, hash), validRound := 0, validBlock := block,
                    lockedRound := 0, lockedBlock := block, lockedExecuted := true, step := PRECOMMIT)
  }

  lemma Starts()
    ensures NODE.Handle(NewNode(None), TimerFired(1, Timeout(0, NEW_HEIGHT))) == Started()
    ensures Started().votes.rounds.Keys == {0, 1} && Started().votes.round == 1
    ensures Started().votes.rounds[0] == NewRound(ALONE) && Started().votes.rounds[1] == NewRound(ALONE)
  {
  }

  lemma Proposes(hash: Hash)
    ensures NODE.Handle(Started(), ProposalArrived(Proposal(1, 0, -1, hash), true)) == Proposed(hash)
  {
  }

  lemma Prevotes(hash: Hash)
    ensures NODE.Handle(Proposed(hash), BlockArrived(Block(hash, true))) ==
      Prevoted(hash).(outbox := [VoteFor(Prevote, hash)])
  {
    Starts();
  }

  lemma Precommits(hash: Hash)
    requires hash != EMPTY_HASH
    ensures NODE.Handle(Prevoted(hash), VoteArrived(VoteFor(Prevote, hash), 0)) ==
      Precommitted(hash).(outbox := [VoteFor(Precommit, hash)])
    ensures var hv := Precommitted(hash).votes;
      0 in hv.rounds && hv.rounds[0].Of(Precommit) == NewBook(ALONE) && hv.round == 1
  {
    hide HeightVotes.AddVote, HeightVotes.SetRound;
    Starts();
    FirstVoteDecides(ALONE, Started().votes, VoteFor(Prevote, hash), 0);
  }

  lemma Commits(hash: Hash)
    requires hash != EMPTY_HASH
    ensures var s := NODE.Handle(Precommitted(hash), VoteArrived(VoteFor(Precommit, hash), 0));
      s.commits == [hash] && s.outbox == []
  {
    hide HeightVotes.AddVote, HeightVotes.SetRound;
    Precommits(hash);
    FirstVoteDecides(ALONE, Precommitted(hash).votes, VoteFor(Precommit, hash), 0);
  }

  // ---- The run ----

  function Actions(hash: Hash): seq<Action> {
    [Action(0, TimerFired(1, Timeout(0, NEW_HEIGHT)), SMOOTH),
     Action(0, ProposalArrived(Proposal(1, 0, -1, hash), true), SMOOTH),
     Action(0, BlockArrived(Block(hash, true)), SMOOTH),
     Action(0, VoteArrived(VoteFor(Prevote, hash), 0), SMOOTH),
     Action(0, VoteArrived(VoteFor(Precommit, hash), 0), SMOOTH)]
  }

  lemma NextIs(c: Committee, start: World, actions: seq<Action>, k: nat)
    requires k < |actions|
    ensures Run(c, start, actions[..k + 1]) == Act(c, Run(c, start, actions[..k]), actions[k])
  {
    assert actions[..k + 1][..k] == actions[..k];
  }

  lemma FirstThree(hash: Hash)
    requires hash != EMPTY_HASH
    ensures Run(ALONE, World(map[0 := NewNode(None)], []), Actions(hash)[..3]) ==
      World(map[0 := Prevoted(hash).(outbox := [VoteFor(Prevote, hash)])], [VoteFor(Prevote, hash)])
  {
    hide Machine.Handle, Run, HeightVotes.AddVote, HeightVotes.SetRound;
    var start, acts := World(map[0 := NewNode(None)], []), Actions(hash);
    RunNothing(start);
    NextIs(ALONE, start, acts, 0);
    Starts();
    assert Run(ALONE, start, acts[..1]) == World(map[0 := Started()], []);
    NextIs(ALONE, start, acts, 1);
    Proposes(hash);
    assert Run(ALONE, start, acts[..2]) == World(map[0 := Proposed(hash)], []);
    NextIs(ALONE, start, acts, 2);
    Prevotes(hash);
  }

  /** A committee without faults, a fresh start and a run after which any block that one likes has
      been committed. */
  lemma SomeRunCommits(hash: Hash)
    requires hash != EMPTY_HASH
    ensures var start := World(map[0 := NewNode(None)], []);
      var w := Run(ALONE, start, Actions(hash));
      Safe(ALONE) && Fresh(ALONE, start) && 0 in w.nodes && w.nodes[0].commits == [hash]
  {
    hide Machine.Handle, Run, HeightVotes.AddVote, HeightVotes.SetRound;
    var start, acts := World(map[0 := NewNode(None)], []), Actions(hash);
    var v, w := VoteFor(Prevote, hash), VoteFor(Precommit, hash);
    FirstThree(hash);
    NextIs(ALONE, start, acts, 3);
    Precommits(hash);
    assert [v] + [w] == [v, w] && [v][0] == v;
    assert Run(ALONE, start, acts[..4]) == World(map[0 := Precommitted(hash).(outbox := [w])], [v, w]);
    NextIs(ALONE, start, acts, 4);
    Commits(hash);
    assert [v, w][1] == w;
    assert acts[..5] == acts;
    NoFaults();
  }

  lemma RunNothing(start: World)
    ensures Run(ALONE, start, []) == start
  {
  }

  lemma NoFaults()
    ensures Safe(ALONE)
  {
    OneIsQuorum(ALONE);
    PowerNone([1], 1);
  }
}
