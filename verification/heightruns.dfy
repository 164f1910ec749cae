/** All votes of one height over their whole life: each round's vote sets are what they would be by
themselves, and a peer opens no more than two rounds. */
module HeightRuns {
  import opened Powers
  import opened Ballots
  import opened VoteBooks
  import opened RoundBooks
  import V = VoteRuns

  datatype Event =
    | NextRound(round: nat)
    | PeerVote(vote: Vote, peer: Peer)
    | PeerClaim(round: nat, kind: VoteType, peer: Peer, hash: Hash)

  /** Exceptions leave the rounds as they are. */
  function Step(c: Committee, hv: HeightVotes, e: Event): HeightVotes {
    match e
    case NextRound(r) => if hv.round == 0 || hv.round <= r then hv.SetRound(c, r) else hv
    case PeerVote(v, peer) => hv.AddVote(c, v, peer).0
    case PeerClaim(r, kind, peer, hash) => hv.SetPeer(r, kind, peer, hash)
  }

  function Run(c: Committee, es: seq<Event>): HeightVotes {
    if es == [] then HeightVotes(0, map[], map[]) else Step(c, Run(c, es[..|es| - 1]), es[|es| - 1])
  }

  // ---- Each vote set by itself ----

  /** What an event is for the vote set of one kind in an open round. */
  function ForBook(e: Event, round: nat, kind: VoteType): seq<V.Op> {
    match e
    case NextRound(_) => []
    case PeerVote(v, _) => if v.round == round && v.kind == kind then [V.AddVote(v)] else []
    case PeerClaim(r, k, peer, hash) => if r == round && k == kind then [V.PeerClaim(peer, hash)] else []
  }

  predicate IsOpen(c: Committee, es: seq<Event>, round: nat) {
    round in Run(c, es).rounds
  }

  /** The votes and claims that one vote set gets: what comes once its round is open, and the vote
      that opens it. */
  function Given(c: Committee, es: seq<Event>, round: nat, kind: VoteType): seq<V.Op> {
    if es == [] || !IsOpen(c, es, round) then []
    else
      var rest, e := es[..|es| - 1], es[|es| - 1];
      Given(c, rest, round, kind) + if IsOpen(c, rest, round) || e.PeerVote? then ForBook(e, round, kind) else []
  }

  /** What happens in other rounds, or to votes of the other kind, has no bearing on a vote set. */
  lemma {:induction false} BooksAreSeparate(c: Committee, es: seq<Event>, round: nat, kind: VoteType)
    requires IsOpen(c, es, round)
    ensures Run(c, es).rounds[round].Of(kind) == V.Poll(c, round, kind).Run(Given(c, es, round, kind))
  {
    hide Add, SetPeerMaj23, NewBook;
    var rest, e := es[..|es| - 1], es[|es| - 1];
    var hv, p := Run(c, rest), V.Poll(c, round, kind);
    var was := if IsOpen(c, rest, round) then hv.rounds[round].Of(kind) else NewBook(c);
    if IsOpen(c, rest, round) {
      BooksAreSeparate(c, rest, round, kind);
    }
    assert p.Run(Given(c, rest, round, kind)) == was;
    StepBook(c, hv, e, round, kind);
    RunMore(p, Given(c, rest, round, kind), ForBook(e, round, kind));
  }

  /** What one event does to a book, which is a new one if its round was not open. */
  lemma StepBook(c: Committee, hv: HeightVotes, e: Event, round: nat, kind: VoteType)
    requires round in Step(c, hv, e).rounds
    ensures var was := if round in hv.rounds then hv.rounds[round].Of(kind) else NewBook(c);
      var ops := if round in hv.rounds || e.PeerVote? then ForBook(e, round, kind) else [];
      Step(c, hv, e).rounds[round].Of(kind) == if ops == [] then was else V.Poll(c, round, kind).Step(was, ops[0])
  {
    hide Add, SetPeerMaj23, NewBook;
  }

  lemma RunMore(p: V.Poll, ops: seq<V.Op>, more: seq<V.Op>)
    requires |more| <= 1
    ensures p.Run(ops + more) == if more == [] then p.Run(ops) else p.Step(p.Run(ops), more[0])
  {
    if more == [] {
      assert ops + more == ops;
    } else {
      assert (ops + more)[..|ops + more| - 1] == ops;
    }
  }

  // ---- Rounds ahead of time ----

  /** How many rounds the votes of a peer have opened. */
  function Opened(c: Committee, es: seq<Event>, peer: Peer): nat {
    if es == [] then 0
    else
      var rest, e := es[..|es| - 1], es[|es| - 1];
      Opened(c, rest, peer)
      + if e.PeerVote? && e.peer == peer && !IsOpen(c, rest, e.vote.round) && IsOpen(c, es, e.vote.round) then 1 else 0
  }

  /** A peer's votes open two rounds at most, over the whole height. */
  lemma {:induction false} PeerOpensTwo(c: Committee, es: seq<Event>, peer: Peer)
    ensures |Run(c, es).CatchupOf(peer)| == Opened(c, es, peer) <= 2
  {
    hide Add, SetPeerMaj23, NewBook;
    if es != [] {
      PeerOpensTwo(c, es[..|es| - 1], peer);
    }
  }

  /** And a vote is refused for its round exactly if that is not open and its peer has opened two;
      any other vote finds its round open, or opens it. */
  lemma RefusedExactly(c: Committee, es: seq<Event>, vote: Vote, peer: Peer)
    ensures Run(c, es).AddVote(c, vote, peer).1.UnwantedRound? <==>
      !IsOpen(c, es, vote.round) && Opened(c, es, peer) == 2
    ensures IsOpen(c, es + [PeerVote(vote, peer)], vote.round) <==>
      IsOpen(c, es, vote.round) || Opened(c, es, peer) < 2
  {
    hide SetPeerMaj23, NewBook;
    PeerOpensTwo(c, es, peer);
    var more := es + [PeerVote(vote, peer)];
    assert more[..|more| - 1] == es;
  }

  /** Nothing closes a round. */
  lemma {:induction false} RoundsStay(c: Committee, es: seq<Event>, more: seq<Event>)
    ensures forall r: nat :: IsOpen(c, es, r) ==> IsOpen(c, es + more, r)
    decreases |more|
  {
    hide Add, SetPeerMaj23, NewBook;
    if more == [] {
      assert es + more == es;
    } else {
      var rest := more[..|more| - 1];
      RoundsStay(c, es, rest);
      assert (es + more)[..|es + more| - 1] == es + rest;
    }
  }

  /** Entering a round opens it and all rounds before it. */
  lemma {:induction false} RoundsAreOpen(c: Committee, es: seq<Event>, e: Event)
    requires e in es && e.NextRound?
    ensures forall r: nat :: r <= Run(c, es).round ==> IsOpen(c, es, r)
    ensures e.round <= Run(c, es).round
  {
    hide Add, SetPeerMaj23, NewBook;
    var rest, last := es[..|es| - 1], es[|es| - 1];
    assert es == rest + [last];
    RoundsStay(c, rest, [last]);
    if e in rest {
      RoundsAreOpen(c, rest, e);
    } else {
      OpenBefore(c, rest);
    }
  }

  /** Past round zero, all the rounds before are open. */
  lemma {:induction false} OpenBefore(c: Committee, es: seq<Event>)
    ensures Run(c, es).round > 0 ==> forall r: nat :: r <= Run(c, es).round ==> IsOpen(c, es, r)
  {
    hide Add, SetPeerMaj23, NewBook;
    if es != [] {
      OpenBefore(c, es[..|es| - 1]);
      RoundsStay(c, es[..|es| - 1], [es[|es| - 1]]);
      assert es == es[..|es| - 1] + [es[|es| - 1]];
    }
  }
}
