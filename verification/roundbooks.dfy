/** All votes of one height, as values: one pair of vote books per round. */
module RoundBooks {
  import opened Powers
  import opened Ballots
  import opened VoteBooks

  datatype RoundVotes = RoundVotes(prevotes: VoteBook, precommits: VoteBook)
  {
    function Of(kind: VoteType): VoteBook {
      if kind == Prevote then prevotes else precommits
    }

    function With(kind: VoteType, b: VoteBook): RoundVotes {
      if kind == Prevote then this.(prevotes := b) else this.(precommits := b)
    }
  }

  /** `catchup` lists, for each peer, the rounds grown ahead of time because of its votes. */
  datatype HeightVotes = HeightVotes(round: nat, rounds: map<nat, RoundVotes>, catchup: map<Peer, seq<nat>>)
  {
    function Maj23(round: nat, kind: VoteType): Option<Hash> {
      if round in rounds then rounds[round].Of(kind).maj23 else None
    }

    predicate TwoThirdsAny(c: Committee, round: nat, kind: VoteType) {
      round in rounds && HasTwoThirdsAny(c, rounds[round].Of(kind))
    }

    /** The latest of the rounds up to `i` with a prevote majority. */
    function POLInfo(i: nat): Option<nat> {
      if Maj23(i, Prevote).Some? then Some(i)
      else if i == 0 then None
      else POLInfo(i - 1)
    }

    /** Opens all rounds from the current one to `next`. */
    function SetRound(c: Committee, next: nat): HeightVotes {
      HeightVotes(next, rounds + (map r: nat | round <= r <= next && r !in rounds :: NewRound(c)), catchup)
    }

    /** The rounds `peer` may still open: a peer gets at most two. */
    function CatchupOf(peer: Peer): seq<nat> {
      if peer in catchup then catchup[peer] else []
    }

    function OpenFor(c: Committee, r: nat, peer: Peer): Option<HeightVotes> {
      if r in rounds then Some(this)
      else if |CatchupOf(peer)| < 2 then
        Some(HeightVotes(round, rounds[r := NewRound(c)], catchup[peer := CatchupOf(peer) + [r]]))
      else None
    }

    function Refuse(peer: Peer): HeightVotes {
      this.(catchup := catchup[peer := CatchupOf(peer)])
    }

    function AddVote(c: Committee, vote: Vote, peer: Peer): (HeightVotes, Outcome)
    {
      match OpenFor(c, vote.round, peer)
      case None => (Refuse(peer), UnwantedRound)
      case Some(hv) =>
        var (book, outcome) := Add(c, vote.round, vote.kind, hv.rounds[vote.round].Of(vote.kind), vote);
        (Replaced(hv, vote.round, vote.kind, book), outcome)
    }

    function SetPeer(round: nat, kind: VoteType, peer: Peer, hash: Hash): HeightVotes {
      if round !in rounds then this
      else
        match SetPeerMaj23(rounds[round].Of(kind), peer, hash)
        case None => this
        case Some(book) => Replaced(this, round, kind, book)
    }

    ghost predicate Valid(c: Committee) {
      forall r :: r in rounds ==>
        BookValid(c, r, Prevote, rounds[r].prevotes) && BookValid(c, r, Precommit, rounds[r].precommits)
    }

    /** Validator `i` is counted for `hash`. */
    predicate Counts(round: nat, kind: VoteType, hash: Hash, i: nat) {
      round in rounds && Has(rounds[round].Of(kind), hash, i)
    }
  }

  function NewRound(c: Committee): RoundVotes {
    RoundVotes(NewBook(c), NewBook(c))
  }

  /** `more` differs from `hv` only by further rounds, all empty. */
  predicate OnlyOpens(c: Committee, hv: HeightVotes, more: HeightVotes) {
    && (forall r :: r in hv.rounds ==> r in more.rounds && more.rounds[r] == hv.rounds[r])
    && (forall r :: r in more.rounds && r !in hv.rounds ==> more.rounds[r] == NewRound(c))
  }

  lemma OpeningKeepsValid(c: Committee, hv: HeightVotes, more: HeightVotes)
    requires hv.Valid(c) && OnlyOpens(c, hv, more)
    ensures more.Valid(c)
  {
    forall r | r in more.rounds
      ensures BookValid(c, r, Prevote, more.rounds[r].prevotes) && BookValid(c, r, Precommit, more.rounds[r].precommits)
    {
      NewBookValid(c, r, Prevote);
      NewBookValid(c, r, Precommit);
    }
  }

  lemma OpeningKeepsCounts(c: Committee, hv: HeightVotes, more: HeightVotes)
    requires OnlyOpens(c, hv, more)
    ensures forall r, k :: more.Maj23(r, k) == hv.Maj23(r, k)
    ensures forall r, k, h, i :: more.Counts(r, k, h, i) <==> hv.Counts(r, k, h, i)
  {
  }

  lemma SetRoundOpens(c: Committee, hv: HeightVotes, next: nat)
    ensures OnlyOpens(c, hv, hv.SetRound(c, next))
  {
  }

  lemma ReplacingKeepsValid(c: Committee, hv: HeightVotes, round: nat, kind: VoteType, b: VoteBook)
    requires hv.Valid(c) && round in hv.rounds && BookValid(c, round, kind, b)
    ensures Replaced(hv, round, kind, b).Valid(c)
  {
    var more := Replaced(hv, round, kind, b);
    forall r | r in more.rounds
      ensures BookValid(c, r, Prevote, more.rounds[r].prevotes) && BookValid(c, r, Precommit, more.rounds[r].precommits)
    {
      assert r != round ==> more.rounds[r] == hv.rounds[r];
    }
  }

  lemma ReplacingKeepsCounts(hv: HeightVotes, round: nat, kind: VoteType, b: VoteBook)
    requires round in hv.rounds
    ensures forall r, k, h, i ::
      Replaced(hv, round, kind, b).Counts(r, k, h, i) ==
        (if r == round && k == kind then Has(b, h, i) else hv.Counts(r, k, h, i))
  {
    var more := Replaced(hv, round, kind, b);
    assert more.rounds[round].Of(kind) == b;
    assert forall k :: k != kind ==> more.rounds[round].Of(k) == hv.rounds[round].Of(k);
  }

  function Replaced(hv: HeightVotes, round: nat, kind: VoteType, b: VoteBook): HeightVotes
    requires round in hv.rounds
  {
    hv.(rounds := hv.rounds[round := hv.rounds[round].With(kind, b)])
  }

  /** A vote adds at most itself to what is counted. */
  lemma AddVoteKeeps(c: Committee, hv: HeightVotes, vote: Vote, peer: Peer)
    requires hv.Valid(c)
    ensures hv.AddVote(c, vote, peer).0.Valid(c)
    ensures forall r, k, h, i :: hv.AddVote(c, vote, peer).0.Counts(r, k, h, i) ==>
      hv.Counts(r, k, h, i)
      || (c.Verifies(vote) && Fits(c, r, k, vote) && h == vote.hash && i == vote.index)
  {
    hide BookValid, Has, Add, Fits, OnlyOpens, HeightVotes.Valid;
    if hv.OpenFor(c, vote.round, peer).Some? {
      OpenForOpens(c, hv, vote.round, peer);
      var open := hv.OpenFor(c, vote.round, peer).value;
      OpeningKeepsValid(c, hv, open);
      OpeningKeepsCounts(c, hv, open);
      var book := open.rounds[vote.round].Of(vote.kind);
      ValidAt(c, open, vote.round, vote.kind);
      BookKeeps(c, vote.round, vote.kind, book, vote);
      var book' := Add(c, vote.round, vote.kind, book, vote).0;
      ReplacingKeepsValid(c, open, vote.round, vote.kind, book');
      ReplacingKeepsCounts(open, vote.round, vote.kind, book');
    } else {
      RefuseKeeps(c, hv, peer);
    }
  }

  lemma RefuseKeeps(c: Committee, hv: HeightVotes, peer: Peer)
    requires hv.Valid(c)
    ensures hv.Refuse(peer).Valid(c)
  {
  }

  lemma OpenForOpens(c: Committee, hv: HeightVotes, r: nat, peer: Peer)
    requires hv.OpenFor(c, r, peer).Some?
    ensures OnlyOpens(c, hv, hv.OpenFor(c, r, peer).value) && r in hv.OpenFor(c, r, peer).value.rounds
  {
  }

  lemma ValidAt(c: Committee, hv: HeightVotes, r: nat, kind: VoteType)
    requires hv.Valid(c) && r in hv.rounds
    ensures BookValid(c, r, kind, hv.rounds[r].Of(kind))
  {
  }

  lemma BookKeeps(c: Committee, round: nat, kind: VoteType, b: VoteBook, v: Vote)
    requires BookValid(c, round, kind, b)
    ensures BookValid(c, round, kind, Add(c, round, kind, b, v).0)
    ensures forall h, i :: Has(Add(c, round, kind, b, v).0, h, i) ==>
      Has(b, h, i) || (Fits(c, round, kind, v) && c.Verifies(v) && h == v.hash && i == v.index)
  {
    AddValid(c, round, kind, b, v);
    if Fits(c, round, kind, v) && c.Verifies(v) {
      forall h, i | Has(b, h, i) ensures i in b.votes && b.tallies[h].votes[i].hash == h {
        assert TallyValid(c, round, kind, h, b.tallies[h]);
      }
      AddDiffers(c, b, v);
    }
  }

  lemma ClaimKeeps(c: Committee, round: nat, kind: VoteType, b: VoteBook, peer: Peer, hash: Hash)
    requires BookValid(c, round, kind, b) && SetPeerMaj23(b, peer, hash).Some?
    ensures BookValid(c, round, kind, SetPeerMaj23(b, peer, hash).value)
    ensures forall h, i :: Has(SetPeerMaj23(b, peer, hash).value, h, i) <==> Has(b, h, i)
  {
    SetPeerValid(c, round, kind, b, peer, hash);
  }

  lemma SetPeerKeeps(c: Committee, hv: HeightVotes, round: nat, kind: VoteType, peer: Peer, hash: Hash)
    requires hv.Valid(c)
    ensures hv.SetPeer(round, kind, peer, hash).Valid(c)
    ensures forall r, k, h, i :: hv.SetPeer(round, kind, peer, hash).Counts(r, k, h, i) <==> hv.Counts(r, k, h, i)
  {
    hide BookValid, Has, SetPeerMaj23, HeightVotes.Valid;
    if round in hv.rounds && SetPeerMaj23(hv.rounds[round].Of(kind), peer, hash).Some? {
      var b := hv.rounds[round].Of(kind);
      ValidAt(c, hv, round, kind);
      ClaimKeeps(c, round, kind, b, peer, hash);
      ReplacingKeepsValid(c, hv, round, kind, SetPeerMaj23(b, peer, hash).value);
      ReplacingKeepsCounts(hv, round, kind, SetPeerMaj23(b, peer, hash).value);
    }
  }

  /** A declared majority rests on a quorum of counted validators, all of whom took part. */
  lemma MajorityCounted(c: Committee, hv: HeightVotes, round: nat, kind: VoteType, hash: Hash)
    requires hv.Valid(c) && hv.Maj23(round, kind) == Some(hash)
    ensures hv.TwoThirdsAny(c, round, kind)
    ensures Power(c.powers, hv.rounds[round].Of(kind).tallies[hash].votes.Keys) >= Quorum(c.powers)
    ensures forall i :: i in hv.rounds[round].Of(kind).tallies[hash].votes.Keys ==> hv.Counts(round, kind, hash, i)
  {
    var b := hv.rounds[round].Of(kind);
    assert BookValid(c, round, kind, b);
    PowerMonotone(c.powers, b.tallies[hash].votes.Keys, b.votes.Keys);
  }
}
