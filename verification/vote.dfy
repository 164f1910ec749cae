/** The vote sets as the node keeps them: objects updated vote by vote. */
module Votes {
  import opened Powers
  import opened Ballots
  import opened BitArrays
  import opened VoteBooks
  import opened RoundBooks

  class BlockVotes {
    var peerMaj23: bool
    var votes: map<nat, Vote>
    var sum: nat

    constructor (peerMaj23: bool)
      ensures Model() == Tally(peerMaj23, map[], 0)
    {
      this.peerMaj23, votes, sum := peerMaj23, map[], 0;
    }

    ghost function Model(): Tally
      reads this
    {
      Tally(peerMaj23, votes, sum)
    }

    method AddVerifiedVote(vote: Vote, votingPower: nat)
      modifies this
      ensures Model() == old(Model()).Add(vote, votingPower)
    {
      if vote.index !in votes {
        votes := votes[vote.index := vote];
        sum := sum + votingPower;
      }
    }
  }

  class VoteSet {
    const c: Committee
    const round: nat
    const signedMsgType: VoteType

    var votesBitArray: Bits
    var votes: map<nat, Vote>
    var sum: nat
    var maj23: Option<Hash>
    var votesByBlock: map<Hash, BlockVotes>
    var peerMaj23s: map<Peer, Hash>

    constructor (c: Committee, round: nat, signedMsgType: VoteType)
      ensures Valid() && Model() == NewBook(c) && votesByBlock == map[]
      ensures this.c == c && this.round == round && this.signedMsgType == signedMsgType
    {
      this.c, this.round, this.signedMsgType := c, round, signedMsgType;
      votesBitArray, votes, sum, maj23 := Empty(|c.powers|), map[], 0, None;
      votesByBlock, peerMaj23s := map[], map[];
    }

    ghost function Footprint(): set<object>
      reads this`votesByBlock
    {
      {this} + votesByBlock.Values
    }

    ghost predicate Valid()
      reads this`votesByBlock
    {
      forall h, h' :: h in votesByBlock && h' in votesByBlock && h != h' ==> votesByBlock[h] != votesByBlock[h']
    }

    ghost function Model(): (b: VoteBook)
      reads Footprint()
    {
      VoteBook(votes, votesBitArray, sum, maj23, Tallies(), peerMaj23s)
    }

    ghost function Tallies(): map<Hash, Tally>
      reads this`votesByBlock, votesByBlock.Values
    {
      map h | h in votesByBlock :: votesByBlock[h].Model()
    }

    /** The vote set as a value. */
    method Snapshot() returns (b: VoteBook)
      requires Valid()
      ensures b == Model()
    {
      b := VoteBook(votes, votesBitArray, sum, maj23,
                    map h | h in votesByBlock ::
                      Tally(votesByBlock[h].peerMaj23, votesByBlock[h].votes, votesByBlock[h].sum), peerMaj23s);
    }

    method AddVote(vote: Vote) returns (outcome: Outcome)
      requires Valid()
      modifies Footprint()
      ensures Valid() && fresh(Footprint() - old(Footprint()))
      ensures (Model(), outcome) == Add(c, round, signedMsgType, old(Model()), vote)
    {
      if vote.height != c.height || vote.round != round || vote.kind != signedMsgType || vote.scheme != c.scheme {
        return Accepted;
      }
      if vote.index >= |c.powers| || vote.signer != vote.index {
        return BadSignature;
      }
      outcome := AddVerifiedVote(vote, c.powers[vote.index]);
    }

    method AddVerifiedVote(vote: Vote, votingPower: nat) returns (outcome: Outcome)
      requires Valid() && vote.index < |c.powers| && votingPower == c.powers[vote.index]
      modifies Footprint()
      ensures Valid() && fresh(Footprint() - old(Footprint()))
      ensures (Model(), outcome) == AddVerified(c, old(Model()), vote)
    {
      ghost var before := Model();
      var conflicting: Option<Vote> := None;
      if vote.index in votes {
        if votes[vote.index].hash == vote.hash {
          return Duplicate;
        }
        conflicting := Some(votes[vote.index]);
      }
      RecordVote(vote, votingPower);
      if conflicting.Some? && !(vote.hash in votesByBlock && votesByBlock[vote.hash].peerMaj23) {
        return Conflicting(conflicting.value);
      }
      CountVote(vote, votingPower);
      outcome := Accepted;
    }

    /** First half of `addVerifiedVote`: the vote as such. */
    method RecordVote(vote: Vote, votingPower: nat)
      requires Valid() && vote.index < |c.powers| && votingPower == c.powers[vote.index]
      modifies this
      ensures Valid() && votesByBlock == old(votesByBlock)
      ensures Model() == Record(c, old(Model()), vote)
    {
      ghost var before := Model();
      var idx := vote.index;
      if idx in votes {
        if maj23 == Some(vote.hash) {
          votes := votes[idx := vote];
          votesBitArray := votesBitArray.SetIndex(idx, true);
        }
      } else {
        votes := votes[idx := vote];
        votesBitArray := votesBitArray.SetIndex(idx, true);
        sum := sum + votingPower;
      }
      assert Model().tallies == before.tallies;
    }

    /** The tally object for `hash`, created when missing. */
    method TallyObject(hash: Hash, peerMaj23: bool) returns (blockVotes: BlockVotes)
      requires Valid()
      modifies this`votesByBlock
      ensures Valid() && fresh(Footprint() - old(Footprint()))
      ensures hash in votesByBlock && votesByBlock[hash] == blockVotes
      ensures fresh(blockVotes) || blockVotes in old(votesByBlock).Values
      ensures blockVotes.Model() == if hash in old(Tallies()) then old(Tallies())[hash] else Tally(peerMaj23, map[], 0)
      ensures Tallies() == old(Tallies())[hash := blockVotes.Model()]
    {
      if hash in votesByBlock {
        blockVotes := votesByBlock[hash];
      } else {
        blockVotes := new BlockVotes(peerMaj23);
        votesByBlock := votesByBlock[hash := blockVotes];
      }
    }

    /** When only the object for `hash` changes, only its tally does. */
    twostate lemma TalliesChange(hash: Hash)
      requires Valid() && hash in votesByBlock && votesByBlock == old(votesByBlock)
      requires forall h :: h in votesByBlock && h != hash ==> unchanged(votesByBlock[h])
      ensures Tallies() == old(Tallies())[hash := votesByBlock[hash].Model()]
    {
    }

    /** Adds the vote to the tally for its hash. */
    method TallyVote(vote: Vote, votingPower: nat) returns (origSum: nat, blockVotes: BlockVotes)
      requires Valid()
      modifies this`votesByBlock, votesByBlock.Values
      ensures Valid() && fresh(Footprint() - old(Footprint()))
      ensures origSum == TallyFor(old(Model()), vote.hash).sum
      ensures blockVotes.Model() == TallyFor(old(Model()), vote.hash).Add(vote, votingPower)
      ensures Tallies() == old(Tallies())[vote.hash := blockVotes.Model()]
    {
      hide Tally.Add, Tallies;
      blockVotes := TallyObject(vote.hash, false);
      label L:
      origSum := blockVotes.sum;
      blockVotes.AddVerifiedVote(vote, votingPower);
      TalliesChange@L(vote.hash);
    }

    /** Second half of `addVerifiedVote`: the tally for the hash, and the majority. */
    method CountVote(vote: Vote, votingPower: nat)
      requires Valid() && vote.index < |c.powers| && votingPower == c.powers[vote.index]
      modifies Footprint()
      ensures Valid() && fresh(Footprint() - old(Footprint()))
      ensures Model() == Count(c, old(Model()), vote)
    {
      hide Tally.Add, TallyFor, Quorum;
      ghost var before := Model();
      var origSum, blockVotes := TallyVote(vote, votingPower);
      var quorum := Quorum(c.powers);
      if origSum < quorum <= blockVotes.sum && maj23 == None {
        maj23 := Some(vote.hash);
        votes := votes + blockVotes.votes;
        assert Tallies() == before.tallies[vote.hash := blockVotes.Model()];
        assert Count(c, before, vote).tallies == Tallies();
        assert Count(c, before, vote).votes == votes;
      }
    }

    /** Marks the tally for `hash` as one a peer claims a majority for. */
    method MarkTally(hash: Hash)
      requires Valid()
      modifies this`votesByBlock, votesByBlock.Values
      ensures Valid() && fresh(Footprint() - old(Footprint()))
      ensures Tallies() == old(Tallies())[hash := TallyFor(old(Model()), hash).(peerMaj23 := true)]
    {
      hide Tallies;
      var blockVotes := TallyObject(hash, true);
      label L:
      blockVotes.peerMaj23 := true;
      TalliesChange@L(hash);
    }

    /** Returns false for an exception: the peer claimed another hash before. */
    method SetPeerMaj23Of(peer: Peer, hash: Hash) returns (ok: bool)
      requires Valid()
      modifies Footprint()
      ensures Valid() && fresh(Footprint() - old(Footprint()))
      ensures ok == SetPeerMaj23(old(Model()), peer, hash).Some?
      ensures Model() == if ok then SetPeerMaj23(old(Model()), peer, hash).value else old(Model())
    {
      if peer in peerMaj23s {
        return peerMaj23s[peer] == hash;
      }
      MarkTally(hash);
      peerMaj23s := peerMaj23s[peer := hash];
      ok := true;
    }

    /** The bits of the recorded votes for the majority, in place of those of all votes. */
    method GetAggregatedBitArray() returns (bits: Bits)
      requires Valid()
      ensures bits == AggregatedBits(Model(), votesBitArray.length)
    {
      bits := votesBitArray;
      for i := 0 to bits.length
        invariant bits == AggregatedBits(Model(), i)
      {
        if i !in votes || Some(votes[i].hash) != maj23 {
          bits := bits.SetIndex(i, false);
        }
      }
    }
  }

  /** All vote sets of one height. The vote sets of a round are kept by value here, as the vote
      books that `VoteSet` objects stand for. */
  class HeightVoteSet {
    const c: Committee

    var round: nat
    var roundVoteSets: map<nat, RoundVotes>
    var peerCatchupRounds: map<Peer, seq<nat>>

    constructor (c: Committee)
      ensures this.c == c && Model() == HeightVotes(0, map[], map[])
    {
      this.c := c;
      round, roundVoteSets, peerCatchupRounds := 0, map[], map[];
    }

    function Model(): HeightVotes
      reads this
    {
      HeightVotes(round, roundVoteSets, peerCatchupRounds)
    }

    /** Returns false for an exception: the round would go back. */
    method SetRound(next: nat) returns (ok: bool)
      modifies this
      ensures ok == (old(round) == 0 || old(round) <= next)
      ensures Model() == if ok then old(Model()).SetRound(c, next) else old(Model())
    {
      if round != 0 && next < round {
        return false;
      }
      ghost var before := roundVoteSets;
      var sets := roundVoteSets;
      for i := round to next + 1
        invariant forall r :: r in sets <==> r in before || round <= r < i
        invariant forall r :: r in sets ==> sets[r] == if r in before then before[r] else NewRound(c)
      {
        if i !in sets {
          sets := sets[i := NewRound(c)];
        }
      }
      roundVoteSets, round := sets, next;
      assert sets == old(Model()).SetRound(c, next).rounds;
      ok := true;
    }

    /** Opens the round for a peer; returns false for an exception. */
    method OpenRound(r: nat, peerId: Peer) returns (ok: bool)
      requires r !in roundVoteSets
      modifies this
      ensures ok == old(Model()).OpenFor(c, r, peerId).Some?
      ensures ok ==> Model() == old(Model()).OpenFor(c, r, peerId).value
      ensures !ok ==> Model() == old(Model()).Refuse(peerId)
    {
      if peerId !in peerCatchupRounds {
        peerCatchupRounds := peerCatchupRounds[peerId := []];
      }
      var catchupRounds := peerCatchupRounds[peerId];
      ok := |catchupRounds| < 2;
      if ok {
        roundVoteSets := roundVoteSets[r := NewRound(c)];
        peerCatchupRounds := peerCatchupRounds[peerId := catchupRounds + [r]];
        assert peerCatchupRounds == old(Model()).OpenFor(c, r, peerId).value.catchup;
      }
    }

    method AddVote(vote: Vote, peerId: Peer) returns (outcome: Outcome)
      modifies this
      ensures (Model(), outcome) == old(Model()).AddVote(c, vote, peerId)
    {
      if vote.round !in roundVoteSets {
        var ok := OpenRound(vote.round, peerId);
        if !ok {
          return UnwantedRound;
        }
      }
      var voteSets := roundVoteSets[vote.round];
      var (book, result) := Add(c, vote.round, vote.kind, voteSets.Of(vote.kind), vote);
      roundVoteSets := roundVoteSets[vote.round := voteSets.With(vote.kind, book)];
      outcome := result;
    }

    method POLInfo() returns (pol: Option<nat>)
      ensures pol == Model().POLInfo(round)
    {
      var i: nat := round;
      while true
        invariant i <= round && Model().POLInfo(round) == Model().POLInfo(i)
        decreases i
      {
        if Model().Maj23(i, Prevote).Some? {
          return Some(i);
        }
        if i == 0 {
          return None;
        }
        i := i - 1;
      }
    }

    method SetPeerMaj23Of(r: nat, kind: VoteType, peerId: Peer, hash: Hash)
      modifies this
      ensures Model() == old(Model()).SetPeer(r, kind, peerId, hash)
    {
      if r in roundVoteSets {
        match SetPeerMaj23(roundVoteSets[r].Of(kind), peerId, hash)
        case None =>
        case Some(book) => roundVoteSets := roundVoteSets[r := roundVoteSets[r].With(kind, book)];
      }
    }
  }
}
