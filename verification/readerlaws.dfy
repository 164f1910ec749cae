/** What the reader of a header insists on: there is one way to write what is accepted. */
module ReaderLaws {
  import opened Powers
  import opened Ballots
  import opened BitArrays
  import opened VoteBooks
  import opened VoteRuns
  import opened Certificates
  import opened CertificateLaws
  import VoteCounts

  /** An operation on the list of precommits is the vote of the validator at its place. */
  lemma {:induction false} OpsAt(c: Committee, round: nat, hash: Hash, items: seq<Item>, n: nat, op: Op)
    requires n <= |items| && op in Ops(c, round, hash, items, n)
    ensures op.AddVote? && op.vote.index < n && items[op.vote.index].Proof?
    ensures op.vote == VoteFrom(c, round, hash, items[op.vote.index].signature, op.vote.index)
  {
    if op in Ops(c, round, hash, items, n - 1) {
      OpsAt(c, round, hash, items, n - 1, op);
    }
  }

  /** Every signature in a list that is read is a good one. */
  lemma {:induction false} ReadIsProven(c: Committee, round: nat, hash: Hash, items: seq<Item>, n: nat)
    requires n <= |items| && c.scheme == ECDSA && ReadVotes(c, round, hash, items, n).Some?
    ensures forall i :: 0 <= i < n ==> items[i] == List([]) || Proves(c, round, hash, items, i)
  {
    hide AddVerified;
    if n > 0 {
      ReadIsProven(c, round, hash, items, n - 1);
    }
  }

  /** Whose precommit is read is recorded, with the vote that the signature stands for, and nobody
      else. */
  lemma ReadRecords(c: Committee, round: nat, hash: Hash, items: seq<Item>, i: nat)
    requires c.scheme == ECDSA && ReadVotes(c, round, hash, items, |items|).Some? && i < |items|
    ensures var b := ReadVotes(c, round, hash, items, |items|).value;
      && (items[i] == List([]) ==> i !in b.votes)
      && (items[i] != List([]) ==>
        items[i].Proof? && i in b.votes && b.votes[i] == VoteFrom(c, round, hash, items[i].signature, i)
          && c.Verifies(b.votes[i]))
  {
    hide ReadVotes, Poll.Run;
    var p, ops := Poll(c, round, Precommit), Ops(c, round, hash, items, |items|);
    ReadVotesRuns(c, round, hash, items, |items|);
    ReadIsProven(c, round, hash, items, |items|);
    OpsVotes(c, round, hash, items, |items|);
    VoteCounts.RunGiven(p, ops);
    p.RunValid(ops);
    var b := p.Run(ops);
    if i in b.votes {
      OpsAt(c, round, hash, items, |items|, AddVote(b.votes[i]));
    }
    if items[i] != List([]) {
      assert p.VotedFor(ops, i, hash);
      var k :| 0 <= k < |ops| && p.VotesFor(ops[k], i, hash);
      assert p.Votes(ops[k], i) && p.Voted(ops, i);
    }
  }

  lemma ItemsAreWritten(c: Committee, round: nat, hash: Hash, items: seq<Item>)
    requires c.scheme == ECDSA && |items| == |c.powers| && ReadVotes(c, round, hash, items, |items|).Some?
    requires ReadVotes(c, round, hash, items, |items|).value.maj23 == Some(hash)
    ensures VoteItems(ReadVotes(c, round, hash, items, |items|).value, |c.powers|) == items
  {
    hide ReadVotes;
    var b := ReadVotes(c, round, hash, items, |items|).value;
    forall i | 0 <= i < |items| ensures VoteItem(b, i) == items[i] {
      ReadRecords(c, round, hash, items, i);
    }
  }

  lemma BitsAreWritten(item: Item)
    requires ReadBits(item).Some?
    ensures item == BitsItem(ReadBits(item).value)
  {
    var bits := ReadBits(item).value;
    assert item.items[1].items == seq(|bits.elems|, i requires 0 <= i < |bits.elems| => Element(bits.elems[i]));
    assert item.items == [Number(bits.length), item.items[1]];
  }

  /** An accepted header is just what would be written from its content, so no header can be changed
      without changing what it says. */
  lemma AcceptedIsCanonical(chain: Chain, values: seq<Item>)
    requires CertificateLaws.Accepted(chain, values)
    ensures var x := Read(chain, values).value;
      match x.voteSet.value
      case Recorded(b) => -1 <= x.POLRound && Write(chain.c, x, Some(b), None) == Some(values)
      case Aggregated(s, bits) =>
        -1 <= x.POLRound && values ==
          [List(WitnessItems(x.evidence)), Rounds(x), ProposalItem(BLS, x.proposal), Proof(s), BitsItem(bits)]
      case Unproven => false
  {
    hide ReadEvidence, ReadRounds, ReadVotes, ReadBits, BitsItem, WitnessItems, Rounds, ReadAggregate;
    AcceptedIsProposed(chain, values);
    AcceptedParts(chain, values);
    ProposalIsWritten(chain, values);
    var c, x, items := chain.c, Read(chain, values).value, values[3..];
    assert values == [values[0], values[1], values[2]] + items;
    if c.scheme == ECDSA {
      ItemsAreWritten(c, x.commitRound, chain.headerHash(x.evidence), items);
    } else {
      AggregateParts(c, items[0].signature, ReadBits(items[1]).value,
        Voting(c.height, x.commitRound, Precommit, chain.headerHash(x.evidence), None));
      BitsAreWritten(items[1]);
    }
  }

  lemma AggregateParts(c: Committee, s: Signature, bits: BitArray, m: Message)
    ensures ReadAggregate(c, s, bits, m) in {None, Some(Aggregated(s, bits)), Some(Unproven)}
  {
  }

  lemma ProposalIsWritten(chain: Chain, values: seq<Item>)
    requires CertificateLaws.Accepted(chain, values)
    ensures values[2] == ProposalItem(chain.c.scheme, Read(chain, values).value.proposal)
  {
    hide ReadEvidence, ReadRounds, ReadPrecommits;
    var m := ProposalOf(chain, Read(chain, values).value);
    ReadProposalWritten(chain.c, values[2], m);
  }

  lemma ReadProposalWritten(c: Committee, item: Item, m: Message)
    requires ReadProposal(c, item, m).Some?
    ensures item == ProposalItem(c.scheme, ReadProposal(c, item, m).value)
  {
    if c.scheme == BLS {
      assert item.items == [item.items[0], item.items[1]];
    }
  }

  // ---- What is refused ----

  /** The largest number that is read exactly. */
  const LARGEST: nat := 9007199254740991

  /** Whatever is read keeps to the limits: evidence to its cap, rounds to numbers that are exact. */
  lemma ReadIsBounded(chain: Chain, values: seq<Item>)
    requires ReadBare(chain, values).Some? || Read(chain, values).Some?
    ensures var x := if ReadBare(chain, values).Some? then ReadBare(chain, values).value else Read(chain, values).value;
      && |x.evidence| <= chain.maxEvidence && x.round <= LARGEST && x.commitRound <= LARGEST
      && -1 <= x.POLRound < LARGEST - 1
  {
    hide ReadProposal, ReadPrecommits, BareShape, ProposalVerifies;
  }

  /** Without a validator set, too, only what has the form of a header is read. */
  lemma BareIsShaped(chain: Chain, values: seq<Item>)
    requires ReadBare(chain, values).Some?
    ensures |values| >= 3
    ensures if chain.c.scheme == ECDSA then
        && IsSingle(values[2], ECDSA)
        && forall i :: 3 <= i < |values| ==> values[i].Proof? || values[i] == List([])
      else
        && (exists proposer, s :: values[2] == List([Address(proposer), Proof(s)]) && !(s.Single? && s.scheme == ECDSA))
        && |values| <= 5 && (|values| > 3 ==> values[3].Proof? || values[3] == Blank)
        && (|values| > 4 ==> exists n, elements ::
              values[4] == List([Number(n), List(elements)]) && forall e: Item :: e in elements ==> e.Element?)
  {
    hide ReadEvidence, ReadRounds;
    var items := values[3..];
    assert forall i :: 3 <= i < |values| ==> values[i] == items[i - 3];
    if chain.c.scheme == BLS {
      var parts := values[2].items;
      assert parts == [Address(parts[0].validator), Proof(parts[1].signature)];
      if |values| > 4 {
        var bits := items[1].items;
        assert bits == [Number(bits[0].value), List(bits[1].items)];
        assert values[4] == List([Number(bits[0].value), List(bits[1].items)]);
      }
    }
  }

  /** When a header can be written: without votes, if the number of validators is known; with votes,
      from a majority in which no bit is a sign bit, or from an empty vote set with single signatures. */
  lemma WrittenExactly(c: Committee, x: ExtraData, votes: Option<VoteBook>, size: Option<nat>)
    requires -1 <= x.POLRound
    requires votes.Some? ==> BookValid(c, x.commitRound, Precommit, votes.value)
    ensures Write(c, x, votes, size).Some? <==>
      match votes
      case None => size.Some?
      case Some(b) =>
        if b.maj23.None? then c.scheme == ECDSA && b.votes == map[]
        else c.scheme == ECDSA || forall i :: i in For(b, b.maj23.value) ==> i % 32 != 31
  {
    hide AggregatedBits, BookValid;
    if votes.Some? && votes.value.maj23.Some? {
      NegativeBits(c, x.commitRound, votes.value, votes.value.maj23.value);
    }
  }
}
