/** Writing and reading the extra data of a header, element by element, as the node does it.
`certificate.dfy` says what the result is, `certificatelaws.dfy` what it is good for. */
module ExtraDataCodec {
  import opened Powers
  import opened Ballots
  import opened BitArrays
  import opened VoteBooks
  import opened Votes
  import opened Certificates

  /** One entry for every validator: its signature if it voted for the majority, or a gap. */
  method RawVotes(c: Committee, voteSet: VoteSet) returns (items: seq<Item>)
    ensures items == VoteItems(voteSet.Model(), |c.powers|)
  {
    ghost var b := voteSet.Model();
    items := [];
    for i := 0 to |c.powers|
      invariant items == VoteItems(b, i)
    {
      if i !in voteSet.votes || Some(voteSet.votes[i].hash) != voteSet.maj23 {
        items := items + [List([])];
      } else {
        items := items + [Proof(SignatureOf(voteSet.votes[i]))];
      }
      assert VoteItems(b, i + 1) == VoteItems(b, i) + [VoteItem(b, i)];
    }
  }

  /** The precommits as they are written. `None` stands for an exception: no majority to write, no
      number of validators for the gaps, or an element of the bit array that is negative. */
  method RawPrecommits(c: Committee, voteSet: VoteSet?, validatorSetSize: Option<nat>)
      returns (items: Option<seq<Item>>)
    requires voteSet != null ==> voteSet.Valid() && voteSet.c == c
    ensures items == WritePrecommits(c, if voteSet == null then None else Some(voteSet.Model()), validatorSetSize)
  {
    if voteSet == null && validatorSetSize.None? {
      return None;
    }
    if c.scheme == ECDSA {
      if voteSet != null {
        if voteSet.maj23.None? && voteSet.votes != map[] {
          return None;
        }
        var votes := RawVotes(c, voteSet);
        return Some(votes);
      }
      var gaps := [];
      for i := 0 to validatorSetSize.value
        invariant gaps == Gaps(i)
      {
        gaps := gaps + [List([])];
      }
      return Some(gaps);
    }
    if voteSet != null {
      if voteSet.maj23.None? {
        return None;
      }
      var majority := set i | i in voteSet.votes && Some(voteSet.votes[i].hash) == voteSet.maj23 ::
        SignatureOf(voteSet.votes[i]);
      var bits := voteSet.GetAggregatedBitArray();
      if Negative(bits) {
        return None;
      }
      assert majority == set i | i in voteSet.Model().votes
        && Some(voteSet.Model().votes[i].hash) == voteSet.Model().maj23 ::
        SignatureOf(voteSet.Model().votes[i]);
      return Some([Proof(Aggregate(majority)), BitsItem(bits)]);
    }
    items := Some([Blank, BitsItem(Empty(validatorSetSize.value))]);
  }

  method Raw(c: Committee, x: ExtraData, voteSet: VoteSet?, validatorSetSize: Option<nat>)
      returns (raw: Option<seq<Item>>)
    requires voteSet != null ==> voteSet.Valid() && voteSet.c == c
    requires -1 <= x.POLRound
    ensures raw == Write(c, x, if voteSet == null then None else Some(voteSet.Model()), validatorSetSize)
  {
    hide WritePrecommits;
    var items := [List(WitnessItems(x.evidence))];
    if x.round == x.commitRound {
      items := items + [List([Number(x.round), Number(x.POLRound + 1)])];
    } else {
      items := items + [List([Number(x.round), Number(x.POLRound + 1), Number(x.commitRound)])];
    }
    if c.scheme == ECDSA {
      items := items + [Proof(x.proposal.signature)];
    } else {
      items := items + [List([Address(x.proposal.proposer), Proof(x.proposal.signature)])];
    }
    assert items == [List(WitnessItems(x.evidence)), Rounds(x), ProposalItem(c.scheme, x.proposal)];
    var precommits := RawPrecommits(c, voteSet, validatorSetSize);
    raw := if precommits.None? then None else Some(items + precommits.value);
  }

  /** One entry of the list of precommits. Returns false for an exception. */
  method AddECDSAVote(c: Committee, round: nat, hash: Hash, voteSet: VoteSet, value: Item, index: nat)
      returns (ok: bool)
    requires voteSet.Valid() && voteSet.c == c && voteSet.round == round && voteSet.signedMsgType == Precommit
    modifies voteSet.Footprint()
    ensures voteSet.Valid() && fresh(voteSet.Footprint() - old(voteSet.Footprint()))
    ensures ok == ReadVote(c, round, hash, old(voteSet.Model()), value, index).Some?
    ensures ok ==> voteSet.Model() == ReadVote(c, round, hash, old(voteSet.Model()), value, index).value
  {
    match value
    case List(items) =>
      ok := items == [];
    case Proof(s) =>
      if !IsSingle(value, ECDSA) {
        return false;
      }
      var outcome := voteSet.AddVote(VoteFrom(c, round, hash, s, index));
      ok := outcome == Accepted;
    case _ =>
      ok := false;
  }

  method AddECDSAVotes(c: Committee, round: nat, hash: Hash, values: seq<Item>) returns (book: Option<VoteBook>)
    ensures book == ReadVotes(c, round, hash, values, |values|)
  {
    var voteSet := new VoteSet(c, round, Precommit);
    for i := 0 to |values|
      invariant voteSet.Valid() && fresh(voteSet.Footprint())
      invariant voteSet.c == c && voteSet.round == round && voteSet.signedMsgType == Precommit
      invariant ReadVotes(c, round, hash, values, i) == Some(voteSet.Model())
    {
      var ok := AddECDSAVote(c, round, hash, voteSet, values[i], i);
      if !ok {
        ReadVotesFails(c, round, hash, values, i + 1, |values|);
        return None;
      }
    }
    var b := voteSet.Snapshot();
    book := Some(b);
  }

  lemma {:induction false} ReadVotesFails(c: Committee, round: nat, hash: Hash, items: seq<Item>, n: nat, m: nat)
    requires n <= m <= |items| && ReadVotes(c, round, hash, items, n).None?
    ensures ReadVotes(c, round, hash, items, m).None?
  {
    if n < m {
      ReadVotesFails(c, round, hash, items, n, m - 1);
    }
  }

  /** Collects the keys and the power that the bits name, and takes the signature over if it
      verifies for more than two thirds. */
  method SetAggregatedSignature(c: Committee, signature: Signature, bits: BitArray, msg: Message)
    returns (result: Option<Precommits>)
    ensures result == ReadAggregate(c, signature, bits, msg)
  {
    var pubKeys: set<nat>, sum := {}, 0;
    PowerNone(c.powers, |c.powers|);
    for i := 0 to bits.length
      invariant pubKeys == Keys(bits, i)
      invariant forall k :: k in pubKeys ==> k < |c.powers|
      invariant sum == Power(c.powers, pubKeys)
    {
      if bits.GetIndex(i) {
        if i >= |c.powers| {
          assert i in Keys(bits, bits.length);
          return None;
        }
        PowerAdd(c.powers, pubKeys, i);
        pubKeys, sum := pubKeys + {i}, sum + c.powers[i];
      }
    }
    if !VerifyAggregate(pubKeys, msg, signature) || sum <= Total(c.powers) * 2 / 3 {
      return Some(Unproven);
    }
    result := Some(Aggregated(signature, bits));
  }

  /** Reading with a validator set, if `verified`, or without; `None` stands for an exception. */
  method FromValuesArray(chain: Chain, values: seq<Item>, verified: bool) returns (x: Option<ExtraData>)
    ensures x == if verified then Read(chain, values) else ReadBare(chain, values)
  {
    if |values| < 3 {
      return None;
    }
    if verified && |values| != (if chain.c.scheme == ECDSA then |chain.c.powers| + 3 else 5) {
      return None;
    }
    var evidence := ReadEvidence(chain, values[0]);
    var rounds := ReadRounds(values[1]);
    if evidence.None? || rounds.None? {
      return None;
    }
    var headerHash := chain.headerHash(evidence.value);
    var (round, POLRound, commitRound) := rounds.value;
    var m := Proposing(chain.c.height, round, POLRound, headerHash);
    var proposal := ReadProposal(chain.c, values[2], m);
    if proposal.None? || (verified && !ProposalVerifies(chain, proposal.value, m)) {
      return None;
    }
    if !verified {
      if !BareShape(chain.c, values[3..]) {
        return None;
      }
      return Some(ExtraData(evidence.value, round, commitRound, POLRound, proposal.value, None));
    }
    var voteSet := ReadVoteSet(chain.c, commitRound, headerHash, values[3..]);
    if voteSet.None? {
      return None;
    }
    x := Some(ExtraData(evidence.value, round, commitRound, POLRound, proposal.value, voteSet));
  }

  method ReadVoteSet(c: Committee, commitRound: nat, headerHash: Hash, values: seq<Item>)
      returns (voteSet: Option<Precommits>)
    requires |values| == if c.scheme == ECDSA then |c.powers| else 2
    ensures voteSet == ReadPrecommits(c, commitRound, headerHash, values)
  {
    if c.scheme == ECDSA {
      var book := AddECDSAVotes(c, commitRound, headerHash, values);
      voteSet := if book.None? then None else Some(Recorded(book.value));
    } else if !values[0].Proof? || ReadBits(values[1]).None? {
      voteSet := None;
    } else {
      voteSet := SetAggregatedSignature(c, values[0].signature, ReadBits(values[1]).value,
                                        Voting(c.height, commitRound, Precommit, headerHash, None));
    }
  }
}
