/** A header with a commit certificate is accepted exactly when it should be, and an accepted one
proves that the block was decided. */
module CertificateLaws {
  import opened Powers
  import opened Ballots
  import opened BitArrays
  import opened VoteBooks
  import opened VoteRuns
  import opened Certificates
  import Agreement
  import Network

  // ---- Certificates with one signature per validator ----

  /** The votes that a list of precommits stands for. */
  function Ops(c: Committee, round: nat, hash: Hash, items: seq<Item>, n: nat): seq<Op>
    requires n <= |items|
  {
    if n == 0 then []
    else
      Ops(c, round, hash, items, n - 1) +
      if items[n - 1].Proof? then [AddVote(VoteFrom(c, round, hash, items[n - 1].signature, n - 1))] else []
  }

  predicate Proves(c: Committee, round: nat, hash: Hash, items: seq<Item>, i: nat) {
    i < |items| && IsSingle(items[i], ECDSA) && c.Verifies(VoteFrom(c, round, hash, items[i].signature, i))
  }

  lemma {:induction false} OpsVotes(c: Committee, round: nat, hash: Hash, items: seq<Item>, n: nat)
    requires n <= |items| && c.scheme == ECDSA
    requires forall i :: 0 <= i < n && items[i].Proof? ==> IsSingle(items[i], ECDSA)
    ensures forall i: nat, h :: Poll(c, round, Precommit).VotedFor(Ops(c, round, hash, items, n), i, h) <==>
      i < n && h == hash && Proves(c, round, hash, items, i)
  {
    var p := Poll(c, round, Precommit);
    if n > 0 {
      OpsVotes(c, round, hash, items, n - 1);
      var before := Ops(c, round, hash, items, n - 1);
      if items[n - 1].Proof? {
        var op := AddVote(VoteFrom(c, round, hash, items[n - 1].signature, n - 1));
        forall i: nat, h
          ensures p.VotedFor(before + [op], i, h) <==> i < n && h == hash && Proves(c, round, hash, items, i)
        {
          p.VotedExtends(before, op, i);
        }
      } else {
        assert Ops(c, round, hash, items, n) == before;
      }
    }
  }

  /** Reading is adding the votes, one after the other. */
  lemma {:induction false} ReadVotesRuns(c: Committee, round: nat, hash: Hash, items: seq<Item>, n: nat)
    requires n <= |items| && c.scheme == ECDSA && ReadVotes(c, round, hash, items, n).Some?
    ensures ReadVotes(c, round, hash, items, n).value == Poll(c, round, Precommit).Run(Ops(c, round, hash, items, n))
    ensures forall i :: 0 <= i < n && items[i].Proof? ==> IsSingle(items[i], ECDSA)
  {
    if n > 0 {
      ReadVotesRuns(c, round, hash, items, n - 1);
      var before := Ops(c, round, hash, items, n - 1);
      if items[n - 1].Proof? {
        var op := AddVote(VoteFrom(c, round, hash, items[n - 1].signature, n - 1));
        assert (before + [op])[..|before + [op]| - 1] == before;
      } else {
        assert Ops(c, round, hash, items, n) == before;
      }
    }
  }

  /** A list of valid precommits and gaps is read without exception. */
  lemma {:induction false} ReadVotesSucceeds(c: Committee, round: nat, hash: Hash, items: seq<Item>, n: nat)
    requires n <= |items| && c.scheme == ECDSA
    requires forall i :: 0 <= i < n ==> items[i] == List([]) || Proves(c, round, hash, items, i)
    ensures ReadVotes(c, round, hash, items, n).Some?
  {
    if n > 0 {
      ReadVotesSucceeds(c, round, hash, items, n - 1);
      ReadVotesRuns(c, round, hash, items, n - 1);
      OpsVotes(c, round, hash, items, n - 1);
      var p := Poll(c, round, Precommit);
      var ops := Ops(c, round, hash, items, n - 1);
      p.RunValid(ops);
      forall i | i in p.Run(ops).votes ensures i < n - 1 {
        assert p.VotedFor(ops, i, p.Run(ops).votes[i].hash);
      }
    }
  }

  function Provers(c: Committee, round: nat, hash: Hash, items: seq<Item>): set<nat> {
    set i: nat | i < |c.powers| && Proves(c, round, hash, items, i)
  }

  /** The majority that is read is for the hash that the header names, and it is read exactly when
      valid signatures of a quorum are there. */
  lemma ReadMajority(c: Committee, round: nat, hash: Hash, items: seq<Item>)
    requires c.scheme == ECDSA && |items| == |c.powers| && ReadVotes(c, round, hash, items, |items|).Some?
    ensures ReadVotes(c, round, hash, items, |items|).value.maj23 == Some(hash) <==>
      Power(c.powers, Provers(c, round, hash, items)) >= Quorum(c.powers)
  {
    var p := Poll(c, round, Precommit);
    var ops := Ops(c, round, hash, items, |items|);
    ReadVotesRuns(c, round, hash, items, |items|);
    OpsVotes(c, round, hash, items, |items|);
    p.QuorumIsMajority(ops, hash);
    assert p.VotersFor(ops, hash) == Provers(c, round, hash, items);
  }

  lemma WrittenVotesProve(c: Committee, round: nat, b: VoteBook, hash: Hash)
    requires c.scheme == ECDSA && BookValid(c, round, Precommit, b) && b.maj23 == Some(hash)
    ensures forall i: nat :: i < |c.powers| ==>
      var items := VoteItems(b, |c.powers|);
      if i in For(b, hash) then Proves(c, round, hash, items, i) else items[i] == List([])
  {
    var items := VoteItems(b, |c.powers|);
    forall i: nat | i < |c.powers| && i in For(b, hash) ensures Proves(c, round, hash, items, i) {
      assert VoteFrom(c, round, hash, SignatureOf(b.votes[i]), i) == b.votes[i];
    }
  }

  lemma WrittenVotesAccepted(c: Committee, round: nat, b: VoteBook, hash: Hash)
    requires c.scheme == ECDSA && BookValid(c, round, Precommit, b) && b.maj23 == Some(hash)
    ensures var items := PrecommitItems(c, b);
      ReadVotes(c, round, hash, items, |items|).Some?
        && ReadVotes(c, round, hash, items, |items|).value.maj23 == Some(hash)
  {
    var items := PrecommitItems(c, b);
    WrittenVotesProve(c, round, b, hash);
    ReadVotesSucceeds(c, round, hash, items, |items|);
    ReadMajority(c, round, hash, items);
    PowerMonotone(c.powers, b.tallies[hash].votes.Keys, Provers(c, round, hash, items));
  }

  // ---- Aggregated certificates ----

  lemma BitsRoundTrip(bits: BitArray)
    requires bits.length <= MAX_SAFE_INTEGER
    ensures ReadBits(BitsItem(bits)) == Some(bits)
  {
    var items := BitsItem(bits).items[1].items;
    assert forall i :: 0 <= i < |items| ==> items[i] == Element(bits.elems[i]);
    assert ReadBits(BitsItem(bits)).value.elems == bits.elems;
  }

  /** The validators found in the written bits are those behind the majority, except that the
      last bit of each 32-bit element is never seen. */
  lemma WrittenKeys(c: Committee, round: nat, b: VoteBook, hash: Hash)
    requires BookValid(c, round, Precommit, b) && b.maj23 == Some(hash)
    ensures var bits := AggregatedBits(b, b.bits.length);
      Keys(bits, bits.length) == set i | i in For(b, hash) && i % 32 != 31
  {
    var bits := AggregatedBits(b, b.bits.length);
    forall i: nat ensures i in Keys(bits, bits.length) <==> i in For(b, hash) && i % 32 != 31 {
      assert bits.GetIndex(i) <==> bits.Stored(i) && i % 32 != 31;
      assert b.bits.Stored(i) <==> i in b.votes;
    }
  }

  lemma AggregateOfVotes(c: Committee, round: nat, b: VoteBook, hash: Hash)
    requires c.scheme == BLS && BookValid(c, round, Precommit, b) && b.maj23 == Some(hash)
    ensures VerifyAggregate(For(b, hash), Voting(c.height, round, Precommit, hash, None), AggregatedSignature(b))
  {
    var m := Voting(c.height, round, Precommit, hash, None);
    assert forall i :: i in For(b, hash) ==> SignatureOf(b.votes[i]) == Single(BLS, i, m);
    var parts := set i | i in For(b, hash) :: Single(BLS, i, m);
    forall s ensures s in AggregatedSignature(b).parts <==> s in parts {
      if s in parts {
        assert s.signer in For(b, hash) && SignatureOf(b.votes[s.signer]) == s;
      }
    }
  }

  lemma AggregateNames(keys: set<nat>, keys': set<nat>, m: Message, s: Signature)
    requires VerifyAggregate(keys, m, s) && VerifyAggregate(keys', m, s)
    ensures keys == keys'
  {
    forall i: nat ensures i in keys <==> i in keys' {
      assert i in keys <==> Single(BLS, i, m) in s.parts;
      assert i in keys' <==> Single(BLS, i, m) in s.parts;
    }
  }

  /** An aggregated certificate is taken over exactly when no validator behind the majority has
      an index of 31 modulo 32. */
  lemma WrittenAggregate(c: Committee, round: nat, b: VoteBook, hash: Hash)
    requires c.scheme == BLS && BookValid(c, round, Precommit, b) && b.maj23 == Some(hash)
    ensures var bits, m := AggregatedBits(b, b.bits.length), Voting(c.height, round, Precommit, hash, None);
      ReadAggregate(c, AggregatedSignature(b), bits, m) ==
        Some(if forall i :: i in For(b, hash) ==> i % 32 != 31 then Aggregated(AggregatedSignature(b), bits)
          else Unproven)
  {
    var bits, m := AggregatedBits(b, b.bits.length), Voting(c.height, round, Precommit, hash, None);
    var keys := Keys(bits, bits.length);
    WrittenKeys(c, round, b, hash);
    AggregateOfVotes(c, round, b, hash);
    assert forall i :: i in keys ==> i in b.votes && i in Everyone(c.powers);
    if forall i :: i in For(b, hash) ==> i % 32 != 31 {
      assert keys == For(b, hash);
      PowerMonotone(c.powers, b.tallies[hash].votes.Keys, keys);
    } else if VerifyAggregate(keys, m, AggregatedSignature(b)) {
      AggregateNames(keys, For(b, hash), m, AggregatedSignature(b));
    }
  }

  // ---- Whole headers ----

  /** What a node that writes a header has: numbers that fit, evidence within the cap, a signed
      proposal, and a precommit majority for the block. */
  ghost predicate Finalizable(chain: Chain, x: ExtraData, b: VoteBook) {
    && x.round <= MAX_SAFE_INTEGER && x.commitRound <= MAX_SAFE_INTEGER && |chain.c.powers| <= MAX_SAFE_INTEGER
    && -1 <= x.POLRound < MAX_SAFE_INTEGER - 1
    && |x.evidence| <= chain.maxEvidence
    && x.voteSet == Some(Recorded(b))
    && BookValid(chain.c, x.commitRound, Precommit, b)
    && b.maj23 == Some(chain.headerHash(x.evidence))
    && ReadProposal(chain.c, ProposalItem(chain.c.scheme, x.proposal), ProposalOf(chain, x)) == Some(x.proposal)
  }

  function ProposalOf(chain: Chain, x: ExtraData): Message {
    Proposing(chain.c.height, x.round, x.POLRound, chain.headerHash(x.evidence))
  }

  predicate Accepted(chain: Chain, values: seq<Item>) {
    Read(chain, values).Some? && Validates(chain, Read(chain, values).value)
  }

  lemma RoundsRoundTrip(x: ExtraData)
    requires x.round <= MAX_SAFE_INTEGER && x.commitRound <= MAX_SAFE_INTEGER && -1 <= x.POLRound < MAX_SAFE_INTEGER - 1
    ensures ReadRounds(Rounds(x)) == Some((x.round, x.POLRound, x.commitRound))
  {
  }

  lemma EvidenceRoundTrip(chain: Chain, evidence: seq<Evidence>)
    requires |evidence| <= chain.maxEvidence
    ensures ReadEvidence(chain, List(WitnessItems(evidence))) == Some(evidence)
  {
    var item := List(WitnessItems(evidence));
    assert forall i :: 0 <= i < |item.items| ==> item.items[i] == Witness(evidence[i]);
    assert ReadEvidence(chain, item).value == evidence;
  }

  /** What is read back is what was written: same evidence, rounds and proposal. */
  lemma ReadsBack(chain: Chain, x: ExtraData, b: VoteBook)
    requires Finalizable(chain, x, b)
    ensures var w := Write(chain.c, x, Some(b), None);
      var v := ReadPrecommits(chain.c, x.commitRound, chain.headerHash(x.evidence), PrecommitItems(chain.c, b));
      && (w.Some? <==> chain.c.scheme == ECDSA || !Negative(AggregatedBits(b, b.bits.length)))
      && (w.Some? ==>
          Read(chain, w.value) ==
            if ProposalVerifies(chain, x.proposal, ProposalOf(chain, x)) && v.Some? then Some(x.(voteSet := v))
            else None)
  {
    hide ReadPrecommits, PrecommitItems, ReadProposal, ReadEvidence, ReadRounds, Rounds, Negative, BookValid;
    RoundsRoundTrip(x);
    EvidenceRoundTrip(chain, x.evidence);
    var w := Write(chain.c, x, Some(b), None);
    assert w.Some? ==> w.value[3..] == PrecommitItems(chain.c, b);
  }

  /** The bits of a majority can be written exactly if none of them is a sign bit. */
  lemma NegativeBits(c: Committee, round: nat, b: VoteBook, hash: Hash)
    requires BookValid(c, round, Precommit, b) && b.maj23 == Some(hash)
    ensures Negative(AggregatedBits(b, b.bits.length)) <==> exists i :: i in For(b, hash) && i % 32 == 31
  {
    hide AggregatedBits;
    var bits := AggregatedBits(b, b.bits.length);
    forall i: nat ensures bits.Stored(i) <==> i in For(b, hash) {
    }
    if k :| 0 <= k < |bits.elems| && bits.elems[k][31] {
      var i := 32 * k + 31;
      assert i / 32 == k && i % 32 == 31 && bits.Stored(i);
    }
    if i :| i in For(b, hash) && i % 32 == 31 {
      assert bits.Stored(i) && bits.elems[i / 32][31];
    }
  }

  lemma PrecommitsReadBack(c: Committee, round: nat, b: VoteBook, hash: Hash)
    requires BookValid(c, round, Precommit, b) && b.maj23 == Some(hash) && |c.powers| <= MAX_SAFE_INTEGER
    ensures match ReadPrecommits(c, round, hash, PrecommitItems(c, b))
      case Some(Recorded(b')) => c.scheme == ECDSA && b'.maj23 == b.maj23
      case Some(Aggregated(_, _)) =>
        c.scheme == BLS && forall i :: i in b.votes && b.votes[i].hash == hash ==> i % 32 != 31
      case Some(Unproven) => c.scheme == BLS && exists i :: i in b.votes && b.votes[i].hash == hash && i % 32 == 31
      case None => false
  {
    hide BookValid, ReadVotes, VoteItems, AggregatedBits, AggregatedSignature, ReadAggregate, ReadBits, BitsItem;
    if c.scheme == ECDSA {
      SinglesReadBack(c, round, b, hash);
    } else {
      WrittenAggregate(c, round, b, hash);
      BitsLength(c, round, b);
      BitsRoundTrip(AggregatedBits(b, b.bits.length));
      assert forall i :: i in b.votes && b.votes[i].hash == hash ==> i in For(b, hash);
    }
  }

  lemma SinglesReadBack(c: Committee, round: nat, b: VoteBook, hash: Hash)
    requires c.scheme == ECDSA && BookValid(c, round, Precommit, b) && b.maj23 == Some(hash)
    ensures var v := ReadPrecommits(c, round, hash, PrecommitItems(c, b));
      v.Some? && v.value.Recorded? && v.value.book.maj23 == Some(hash)
  {
    WrittenVotesAccepted(c, round, b, hash);
  }

  lemma BitsLength(c: Committee, round: nat, b: VoteBook)
    requires BookValid(c, round, Precommit, b)
    ensures b.bits.length == |c.powers|
  {
  }

  /** The proposal of a header as the proposer of its round signs it. */
  function RightProposal(chain: Chain, x: ExtraData): Proposal {
    var proposer := chain.proposer(x.round);
    Proposal(Single(chain.c.scheme, proposer, ProposalOf(chain, x)), proposer)
  }

  lemma VerifiesExactly(chain: Chain, x: ExtraData)
    requires ReadProposal(chain.c, ProposalItem(chain.c.scheme, x.proposal), ProposalOf(chain, x)) == Some(x.proposal)
    ensures ProposalVerifies(chain, x.proposal, ProposalOf(chain, x)) <==>
      x.proposal == RightProposal(chain, x) && chain.proposer(x.round) < |chain.c.powers|
  {
  }

  /** Round trip: a header is written from a precommit majority and accepted, with the same content,
      exactly when its proposal is the one that the proposer of its round, a validator, signs for its
      height, rounds and hash, and, for an aggregated certificate, no validator behind the majority
      has an index of 31 modulo 32. With such a validator the aggregate is not even written. */
  lemma CertificateRoundTrip(chain: Chain, x: ExtraData, b: VoteBook)
    requires Finalizable(chain, x, b)
    ensures var w := Write(chain.c, x, Some(b), None);
      var plain := chain.c.scheme == BLS ==> forall i :: i in For(b, chain.headerHash(x.evidence)) ==> i % 32 != 31;
      && (w.Some? <==> plain)
      && (w.Some? && Accepted(chain, w.value) <==>
            x.proposal == RightProposal(chain, x) && chain.proposer(x.round) < |chain.c.powers| && plain)
    ensures var w := Write(chain.c, x, Some(b), None);
      w.Some? && Accepted(chain, w.value) ==>
        var y := Read(chain, w.value).value; y == x.(voteSet := y.voteSet) && Maj23(chain, y) == b.maj23
  {
    hide ReadPrecommits, PrecommitItems, ProposalVerifies, BookValid, ReadProposal, Write, Negative, RightProposal;
    ReadsBack(chain, x, b);
    VerifiesExactly(chain, x);
    NegativeBits(chain.c, x.commitRound, b, chain.headerHash(x.evidence));
    PrecommitsReadBack(chain.c, x.commitRound, b, chain.headerHash(x.evidence));
    var hash, w := chain.headerHash(x.evidence), Write(chain.c, x, Some(b), None);
    assert forall i :: i in For(b, hash) <==> i in b.votes && b.votes[i].hash == hash;
    if chain.c.scheme == ECDSA {
      assert w.Some?;
    } else {
      assert w.Some? <==> forall i :: i in For(b, hash) ==> i % 32 != 31;
    }
  }

  // ---- Headers without votes ----

  /** Reading without a validator set gives what reading with it gives, but for the votes. */
  lemma BareReadIsSame(chain: Chain, values: seq<Item>)
    requires Read(chain, values).Some?
    ensures ReadBare(chain, values) == Some(Read(chain, values).value.(voteSet := None))
  {
    hide ReadProposal, ReadEvidence, ReadRounds, ProposalVerifies, ReadPrecommits, BareShape;
    ReadShape(chain.c, Read(chain, values).value.commitRound, chain.headerHash(Read(chain, values).value.evidence),
      values[3..]);
  }

  lemma ReadShape(c: Committee, round: nat, hash: Hash, items: seq<Item>)
    requires ReadPrecommits(c, round, hash, items).Some?
    ensures BareShape(c, items)
  {
    hide ReadVotes, ReadAggregate;
    if c.scheme == ECDSA {
      ReadVotesShape(c, round, hash, items, |items|);
    }
  }

  lemma {:induction false} ReadVotesShape(c: Committee, round: nat, hash: Hash, items: seq<Item>, n: nat)
    requires n <= |items| && ReadVotes(c, round, hash, items, n).Some?
    ensures forall i :: 0 <= i < n ==> items[i].Proof? || items[i] == List([])
  {
    if n > 0 {
      ReadVotesShape(c, round, hash, items, n - 1);
    }
  }

  /** A proposed header, written without votes, is read back as it was; but it is not accepted. */
  lemma ProposalReadsBack(chain: Chain, x: ExtraData, size: nat)
    requires x.round <= MAX_SAFE_INTEGER && x.commitRound <= MAX_SAFE_INTEGER && -1 <= x.POLRound < MAX_SAFE_INTEGER - 1
    requires |x.evidence| <= chain.maxEvidence && x.voteSet == None
    requires ReadProposal(chain.c, ProposalItem(chain.c.scheme, x.proposal), ProposalOf(chain, x)) == Some(x.proposal)
    ensures var w := Write(chain.c, x, None, Some(size));
      w.Some? && ReadBare(chain, w.value) == Some(x) && !Accepted(chain, w.value)
  {
    hide ReadProposal, ReadEvidence, ReadRounds, Rounds, ProposalVerifies, ReadPrecommits, WritePrecommits;
    RoundsRoundTrip(x);
    EvidenceRoundTrip(chain, x.evidence);
    GapsShape(chain.c, size);
    var items := WritePrecommits(chain.c, None, Some(size)).value;
    var w := Write(chain.c, x, None, Some(size)).value;
    assert w[3..] == items;
    GapsUnproven(chain.c, x.commitRound, chain.headerHash(x.evidence), size);
  }

  lemma GapsShape(c: Committee, size: nat)
    ensures var items := WritePrecommits(c, None, Some(size)); items.Some? && BareShape(c, items.value)
  {
  }

  lemma GapsUnproven(c: Committee, round: nat, hash: Hash, size: nat)
    ensures var v := ReadPrecommits(c, round, hash, WritePrecommits(c, None, Some(size)).value);
      v.None? || v == Some(Recorded(NewBook(c)))
  {
    if c.scheme == ECDSA {
      GapsRead(c, round, hash, WritePrecommits(c, None, Some(size)).value, size);
    }
  }

  lemma {:induction false} GapsRead(c: Committee, round: nat, hash: Hash, items: seq<Item>, n: nat)
    requires n <= |items| && forall i :: 0 <= i < |items| ==> items[i] == List([])
    ensures ReadVotes(c, round, hash, items, n) == Some(NewBook(c))
  {
    if n > 0 {
      GapsRead(c, round, hash, items, n - 1);
    }
  }

  // ---- What an accepted header proves ----

  /** Whatever a header contains, if it is accepted then it begins as its content is written, and
      its proposal is signed by the proposer of the round, a validator, for the height, the rounds
      and the hash that it is read with. */
  lemma AcceptedIsProposed(chain: Chain, values: seq<Item>)
    requires Accepted(chain, values)
    ensures |values| >= 3
    ensures var x := Read(chain, values).value;
      var proposer := chain.proposer(x.round);
      var signed := Proof(Single(chain.c.scheme, proposer,
        Proposing(chain.c.height, x.round, x.POLRound, chain.headerHash(x.evidence))));
      && proposer < |chain.c.powers|
      && values[2] == (if chain.c.scheme == ECDSA then signed else List([Address(proposer), signed]))
    ensures var x := Read(chain, values).value;
      -1 <= x.POLRound && values[0] == List(WitnessItems(x.evidence)) && values[1] == Rounds(x)
  {
    hide ReadPrecommits, ReadEvidence, ReadRounds;
    EvidenceIsWritten(chain, values[0]);
    RoundsAreWritten(values[1]);
  }

  lemma EvidenceIsWritten(chain: Chain, item: Item)
    requires ReadEvidence(chain, item).Some?
    ensures item == List(WitnessItems(ReadEvidence(chain, item).value))
  {
    var evidence := ReadEvidence(chain, item).value;
    assert forall i :: 0 <= i < |item.items| ==> item.items[i] == Witness(evidence[i]);
    assert item.items == WitnessItems(evidence);
  }

  lemma RoundsAreWritten(item: Item)
    requires ReadRounds(item).Some?
    ensures var (round, pol, commitRound) := ReadRounds(item).value;
      -1 <= pol && forall x: ExtraData :: x.round == round && x.POLRound == pol && x.commitRound == commitRound ==>
        item == Rounds(x)
  {
    assert item.items == if |item.items| == 2 then [item.items[0], item.items[1]]
                         else [item.items[0], item.items[1], item.items[2]];
  }

  /** Everything in `values` that validator `i` signed for a precommit of `hash` in `round`. */
  predicate Signed(c: Committee, round: nat, hash: Hash, values: seq<Item>, i: nat) {
    if c.scheme == ECDSA then
      i + 3 < |values| && values[i + 3] == Proof(Single(ECDSA, i, Voting(c.height, round, Precommit, hash, Some(i))))
    else
      3 < |values| && values[3].Proof? && values[3].signature.Aggregate?
      && Single(BLS, i, Voting(c.height, round, Precommit, hash, None)) in values[3].signature.parts
  }

  function Signers(c: Committee, round: nat, hash: Hash, values: seq<Item>): set<nat> {
    set i: nat | i < |c.powers| && Signed(c, round, hash, values, i)
  }

  /** Whatever a header contains, if it is accepted then validators with more than two thirds of
      the power signed precommits for its hash in its commit round. */
  lemma AcceptedIsSigned(chain: Chain, values: seq<Item>)
    requires Accepted(chain, values)
    ensures var x := Read(chain, values).value;
      Power(chain.c.powers, Signers(chain.c, x.commitRound, chain.headerHash(x.evidence), values)) >=
      Quorum(chain.c.powers)
  {
    var c, x := chain.c, Read(chain, values).value;
    var hash := chain.headerHash(x.evidence);
    var items := values[3..];
    AcceptedParts(chain, values);
    if c.scheme == ECDSA {
      ReadMajority(c, x.commitRound, hash, items);
      forall i | i in Provers(c, x.commitRound, hash, items) ensures i in Signers(c, x.commitRound, hash, values) {
        assert items[i] == values[i + 3];
      }
      PowerMonotone(c.powers, Provers(c, x.commitRound, hash, items), Signers(c, x.commitRound, hash, values));
    } else {
      var bits := ReadBits(items[1]).value;
      var keys := Keys(bits, bits.length);
      assert items[0] == values[3];
      forall i | i in keys ensures i in Signers(c, x.commitRound, hash, values) {
        assert Single(BLS, i, Voting(c.height, x.commitRound, Precommit, hash, None)) in values[3].signature.parts;
      }
      PowerMonotone(c.powers, keys, Signers(c, x.commitRound, hash, values));
    }
  }

  lemma AcceptedParts(chain: Chain, values: seq<Item>)
    requires Accepted(chain, values)
    ensures |values| >= 3
    ensures var x := Read(chain, values).value;
      x.voteSet == ReadPrecommits(chain.c, x.commitRound, chain.headerHash(x.evidence), values[3..])
      && x.voteSet.Some?
  {
    hide ReadPrecommits, ReadProposal, ReadEvidence, ReadRounds, ProposalVerifies;
  }

  /** No honest validator's signature appears without a vote in the log. */
  ghost predicate Unforged(c: Committee, log: Agreement.Log, values: seq<Item>) {
    forall round, hash, i :: Signed(c, round, hash, values, i) && c.Honest(i) ==>
      Agreement.Cast(log, Precommit, round, hash, i)
  }

  lemma AcceptedIsDecided(chain: Chain, log: Agreement.Log, values: seq<Item>)
    requires Accepted(chain, values) && Unforged(chain.c, log, values)
    ensures var x := Read(chain, values).value;
      Agreement.HasQuorum(chain.c, log, Precommit, x.commitRound, chain.headerHash(x.evidence))
  {
    var x := Read(chain, values).value;
    var hash := chain.headerHash(x.evidence);
    AcceptedIsSigned(chain, values);
    PowerMonotone(chain.c.powers, Signers(chain.c, x.commitRound, hash, values),
                  Agreement.Backers(chain.c, log, Precommit, x.commitRound, hash));
  }

  /** Two headers that are both accepted at one height are headers of the same block, whoever
      wrote them, as long as faulty validators hold less than a third of the power. */
  lemma AcceptedHeadersAgree(chain: Chain, chain': Chain, log: Agreement.Log, values: seq<Item>, values': seq<Item>)
    requires chain.c == chain'.c && 3 * Power(chain.c.powers, chain.c.faulty) < Total(chain.c.powers)
    requires Agreement.Disciplined(chain.c, log)
    requires Accepted(chain, values) && Unforged(chain.c, log, values)
    requires Accepted(chain', values') && Unforged(chain.c, log, values')
    requires chain.headerHash(Read(chain, values).value.evidence) != EMPTY_HASH
    requires chain'.headerHash(Read(chain', values').value.evidence) != EMPTY_HASH
    ensures chain.headerHash(Read(chain, values).value.evidence) ==
      chain'.headerHash(Read(chain', values').value.evidence)
  {
    hide Read, Unforged, Agreement.Disciplined, Agreement.HasQuorum;
    var x, x' := Read(chain, values).value, Read(chain', values').value;
    AcceptedIsDecided(chain, log, values);
    AcceptedIsDecided(chain', log, values');
    Agreement.OneDecision(chain.c, log, x.commitRound, chain.headerHash(x.evidence),
                          x'.commitRound, chain'.headerHash(x'.evidence));
  }

  /** In every run of the protocol: whatever headers of the height are accepted, whoever wrote them,
      are for one block, as long as faulty validators hold less than a third of the power. */
  lemma HeadersOfRunAgree(chain: Chain, chain': Chain, start: Network.World, actions: seq<Network.Action>,
      values: seq<Item>, values': seq<Item>)
    requires chain.c == chain'.c && Network.Safe(chain.c) && Network.Fresh(chain.c, start)
    requires Accepted(chain, values) && Unforged(chain.c, Network.Run(chain.c, start, actions).log, values)
    requires Accepted(chain', values') && Unforged(chain.c, Network.Run(chain.c, start, actions).log, values')
    requires chain.headerHash(Read(chain, values).value.evidence) != EMPTY_HASH
    requires chain'.headerHash(Read(chain', values').value.evidence) != EMPTY_HASH
    ensures chain.headerHash(Read(chain, values).value.evidence) ==
      chain'.headerHash(Read(chain', values').value.evidence)
  {
    hide Read, Unforged, Accepted, Agreement.Disciplined, Network.Run, Network.Fresh;
    Network.RunDisciplined(chain.c, start, actions);
    AcceptedHeadersAgree(chain, chain', Network.Run(chain.c, start, actions).log, values, values');
  }

  /** And they are for the block that honest nodes commit, if any does. */
  lemma HeaderOfRunIsCommitted(chain: Chain, start: Network.World, actions: seq<Network.Action>, values: seq<Item>,
      i: nat, k: nat)
    requires Network.Safe(chain.c) && Network.Fresh(chain.c, start)
    requires Accepted(chain, values) && Unforged(chain.c, Network.Run(chain.c, start, actions).log, values)
    requires chain.headerHash(Read(chain, values).value.evidence) != EMPTY_HASH
    requires i in Network.Run(chain.c, start, actions).nodes
    requires k < |Network.Run(chain.c, start, actions).nodes[i].commits|
    ensures Network.Run(chain.c, start, actions).nodes[i].commits[k] ==
      chain.headerHash(Read(chain, values).value.evidence)
  {
    hide Read, Unforged, Agreement.Disciplined, Agreement.HasQuorum, Network.Run, Network.Fresh, Network.AllSane;
    var w := Network.Run(chain.c, start, actions);
    Network.RunSane(chain.c, start, actions);
    var round, hash := Network.Commitment(chain.c, w, i, k);
    AcceptedIsDecided(chain, w.log, values);
    Agreement.OneDecision(chain.c, w.log, round, hash, Read(chain, values).value.commitRound,
                          chain.headerHash(Read(chain, values).value.evidence));
  }
}
