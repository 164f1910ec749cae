# Verified models of the REI network client

This project models six parts of the client in Dafny and proves what they guarantee. Where the
client keeps objects whose fields change, so does the model: classes with the same fields and
methods, each proved to do what a function on values says. The guarantees are then proved of these
functions, over all inputs and all runs.

## What is modelled

**Consensus** (`powers`, `ballots`, `bitarray`, `votebook`, `voteruns`, `votecounts`, `roundbooks`,
`heightruns`, `statespec`, `agreement`, `protocol`, `network`, `commitrun`, `validity`, `proposals`,
`answers`, `prompt`, `followups`, `progress`, `vote`, `state`). One height of Reimint, a Byzantine fault
tolerant protocol of the Tendermint family: validators with natural-number powers, vote sets with
their tallies and peer claims, and the state machine with its lock. A run is any sequence of atomic
events at any honest nodes: votes, proposals, blocks, timers that were set, peer claims, and any
answer of the surroundings (whether a node may sign, how execution ends). Faulty validators may
sign anything; nobody can sign for an honest one. The main results are in `network.dfy` for agreement,
in `validity.dfy` for validity, and in `answers.dfy`, `prompt.dfy` and `progress.dfy` for what a node
never leaves undone.

**Certificates** (`certificate`, `certificatelaws`, `readerlaws`, `extradata`). What a header carries as a proof
of its commitment, written and read, with single signatures or with one aggregate and a bit array.
Aggregate verification is taken to be sound and complete. `CertificateLaws.AcceptedHeadersAgree`
joins this to consensus: accepted headers of one height agree, whoever made them.

**Snapshot layers** (`orders`, `snapview`, `snaplayers`, `snaptodisk`, `snapindex`, `snapcut`,
`snaptree`, `fastiterator`, `snapiterators`). A tree of difference layers over one disk layer, with a bloom shortcut,
flattening, writing to disk, pruning and the k-way merge iterator. All of it is proved against one
simple thing: the view that results from folding the layers, in which a destruct hides everything
below it.

**Canonical chain** (`chainspec`, `chainlaws`, `chainputs`, `blockchain`, `monitor`). The number index with its
heads, kept up by lists of writes that are applied at the end, and the stream of events for
reorganizations.

**Log index** (`compress`, `bloombits`, `chainindexer`, `bloomfilter`, `loglaws`). Blooms as in section 4.3.1 of
the Ethereum Yellow Paper (Berlin version), the transposed bit matrix, its codec, the sectioned
index, and the range query that is compared with a scan of all blocks. The query decompresses what
the indexer compressed; hashing is a parameter.

**Fees** (`stakeinfo`, `runtx`). The daily fee with its decay, the split of a transaction's cost
between fee and balance, and how a block's rewards leave the system caller.

Every handler runs to its end before the next event: the client serializes them with a lock.
Integers are unbounded, as the client's big numbers are; the 32-bit elements of bit arrays and the
bytes of blooms are sequences of bits.

## What the proofs found

Where the code does less than one may expect of it, the lemmas named say exactly when.

- An aggregated certificate cannot be written if a validator behind the majority has an index of
  31 modulo 32: its bit is the sign bit of a 32-bit element, and the writer refuses negative numbers.
  Nor would the reader count that validator: `getIndex` compares a signed element with zero
  (`CertificateLaws.CertificateRoundTrip`, `CertificateLaws.WrittenAggregate`).
- A slot of an account that was destructed is still read from below through the layers, although
  iterators, flattening and writing to disk hide it: exactly if a destruct of the account lies above
  the topmost value of the slot (`SnapViews.FindIsView`).
- Capping leaves a branch that hangs on the layer at the cut with a stale parent, so reads that get
  there fail (`SnapTrees.SnapTree.Cap`, `SnapTrees.StrandedBranch`). The node discards all other branches
  before it caps; then no such branch exists (`SnapTrees.SnapTree.Commit`).
- After a reorganization of more than 256 blocks the index keeps the old chain's rows, since a header
  that confirms no further section makes the indexer store nothing
  (`ChainIndexers.DeepReorganizationIsMissed`; `ChainIndexers.SectionIsExact` says exactly when a
  section is right for a chain).
- A range query misses `Usage` logs in indexed blocks. The fee callback appends this log to a receipt
  after the machine has computed the bloom, so no header's bloom holds it
  (`BloomBitsFilters.UsageMissed`).
- A range query misses logs in indexed blocks if it names no address and every position with
  topics also admits anything, through a `null` among its alternatives, for example
  (`BloomBitsFilters.CompleteExactly`). It also leaves out block zero until the first section is
  stored (`BloomBitsFilters.CompleteFindsAll`); block zero has no transactions.
- If the system caller sent a transaction and paid for it from its balance, that amount would be
  lost, because its account is written twice (`RunTxCallbacks.SettleConserves`).
- A proof-of-stake block that is put without validation, with an unknown parent, breaks the number
  index (`ChainLaws.UnanchoredBreaks`). Deleting a canonical block orphans the side chains that
  branch off from what is deleted (`ChainLaws.RemoveOrphans`).
- The events of a reorganization lose a transaction that is in two blocks of one chain
  (`Monitors.EventsBalance`).
- `setVoteMaj23` passes a peer's claim on only if it names another height than the node's own; the
  model follows the code. Claims change nothing that matters for agreement.
- A prevote majority for the hash of a proposal whose block is still missing sets the valid round but
  no valid block, and the block that comes later does not become the valid one
  (`FollowUps.MajorityIsFollowed`, `FollowUps.BlockIsValid`).
- The daily fee is not a limit for a day: in a window of 86400 seconds up to twice the fee, and one
  unit for every spend, can go (`StakeInfos.RateIsBounded`, `StakeInfos.RateIsReached`).
- Decompressing is injective on non-empty input shorter than the target; input of the target
  length is taken as it is, and empty input stands for zeros (`Compression.AcceptedExactly`).

## Model

| member | source | states |
|---|---|---|
| Network.NoFork | packages/core/src/reimint/state.ts:832-911 | Agreement: with faulty validators below a third of the power, in every run of any events at any nodes, no two honest nodes commit different blocks at the height |
| Validity.PrevotesAreValid | packages/core/src/reimint/state.ts:618-667 | Validity: with faulty validators below a third of the power, every block for which an honest node prevotes in a run was executed with success by an honest node that held it |
| Validity.QuorumIsValid | packages/core/src/reimint/state.ts:618-767 | So was every block with a prevote or a precommit quorum |
| Validity.CommitsAreValid | packages/core/src/reimint/state.ts:832-911 | And every block that is committed, which the committing node executed itself as well |
| Validity.ActPrevotes | packages/core/src/reimint/state.ts:618-667 | A prevote for a block that one action of a run signs is for the lock of the node or for a block that it holds and executes with success; without lock and success it is nil |
| CommitRun.SomeRunCommits | packages/core/src/reimint/state.ts:122-134 | There is a run in which an honest node commits a block, so agreement is not said of nothing |
| Network.Commitment | packages/core/src/reimint/state.ts:832-911 | Every committed block has precommits of more than two thirds of the power in one round |
| Network.MajoritiesFollowDecision | packages/core/src/reimint/state.ts:691-767 | Once a block has a precommit quorum, every prevote majority that an honest node sees in a later round is for that block |
| Network.HonestVotes | packages/core/src/reimint/state.ts:538-587 | In every run no honest validator signs two votes of one kind in one round, and each of its precommits for a block comes after a prevote quorum for it in that round |
| Network.NeverBroken | packages/core/src/reimint/state.ts:691-767 | No exception for a situation that the code considers impossible is raised in any run |
| Network.RunForward | packages/core/src/reimint/state.ts:389-429 | Between any two points of a run, round and step of a node only grow, in lexicographic order |
| Network.RunSane | packages/core/src/reimint/state.ts:98-120 | Every honest node keeps all its invariants in every run of atomic events |
| Network.RunDisciplined | packages/core/src/reimint/state.ts:538-587 | The votes of every run keep the rules on which agreement rests |
| Answers.RunAnswered | packages/core/src/reimint/state.ts:324-361 | In every run a node is never behind a round in which more than two thirds have prevoted or precommitted; where they have precommitted in its own round, a timer ends the wait for the others; and it has entered commit if it knows a precommit majority for a block |
| Prompt.RunWaits | packages/core/src/reimint/state.ts:201-272 | In every run in which no block turns out to be committed already, a node in the propose step does not have the whole proposal: its block, and the prevote majority that it is based on |
| Prompt.PrevotesHaveCause | packages/core/src/reimint/state.ts:589-667 | An honest node prevotes when the time for proposals is up, or when it has the proposal and knows the prevote majority that this is based on, and not before |
| Prompt.CommitsAreProposed | packages/core/src/reimint/state.ts:850-911 | A node commits nothing but the block of the proposal that it holds, with a precommit majority in its commit round |
| Proposals.RunProposal | packages/core/src/reimint/state.ts:165-199 | In every run a node holds the first proposal for its height and round that reached it with the signature of the proposer and an earlier proof-of-lock round or none; and it holds none only if there was none |
| Proposals.HandleProposal | packages/core/src/reimint/state.ts:165-199 | The first such proposal is taken, no event replaces it within the round, and the next round starts without |
| Progress.RunTimed | packages/core/src/reimint/state.ts:389-429 | In every run a node that waits for the start, for a proposal or for more votes has the timer for it |
| Progress.TimerMovesOn | packages/core/src/reimint/state.ts:136-163 | When that timer fires, the node moves on: to propose, to prevote, to precommit, or to the next round |
| Progress.ProposeTimeout | packages/core/src/reimint/state.ts:618-667 | What a node prevotes when the propose timer fires: its lock, or the block that it holds if executing succeeds, or nil |
| Progress.DecidedIsCommitted | packages/core/src/reimint/state.ts:790-911 | A node that holds the proposed block commits it on the vote that completes its precommit majority, if executing, sealing and logging succeed |
| FollowUps.BlockRefused | packages/core/src/reimint/state.ts:213-246 | A block that is not asked for, has another hash or names no active validator changes nothing |
| FollowUps.BlockMovesOn | packages/core/src/reimint/state.ts:262-267 | The block that was missing moves the node to prevote, and at once to precommit if there is a prevote majority |
| FollowUps.LateBlock | packages/core/src/reimint/state.ts:248-271 | A block that comes later is kept; in the commit step it is committed if it is the decided one |
| FollowUps.BlockIsValid | packages/core/src/reimint/state.ts:253-260 | A block whose prevote majority was known before it becomes the valid block of the round |
| FollowUps.VoteRefused | packages/core/src/reimint/state.ts:274-279 | A vote of another height changes nothing, and one that is not accepted changes the vote sets at most |
| FollowUps.PrevoteMovesOn | packages/core/src/reimint/state.ts:324-331 | A prevote moves a node that has prevoted to waiting on a two-thirds turnout, and to precommit on a majority for nil or for a proposal that is there |
| FollowUps.MajorityIsFollowed | packages/core/src/reimint/state.ts:304-320 | The first prevote majority for a block in the round of the node makes its proposal block the valid one, if the hash is the same, or has the other block asked for |
| FollowUps.ClaimIsMisplaced | packages/core/src/reimint/state.ts:1152-1158 | A claim about the height of the node changes nothing; one about another height is taken for one about this height |
| Agreement.LockPersistence | packages/core/src/reimint/state.ts:710-766 | After a precommit quorum for a block, no later round gathers a prevote quorum for any other hash, nil included |
| Agreement.OneDecision | packages/core/src/reimint/state.ts:790-911 | Two precommit quorums for blocks, in whatever rounds, name the same block |
| Agreement.OneQuorumPerRound | packages/core/src/reimint/vote.ts:408-425 | At most one hash, nil included, gathers a quorum of one kind in one round |
| Powers.QuorumsMeet | packages/core/src/reimint/vote.ts:410-421 | Two sets of more than two thirds of the power share a validator outside any set below a third |
| Protocol.HandleSane | packages/core/src/reimint/state.ts:122-134 | Whatever event a node handles, its invariants hold afterwards |
| Protocol.HandleTimeoutSane | packages/core/src/reimint/state.ts:136-163 | So for timers |
| Protocol.SetProposalSane | packages/core/src/reimint/state.ts:165-199 | So for proposals |
| Protocol.AddProposalBlockSane | packages/core/src/reimint/state.ts:213-272 | So for proposal blocks |
| Protocol.AddVoteSane | packages/core/src/reimint/state.ts:274-365 | So for votes that nobody forged |
| Protocol.AfterPrevoteSane | packages/core/src/reimint/state.ts:291-339 | So for the steps that follow a prevote |
| Protocol.AfterPrecommitSane | packages/core/src/reimint/state.ts:340-361 | So for the steps that follow a precommit |
| Protocol.TryUnlockSane | packages/core/src/reimint/state.ts:296-302 | Unlocking is allowed only by a prevote majority for something else that is later than the lock |
| Protocol.EnterNewRoundSane | packages/core/src/reimint/state.ts:389-429 | Entering a round keeps the invariants, every known majority and every two-thirds turnout |
| Protocol.EnterProposeSane | packages/core/src/reimint/state.ts:589-616 | Entering the propose step keeps the invariants |
| Protocol.CastVote | packages/core/src/reimint/state.ts:538-587 | Signing a vote keeps the invariants if a locked node prevotes its lock and a precommit for a block has a prevote quorum and the lock |
| Protocol.EnterPrevoteSane | packages/core/src/reimint/state.ts:618-667 | The prevote that a node signs is one that the protocol allows |
| Protocol.EnterPrecommitSane | packages/core/src/reimint/state.ts:691-767 | The precommit that a node signs is one that the protocol allows, in each of the four cases of lock and proposal |
| Protocol.PolIsCurrent | packages/core/src/reimint/state.ts:717-720 | The guard against an outdated proof of lock never fires |
| Protocol.EnterPrevoteWaitSane | packages/core/src/reimint/state.ts:669-689 | Waiting for prevotes keeps the invariants |
| Protocol.EnterPrecommitWaitSane | packages/core/src/reimint/state.ts:769-788 | Waiting for precommits keeps the invariants |
| Protocol.EnterCommitSane | packages/core/src/reimint/state.ts:790-830 | Entering the commit step on a precommit majority keeps the invariants |
| Protocol.FinalizeCommitSane | packages/core/src/reimint/state.ts:832-911 | A block is committed only if precommits of a quorum back it |
| StateMachines.StateMachine.NewBlockHeader | packages/core/src/reimint/state.ts:1052-1098 | A new height starts with round 0, no lock, no proposal, no votes; the last proposal block hash stays |
| StateMachines.StateMachine.Handle | packages/core/src/reimint/state.ts:122-134 | The fields after any event are exactly what the step function says, about which agreement is proved |
| StateMachines.StateMachine.HandleTimeout | packages/core/src/reimint/state.ts:136-163 | Timers of another height, an earlier round or an earlier step change nothing; the others lead to the step they stand for |
| StateMachines.StateMachine.SetProposal | packages/core/src/reimint/state.ts:165-199 | Which proposals are taken: first one, right height and round, valid proof-of-lock round, right signer |
| StateMachines.StateMachine.IsProposalComplete | packages/core/src/reimint/state.ts:201-211 | A proposal counts as complete with its block and, if it names a proof of lock, that round's prevote majority |
| StateMachines.StateMachine.AddProposalBlock | packages/core/src/reimint/state.ts:213-272 | Which blocks are taken, and whether prevoting, following the prevotes or committing comes next |
| StateMachines.StateMachine.NotePrevotes | packages/core/src/reimint/state.ts:293-323 | A prevote majority unlocks, sets the valid block, or asks for the block |
| StateMachines.StateMachine.AfterPrevote | packages/core/src/reimint/state.ts:291-339 | Where a prevote leads: next round, precommit, prevote or prevote wait |
| StateMachines.StateMachine.AfterPrecommit | packages/core/src/reimint/state.ts:340-361 | Where a precommit leads: commit, skip to the next round, or wait |
| StateMachines.StateMachine.AddVote | packages/core/src/reimint/state.ts:274-365 | A vote is added, and followed by what its kind calls for |
| StateMachines.StateMachine.EnterNewRound | packages/core/src/reimint/state.ts:389-429 | Proposal state is cleared except in round 0, votes open up to one round ahead, then propose |
| StateMachines.StateMachine.SignVote | packages/core/src/reimint/state.ts:538-587 | The vote is signed exactly if the node may sign |
| StateMachines.StateMachine.EnterPropose | packages/core/src/reimint/state.ts:589-616 | The propose timer is set and a complete proposal leads to prevote |
| StateMachines.StateMachine.EnterPrevote | packages/core/src/reimint/state.ts:618-667 | Prevote for the lock, else nil without a valid proposal block, else for it |
| StateMachines.StateMachine.EnterPrevoteWait | packages/core/src/reimint/state.ts:669-689 | Waiting needs a two-thirds turnout |
| StateMachines.StateMachine.EnterPrecommit | packages/core/src/reimint/state.ts:691-767 | Lock, relock, unlock and precommit as the prevote majority says |
| StateMachines.StateMachine.Relock | packages/core/src/reimint/state.ts:722-765 | Which lock a prevote majority leaves |
| StateMachines.StateMachine.EnterPrecommitWait | packages/core/src/reimint/state.ts:769-788 | Waiting needs a two-thirds turnout, once in a round |
| StateMachines.StateMachine.EnterCommit | packages/core/src/reimint/state.ts:790-830 | The decided block is taken from the lock or asked for, then finalized |
| StateMachines.StateMachine.FinalizeCommit | packages/core/src/reimint/state.ts:832-911 | A block is handed over exactly if it is the decided one, executes, seals and is logged |
| StateMachines.StateMachine.SetVoteMaj23 | packages/core/src/reimint/state.ts:1152-1158 | A peer's claim is passed on only when it is about another height, as the code has it |
| VoteRuns.Poll.RunValid | packages/core/src/reimint/vote.ts:374-449 | After every sequence of votes and peer claims, sum and tallies are the power of what they hold, a majority is declared exactly if some hash reached the quorum, and exactly those are counted who should be |
| VoteRuns.Poll.MajorityIsFinal | packages/core/src/reimint/vote.ts:416-424 | A declared majority never changes, and the recorded votes for it keep a quorum whatever follows |
| VoteRuns.Poll.QuorumIsMajority | packages/core/src/reimint/vote.ts:408-425 | Without double votes, the majority is declared for exactly the hash that has a quorum |
| VoteRuns.Poll.MajorityIsQuorum | packages/core/src/reimint/vote.ts:408-425 | A declared majority has the votes of a quorum, double votes or not |
| VoteRuns.Poll.SumIsTurnout | packages/core/src/reimint/vote.ts:374-394 | The sum is the power of everyone who voted, whatever for |
| VoteCounts.MajorityExactly | packages/core/src/reimint/vote.ts:374-449 | With double votes too: a majority is declared exactly if some hash has a quorum of validators with a vote for it that counts, which is a first vote or one for a hash that a peer claimed before |
| VoteCounts.ConflictIsDoubleVote | packages/core/src/reimint/vote.ts:374-394 | A reported conflict names a vote that the same validator signed before for another hash in the same round; every double vote is reported unless its hash was claimed or voted for before |
| VoteCounts.Outcomes | packages/core/src/reimint/vote.ts:331-394 | A vote for something else is passed over, one by the wrong signer refused, the first of a validator accepted; a repeated vote is a duplicate for a validator that voted for nothing else, and is not accepted unless its hash was claimed |
| VoteCounts.ClaimRefusedExactly | packages/core/src/reimint/vote.ts:433-449 | A claim is an exception exactly if its peer claimed another hash first |
| VoteCounts.TurnoutIsTwoThirds | packages/core/src/reimint/vote.ts:463-465 | The turnout of two thirds is reported exactly when more than two thirds of all power has voted |
| HeightRuns.BooksAreSeparate | packages/core/src/reimint/vote.ts:587-661 | After any run each vote set is what its own votes and claims make of it; other rounds and the other kind have no bearing on it |
| HeightRuns.PeerOpensTwo | packages/core/src/reimint/vote.ts:614-635 | Over the whole height the votes of a peer open at most two rounds |
| HeightRuns.RefusedExactly | packages/core/src/reimint/vote.ts:614-635 | A vote is refused for its round exactly if that is not open and its peer has opened two |
| HeightRuns.RoundsAreOpen | packages/core/src/reimint/vote.ts:587-608 | Entering a round opens it and every round before it, and no round is closed again |
| VoteBooks.AddValid | packages/core/src/reimint/vote.ts:331-425 | Adding any vote keeps the bookkeeping invariant, and an established majority |
| VoteBooks.SetPeerValid | packages/core/src/reimint/vote.ts:433-449 | A peer's claim changes nothing that is recorded, counted or decided |
| VoteBooks.CountedQuorum | packages/core/src/reimint/vote.ts:408-425 | A hash for which a quorum is counted means that a majority was declared |
| Votes.BlockVotes.AddVerifiedVote | packages/core/src/reimint/vote.ts:266-273 | A tally takes one vote of each validator and adds its power once |
| Votes.VoteSet.AddVote | packages/core/src/reimint/vote.ts:331-349 | Votes of another height, round, kind or scheme are passed over; those with a wrong signer are refused; the rest are added |
| Votes.VoteSet.AddVerifiedVote | packages/core/src/reimint/vote.ts:374-425 | What a vote changes: duplicates and conflicts are told apart, conflicts count only for a hash that a peer claimed, and the first quorum rewrites the recorded votes |
| Votes.VoteSet.SetPeerMaj23Of | packages/core/src/reimint/vote.ts:433-449 | A first claim marks the tally; a second claim for another hash is an exception and changes nothing |
| Votes.VoteSet.GetAggregatedBitArray | packages/core/src/reimint/vote.ts:511-520 | The bits of exactly those recorded for the majority among the bits of all votes |
| Votes.HeightVoteSet.SetRound | packages/core/src/reimint/vote.ts:587-608 | All rounds up to the new one are open; going back is an exception |
| Votes.HeightVoteSet.AddVote | packages/core/src/reimint/vote.ts:614-635 | A peer opens at most two rounds of its own; other unknown rounds are refused |
| Votes.HeightVoteSet.POLInfo | packages/core/src/reimint/vote.ts:645-653 | The latest round up to the current one with a prevote majority |
| Votes.HeightVoteSet.SetPeerMaj23Of | packages/core/src/reimint/vote.ts:655-661 | A claim goes to the vote set of its round, if there is one |
| RoundBooks.AddVoteKeeps | packages/core/src/reimint/vote.ts:614-635 | A vote adds at most itself to what is counted, in all rounds together |
| RoundBooks.SetPeerKeeps | packages/core/src/reimint/vote.ts:655-661 | A claim changes nothing that is counted in any round |
| RoundBooks.MajorityCounted | packages/core/src/reimint/vote.ts:455-465 | A declared majority rests on a quorum of counted validators, and more than two thirds took part |
| BitArrays.BitArray.SetIndex | packages/core/src/reimint/bitArray.ts:37-51 | Setting a bit changes that bit and no other, and nothing past the length |
| CertificateLaws.CertificateRoundTrip | packages/core/src/reimint/extraData.ts:138-319 | A header is written from a precommit majority exactly if, for an aggregate, no voter for the majority has an index of 31 modulo 32; it is then accepted exactly if its proposal is the signature of the proposer of the round over height, round, proof-of-lock round and hash, and what is read is what was written |
| CertificateLaws.ReadsBack | packages/core/src/reimint/extraData.ts:138-319 | What is read is what was written, or an exception if the proposal does not verify; an aggregate is written exactly if no element of its bits is negative |
| CertificateLaws.NegativeBits | packages/core/src/reimint/bitArray.ts:37-112 | An element of the bits of a majority is negative, so that writing it is an exception, exactly if a validator behind the majority has an index of 31 modulo 32 |
| CertificateLaws.BareReadIsSame | packages/core/src/reimint/extraData.ts:138-234 | Reading without a validator set gives the same, but for the votes |
| CertificateLaws.ProposalReadsBack | packages/core/src/reimint/extraData.ts:138-383 | A header written without votes is read back as it was, and is never accepted |
| CertificateLaws.WrittenAggregate | packages/core/src/reimint/vote.ts:496-551 | The aggregate of a majority with its bits would be taken over exactly if no validator behind it has an index of 31 modulo 32 |
| CertificateLaws.WrittenKeys | packages/core/src/reimint/bitArray.ts:37-39 | The validators found in the written bits are those behind the majority, less those whose bit is the sign bit of its element |
| CertificateLaws.ReadMajority | packages/core/src/reimint/extraData.ts:157-183 | Reading a list of precommits yields a majority exactly if valid signatures of a quorum are in it |
| CertificateLaws.AcceptedIsSigned | packages/core/src/reimint/extraData.ts:413-425 | Whatever a header holds, if it is accepted then more than two thirds of the power signed a precommit for its hash in its commit round |
| CertificateLaws.AcceptedIsProposed | packages/core/src/reimint/extraData.ts:258-267 | For any list of items that is accepted, the third is the signature of the proposer of the round that is read over exactly the height, round, proof-of-lock round and hash, in the form of its scheme |
| ReaderLaws.AcceptedIsCanonical | packages/core/src/reimint/extraData.ts:138-425 | Whatever list is accepted is just what is written from its content, with single signatures and with an aggregate; so it cannot be changed without changing what it says |
| ReaderLaws.ReadRecords | packages/core/src/reimint/extraData.ts:157-189 | Of the precommits of a list that is read, exactly those validators are recorded that have a signature there, each with the vote that it stands for |
| ReaderLaws.ReadIsBounded | packages/core/src/reimint/extraData.ts:138-234 | Whatever is read keeps to the cap on evidence and to rounds that are exact numbers |
| ReaderLaws.BareIsShaped | packages/core/src/reimint/extraData.ts:138-234 | Without a validator set, too, only lists of the form of a header are read |
| ReaderLaws.WrittenExactly | packages/core/src/reimint/extraData.ts:341-383 | A header is written without votes exactly if the number of validators is known, and with votes exactly if there is a majority without sign bits, or an empty vote set and single signatures |
| CertificateLaws.AcceptedIsDecided | packages/core/src/reimint/extraData.ts:413-425 | With unforgeable signatures, an accepted header is one that the protocol decided |
| CertificateLaws.AcceptedHeadersAgree | packages/core/src/reimint/extraData.ts:413-425 | Two accepted headers of one height are for the same block, whoever wrote them |
| CertificateLaws.HeadersOfRunAgree | packages/core/src/reimint/extraData.ts:413-425 | Whatever run of the protocol the precommits are from, all accepted headers of the height are for one block |
| CertificateLaws.HeaderOfRunIsCommitted | packages/core/src/reimint/extraData.ts:413-425 | And that is the block which honest nodes commit in the run, if any does |
| ExtraDataCodec.Raw | packages/core/src/reimint/extraData.ts:341-383 | The list that is written, from vote set objects, or an exception: without a majority, without votes and a size, or for a negative element of the bits |
| ExtraDataCodec.RawPrecommits | packages/core/src/reimint/extraData.ts:341-383 | The part with the precommits: signatures or gaps, one aggregate with its bits, or nothing but gaps for a header without votes |
| ExtraDataCodec.RawVotes | packages/core/src/reimint/extraData.ts:349-359 | One entry for every validator: its signature if its recorded vote is for the majority, or a gap |
| ExtraDataCodec.FromValuesArray | packages/core/src/reimint/extraData.ts:138-319 | What is read, or an exception, for any list of items, with a validator set and without |
| ExtraDataCodec.AddECDSAVotes | packages/core/src/reimint/extraData.ts:157-183 | Precommits are added one by one to a vote set object; the first bad one is an exception |
| ExtraDataCodec.SetAggregatedSignature | packages/core/src/reimint/vote.ts:529-551 | An aggregate is taken over if it verifies for the named validators and these have more than two thirds |
| SnapTrees.SnapTree.Commit | packages/core/src/node.ts:485-493 | After discarding and capping, the view of every account and slot at the root is what it was; every layer is live, linked, covered by its bloom, and its origin is the one live disk layer; at most n + 1 diff layers remain. An unknown root empties the tree |
| SnapTrees.SnapTree.Cap | packages/core/src/snap/snapTree.ts:231-308 | For a tree with any branches: every stack that is left keeps its view; the top n layers of the stack at the root stay, what was below is one layer or on disk; exactly what hung on anything below layer n is gone; and all stacks are in order exactly if no other branch hung on layer n, since such a branch still hangs on that layer, which has gone stale. An unknown root changes nothing |
| SnapTrees.StrandedBranch | packages/core/src/snap/snapTree.ts:273-288 | A tree of four layers in which capping without discarding leaves a branch on a stale layer |
| SnapTrees.SnapTree.CapStack | packages/core/src/snap/snapTree.ts:320-355 | Capping below layer n: one flattened layer, or a new disk layer with everything written; no other layer changes, but for the parent of the layer above |
| SnapTrees.SnapTree.CutSound | packages/core/src/snap/snapTree.ts:273-305 | After a cut, the stacks are all in order exactly if none of them hangs off it |
| SnapCuts.CutIndexed | packages/core/src/snap/snapTree.ts:259-288 | With everything below the cut removed, every entry of the index again has its whole stack in the index, down to the one disk layer |
| SnapCuts.FinalIs | packages/core/src/snap/snapTree.ts:273-288 | Once what is stale is gone with all that hangs on it, exactly the stacks remain that go through the layer at the cut or have nothing of what is below it |
| SnapCuts.CutView | packages/core/src/snap/snapTree.ts:231-355 | The view at every stack that remains is what it was |
| SnapTrees.SnapTree.CapToDisk | packages/core/src/snap/snapTree.ts:249-255 | With no layer to keep, everything is written to disk and the view stays |
| SnapTrees.SnapTree.RemoveStale | packages/core/src/snap/snapTree.ts:273-288 | Exactly the stale entries, and those that hang on one, are removed |
| SnapTrees.SnapTree.Rebloom | packages/core/src/snap/snapTree.ts:290-305 | Blooms are rebuilt from the new disk layer up, over all branches, each with what the one below has |
| SnapTrees.SnapTree.Discard | packages/core/src/snap/snapTree.ts:210-222 | Exactly the stack at the root stays; nothing at all if the root is unknown |
| SnapTrees.SnapTree.Update | packages/core/src/snap/snapTree.ts:189-208 | One layer goes on top of its parent, with the stack of the parent below it; all other stacks stay; it fails exactly for a cycle or an unknown parent |
| SnapViews.FlattenView | packages/core/src/snap/diffLayer.ts:207-242 | Flattening any number of layers keeps the view |
| SnapViews.PersistView | packages/core/src/snap/snapTree.ts:564-653 | Writing the bottom layer to disk keeps the view |
| SnapViews.CapPersistView | packages/core/src/snap/snapTree.ts:320-355 | Flattening and writing below any layers keeps the view |
| SnapViews.FindIsView | packages/core/src/snap/diffLayer.ts:187-202 | Reading a slot through the layers gives the view exactly if no destruct of the account lies above the topmost value of the slot |
| SnapViews.ReadOfDestructed | packages/core/src/snap/diffLayer.ts:187-202 | A slot of a destructed account that is read although the view has none |
| SnapViews.UntouchedIsOnDisk | packages/core/src/snap/diffLayer.ts:127-140 | A key that no layer touches has its view on disk |
| SnapLayers.DiffLayer.constructor | packages/core/src/snap/diffLayer.ts:42-77 | A new layer's bloom is that of its parent and all its own keys; its origin is that of its parent |
| SnapLayers.DiffLayer.Rebloom | packages/core/src/snap/diffLayer.ts:82-94 | All keys of the layer are added to its bloom |
| SnapLayers.DiffLayer.ResetOrigin | packages/core/src/snap/diffLayer.ts:100-110 | The bloom starts over from the parent's, with all keys of the layer |
| SnapLayers.DiffLayer.GetSerializedAccount | packages/core/src/snap/diffLayer.ts:127-140 | With the bloom shortcut, an account read gives the folded view; from a stale layer it fails exactly if the bloom has the key or the origin is stale, else the origin answers |
| SnapLayers.DiffLayer.GetSerializedAccountHere | packages/core/src/snap/diffLayer.ts:142-166 | Walking the parents gives the folded view |
| SnapLayers.DiffLayer.GetStorage | packages/core/src/snap/diffLayer.ts:173-185 | With the bloom shortcut, a slot read gives what walking the parents gives; from a stale layer it fails exactly if the bloom has the key or the origin is stale |
| SnapLayers.DiffLayer.GetStorageHere | packages/core/src/snap/diffLayer.ts:187-202 | Walking the parents gives the topmost value of the slot |
| SnapLayers.DiffLayer.Flatten | packages/core/src/snap/diffLayer.ts:207-242 | One layer that does what all of them did; the bottom one is left stale |
| SnapLayers.DiskLayer.GetSerializedAccount | packages/core/src/snap/diskLayer.ts:71-82 | Reads the stored account, or fails when stale |
| SnapLayers.DiskLayer.GetStorage | packages/core/src/snap/diskLayer.ts:89-103 | Reads the stored slot, or fails when stale |
| SnapToDisk.DiffToDisk | packages/core/src/snap/snapTree.ts:564-653 | The database afterwards is the one before with destructs wiped and accounts and slots written; the old disk layer is stale |
| SnapToDisk.WipeKeyRange | packages/core/src/snap/utils.ts:99-117 | All slots of the account are deleted, however often the traversal is given up and started again; it ends |
| SnapToDisk.WipeFrom | packages/core/src/snap/utils.ts:99-117 | One traversal deletes all slots up to where it is given up |
| SnapToDisk.SaveAccounts | packages/core/src/snap/snapTree.ts:607-617 | All accounts of the layer are written |
| SnapToDisk.SaveStorage | packages/core/src/snap/snapTree.ts:619-640 | All slots of the layer are written, empty ones deleted |
| FastIterators.FastSnapIterator.Entries | packages/core/src/snap/fastIterator.ts:204-236 | Delivers each hash once, in strictly ascending order, with the value of the shallowest layer that has it; null and empty values are left out; it ends |
| FastIterators.FastSnapIterator.Next | packages/core/src/snap/fastIterator.ts:113-199 | Keeps the iterators sorted without clashes, drops only shadowed entries, and uses up at least one element |
| FastIterators.FastSnapIterator.FindPosition | packages/core/src/snap/fastIterator.ts:131-191 | Where the advanced iterator belongs, and which iterator of a clash moves on |
| FastIterators.FastSnapIterator.Init | packages/core/src/snap/fastIterator.ts:56-105 | Starts all iterators so that no two stand at one hash, dropping only shadowed entries |
| FastIterators.SortCursors | packages/core/src/snap/fastIterator.ts:97-104 | Sorted by current hash, the same iterators |
| SnapIterators.AccountIterator | packages/core/src/snap/snapTree.ts:467-483 | The account iterator delivers exactly the folded view from the start hash on |
| SnapIterators.StorageIterator | packages/core/src/snap/snapTree.ts:493-510 | The storage iterator delivers exactly the destruct-aware folded view of the account from the start hash on |
| SnapIterators.AccountsOf | packages/core/src/snap/diffLayer.ts:311-331 | A layer lists its accounts and destructs from the start hash on, ascending |
| SnapIterators.SlotsOf | packages/core/src/snap/diffLayer.ts:336-355 | A layer lists its slots of the account from the start hash on, ascending |
| ChainLaws.RunSound | packages/blockchain/src/index.ts:810-957 | After any run of block puts and iterator steps: the number index is defined exactly on 0 to the head and is its ancestor chain, every iterator head is on it, and no stored block is heavier than the head |
| ChainLaws.PutKeeps | packages/blockchain/src/index.ts:810-957 | One put keeps all that, stores the block, and either switches over to it or leaves index and iterators as they are |
| ChainPuts.PutExactly | packages/blockchain/src/index.ts:810-957 | A put succeeds exactly if its parent is stored and the head has a total difficulty, or if it is under proof of stake and not validated without its parent; it becomes the head exactly if it is under proof of stake or heavier than the head |
| ChainPuts.PutWeighs | packages/blockchain/src/index.ts:876-892 | The total difficulty that is stored is that of the parent and the difficulty of the block |
| ChainPuts.RunIsLedger | packages/blockchain/src/index.ts:810-957 | After any run without proof of stake the stored blocks are those delivered after their parent, with their weights, and the head is the first delivered of the heaviest |
| ChainPuts.IteratorClimbs | packages/blockchain/src/index.ts:1310-1348 | An iterator moves to the child of its block on the way to the head, stays exactly if it is at the head, and moves no other iterator |
| ChainLaws.SwitchKeeps | packages/blockchain/src/index.ts:1494-1555 | A switch makes the block the head; iterators on abandoned blocks go to the fork point, which is the last common number |
| ChainLaws.UnanchoredBreaks | packages/blockchain/src/index.ts:894-928 | A proof-of-stake block put without validation and without its parent always breaks the chain |
| ChainPuts.UnanchoredHeads | packages/blockchain/src/index.ts:1494-1555 | Such a block moves the iterators above its number to itself and leaves all others where they are |
| ChainLaws.RemoveCanonical | packages/blockchain/src/index.ts:1223-1291 | Deleting a canonical block leaves exactly the chain up to its parent, with heads and iterators above moved to it; headers, numbers and total difficulties go for the chain from the block on and for nothing else |
| ChainLaws.RemoveOrphans | packages/blockchain/src/index.ts:1223-1291 | After it every stored block has its parent exactly if no side chain branched off from a deleted block |
| ChainPuts.RemoveSide | packages/blockchain/src/index.ts:1223-1291 | Deleting a block beside the chain takes out its header, total difficulty and number and nothing else; the chain stays sound exactly if no stored block is its child |
| ChainPuts.RemoveExactly | packages/blockchain/src/index.ts:1223-1291 | A block is deleted exactly if it is stored |
| Blockchains.Blockchain.PutBlock | packages/blockchain/src/index.ts:810-957 | The object after a put is the chain that the put function gives; an exception changes nothing |
| Blockchains.Blockchain.SwitchTo | packages/blockchain/src/index.ts:902-940 | The batched writes, applied at the end, give the switched chain |
| Blockchains.Blockchain.RebuildCanonical | packages/blockchain/src/index.ts:1494-1555 | Which writes the walk down to the canonical chain collects, and which heads it moves |
| Blockchains.Blockchain.WalkBack | packages/blockchain/src/index.ts:1494-1545 | The walk meets exactly the blocks that are to become canonical |
| Blockchains.Blockchain.DeleteCanonicalChainReferences | packages/blockchain/src/index.ts:1448-1477 | Deletes the numbers above up to the first gap, and moves iterators and heads that stood there |
| Blockchains.Blockchain.DelBlock | packages/blockchain/src/index.ts:1223-1256 | The object after a deletion; false if the block is unknown |
| Blockchains.Blockchain.DelChild | packages/blockchain/src/index.ts:1264-1291 | Deletes a block and, if it is canonical, those above it |
| Blockchains.Blockchain.SelectNeededHashes | packages/blockchain/src/index.ts:1169-1196 | The hashes from a boundary between known and unknown on; all the unknown ones if the known ones come first |
| Monitors.BlockchainMonitor.NewBlock | packages/core/src/blockchainMonitor.ts:47-163 | The events are exactly the transactions of one branch and not of the other, and the new branch above the common ancestor in ascending order |
| Monitors.MeetingIsLowest | packages/core/src/blockchainMonitor.ts:55-91 | The walk stops at the lowest common ancestor |
| Monitors.ChainSplits | packages/core/src/blockchainMonitor.ts:55-91 | Each chain is its own branch and the chain of the common ancestor |
| Monitors.EventsBalance | packages/core/src/blockchainMonitor.ts:94-105 | Old transactions less removed plus rebirthed are the new ones exactly if no removed transaction also occurs at or below the common ancestor |
| Monitors.RemovedExactly | packages/core/src/blockchainMonitor.ts:93-155 | What is reported as removed is what the new chain has no more, exactly if the events balance, and nothing is reported both ways |
| Monitors.RepeatedTxLost | packages/core/src/blockchainMonitor.ts:94-105 | A transaction in two blocks of a chain for which they do not balance |
| Monitors.RunFollows | packages/core/src/blockchainMonitor.ts:47-163 | Over any run of new heads, a listener ends with exactly the transactions of the last head's chain |
| Compression.RoundTrip | packages/database/src/compress.ts:12-72 | Decompressing what was compressed gives it back, for every byte string |
| Compression.AcceptedExactly | packages/database/src/compress.ts:64-131 | A non-empty input shorter than the target is accepted exactly if it is the encoder's output for some bytes of that length |
| Compression.AcceptedIsCompressed | packages/database/src/compress.ts:64-131 | And then it is the encoder's output for what it decodes to |
| Compression.DecodingIsInjective | packages/database/src/compress.ts:64-131 | No two such inputs decode to the same bytes |
| Compression.BitsetEncodeBytes | packages/database/src/compress.ts:25-52 | The recursive encoder, from buffers filled in place |
| Compression.BitsetDecodePartialBytes | packages/database/src/compress.ts:94-131 | The recursive decoder with its position, and which of three errors it meets first |
| Compression.DecompressBytes | packages/database/src/compress.ts:64-86 | Too long and left over input are errors; input of the target length is taken as it is |
| Compression.CompressBytes | packages/database/src/compress.ts:12-18 | The encoding if it is shorter, or the data |
| BloomBitsFilters.FilterRange | packages/core/src/bloomBits/bloomBitsFilter.ts:150-263 | As a multiset, exactly the matching logs of the blocks that the stored rows pick in the range, each block once across terms, section borders and the tail; it fails exactly if a row that is needed cannot be read or if these are more than 10000 |
| BloomBitsFilters.CompleteFindsAll | packages/core/src/bloomBits/bloomBitsFilter.ts:150-263 | With an exact index and a complete query that is what a linear scan finds, exactly unless block zero is in the range, has matching logs, and no section is stored |
| BloomBitsFilters.RunQueryIsScan | packages/core/src/indexer/chainIndexer.ts:109-169 | After any run of indexer calls that stored each section as it is now, every row that a complete query needs can be read, and the range query finds what a linear scan finds, exactly unless block zero is skipped |
| BloomBitsFilters.SettledQueryIsScan | packages/core/src/indexer/chainIndexer.ts:109-169 | So after any run, with aborts and errors, in which no more than 256 blocks are reorganized |
| BloomBitsFilters.ExactQueryIsScan | packages/core/src/bloomBits/bloomBitsFilter.ts:150-263 | The same for any index that is exact and ends below the latest block |
| BloomBitsFilters.PickedIsCandidate | packages/core/src/bloomBits/bloomBitsFilter.ts:216-251 | The rows of an exact section pick exactly the blocks whose blooms have a term |
| BloomBitsFilters.CompleteExactly | packages/core/src/bloomBits/bloomBitsFilter.ts:36-64 | No block with a matching log is passed over, whatever hash function and blocks: exactly for queries that name an address or have a position without wildcard, and that match no Usage log |
| BloomBitsFilters.FoundIsScan | packages/core/src/bloomBits/bloomBitsFilter.ts:150-263 | What is found is within the scan, and all of it exactly if every block with matching logs is examined |
| BloomBitsFilters.UsageMissed | packages/core/src/reimint/makeRunTxCallback.ts:93-98 | A block with just a matching Usage log is passed over for every hash function, since header blooms do not hold it |
| BloomBitsFilters.UnsoundMisses | packages/core/src/bloomBits/bloomBitsFilter.ts:158-173 | For a query that is not sound, a hash function and a block that is passed over |
| BloomBitsFilters.FilterSection | packages/core/src/bloomBits/bloomBitsFilter.ts:188-253 | A section's part of the query: each picked block once, whatever the number of terms; it fails exactly if a row cannot be read or the logs are too many |
| BloomBitsFilters.CheckTerm | packages/core/src/bloomBits/bloomBitsFilter.ts:242-251 | One term's pass over a section, one step past its end included |
| BloomBitsFilters.FilterBlocks | packages/core/src/bloomBits/bloomBitsFilter.ts:257-262 | The blocks that have no index, up to the latest |
| BloomBitsFilters.RowsAnd | packages/core/src/bloomBits/bloomBitsFilter.ts:216-233 | Three rows and-ed have a bit exactly where a block's bloom has the item |
| BloomBitsFilters.GetBits | packages/core/src/bloomBits/bloomBitsFilter.ts:216-233 | Three rows, from the cache or decompressed from the database, and-ed; an error exactly if one is missing or does not decompress |
| BloomBitsFilters.CollectTerms | packages/core/src/bloomBits/bloomBitsFilter.ts:158-173 | The terms: addresses, then topics without nulls |
| BloomBitsFilters.TopicMatched | packages/core/src/bloomBits/bloomBitsFilter.ts:36-64 | A log matches position by position: null, an empty list or buffer, or a null among alternatives match anything |
| LogLaws.FurtherTopicsDontCount | packages/core/src/bloomBits/bloomBitsFilter.ts:36-64 | Topics of a log beyond the positions of the query never matter, and those positions have to be there |
| LogLaws.PositionsSplit | packages/core/src/bloomBits/bloomBitsFilter.ts:36-64 | A query with one more position asks what it asked and for that position by itself |
| LogLaws.AlternativesAreUnion | packages/core/src/bloomBits/bloomBitsFilter.ts:53-60 | A list of alternatives matches what one of its parts matches |
| LogLaws.AlternativeLaws | packages/core/src/bloomBits/bloomBitsFilter.ts:43-60 | One alternative is a topic, an empty list or a null in it is anything, and an empty alternative only an empty topic |
| LogLaws.TopicLaws | packages/core/src/bloomBits/bloomBitsFilter.ts:43-52 | A topic is matched by itself and no other; an empty one and null by everything |
| LogLaws.AddressesAreUnion | packages/core/src/bloomBits/bloomBitsFilter.ts:111-124 | Addresses are alternatives and have no bearing on the topics |
| LogLaws.RangeLaws | packages/core/src/bloomBits/bloomBitsFilter.ts:111-120 | A log counts for a range exactly if its block is known and in it, or the range is open |
| LogLaws.ScanIsSifted | packages/core/src/bloomBits/bloomBitsFilter.ts:126-141 | A scan is all logs of the readable blocks in their order without those that do not match |
| LogLaws.NamedIsFound | packages/core/src/bloomBits/bloomBitsFilter.ts:150-263 | With an exact index, a log of a readable block whose address and topics the query names is in the answer, whatever topics follow |
| LogLaws.AnswerIsAsked | packages/core/src/bloomBits/bloomBitsFilter.ts:150-263 | Whatever is in an answer is a log of a readable block of the range, from an address that was asked for, with one of the terms at every strict position |
| LogLaws.ReadsItsSections | packages/core/src/bloomBits/bloomBitsFilter.ts:150-263 | A query that starts within the index needs just the rows of the sections that its blocks are in |
| BloomBitsFilters.CheckLogMatches | packages/core/src/bloomBits/bloomBitsFilter.ts:107-121 | Block range, then addresses, then topics |
| BloomBitsFilters.CheckBlockMatches | packages/core/src/bloomBits/bloomBitsFilter.ts:130-140 | The matching logs of all receipts, in order |
| BloomBitsFilters.AddReceiptsHas | packages/vm/src/runTx.ts:497-512 | A block's bloom has the address and all topics of every log that was emitted |
| BloomBits.SetLocAt | packages/vm/src/bloom/index.ts:25-37 | Where the machine sets a bit is where the filter looks for it, and no other bit changes |
| BloomBits.BloomIndexInjective | packages/core/src/bloomBits/bloomBitsFilter.ts:14-26 | Different bits of a hash have different indexes |
| BloomBits.BloomBitsGenerator.AddBloom | packages/core/src/bloomBits/bloomBitsGenerator.ts:25-50 | The matrix holds the added blooms as its columns; wrong order and a full section are refused |
| BloomBits.BloomBitsGenerator.Bitset | packages/core/src/bloomBits/bloomBitsGenerator.ts:58-66 | A row of the full matrix is the transpose of the blooms; an unfinished matrix or a bad index is an error |
| BloomBits.RowBit | packages/core/src/bloomBits/bloomBitsGenerator.ts:25-66 | Bit k of row r is bit r of bloom k |
| BloomBits.RowsDetermine | packages/core/src/bloomBits/bloomBitsGenerator.ts:25-66 | The rows of a section determine its blooms |
| ChainIndexers.RunIsExact | packages/core/src/indexer/chainIndexer.ts:109-169 | After any run of calls, with aborts and errors and with reorganizations of no more than 256 blocks, every stored section is the exact transpose of the blooms of its headers now |
| ChainIndexers.RunIsDeep | packages/core/src/indexer/chainIndexer.ts:109-169 | After any run whatever, every stored section ends at least 257 blocks below the highest number handled |
| ChainIndexers.SectionIsExact | packages/core/src/indexer/chainIndexer.ts:109-169 | After any run whatever, a section is exact for any chain exactly if some call stored it with the last hash that it has in that chain, and the last such call saw the blooms that it has there |
| ChainIndexers.IndexIsExact | packages/core/src/indexer/chainIndexer.ts:109-169 | The whole index is exact for a chain exactly if that holds of every section up to the count |
| ChainIndexers.SectionIsExactForItsCall | packages/core/src/indexer/chainIndexer.ts:109-169 | After any run whatever, every section up to the count is exact for the chain that the last call to store it saw |
| ChainIndexers.DeepReorganizationIsMissed | packages/core/src/indexer/chainIndexer.ts:109-113 | Two calls with one number and chains that differ in a confirmed section: the second stores nothing, and the index is not exact for its chain |
| ChainIndexers.ProcessCatchesUp | packages/core/src/indexer/chainIndexer.ts:109-169 | On a linked chain every section that is confirmed is stored, so at most 4096 + 256 blocks up to the header have no index |
| ChainIndexers.LastIsRedone | packages/core/src/indexer/chainIndexer.ts:109-169 | Once the next section is confirmed, the last one is stored again as it is in the chain now |
| ChainIndexers.ChainIndexer.ProcessNewHeader | packages/core/src/indexer/chainIndexer.ts:109-169 | Which sections a new header stores, where it stops, and that the last stored one is done again |
| ChainIndexers.ChainIndexer.ReadSection | packages/core/src/indexer/chainIndexer.ts:115-142 | All headers of a section go to the backend in order, which refuses none of them; it fails exactly for a torn section |
| ChainIndexers.BloomBitsIndexer.Process | packages/core/src/indexer/bloomBitsIndexer.ts:56-59 | Takes a header exactly if it is the next of the section |
| ChainIndexers.BloomBitsIndexer.Commit | packages/core/src/indexer/bloomBitsIndexer.ts:64-71 | One row for every bit, under section and last hash; an error if the section is not full |
| StakeInfos.RateIsBounded | packages/core/src/stateManager/stakeInfo.ts:83-145 | With a fixed fee F, k spends within w seconds, each within what is left, come to at most F + F w / 86400 + k, whatever was used before |
| StakeInfos.RateIsReached | packages/core/src/stateManager/stakeInfo.ts:124-145 | The bound is reached: the whole fee, and again 86400 seconds later |
| StakeInfos.UsageRecovers | packages/core/src/stateManager/stakeInfo.ts:83-96 | Below a full day usage is down by exactly the part of the day that has passed, rounded down; after one it is zero |
| StakeInfos.UsageWithinFee | packages/core/src/stateManager/stakeInfo.ts:83-145 | Usage never exceeds the fee |
| StakeInfos.SpentIsUsageAndDecay | packages/core/src/stateManager/stakeInfo.ts:124-145 | What is spent is what usage went up by, plus at most what decayed meanwhile |
| StakeInfos.SharesWithinDailyFee | packages/core/src/stateManager/stakeInfo.ts:103-105 | The shares of all stakers together are within the daily fee, and miss it by at most one each |
| StakeInfos.StakeInfo.Usage | packages/core/src/stateManager/stakeInfo.ts:124-135 | Usage now, rounded down; the whole of it if time goes back |
| StakeInfos.StakeInfo.Fee | packages/core/src/stateManager/stakeInfo.ts:83-91 | What is left of the share |
| StakeInfos.StakeInfo.Use | packages/core/src/stateManager/stakeInfo.ts:142-145 | Decayed usage plus the amount, at the new time |
| StakeInfos.StakeInfo.Deposit | packages/core/src/stateManager/stakeInfo.ts:151-153 | The amount is added |
| StakeInfos.StakeInfo.Withdraw | packages/core/src/stateManager/stakeInfo.ts:159-165 | The amount is taken, or nothing if there is less |
| RunTxCallbacks.SettleConserves | packages/core/src/reimint/makeRunTxCallback.ts:63-84 | Charging a transaction keeps the sum of all balances exactly if the sender is not the system caller or pays nothing from its balance |
| RunTxCallbacks.SettleMoves | packages/core/src/reimint/makeRunTxCallback.ts:63-84 | What the sender loses the system caller gains, and nobody else is touched |
| RunTxCallbacks.AdmittedIsCharged | packages/core/src/reimint/makeRunTxCallback.ts:35-60 | A transaction that was let in can always be charged: neither error for too little balance is met |
| RunTxCallbacks.AdmittedExactly | packages/core/src/reimint/makeRunTxCallback.ts:20-33 | A transaction is let in exactly if its nonce is not used up and its cost can be paid in part from what is left of the fee and else, with the value, from the balance |
| RunTxCallbacks.FeeAlonePays | packages/core/src/reimint/makeRunTxCallback.ts:20-60 | A sender with enough fee and no balance is let in, and what it uses costs nobody any balance |
| RunTxCallbacks.AdmittedOnce | packages/core/src/reimint/makeRunTxCallback.ts:20-33 | Letting it in changes nothing but the nonce of the sender, so that a transaction with just the next nonce is not let in again |
| RunTxCallbacks.TxExactly | packages/core/src/reimint/makeRunTxCallback.ts:35-90 | A transaction goes through exactly if it is let in and its cost can be paid from the fee, from the balance less the value, and from what the execution left |
| RunTxCallbacks.TxMoves | packages/core/src/reimint/makeRunTxCallback.ts:35-90 | The fee goes first, and only once it is used up balance, from the sender to the system caller; all else is as the execution left it |
| RunTxCallbacks.NoStakeNoUsage | packages/core/src/reimint/makeRunTxCallback.ts:55-90 | A sender without stake has nothing used up after a transaction |
| RunTxCallbacks.ChargedWithinFee | packages/core/src/reimint/makeRunTxCallback.ts:35-67 | It spends at most what is left of its daily fee, and balance only once that is used up |
| RunTxCallbacks.SenderRateIsBounded | packages/core/src/reimint/makeRunTxCallback.ts:20-67 | With a fixed daily fee F, the fees that k transactions of one sender use up within w seconds come to at most F + F w / 86400 + k |
| RunTxCallbacks.RunTxCallback.BeforeTx | packages/core/src/reimint/makeRunTxCallback.ts:20-33 | Who is let in, with how much fee and balance; the nonce goes up |
| RunTxCallbacks.RunTxCallback.AfterTx | packages/core/src/reimint/makeRunTxCallback.ts:35-91 | The cost is split without rest, fee first; the Usage log names both parts; an error writes nothing |
| RunTxCallbacks.BlockCredits | packages/core/src/reimint/executor.ts:83-102 | Over a block of any number of transactions, the sums from the receipts are the costs of all of them, and the system caller holds at least the balance part |
| RunTxCallbacks.CalcAccUsage | packages/core/src/reimint/executor.ts:83-102 | The sums over the last log of every receipt; a receipt without it is an error |
| RunTxCallbacks.AccUsageExactly | packages/core/src/reimint/executor.ts:83-102 | The sums exist exactly if every receipt ends with a log of three topics |
| RunTxCallbacks.RewardIsSplit | packages/core/src/reimint/executor.ts:144-179 | Miner reward and distributed value make up the system caller's balance; the miner gets its hundredths rounded down of what is not usage |
| RunTxCallbacks.DistributesAll | packages/core/src/reimint/executor.ts:181-265 | Both calls go through exactly if the factor is not refused and the miner part, hundredths of the reward less usage times the factor, is neither negative nor more than the balance; then the system caller has nothing left |
| RunTxCallbacks.DistributePays | packages/core/src/reimint/executor.ts:168-265 | The stake manager gets the hundredths, rounded down, of balance less usage times the factor, the fee pool all the rest; one address for both gets everything, and no other account changes |
| RunTxCallbacks.BlockEndsAtZero | packages/core/src/reimint/executor.ts:441-494 | After a whole block with a factor of at most 100, both calls go through and the system caller ends at zero |
| RunTxCallbacks.DistributeConserves | packages/core/src/reimint/executor.ts:181-265 | Distributing keeps the sum of all balances |
| RunTxCallbacks.AllToMiner | packages/core/src/reimint/executor.ts:172-179 | Without free staking the stake manager gets everything, the system caller ends at zero and no other account changes |
| RunTxCallbacks.Executor.AssignBlockReward | packages/core/src/reimint/executor.ts:117-120 | The reward goes to the system caller, nobody else changes |
| RunTxCallbacks.Executor.AfterApply | packages/core/src/reimint/executor.ts:136-268 | The money part: which of the two calls are made, with which values, and which errors stop it |

## Left out

- Hashing, ECDSA, BLS, RLP and tries: hashes are injective names, signatures name their signer and message, encoded data is nested lists. Items of one kind that the code would read as another kind of buffer are refused.
- Write-ahead log, replay, evidence pool, gossip messages and the choice of what to send: files and network. Conflicting votes are told apart, but not turned into evidence.
- Making a proposal (`decideProposal`, `createBlockAndProposal`): proposals and blocks arrive as events of any content.
- Validator set internals and proposer priority: powers are fixed, the proposer is a function of the round.
- Debug switches of the state machine that force empty votes.
- StateMachines.StateMachine.SetVoteMaj23: does not model that the client handles claims outside the lock, between the awaits of a handler; claims come between events here.
- Votes.HeightVoteSet.AddVote: the vote sets of a round are kept by value, so sharing of `VoteSet` objects with other code is not modelled; `BlockVotes` has no bit array of its own.
- ExtraDataCodec.FromValuesArray: missing BLS keys are not modelled; writing a header again that was read with an aggregate is not either.
- Snapshot generation with its marker, journal, abort and rebuild: the disk layer is complete. A layer's memory use is a number it is given.
- SnapLayers.DiffLayer.constructor: bloom filters are sets of positions by value, so a bloom object shared between a layer and its flattened copy is not modelled, nor are maps shared with stale layers.
- FastIterators.FastSnapIterator.Next: the iterator of one layer is a list and a position, kept by value; what iterating over a layer that becomes stale meanwhile yields is not modelled.
- Header-only puts, `forcePutBlock`, clique signer snapshots, checks of chain id and of blocks beyond their parent, cached latest block; deleting does not rewrite persisted heads in the code, and persisted heads are not modelled.
- Monitors.BlockchainMonitor.NewBlock: the events carry transactions; looking up their receipts and logs, and the order within `removed` and `rebirthed`, are not modelled.
- BloomBitsFilters.FilterRange: reads receipts without the cache, which holds one block; logs of blocks that cannot be read are empty, as in the code.
- ChainIndexers.RunIsExact: for chains that do not reorganize more than the 256 blocks that are waited for; `ChainIndexers.IndexIsExact` has the exact condition for all runs.
- Compression.BitsetEncodeBytes: bytes are eight bits each, so shifting and masking are indexing.
- RunTxCallbacks.RunTxCallback.AfterTx: what running a transaction does in between is a parameter: the sender loses at most the value it sends, no stake changes, and the system caller loses nothing. Usage logs name their numbers as such, not encoded in 32 bytes.
- RunTxCallbacks.Executor.AfterApply: the calls move their value and nothing else; contract bodies, slashing, miss records, deposits and withdrawals, validator set changes and hard fork deployments are not modelled.
- StakeInfos.RateIsBounded: for a fixed fee. A stake of zero is not written, so withdrawing everything also drops what was used.
- `TxFetcher`, clique voting, execution of the machine, RPC, wallet, peer-to-peer network, LevelDB, gas oracle and tracer.
