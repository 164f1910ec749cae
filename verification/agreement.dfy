/** Why two nodes never finalize different blocks: everything follows from the order in which
the honest validators signed their votes. */
module Agreement {
  import opened Powers
  import opened Ballots

  /** The votes signed by honest validators, oldest first. */
  type Log = seq<Vote>

  predicate IsBallot(v: Vote, kind: VoteType, round: nat, hash: Hash, i: nat) {
    v.kind == kind && v.round == round && v.hash == hash && v.index == i
  }

  predicate Cast(log: Log, kind: VoteType, round: nat, hash: Hash, i: nat) {
    exists a :: 0 <= a < |log| && IsBallot(log[a], kind, round, hash, i)
  }

  /** The validators that may appear behind `hash`: those who voted for it, and every faulty
      one, since a faulty validator can sign anything. */
  function Backers(c: Committee, log: Log, kind: VoteType, round: nat, hash: Hash): set<nat> {
    set i: nat | i < |c.powers| && (i in c.faulty || Cast(log, kind, round, hash, i))
  }

  ghost predicate HasQuorum(c: Committee, log: Log, kind: VoteType, round: nat, hash: Hash) {
    Power(c.powers, Backers(c, log, kind, round, hash)) >= Quorum(c.powers)
  }

  /** A prevote majority for something else than `hash`, in a round after `lock` and up to `now`:
      what lets a validator abandon a lock on `hash`. */
  ghost predicate Released(c: Committee, log: Log, lock: nat, hash: Hash, now: nat) {
    exists round, other: Hash :: lock < round <= now && other != hash && HasQuorum(c, log, Prevote, round, other)
  }

  predicate Precedes(v: Vote, w: Vote) {
    v.round < w.round || (v.round == w.round && v.kind == Prevote && w.kind == Precommit)
  }

  /** Every entry was signed by an honest validator for this height. */
  predicate Authentic(c: Committee, log: Log) {
    forall a :: 0 <= a < |log| ==>
      c.Verifies(log[a]) && c.Honest(log[a].index) && log[a].height == c.height && log[a].scheme == c.scheme
  }

  /** A validator signs at most one vote of each kind per round, in protocol order. */
  predicate Orderly(log: Log) {
    forall a, b :: 0 <= a < b < |log| && log[a].index == log[b].index ==> Precedes(log[a], log[b])
  }

  /** A precommit for a block comes after a prevote majority for it in the same round. */
  ghost predicate Justified(c: Committee, log: Log) {
    forall a :: 0 <= a < |log| && log[a].kind == Precommit && log[a].hash != EMPTY_HASH ==>
      HasQuorum(c, log[..a], Prevote, log[a].round, log[a].hash)
  }

  /** A validator that precommitted a block prevotes something else later only after it was
      released from that block. */
  ghost predicate Loyal(c: Committee, log: Log) {
    forall a, b :: 0 <= a < b < |log| && LockBroken(log[a], log[b]) ==>
      Released(c, log[..b], log[a].round, log[a].hash, log[b].round)
  }

  predicate LockBroken(v: Vote, w: Vote) {
    v.index == w.index && v.kind == Precommit && v.hash != EMPTY_HASH
    && w.kind == Prevote && v.round < w.round && w.hash != v.hash
  }

  ghost predicate Disciplined(c: Committee, log: Log) {
    Authentic(c, log) && Orderly(log) && Justified(c, log) && Loyal(c, log)
  }

  lemma QuorumGrows(c: Committee, log: Log, more: Log, kind: VoteType, round: nat, hash: Hash)
    requires HasQuorum(c, log, kind, round, hash)
    ensures HasQuorum(c, log + more, kind, round, hash)
  {
    forall i | Cast(log, kind, round, hash, i)
      ensures Cast(log + more, kind, round, hash, i)
    {
      var a :| 0 <= a < |log| && IsBallot(log[a], kind, round, hash, i);
      assert (log + more)[a] == log[a];
    }
    PowerMonotone(c.powers, Backers(c, log, kind, round, hash), Backers(c, log + more, kind, round, hash));
  }

  lemma ReleaseGrows(c: Committee, log: Log, more: Log, lock: nat, hash: Hash, now: nat, later: nat)
    requires Released(c, log, lock, hash, now) && now <= later
    ensures Released(c, log + more, lock, hash, later)
  {
    var round, other: Hash :| lock < round <= now && other != hash && HasQuorum(c, log, Prevote, round, other);
    QuorumGrows(c, log, more, Prevote, round, other);
  }

  /** An honest validator stands behind both of two quorums, each time with a vote in the log. */
  lemma CommonVoter(c: Committee, log: Log, kind: VoteType, round: nat, hash: Hash, log': Log, kind': VoteType,
      round': nat, hash': Hash)
    returns (a: nat, b: nat)
    requires 3 * Power(c.powers, c.faulty) < Total(c.powers)
    requires HasQuorum(c, log, kind, round, hash) && HasQuorum(c, log', kind', round', hash')
    ensures a < |log| && b < |log'| && log[a].index == log'[b].index
    ensures IsBallot(log[a], kind, round, hash, log[a].index)
    ensures IsBallot(log'[b], kind', round', hash', log[a].index)
  {
    var i := QuorumsMeet(c.powers, Backers(c, log, kind, round, hash), Backers(c, log', kind', round', hash'),
      c.faulty);
    assert Cast(log, kind, round, hash, i) && Cast(log', kind', round', hash', i);
    a :| a < |log| && IsBallot(log[a], kind, round, hash, i);
    b :| b < |log'| && IsBallot(log'[b], kind', round', hash', i);
  }

  /** Lock persistence: once a block has a precommit quorum, no later round ever gathers a
      prevote quorum for anything else, `nil` included. */
  lemma {:induction false} LockPersistence(c: Committee, log: Log, round: nat, hash: Hash, n: nat, later: nat,
      other: Hash)
    requires 3 * Power(c.powers, c.faulty) < Total(c.powers)
    requires Disciplined(c, log)
    requires hash != EMPTY_HASH && HasQuorum(c, log, Precommit, round, hash)
    requires n <= |log| && round < later && HasQuorum(c, log[..n], Prevote, later, other)
    ensures other == hash
    decreases n
  {
    if other != hash {
      var a, b := CommonVoter(c, log, Precommit, round, hash, log[..n], Prevote, later, other);
      assert log[..n][b] == log[b];
      assert a < b by {
        assert !Precedes(log[b], log[a]);
      }
      assert LockBroken(log[a], log[b]);
      var r, h: Hash :| round < r <= later && h != hash && HasQuorum(c, log[..b], Prevote, r, h);
      LockPersistence(c, log, round, hash, b, r, h);
    }
  }

  /** At most one hash, `nil` included, gathers a quorum of one kind in one round. */
  lemma OneQuorumPerRound(c: Committee, log: Log, kind: VoteType, round: nat, hash: Hash, other: Hash)
    requires 3 * Power(c.powers, c.faulty) < Total(c.powers)
    requires Authentic(c, log) && Orderly(log)
    requires HasQuorum(c, log, kind, round, hash) && HasQuorum(c, log, kind, round, other)
    ensures hash == other
  {
    var a, b := CommonVoter(c, log, kind, round, hash, log, kind, round, other);
    assert !Precedes(log[a], log[b]) && !Precedes(log[b], log[a]);
  }

  /** Agreement: two precommit quorums for blocks, in whatever rounds, name the same block. */
  lemma OneDecision(c: Committee, log: Log, round: nat, hash: Hash, round': nat, hash': Hash)
    requires 3 * Power(c.powers, c.faulty) < Total(c.powers)
    requires Disciplined(c, log)
    requires hash != EMPTY_HASH && HasQuorum(c, log, Precommit, round, hash)
    requires hash' != EMPTY_HASH && HasQuorum(c, log, Precommit, round', hash')
    ensures hash == hash'
  {
    if round == round' {
      OneQuorumPerRound(c, log, Precommit, round, hash, hash');
    } else if round < round' {
      DecisionCarries(c, log, round, hash, round', hash');
    } else {
      DecisionCarries(c, log, round', hash', round, hash);
    }
  }

  lemma DecisionCarries(c: Committee, log: Log, round: nat, hash: Hash, later: nat, other: Hash)
    requires 3 * Power(c.powers, c.faulty) < Total(c.powers)
    requires Disciplined(c, log)
    requires hash != EMPTY_HASH && HasQuorum(c, log, Precommit, round, hash)
    requires other != EMPTY_HASH && HasQuorum(c, log, Precommit, later, other)
    requires round < later
    ensures hash == other
  {
    var a, _ := CommonVoter(c, log, Precommit, later, other, log, Precommit, later, other);
    LockPersistence(c, log, round, hash, a, later, other);
  }
}
