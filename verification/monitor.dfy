/** The stream of events for reorganizations: a walk from the old head and the new head down to
their lowest common ancestor. */
module Monitors {
  type Hash = nat
  type Tx = nat

  /** Hashes are injective names of blocks and of transactions. */
  datatype Block = Block(hash: Hash, number: nat, parentHash: Hash, txs: seq<Tx>)

  datatype TxInfo = TxInfo(tx: Tx, blockHash: Hash, blockNumber: nat)

  type Store = map<(Hash, nat), Block>

  /** Every block is filed under its own hash and number, down to a single block zero. */
  ghost predicate Complete(db: Store) {
    && (forall h, n :: (h, n) in db ==>
      db[(h, n)].hash == h && db[(h, n)].number == n && (n > 0 ==> (db[(h, n)].parentHash, n - 1) in db))
    && (forall h, h' :: (h, 0) in db && (h', 0) in db ==> h == h')
  }

  predicate In(db: Store, b: Block) {
    (b.hash, b.number) in db && db[(b.hash, b.number)] == b
  }

  function Parent(db: Store, b: Block): Block
    requires b.number > 0 && (b.parentHash, b.number - 1) in db
  {
    db[(b.parentHash, b.number - 1)]
  }

  lemma ParentIn(db: Store, b: Block)
    requires Complete(db) && In(db, b) && b.number > 0
    ensures (b.parentHash, b.number - 1) in db && In(db, Parent(db, b))
    ensures Parent(db, b).number == b.number - 1 && Parent(db, b).hash == b.parentHash
  {
  }

  /** The chain of `b`, from `b` down to block zero. */
  ghost function Ancestors(db: Store, b: Block): seq<Block>
    requires Complete(db) && In(db, b)
    decreases b.number
  {
    if b.number == 0 then [b]
    else
      ParentIn(db, b);
      [b] + Ancestors(db, Parent(db, b))
  }

  function Txs(bs: seq<Block>): set<Tx> {
    set i, j | 0 <= i < |bs| && 0 <= j < |bs[i].txs| :: bs[i].txs[j]
  }

  // ---- The two branches ----

  /** The blocks above the common ancestor on the side of `o`, top first. */
  ghost function OldBranch(db: Store, o: Block, n: Block): seq<Block>
    requires Complete(db) && In(db, o) && In(db, n)
    decreases o.number + n.number
  {
    if o.number > n.number then
      ParentIn(db, o);
      [o] + OldBranch(db, Parent(db, o), n)
    else if n.number > o.number then
      ParentIn(db, n);
      OldBranch(db, o, Parent(db, n))
    else if o.hash == n.hash || o.number == 0 then []
    else
      ParentIn(db, o);
      ParentIn(db, n);
      [o] + OldBranch(db, Parent(db, o), Parent(db, n))
  }

  ghost function Meeting(db: Store, o: Block, n: Block): (m: Block)
    requires Complete(db) && In(db, o) && In(db, n)
    ensures In(db, m)
    decreases o.number + n.number
  {
    if o.number > n.number then
      ParentIn(db, o);
      Meeting(db, Parent(db, o), n)
    else if n.number > o.number then
      ParentIn(db, n);
      Meeting(db, o, Parent(db, n))
    else if o.hash == n.hash || o.number == 0 then o
    else
      ParentIn(db, o);
      ParentIn(db, n);
      Meeting(db, Parent(db, o), Parent(db, n))
  }

  lemma {:induction false} BranchesMirror(db: Store, o: Block, n: Block)
    requires Complete(db) && In(db, o) && In(db, n)
    ensures Meeting(db, o, n) == Meeting(db, n, o)
    decreases o.number + n.number
  {
    if o.number > n.number {
      ParentIn(db, o);
      BranchesMirror(db, Parent(db, o), n);
    } else if n.number > o.number {
      ParentIn(db, n);
      BranchesMirror(db, o, Parent(db, n));
    } else if o.hash == n.hash || o.number == 0 {
    } else {
      ParentIn(db, o);
      ParentIn(db, n);
      BranchesMirror(db, Parent(db, o), Parent(db, n));
    }
  }

  /** The walk splits each chain into its own branch and the chain of the meeting point. */
  lemma {:induction false} ChainSplits(db: Store, o: Block, n: Block)
    requires Complete(db) && In(db, o) && In(db, n)
    ensures Ancestors(db, o) == OldBranch(db, o, n) + Ancestors(db, Meeting(db, o, n))
    decreases o.number + n.number
  {
    if o.number > n.number {
      ParentIn(db, o);
      ChainSplits(db, Parent(db, o), n);
    } else if n.number > o.number {
      ParentIn(db, n);
      ChainSplits(db, o, Parent(db, n));
    } else if o.hash == n.hash || o.number == 0 {
    } else {
      ParentIn(db, o);
      ParentIn(db, n);
      ChainSplits(db, Parent(db, o), Parent(db, n));
    }
  }

  lemma {:induction false} BranchNumbers(db: Store, o: Block, n: Block)
    requires Complete(db) && In(db, o) && In(db, n)
    ensures var bs := OldBranch(db, o, n);
      Meeting(db, o, n).number + |bs| == o.number && forall i :: 0 <= i < |bs| ==>
        bs[i].number == o.number - i && In(db, bs[i])
    decreases o.number + n.number
  {
    if o.number > n.number {
      ParentIn(db, o);
      BranchNumbers(db, Parent(db, o), n);
    } else if n.number > o.number {
      ParentIn(db, n);
      BranchNumbers(db, o, Parent(db, n));
    } else if o.hash == n.hash || o.number == 0 {
    } else {
      ParentIn(db, o);
      ParentIn(db, n);
      BranchNumbers(db, Parent(db, o), Parent(db, n));
    }
  }

  /** The meeting point is the lowest common ancestor: no block of one branch is on the other chain. */
  lemma {:induction false} MeetingIsLowest(db: Store, o: Block, n: Block, b: Block)
    requires Complete(db) && In(db, o) && In(db, n) && b in OldBranch(db, o, n)
    ensures b !in Ancestors(db, n)
    decreases o.number + n.number
  {
    if o.number > n.number {
      ParentIn(db, o);
      if b == o {
        AncestorNumber(db, n, b);
      } else {
        MeetingIsLowest(db, Parent(db, o), n, b);
      }
    } else if n.number > o.number {
      ParentIn(db, n);
      MeetingIsLowest(db, o, Parent(db, n), b);
      BranchTop(db, o, Parent(db, n), b);
    } else if o.hash == n.hash || o.number == 0 {
    } else {
      ParentIn(db, o);
      ParentIn(db, n);
      if b == o {
        AncestorNumber(db, Parent(db, n), b);
      } else {
        MeetingIsLowest(db, Parent(db, o), Parent(db, n), b);
        BranchTop(db, Parent(db, o), Parent(db, n), b);
      }
    }
  }

  lemma {:induction false} AncestorNumber(db: Store, n: Block, b: Block)
    requires Complete(db) && In(db, n)
    ensures b in Ancestors(db, n) ==> b.number <= n.number
    decreases n.number
  {
    if n.number > 0 {
      ParentIn(db, n);
      AncestorNumber(db, Parent(db, n), b);
    }
  }

  lemma BranchTop(db: Store, o: Block, n: Block, b: Block)
    requires Complete(db) && In(db, o) && In(db, n) && b in OldBranch(db, o, n)
    ensures b.number <= o.number
  {
    BranchNumbers(db, o, n);
  }

  // ---- Events ----

  /** What one new head takes away and brings back. */
  ghost function RemovedTxs(db: Store, o: Block, n: Block): set<Tx>
    requires Complete(db) && In(db, o) && In(db, n)
  {
    Txs(OldBranch(db, o, n)) - Txs(OldBranch(db, n, o))
  }

  /** The transactions of the old chain, less those removed, with those brought back, are those of
      the new chain. */
  ghost predicate Balanced(db: Store, o: Block, n: Block)
    requires Complete(db) && In(db, o) && In(db, n)
  {
    Txs(Ancestors(db, o)) - RemovedTxs(db, o, n) + RemovedTxs(db, n, o) == Txs(Ancestors(db, n))
  }

  lemma TxsSplit(a: seq<Block>, b: seq<Block>)
    ensures Txs(a + b) == Txs(a) + Txs(b)
  {
    var c := a + b;
    forall tx ensures tx in Txs(c) <==> tx in Txs(a) + Txs(b) {
      if i, j :| 0 <= i < |c| && 0 <= j < |c[i].txs| && c[i].txs[j] == tx {
        if i < |a| {
          assert a[i].txs[j] == tx;
        } else {
          assert b[i - |a|].txs[j] == tx;
        }
      }
      if i, j :| 0 <= i < |a| && 0 <= j < |a[i].txs| && a[i].txs[j] == tx {
        assert c[i].txs[j] == tx;
      }
      if i, j :| 0 <= i < |b| && 0 <= j < |b[i].txs| && b[i].txs[j] == tx {
        assert c[|a| + i].txs[j] == tx;
      }
    }
  }

  /** The events balance exactly if no removed transaction also occurs from the common ancestor down. */
  lemma EventsBalance(db: Store, o: Block, n: Block)
    requires Complete(db) && In(db, o) && In(db, n)
    ensures Balanced(db, o, n) <==> RemovedTxs(db, o, n) !! Txs(Ancestors(db, Meeting(db, o, n)))
  {
    ChainSplits(db, o, n);
    ChainSplits(db, n, o);
    BranchesMirror(db, o, n);
    var common := Ancestors(db, Meeting(db, o, n));
    TxsSplit(OldBranch(db, o, n), common);
    TxsSplit(OldBranch(db, n, o), common);
    if x :| x in RemovedTxs(db, o, n) && x in Txs(common) {
      assert x in Txs(Ancestors(db, n)) && x !in Txs(Ancestors(db, o)) - RemovedTxs(db, o, n) + RemovedTxs(db, n, o);
    }
  }

  /** A transaction that is in two blocks of one chain is lost when only the upper one goes. */
  lemma RepeatedTxLost()
    ensures exists db, o, n :: Complete(db) && In(db, o) && In(db, n) && !Balanced(db, o, n)
  {
    var g, o, n := Block(1, 0, 0, [5]), Block(2, 1, 1, [5]), Block(3, 1, 1, []);
    var db: Store := map[(1, 0) := g, (2, 1) := o, (3, 1) := n];
    assert Complete(db) && Parent(db, o) == g && Parent(db, n) == g;
    assert OldBranch(db, g, g) == [] && Meeting(db, o, n) == Meeting(db, g, g) == g;
    assert OldBranch(db, o, n) == [o] && OldBranch(db, n, o) == [n];
    assert [o][0].txs[0] == 5 && Ancestors(db, g)[0].txs[0] == 5;
    assert 5 in RemovedTxs(db, o, n) && 5 in Txs(Ancestors(db, g));
    EventsBalance(db, o, n);
  }

  /** No transaction is in two blocks of the chain of `b`. */
  ghost predicate Once(db: Store, b: Block)
    requires Complete(db) && In(db, b)
  {
    var c := Ancestors(db, b);
    forall i, j, tx :: 0 <= i < j < |c| && tx in c[i].txs ==> tx !in c[j].txs
  }

  lemma OnceApart(db: Store, b: Block, i: nat, j: nat, tx: Tx)
    requires Complete(db) && In(db, b) && Once(db, b) && i < j < |Ancestors(db, b)|
    ensures tx in Ancestors(db, b)[i].txs ==> tx !in Ancestors(db, b)[j].txs
  {
  }

  lemma OnceBalances(db: Store, o: Block, n: Block)
    requires Complete(db) && In(db, o) && In(db, n) && Once(db, o)
    ensures Balanced(db, o, n)
  {
    EventsBalance(db, o, n);
    ChainSplits(db, o, n);
    var branch, common := OldBranch(db, o, n), Ancestors(db, Meeting(db, o, n));
    forall x | x in Txs(branch) ensures x !in Txs(common) {
      var i, j :| 0 <= i < |branch| && 0 <= j < |branch[i].txs| && branch[i].txs[j] == x;
      if k, l :| 0 <= k < |common| && 0 <= l < |common[k].txs| && common[k].txs[l] == x {
        OnceApart(db, o, i, |branch| + k, x);
        assert false;
      }
    }
  }

  /** What is removed is just what the new chain has no more, exactly if the events balance; so a
      transaction that the new branch has again is not reported, and none both ways. */
  lemma RemovedExactly(db: Store, o: Block, n: Block)
    requires Complete(db) && In(db, o) && In(db, n)
    ensures RemovedTxs(db, o, n) == Txs(Ancestors(db, o)) - Txs(Ancestors(db, n)) <==> Balanced(db, o, n)
    ensures Txs(Ancestors(db, o)) - Txs(Ancestors(db, n)) <= RemovedTxs(db, o, n) <= Txs(Ancestors(db, o))
    ensures RemovedTxs(db, o, n) !! RemovedTxs(db, n, o)
    ensures Once(db, o) ==> RemovedTxs(db, o, n) == Txs(Ancestors(db, o)) - Txs(Ancestors(db, n))
  {
    hide Txs, Ancestors, OldBranch, Balanced, Once;
    EventsBalance(db, o, n);
    ChainSplits(db, o, n);
    ChainSplits(db, n, o);
    BranchesMirror(db, o, n);
    var common := Ancestors(db, Meeting(db, o, n));
    TxsSplit(OldBranch(db, o, n), common);
    TxsSplit(OldBranch(db, n, o), common);
    if Once(db, o) {
      OnceBalances(db, o, n);
    }
    if RemovedTxs(db, o, n) == Txs(Ancestors(db, o)) - Txs(Ancestors(db, n)) {
      assert RemovedTxs(db, o, n) !! Txs(common);
    }
  }

  /** What a listener that follows the events has, after a run of new heads. */
  ghost function Followed(db: Store, start: Block, heads: seq<Block>): set<Tx>
    requires Complete(db) && In(db, start) && forall i :: 0 <= i < |heads| ==> In(db, heads[i])
  {
    if heads == [] then Txs(Ancestors(db, start))
    else
      var rest := heads[..|heads| - 1];
      var o, n := if rest == [] then start else rest[|rest| - 1], heads[|heads| - 1];
      Followed(db, start, rest) - RemovedTxs(db, o, n) + RemovedTxs(db, n, o)
  }

  /** Over any run of new heads, reorganizations of any depth included, the listener ends up with
      exactly the transactions of the chain of the last head. */
  lemma {:induction false} RunFollows(db: Store, start: Block, heads: seq<Block>)
    requires Complete(db) && In(db, start) && forall i :: 0 <= i < |heads| ==> In(db, heads[i])
    requires Once(db, start) && forall i :: 0 <= i < |heads| ==> Once(db, heads[i])
    ensures Followed(db, start, heads) == Txs(Ancestors(db, if heads == [] then start else heads[|heads| - 1]))
  {
    if heads != [] {
      var rest := heads[..|heads| - 1];
      RunFollows(db, start, rest);
      OnceBalances(db, if rest == [] then start else rest[|rest| - 1], heads[|heads| - 1]);
    }
  }

  // ---- The monitor ----

  /** The transactions of a list of blocks, each with a block that has it. */
  ghost predicate Records(m: map<Tx, TxInfo>, bs: seq<Block>) {
    && m.Keys == Txs(bs)
    && forall tx :: tx in m ==> m[tx].tx == tx && HasTx(bs, m[tx])
  }

  predicate HasTx(bs: seq<Block>, info: TxInfo) {
    exists i :: 0 <= i < |bs| && info.tx in bs[i].txs && info.blockHash == bs[i].hash
      && info.blockNumber == bs[i].number
  }

  predicate AscendingNumbers(bs: seq<Block>) {
    forall i, j :: 0 <= i < j < |bs| ==> bs[i].number < bs[j].number
  }

  /** What is emitted for one new head. */
  datatype Events = Events(removed: set<TxInfo>, rebirthed: set<TxInfo>, newHeads: seq<Block>)

  /** The events that a change of head from `o` to `n` calls for. */
  ghost predicate Calls(db: Store, o: Block, n: Block, e: Events)
    requires Complete(db) && In(db, o) && In(db, n)
  {
    && Infos(e.removed, RemovedTxs(db, o, n), OldBranch(db, o, n))
    && Infos(e.rebirthed, RemovedTxs(db, n, o), OldBranch(db, n, o))
    && AscendingNumbers(e.newHeads) && (forall b :: b in e.newHeads <==> b in OldBranch(db, n, o))
  }

  /** `infos` names each transaction of `txs` once, each with a block of `bs` that has it. */
  ghost predicate Infos(infos: set<TxInfo>, txs: set<Tx>, bs: seq<Block>) {
    && (forall tx :: tx in txs <==> exists info :: info in infos && info.tx == tx)
    && (forall info :: info in infos ==> HasTx(bs, info))
    && (forall a, b :: a in infos && b in infos && a.tx == b.tx ==> a == b)
  }

  /** How far the walk has got. */
  ghost predicate Standing(db: Store, o: Block, n: Block, oldBlock: Block, block: Block, dropped: seq<Block>,
      added: seq<Block>) {
    && Complete(db) && In(db, o) && In(db, n) && In(db, oldBlock) && In(db, block)
    && OldBranch(db, o, n) == dropped + OldBranch(db, oldBlock, block)
    && OldBranch(db, n, o) == added + OldBranch(db, block, oldBlock)
  }

  lemma OldDown(db: Store, o: Block, n: Block, oldBlock: Block, block: Block, dropped: seq<Block>, added: seq<Block>,
      good: bool)
    requires good ==> Standing(db, o, n, oldBlock, block, dropped, added)
    requires oldBlock.number > block.number && (oldBlock.parentHash, oldBlock.number - 1) in db
    ensures good ==> Standing(db, o, n, db[(oldBlock.parentHash, oldBlock.number - 1)], block, dropped + [oldBlock],
      added)
    ensures good ==> Standing(db, n, o, block, db[(oldBlock.parentHash, oldBlock.number - 1)], added,
      dropped + [oldBlock])
  {
    if good {
      ParentIn(db, oldBlock);
      var p := Parent(db, oldBlock);
      Regroup(dropped, oldBlock, OldBranch(db, p, block));
    }
  }

  lemma BothDown(db: Store, o: Block, n: Block, oldBlock: Block, block: Block, dropped: seq<Block>, added: seq<Block>,
      good: bool)
    requires good ==> Standing(db, o, n, oldBlock, block, dropped, added) && oldBlock.number == block.number
    requires oldBlock.hash != block.hash && oldBlock.number > 0 && block.number > 0
    requires (oldBlock.parentHash, oldBlock.number - 1) in db && (block.parentHash, block.number - 1) in db
    ensures good ==> Standing(db, o, n, db[(oldBlock.parentHash, oldBlock.number - 1)],
      db[(block.parentHash, block.number - 1)],
                              dropped + [oldBlock], added + [block])
    ensures good ==>
      db[(oldBlock.parentHash, oldBlock.number - 1)].number == db[(block.parentHash, block.number - 1)].number
  {
    if good {
      ParentIn(db, oldBlock);
      ParentIn(db, block);
      var p, q := Parent(db, oldBlock), Parent(db, block);
      Regroup(dropped, oldBlock, OldBranch(db, p, q));
      Regroup(added, block, OldBranch(db, q, p));
    }
  }

  lemma Regroup(a: seq<Block>, b: Block, c: seq<Block>)
    ensures a + ([b] + c) == (a + [b]) + c
  {
  }

  /** With both chains complete, no block is missing. */
  lemma StandingStays(db: Store, o: Block, n: Block, oldBlock: Block, block: Block, dropped: seq<Block>,
      added: seq<Block>, good: bool)
    requires good ==>
      Standing(db, o, n, oldBlock, block, dropped, added) || Standing(db, n, o, block, oldBlock, added, dropped)
    requires oldBlock.number > 0
    ensures good ==> (oldBlock.parentHash, oldBlock.number - 1) in db
    ensures good ==> db[(oldBlock.parentHash, oldBlock.number - 1)].number < oldBlock.number
  {
    if good {
      ParentIn(db, oldBlock);
    }
  }

  lemma StandingEnd(db: Store, o: Block, n: Block, oldBlock: Block, block: Block, dropped: seq<Block>,
      added: seq<Block>, good: bool)
    requires good ==> Standing(db, o, n, oldBlock, block, dropped, added) && oldBlock.number == block.number
    requires oldBlock.hash == block.hash || oldBlock.number == 0 || block.number == 0
    ensures good ==> oldBlock.hash == block.hash && dropped == OldBranch(db, o, n) && added == OldBranch(db, n, o)
  {
    if good {
      assert OldBranch(db, oldBlock, block) == [] && OldBranch(db, block, oldBlock) == [];
      assert dropped + [] == dropped && added + [] == added;
    }
  }

  lemma Insert(sorted: seq<Block>, p: nat, b: Block, distinct: bool)
    requires p <= |sorted| && (distinct ==> AscendingNumbers(sorted))
    requires (distinct ==> forall c :: c in sorted ==> c.number != b.number)
    requires forall k :: 0 <= k < p ==> sorted[k].number <= b.number
    requires p < |sorted| ==> b.number < sorted[p].number
    ensures forall c :: c in sorted[..p] + [b] + sorted[p..] <==> c == b || c in sorted
    ensures distinct ==> AscendingNumbers(sorted[..p] + [b] + sorted[p..])
  {
    assert sorted == sorted[..p] + sorted[p..];
    if distinct {
      forall i: nat, j: nat | i < j <= |sorted|
        ensures (sorted[..p] + [b] + sorted[p..])[i].number < (sorted[..p] + [b] + sorted[p..])[j].number
      {
        InsertedAt(sorted, p, b, i);
        InsertedAt(sorted, p, b, j);
        assert forall k :: 0 <= k < |sorted| ==> sorted[k] in sorted;
        if p < |sorted| && p < j {
          assert sorted[p].number <= sorted[j - 1].number;
        }
      }
    }
  }

  lemma InsertedAt(sorted: seq<Block>, p: nat, b: Block, k: nat)
    requires p <= |sorted| && k <= |sorted|
    ensures (sorted[..p] + [b] + sorted[p..])[k] == if k < p then sorted[k] else if k == p then b else sorted[k - 1]
  {
  }

  class BlockchainMonitor {
    var currentHeader: Block

    constructor (header: Block)
      ensures currentHeader == header
    {
      currentHeader := header;
    }

    method Record(m: map<Tx, TxInfo>, b: Block, ghost bs: seq<Block>) returns (m': map<Tx, TxInfo>)
      requires Records(m, bs)
      ensures Records(m', bs + [b])
    {
      m' := m;
      ghost var more := bs + [b];
      assert more[|bs|] == b;
      forall tx | tx in m ensures HasTx(more, m[tx]) {
        var i :| 0 <= i < |bs| && m[tx].tx in bs[i].txs && m[tx].blockHash == bs[i].hash
          && m[tx].blockNumber == bs[i].number;
        assert more[i] == bs[i];
      }
      for i := 0 to |b.txs|
        invariant m'.Keys == Txs(bs) + set j | 0 <= j < i :: b.txs[j]
        invariant forall tx :: tx in m' ==> m'[tx].tx == tx && HasTx(more, m'[tx])
      {
        m' := m'[b.txs[i] := TxInfo(b.txs[i], b.hash, b.number)];
      }
      TxsSplit(bs, [b]);
      forall tx ensures tx in Txs([b]) <==> tx in set j | 0 <= j < |b.txs| :: b.txs[j] {
        if j :| 0 <= j < |b.txs| && b.txs[j] == tx {
          assert [b][0].txs[j] == tx;
        }
      }
    }

    /** Walks down both chains to their common ancestor, and records what is passed on the way. */
    method Compare(db: Store, newBlock: Block)
      returns (ok: bool, discarded: map<Tx, TxInfo>, included: map<Tx, TxInfo>, newHeads: seq<Block>,
        ghost dropped: seq<Block>)
      ensures ok ==> Records(discarded, dropped) && Records(included, newHeads)
      ensures Complete(db) && In(db, currentHeader) && In(db, newBlock) ==>
        ok && dropped == OldBranch(db, currentHeader, newBlock) && newHeads == OldBranch(db, newBlock, currentHeader)
    {
      discarded, included, newHeads, dropped := map[], map[], [], [];
      ghost var good := Complete(db) && In(db, currentHeader) && In(db, newBlock);
      var block := newBlock;
      if (currentHeader.hash, currentHeader.number) !in db {
        return false, discarded, included, newHeads, dropped;
      }
      var oldBlock := db[(currentHeader.hash, currentHeader.number)];
      while oldBlock.number > block.number
        invariant Records(discarded, dropped) && Records(included, newHeads)
        invariant good ==> Standing(db, currentHeader, newBlock, oldBlock, block, dropped, newHeads)
        decreases oldBlock.number
      {
        discarded := Record(discarded, oldBlock, dropped);
        if (oldBlock.parentHash, oldBlock.number - 1) !in db
          || db[(oldBlock.parentHash, oldBlock.number - 1)].number >= oldBlock.number {
          StandingStays(db, currentHeader, newBlock, oldBlock, block, dropped, newHeads, good);
          return false, discarded, included, newHeads, dropped;
        }
        OldDown(db, currentHeader, newBlock, oldBlock, block, dropped, newHeads, good);
        dropped := dropped + [oldBlock];
        oldBlock := db[(oldBlock.parentHash, oldBlock.number - 1)];
      }
      while block.number > oldBlock.number
        invariant Records(discarded, dropped) && Records(included, newHeads)
        invariant good ==> Standing(db, currentHeader, newBlock, oldBlock, block, dropped, newHeads)
        invariant good ==> oldBlock.number <= block.number
        decreases block.number
      {
        included := Record(included, block, newHeads);
        if (block.parentHash, block.number - 1) !in db
          || db[(block.parentHash, block.number - 1)].number >= block.number {
          StandingStays(db, newBlock, currentHeader, block, oldBlock, newHeads, dropped, good);
          return false, discarded, included, newHeads, dropped;
        }
        OldDown(db, newBlock, currentHeader, block, oldBlock, newHeads, dropped, good);
        newHeads := newHeads + [block];
        block := db[(block.parentHash, block.number - 1)];
      }
      while oldBlock.hash != block.hash && oldBlock.number > 0 && block.number > 0
        invariant Records(discarded, dropped) && Records(included, newHeads)
        invariant good ==> Standing(db, currentHeader, newBlock, oldBlock, block, dropped, newHeads)
        invariant good ==> oldBlock.number == block.number
        decreases block.number
      {
        if (oldBlock.parentHash, oldBlock.number - 1) !in db
          || db[(oldBlock.parentHash, oldBlock.number - 1)].number >= oldBlock.number
          || (block.parentHash, block.number - 1) !in db
          || db[(block.parentHash, block.number - 1)].number >= block.number {
          StandingStays(db, currentHeader, newBlock, oldBlock, block, dropped, newHeads, good);
          StandingStays(db, newBlock, currentHeader, block, oldBlock, newHeads, dropped, good);
          return false, discarded, included, newHeads, dropped;
        }
        discarded := Record(discarded, oldBlock, dropped);
        included := Record(included, block, newHeads);
        BothDown(db, currentHeader, newBlock, oldBlock, block, dropped, newHeads, good);
        dropped, newHeads := dropped + [oldBlock], newHeads + [block];
        oldBlock := db[(oldBlock.parentHash, oldBlock.number - 1)];
        block := db[(block.parentHash, block.number - 1)];
      }
      StandingEnd(db, currentHeader, newBlock, oldBlock, block, dropped, newHeads, good);
      ok := oldBlock.hash == block.hash;
    }

    /** What one side has and the other has not. */
    method Missing(these: map<Tx, TxInfo>, those: map<Tx, TxInfo>, ghost bs: seq<Block>, ghost cs: seq<Block>)
        returns (infos: set<TxInfo>)
      requires Records(these, bs) && Records(those, cs)
      ensures Infos(infos, Txs(bs) - Txs(cs), bs)
    {
      infos := {};
      var todo := these.Keys;
      while todo != {}
        invariant todo <= these.Keys
        invariant infos == set tx | tx in these && tx !in todo && tx !in those :: these[tx]
        decreases todo
      {
        var tx :| tx in todo;
        if tx !in those {
          infos := infos + {these[tx]};
        }
        todo := todo - {tx};
      }
      forall tx | tx in Txs(bs) - Txs(cs) ensures exists info :: info in infos && info.tx == tx {
        assert these[tx] in infos;
      }
    }

    method SortByNumber(heads: seq<Block>) returns (sorted: seq<Block>)
      ensures forall b :: b in sorted <==> b in heads
      ensures (forall i, j :: 0 <= i < j < |heads| ==> heads[i].number != heads[j].number) ==> AscendingNumbers(sorted)
    {
      sorted := [];
      ghost var distinct := forall i, j :: 0 <= i < j < |heads| ==> heads[i].number != heads[j].number;
      for i := 0 to |heads|
        invariant forall b :: b in sorted <==> b in heads[..i]
        invariant distinct ==> AscendingNumbers(sorted)
      {
        var p := 0;
        while p < |sorted| && sorted[p].number <= heads[i].number
          invariant p <= |sorted| && forall k :: 0 <= k < p ==> sorted[k].number <= heads[i].number
        {
          p := p + 1;
        }
        assert distinct ==> forall b :: b in sorted ==> b.number != heads[i].number;
        Insert(sorted, p, heads[i], distinct);
        assert heads[..i + 1] == heads[..i] + [heads[i]];
        sorted := sorted[..p] + [heads[i]] + sorted[p..];
      }
      assert heads[..|heads|] == heads;
    }

    /** Compares the new head with the current one. Returns false for an exception, which the client only
        logs: a block of either chain is missing, or the chains do not meet. */
    method NewBlock(db: Store, newBlock: Block, force: bool) returns (ok: bool, e: Events)
      modifies this
      ensures !force && Complete(db) && In(db, old(currentHeader)) && In(db, newBlock) ==>
        ok && Calls(db, old(currentHeader), newBlock, e)
      ensures force ==> ok && e == Events({}, {}, [])
      ensures currentHeader == if ok then newBlock else old(currentHeader)
    {
      e := Events({}, {}, []);
      if !force {
        var discarded, included, newHeads;
        ghost var dropped;
        ok, discarded, included, newHeads, dropped := Compare(db, newBlock);
        if !ok {
          return;
        }
        var removed := Missing(discarded, included, dropped, newHeads);
        var rebirthed := Missing(included, discarded, newHeads, dropped);
        var sorted := SortByNumber(newHeads);
        e := Events(removed, rebirthed, sorted);
        if Complete(db) && In(db, currentHeader) && In(db, newBlock) {
          BranchNumbers(db, newBlock, currentHeader);
        }
      }
      ok := true;
      currentHeader := newBlock;
    }
  }
}
