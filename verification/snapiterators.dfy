/** Iterating over the snapshot at some root: the merged iterator delivers exactly the view. */
module SnapIterators {
  import opened Orders
  import opened SnapViews
  import opened SnapLayers
  import opened FastIterators

  // ---- What the iterators of single layers hold ----

  function AccountValue(l: Changes, h: Hash): Value {
    if h in l.accounts then Account(l.accounts[h]) else Null
  }

  ghost predicate ListsAccounts(c: Cursor, l: Changes, seek: Hash, depth: nat) {
    && !c.started && c.Sorted() && c.priority == depth
    && forall e :: e in c.list <==>
      seek <= e.hash && (e.hash in l.accounts || e.hash in l.destructs) && e.value == AccountValue(l, e.hash)
  }

  function SlotValue(slots: map<Hash, Bytes>, s: Hash): Value {
    if s in slots then Slot(slots[s]) else Null
  }

  lemma ListedAccounts(c: Cursor, l: Changes, seek: Hash, depth: nat)
    requires !c.started && c.Sorted() && c.priority == depth
    requires forall e :: e in c.list <==>
      seek <= e.hash && e.hash in l.accounts.Keys + l.destructs && e.value == AccountValue(l, e.hash)
    ensures ListsAccounts(c, l, seek, depth)
  {
  }

  lemma ListedSlots(c: Cursor, slots: map<Hash, Bytes>, seek: Hash, depth: nat)
    requires !c.started && c.Sorted() && c.priority == depth
    requires forall e :: e in c.list <==> seek <= e.hash && e.hash in slots.Keys && e.value == SlotValue(slots, e.hash)
    ensures ListsSlots(c, slots, seek, depth)
  {
  }

  ghost predicate ListsSlots(c: Cursor, slots: map<Hash, Bytes>, seek: Hash, depth: nat) {
    && !c.started && c.Sorted() && c.priority == depth
    && forall e :: e in c.list <==> seek <= e.hash && e.hash in slots && e.value == Slot(slots[e.hash])
  }

  /** The disk layer as a layer of its own. */
  function DiskAccounts(disk: Stored): Changes {
    Changes({}, disk.accounts, map[])
  }

  function DiskSlots(disk: Stored, a: Hash): map<Hash, Bytes> {
    map k | k in disk.slots && k.0 == a :: k.1 := disk.slots[k]
  }

  ghost predicate AccountCursors(cs: seq<Cursor>, chain: seq<Changes>, disk: Stored, seek: Hash) {
    && |cs| == |chain| + 1
    && (forall i :: 0 <= i < |chain| ==> ListsAccounts(cs[i], chain[i], seek, i))
    && ListsAccounts(cs[|chain|], DiskAccounts(disk), seek, |chain|)
  }

  /** The layers down to the first that destructs `a`, and the disk if there is none. */
  ghost predicate SlotCursors(cs: seq<Cursor>, chain: seq<Changes>, disk: Stored, a: Hash, seek: Hash) {
    && 0 < |cs| <= |chain| + 1
    && (forall i :: 0 <= i < |cs| - 1 ==> a !in chain[i].destructs)
    && (|cs| <= |chain| ==> a in chain[|cs| - 1].destructs)
    && (forall i :: 0 <= i < |cs| && i < |chain| ==> ListsSlots(cs[i], Slots(chain[i].storage, a), seek, i))
    && (|cs| == |chain| + 1 ==> ListsSlots(cs[|chain|], DiskSlots(disk, a), seek, |chain|))
  }

  // ---- The merge is the view ----

  predicate ByDepth(cs: seq<Cursor>) {
    forall i :: 0 <= i < |cs| ==> cs[i].priority == i
  }

  lemma ContainsEntry(c: Cursor, h: Hash)
    ensures c.Contains(h) <==> exists e :: e in c.list && e.hash == h
  {
    if c.Contains(h) {
      var i :| 0 <= i < |c.list| && c.list[i].hash == h;
      assert c.list[i] in c.list;
    }
  }

  /** The first iterator that has a hash decides. */
  lemma FirstDecides(cs: seq<Cursor>, k: nat, e: Entry)
    requires ByDepth(cs) && k < |cs| && cs[k].Contains(e.hash) && forall i :: 0 <= i < k ==> !cs[i].Contains(e.hash)
    ensures Wins(cs, e) <==> e in cs[k].list
  {
    if c :| WinsAt(cs, e, c) {
      var n :| 0 <= n < |cs| && cs[n] == c;
      ContainsEntry(c, e.hash);
      assert cs[k] in cs;
    }
    if e in cs[k].list {
      forall d | d in cs && d.Contains(e.hash) ensures k <= d.priority {
        var n :| 0 <= n < |cs| && cs[n] == d;
      }
      assert WinsAt(cs, e, cs[k]);
    }
  }

  lemma NobodyWins(cs: seq<Cursor>, e: Entry)
    requires forall i :: 0 <= i < |cs| ==> !cs[i].Contains(e.hash)
    ensures !Wins(cs, e)
  {
    if c :| WinsAt(cs, e, c) {
      ContainsEntry(c, e.hash);
      assert false;
    }
  }

  lemma {:induction false} AccountWins(cs: seq<Cursor>, chain: seq<Changes>, disk: Stored, seek: Hash, h: Hash,
      v: Bytes, k: nat)
    requires AccountCursors(cs, chain, disk, seek) && ByDepth(cs) && seek <= h && k <= |chain|
    requires forall i :: 0 <= i < k ==> !cs[i].Contains(h)
    ensures Wins(cs, Entry(h, Account(v))) <==> AccountAt(chain[k..], disk, h) == Some(v)
    decreases |chain| - k
  {
    var e := Entry(h, Account(v));
    var l := if k < |chain| then chain[k] else DiskAccounts(disk);
    assert ListsAccounts(cs[k], l, seek, k);
    ContainsEntry(cs[k], h);
    assert Entry(h, AccountValue(l, h)) in cs[k].list <==> h in l.accounts || h in l.destructs;
    if cs[k].Contains(h) {
      FirstDecides(cs, k, e);
    } else if k < |chain| {
      AccountWins(cs, chain, disk, seek, h, v, k + 1);
    } else {
      NobodyWins(cs, e);
    }
  }

  lemma {:induction false} SlotWins(cs: seq<Cursor>, chain: seq<Changes>, disk: Stored, a: Hash, seek: Hash, s: Hash,
      v: Bytes, k: nat)
    requires SlotCursors(cs, chain, disk, a, seek) && ByDepth(cs) && seek <= s && k < |cs| && v != []
    requires forall i :: 0 <= i < k ==> !cs[i].Contains(s)
    ensures Wins(cs, Entry(s, Slot(v))) <==> SlotAt(chain[k..], disk, a, s) == Some(v)
    decreases |chain| - k
  {
    var e := Entry(s, Slot(v));
    var slots := if k < |chain| then Slots(chain[k].storage, a) else DiskSlots(disk, a);
    assert ListsSlots(cs[k], slots, seek, k);
    ContainsEntry(cs[k], s);
    if s in slots {
      assert Entry(s, Slot(slots[s])) in cs[k].list;
      FirstDecides(cs, k, e);
    } else if k < |cs| - 1 {
      SlotWins(cs, chain, disk, a, seek, s, v, k + 1);
    } else {
      NobodyWins(cs, e);
    }
  }

  // ---- Building the iterators ----

  /** The sorted hashes of `keys` from `seek` on, each with its value. */
  method ListOf(keys: set<Hash>, seek: Hash, value: Hash -> Value, depth: nat) returns (c: Cursor)
    ensures !c.started && c.Sorted() && c.priority == depth
    ensures forall e :: e in c.list <==> seek <= e.hash && e.hash in keys && e.value == value(e.hash)
  {
    var hashes := Sort(set h | h in keys && seek <= h);
    var list := seq(|hashes|, i requires 0 <= i < |hashes| => Entry(hashes[i], value(hashes[i])));
    c := Cursor(list, false, depth);
    forall e ensures e in list <==> seek <= e.hash && e.hash in keys && e.value == value(e.hash) {
      if e in list {
        var i :| 0 <= i < |list| && list[i] == e;
        assert hashes[i] in hashes;
      }
      if seek <= e.hash && e.hash in keys && e.value == value(e.hash) {
        assert e.hash in hashes;
        var i :| 0 <= i < |hashes| && hashes[i] == e.hash;
        assert list[i] == e;
      }
    }
  }

  /** All accounts from `seek` on, as seen from layer `snap`. */
  method AccountIterator(snap: Snapshot, seek: Hash, ghost path: seq<DiffLayer>, ghost disk: DiskLayer)
      returns (out: seq<Entry>)
    requires Linked(path, disk) && snap == if path == [] then Disk(disk) else Diff(path[0])
    ensures AscendingEntries(out)
    ensures forall h, x :: Entry(h, x) in out <==>
      x.Account? && seek <= h && AccountAt(Chain(path), disk.db.Contents(), h) == Some(x.data)
  {
    var cs := AllAccounts(snap, seek, path, disk);
    ghost var chain, stored := Chain(path), disk.db.Contents();
    AccountCursorsShape(cs, chain, stored, seek);
    var iter := new FastSnapIterator(cs);
    out := iter.Entries();
    AccountsAreView(cs, out, chain, stored, seek);
  }

  lemma AccountsAreView(cs: seq<Cursor>, out: seq<Entry>, chain: seq<Changes>, disk: Stored, seek: Hash)
    requires AccountCursors(cs, chain, disk, seek) && ByDepth(cs)
    requires forall e :: e in out <==> Wins(cs, e) && Visible(e.value)
    ensures forall h, x :: Entry(h, x) in out <==> x.Account? && seek <= h && AccountAt(chain, disk, h) == Some(x.data)
  {
    assert chain[0..] == chain;
    forall h, x ensures Entry(h, x) in out <==> x.Account? && seek <= h && AccountAt(chain, disk, h) == Some(x.data) {
      var e := Entry(h, x);
      if x.Account? && seek <= h {
        AccountWins(cs, chain, disk, seek, h, x.data, 0);
      } else if c :| WinsAt(cs, e, c) {
        var n :| 0 <= n < |cs| && cs[n] == c;
        assert ListsAccounts(c, if n < |chain| then chain[n] else DiskAccounts(disk), seek, n);
      }
    }
  }

  method AllAccounts(snap: Snapshot, seek: Hash, ghost path: seq<DiffLayer>, ghost disk: DiskLayer)
      returns (cs: seq<Cursor>)
    requires Linked(path, disk) && snap == if path == [] then Disk(disk) else Diff(path[0])
    ensures AccountCursors(cs, Chain(path), disk.db.Contents(), seek)
  {
    hide ListsAccounts, AccountValue;
    ghost var chain := Chain(path);
    cs := [];
    var next := snap;
    while next.Diff?
      invariant |cs| <= |path| && next == if |cs| < |path| then Diff(path[|cs|]) else Disk(disk)
      invariant forall i :: 0 <= i < |cs| ==> ListsAccounts(cs[i], chain[i], seek, i)
      decreases |path| - |cs|
    {
      var layer := next.diff;
      assert chain[|cs|] == Changes(layer.destructSet, layer.accountData, layer.storageData);
      var c := AccountsOf(Changes(layer.destructSet, layer.accountData, layer.storageData), seek, |cs|);
      assert layer.parent == Next(path, disk, |cs|);
      next := layer.parent;
      cs := cs + [c];
    }
    var c := AccountsOf(Changes({}, next.disk.db.accounts, map[]), seek, |cs|);
    cs := cs + [c];
  }

  method AccountsOf(l: Changes, seek: Hash, depth: nat) returns (c: Cursor)
    ensures ListsAccounts(c, l, seek, depth) && c.priority == depth && !c.started && c.Sorted()
  {
    c := ListOf(l.accounts.Keys + l.destructs, seek, (h: Hash) => AccountValue(l, h), depth);
    ListedAccounts(c, l, seek, depth);
  }

  method SlotsOf(slots: map<Hash, Bytes>, seek: Hash, depth: nat) returns (c: Cursor)
    ensures ListsSlots(c, slots, seek, depth) && c.priority == depth && !c.started && c.Sorted()
  {
    c := ListOf(slots.Keys, seek, (s: Hash) => SlotValue(slots, s), depth);
    ListedSlots(c, slots, seek, depth);
  }

  /** All slots of account `a` from `seek` on, as seen from layer `snap`. */
  method StorageIterator(snap: Snapshot, a: Hash, seek: Hash, ghost path: seq<DiffLayer>, ghost disk: DiskLayer)
      returns (out: seq<Entry>)
    requires Linked(path, disk) && snap == if path == [] then Disk(disk) else Diff(path[0])
    ensures AscendingEntries(out)
    ensures forall s, x :: Entry(s, x) in out <==>
      x.Slot? && seek <= s && SlotAt(Chain(path), disk.db.Contents(), a, s) == Some(x.data)
  {
    var cs := AllSlots(snap, a, seek, path, disk);
    ghost var chain, stored := Chain(path), disk.db.Contents();
    SlotCursorsShape(cs, chain, stored, a, seek);
    var iter := new FastSnapIterator(cs);
    out := iter.Entries();
    SlotsAreView(cs, out, chain, stored, a, seek);
  }

  lemma SlotsAreView(cs: seq<Cursor>, out: seq<Entry>, chain: seq<Changes>, disk: Stored, a: Hash, seek: Hash)
    requires SlotCursors(cs, chain, disk, a, seek) && ByDepth(cs)
    requires forall e :: e in out <==> Wins(cs, e) && Visible(e.value)
    ensures forall s, x :: Entry(s, x) in out <==> x.Slot? && seek <= s && SlotAt(chain, disk, a, s) == Some(x.data)
  {
    assert chain[0..] == chain;
    forall s, x ensures Entry(s, x) in out <==> x.Slot? && seek <= s && SlotAt(chain, disk, a, s) == Some(x.data) {
      var e := Entry(s, x);
      if x.Slot? && seek <= s && x.data != [] {
        SlotWins(cs, chain, disk, a, seek, s, x.data, 0);
      } else if x.Slot? && x.data == [] {
        NeverEmpty(chain, disk, a, s);
      }
    }
  }

  lemma {:induction false} NeverEmpty(chain: seq<Changes>, disk: Stored, a: Hash, s: Hash)
    ensures SlotAt(chain, disk, a, s) != Some([])
  {
    if chain != [] {
      NeverEmpty(chain[1..], disk, a, s);
    }
  }

  method AllSlots(snap: Snapshot, a: Hash, seek: Hash, ghost path: seq<DiffLayer>, ghost disk: DiskLayer)
      returns (cs: seq<Cursor>)
    requires Linked(path, disk) && snap == if path == [] then Disk(disk) else Diff(path[0])
    ensures SlotCursors(cs, Chain(path), disk.db.Contents(), a, seek)
  {
    hide ListsSlots, SlotCursors, DiskSlots, Slots;
    cs := [];
    var next := snap;
    while next.Diff?
      invariant |cs| <= |path| && next == if |cs| < |path| then Diff(path[|cs|]) else Disk(disk)
      invariant forall i :: 0 <= i < |cs| ==> a !in path[i].destructSet
      invariant forall i :: 0 <= i < |cs| ==> ListsSlots(cs[i], Slots(path[i].storageData, a), seek, i)
      decreases |path| - |cs|
    {
      var layer := next.diff;
      var c := SlotsOf(Slots(layer.storageData, a), seek, |cs|);
      assert layer.parent == Next(path, disk, |cs|);
      next := layer.parent;
      cs := cs + [c];
      if a in layer.destructSet {
        Listed(cs, path, disk, a, seek);
        return;
      }
    }
    var c := SlotsOf(DiskSlots(Stored(map[], next.disk.db.slots), a), seek, |cs|);
    SameDiskSlots(Stored(map[], next.disk.db.slots), next.disk.db.Contents(), a);
    cs := cs + [c];
    Listed(cs, path, disk, a, seek);
  }

  lemma SameDiskSlots(d: Stored, d': Stored, a: Hash)
    requires d.slots == d'.slots
    ensures DiskSlots(d, a) == DiskSlots(d', a)
  {
  }

  lemma Listed(cs: seq<Cursor>, path: seq<DiffLayer>, disk: DiskLayer, a: Hash, seek: Hash)
    requires 0 < |cs| <= |path| + 1
    requires forall i :: 0 <= i < |cs| - 1 ==> a !in path[i].destructSet
    requires |cs| <= |path| ==> a in path[|cs| - 1].destructSet
    requires forall i :: 0 <= i < |cs| && i < |path| ==> ListsSlots(cs[i], Slots(path[i].storageData, a), seek, i)
    requires |cs| == |path| + 1 ==> ListsSlots(cs[|path|], DiskSlots(disk.db.Contents(), a), seek, |path|)
    ensures SlotCursors(cs, Chain(path), disk.db.Contents(), a, seek)
  {
    hide ListsSlots, DiskSlots;
  }

  lemma SlotCursorsShape(cs: seq<Cursor>, chain: seq<Changes>, disk: Stored, a: Hash, seek: Hash)
    requires SlotCursors(cs, chain, disk, a, seek)
    ensures ByDepth(cs) && FastIterators.Fresh(cs)
  {
  }

  lemma AccountCursorsShape(cs: seq<Cursor>, chain: seq<Changes>, disk: Stored, seek: Hash)
    requires AccountCursors(cs, chain, disk, seek)
    ensures ByDepth(cs) && FastIterators.Fresh(cs)
  {
    forall i | 0 <= i < |cs| ensures cs[i].priority == i && !cs[i].started && cs[i].Sorted() {
      assert ListsAccounts(cs[i], if i < |chain| then chain[i] else DiskAccounts(disk), seek, i);
    }
  }
}
