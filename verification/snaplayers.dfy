/** The layers of the snapshot as objects: diff layers linked by parent pointers, over one disk
layer that reads a database. `snapview.dfy` says what a stack of layers means. */
module SnapLayers {
  import opened SnapViews

  /** The database, as far as snapshots are kept in it. */
  class Database {
    var accounts: map<Hash, Bytes>
    var slots: map<(Hash, Hash), Bytes>

    ghost function Contents(): Stored
      reads this
    {
      Stored(accounts, slots)
    }
  }

  class DiskLayer {
    const db: Database
    const root: Hash
    var stale: bool

    constructor (db: Database, root: Hash)
      ensures this.db == db && this.root == root && !stale
    {
      this.db, this.root, stale := db, root, false;
    }

    method GetSerializedAccount(a: Hash) returns (r: Answer)
      ensures r == if stale then Stale else Found(AccountAt([], db.Contents(), a))
    {
      if stale {
        return Stale;
      }
      r := Found(Lookup(db.accounts, a));
    }

    method GetStorage(a: Hash, s: Hash) returns (r: Answer)
      ensures r == if stale then Stale else Found(SlotAt([], db.Contents(), a, s))
    {
      if stale {
        return Stale;
      }
      r := Found(if (a, s) in db.slots then Present(db.slots[(a, s)]) else None);
    }
  }

  /** What a read returns; reading from a stale layer is an exception. */
  datatype Answer = Found(value: Option<Bytes>) | Stale

  datatype Snapshot = Disk(disk: DiskLayer) | Diff(diff: DiffLayer)

  /** The positions that `k` sets in a bloom filter, for each key. */
  type Locator = Key -> set<nat>

  function BloomBits(locate: Locator, l: Changes): set<nat> {
    (set a, b | a in l.destructs && b in locate(AccountKey(a)) :: b)
    + (set a, b | a in l.accounts && b in locate(AccountKey(a)) :: b)
    + (set a, s, b | a in l.storage && s in l.storage[a] && b in locate(SlotKey(a, s)) :: b)
  }

  ghost predicate Covers(locate: Locator, bloom: set<nat>, l: Changes) {
    forall k :: Touches(l, k) ==> locate(k) <= bloom
  }

  lemma BloomBitsCover(locate: Locator, bloom: set<nat>, l: Changes)
    requires BloomBits(locate, l) <= bloom
    ensures Covers(locate, bloom, l)
  {
    forall k, b | Touches(l, k) && b in locate(k) ensures b in BloomBits(locate, l) {
      match k
      case AccountKey(a) =>
      case SlotKey(a, s) =>
    }
  }

  class DiffLayer {
    const root: Hash
    const memory: nat
    const locate: Locator
    var diffed: set<nat>
    var origin: DiskLayer
    var parent: Snapshot
    var destructSet: set<Hash>
    var accountData: map<Hash, Bytes>
    var storageData: map<Hash, map<Hash, Bytes>>
    var stale: bool

    constructor (parent: Snapshot, root: Hash, changes: Changes, diffed: set<nat>, memory: nat, locate: Locator)
      ensures this.parent == parent && this.root == root && this.memory == memory && this.locate == locate && !stale
      ensures origin == (if parent.Disk? then parent.disk else parent.diff.origin)
      ensures Contents() == changes && this.diffed == diffed + BloomBits(locate, changes)
    {
      this.parent, this.root, this.memory, this.locate := parent, root, memory, locate;
      origin := if parent.Disk? then parent.disk else parent.diff.origin;
      destructSet, accountData, storageData := changes.destructs, changes.accounts, changes.storage;
      stale := false;
      this.diffed := diffed + BloomBits(locate, changes);
    }

    ghost function Contents(): Changes
      reads this`destructSet, this`accountData, this`storageData
    {
      Changes(destructSet, accountData, storageData)
    }

    method Rebloom()
      modifies this`diffed
      ensures diffed == old(diffed) + BloomBits(locate, Contents())
    {
      diffed := diffed + BloomBits(locate, Changes(destructSet, accountData, storageData));
    }

    /** The bloom starts over from that of the parent. */
    method ResetOrigin(newOrigin: DiskLayer)
      requires parent.Diff? ==> parent.diff != this
      modifies this`origin, this`diffed
      ensures origin == newOrigin
      ensures diffed == (if parent.Diff? then parent.diff.diffed else {}) + BloomBits(locate, Contents())
    {
      origin := newOrigin;
      if parent.Diff? {
        diffed := parent.diff.diffed;
      } else {
        diffed := {};
      }
      Rebloom();
    }

    // ---- Reading ----

    /** A stale layer fails only if its bloom has the key; if not, its origin answers. */
    method GetSerializedAccount(a: Hash, ghost path: seq<DiffLayer>, ghost disk: DiskLayer) returns (r: Answer)
      requires path != [] && path[0] == this && Linked(path, disk) && Covered(path) && Origins(path, disk)
      ensures Live(path, disk) ==> r == Found(AccountAt(Chain(path), disk.db.Contents(), a))
      ensures stale ==>
        r == if locate(AccountKey(a)) <= diffed || origin.stale then Stale
          else Found(AccountAt([], origin.db.Contents(), a))
    {
      if locate(AccountKey(a)) <= diffed {
        r := GetSerializedAccountHere(a, path, disk);
      } else {
        forall i | 0 <= i < |path| ensures !Touches(Chain(path)[i], AccountKey(a)) {
          assert Covers(path[0].locate, path[0].diffed, path[i].Contents());
        }
        UntouchedIsOnDisk(Chain(path), disk.db.Contents(), AccountKey(a));
        r := origin.GetSerializedAccount(a);
      }
    }

    method GetSerializedAccountHere(a: Hash, ghost path: seq<DiffLayer>, ghost disk: DiskLayer) returns (r: Answer)
      requires path != [] && path[0] == this && Linked(path, disk)
      ensures stale ==> r == Stale
      ensures Live(path, disk) ==> r == Found(AccountAt(Chain(path), disk.db.Contents(), a))
      decreases |path|
    {
      if stale {
        return Stale;
      }
      if a in accountData {
        return Found(Some(accountData[a]));
      }
      if a in destructSet {
        return Found(None);
      }
      Below(path, disk);
      match parent
      case Diff(diff) =>
        r := diff.GetSerializedAccountHere(a, path[1..], disk);
      case Disk(base) =>
        r := base.GetSerializedAccount(a);
    }

    method GetStorage(a: Hash, s: Hash, ghost path: seq<DiffLayer>, ghost disk: DiskLayer) returns (r: Answer)
      requires path != [] && path[0] == this && Linked(path, disk) && Covered(path) && Origins(path, disk)
      ensures Live(path, disk) ==> r == Found(Find(Chain(path), disk.db.Contents(), a, s))
      ensures stale ==>
        r == if locate(SlotKey(a, s)) <= diffed || origin.stale then Stale
          else Found(SlotAt([], origin.db.Contents(), a, s))
    {
      if locate(SlotKey(a, s)) <= diffed {
        r := GetStorageHere(a, s, path, disk);
      } else {
        forall i | 0 <= i < |path| ensures !Touches(Chain(path)[i], SlotKey(a, s)) {
          assert Covers(path[0].locate, path[0].diffed, path[i].Contents());
        }
        UntouchedIsOnDisk(Chain(path), disk.db.Contents(), SlotKey(a, s));
        r := origin.GetStorage(a, s);
      }
    }

    method GetStorageHere(a: Hash, s: Hash, ghost path: seq<DiffLayer>, ghost disk: DiskLayer) returns (r: Answer)
      requires path != [] && path[0] == this && Linked(path, disk)
      ensures stale ==> r == Stale
      ensures Live(path, disk) ==> r == Found(Find(Chain(path), disk.db.Contents(), a, s))
      decreases |path|
    {
      if stale {
        return Stale;
      }
      if a in storageData && s in storageData[a] {
        return Found(Present(storageData[a][s]));
      }
      Below(path, disk);
      match parent
      case Diff(diff) =>
        r := diff.GetStorageHere(a, s, path[1..], disk);
      case Disk(base) =>
        r := base.GetStorage(a, s);
    }

    // ---- Flattening ----

    method AbsorbDestructs(destructs: set<Hash>)
      modifies this`destructSet, this`accountData, this`storageData
      ensures destructSet == old(destructSet) + destructs
      ensures accountData == old(accountData) - destructs && storageData == old(storageData) - destructs
    {
      var todo := destructs;
      while todo != {}
        invariant todo <= destructs
        invariant destructSet == old(destructSet) + (destructs - todo)
        invariant accountData == old(accountData) - (destructs - todo)
        invariant storageData == old(storageData) - (destructs - todo)
        decreases todo
      {
        var hash :| hash in todo;
        destructSet, accountData, storageData := destructSet + {hash}, accountData - {hash}, storageData - {hash};
        todo := todo - {hash};
      }
    }

    method AbsorbAccounts(accounts: map<Hash, Bytes>)
      modifies this`accountData
      ensures accountData == old(accountData) + accounts
    {
      var todo := accounts.Keys;
      while todo != {}
        invariant todo <= accounts.Keys
        invariant accountData == old(accountData) + (accounts - todo)
        decreases todo
      {
        var hash :| hash in todo;
        accountData := accountData[hash := accounts[hash]];
        todo := todo - {hash};
      }
      assert accounts - {} == accounts;
    }

    method AbsorbStorage(storage: map<Hash, map<Hash, Bytes>>)
      modifies this`storageData
      ensures storageData == MergeStorage(old(storageData), storage)
    {
      hide MergeStorage;
      ghost var before := storageData;
      var todo := storage.Keys;
      MergeStorageNone(before);
      assert storage - todo == map[];
      while todo != {}
        invariant todo <= storage.Keys && storageData == MergeStorage(before, storage - todo)
        decreases todo
      {
        var hash :| hash in todo;
        var parentStorage := AbsorbSlots(if hash in storageData then storageData[hash] else map[], storage[hash]);
        storageData := storageData[hash := parentStorage];
        MergeStorageAdd(before, storage - todo, hash, storage[hash]);
        assert storage - (todo - {hash}) == (storage - todo)[hash := storage[hash]];
        todo := todo - {hash};
      }
      assert storage - {} == storage;
    }

    method AbsorbSlots(before: map<Hash, Bytes>, slots: map<Hash, Bytes>) returns (parentStorage: map<Hash, Bytes>)
      ensures parentStorage == before + slots
    {
      parentStorage := before;
      var todo := slots.Keys;
      while todo != {}
        invariant todo <= slots.Keys && parentStorage == before + (slots - todo)
        decreases todo
      {
        var hash :| hash in todo;
        parentStorage := parentStorage[hash := slots[hash]];
        todo := todo - {hash};
      }
      assert slots - {} == slots;
    }

    /** Takes over everything that the layer above changes. */
    method Absorb(upper: DiffLayer)
      requires upper != this
      modifies this`destructSet, this`accountData, this`storageData
      ensures Contents() == Merge(old(Contents()), upper.Contents())
    {
      AbsorbDestructs(upper.destructSet);
      AbsorbAccounts(upper.accountData);
      AbsorbStorage(upper.storageData);
    }

    /** Merges this layer and all below it down to the disk layer into one, and leaves the bottom
        one stale. A single layer is returned as it is. */
    method Flatten(ghost path: seq<DiffLayer>, ghost disk: DiskLayer) returns (flat: DiffLayer)
      requires path != [] && path[0] == this && Linked(path, disk) && Covered(path)
      requires forall i :: 0 <= i < |path| ==> !path[i].stale
      modifies path[|path| - 1]
      ensures |path| == 1 ==> flat == this && stale == old(stale)
      ensures |path| > 1 ==> fresh(flat) && path[|path| - 1].stale
      ensures path[|path| - 1].parent == old(path[|path| - 1].parent)
      ensures path[|path| - 1].origin == old(path[|path| - 1].origin)
      ensures !flat.stale && flat.parent == Disk(disk) && flat.root == root && flat.locate == locate
      ensures |path| > 1 ==> flat.origin == disk
      ensures flat.Contents() == MergeAll(old(Chain(path))) && Covers(locate, flat.diffed, flat.Contents())
      ensures flat.memory == TotalMemory(path)
      decreases |path|
    {
      Below(path, disk);
      match parent
      case Disk(_) =>
        assert Chain(path)[0] == Contents();
        assert Covers(path[0].locate, path[0].diffed, path[0].Contents());
        flat := this;
      case Diff(diff) =>
        ghost var rest := path[1..];
        ghost var chain := Chain(path);
        assert rest[|rest| - 1] == path[|path| - 1];
        var below := diff.Flatten(rest, disk);
        below.stale := true;
        assert Contents() == chain[0];
        below.Absorb(this);
        assert below.Contents() == Merge(MergeAll(chain[1..]), chain[0]) == MergeAll(chain);
        flat := new DiffLayer(below.parent, root, Changes(below.destructSet, below.accountData, below.storageData),
                              diffed, below.memory + memory, locate);
        BloomBitsCover(locate, flat.diffed, flat.Contents());
    }
  }

  // ---- Stacks of layers ----

  function Next(path: seq<DiffLayer>, disk: DiskLayer, i: nat): Snapshot
    requires i < |path|
  {
    if i + 1 < |path| then Diff(path[i + 1]) else Disk(disk)
  }

  /** `path` leads from its first layer down to `disk`. */
  ghost predicate Linked(path: seq<DiffLayer>, disk: DiskLayer)
    reads path
  {
    && (forall i :: 0 <= i < |path| ==> path[i].parent == Next(path, disk, i))
    && (forall i, j :: 0 <= i < j < |path| ==> path[i] != path[j])
  }

  ghost function Chain(path: seq<DiffLayer>): seq<Changes>
    reads path
  {
    seq(|path|, i requires 0 <= i < |path| reads path => path[i].Contents())
  }

  ghost predicate Live(path: seq<DiffLayer>, disk: DiskLayer)
    reads path, disk
  {
    !disk.stale && forall i :: 0 <= i < |path| ==> !path[i].stale
  }

  ghost predicate Origins(path: seq<DiffLayer>, disk: DiskLayer)
    reads path
  {
    forall i :: 0 <= i < |path| ==> path[i].origin == disk
  }

  /** The bloom of each layer covers it and all layers below it. */
  ghost predicate Covered(path: seq<DiffLayer>)
    reads path
  {
    forall i, j :: 0 <= i <= j < |path| ==>
      path[i].locate == path[j].locate && Covers(path[i].locate, path[i].diffed, path[j].Contents())
  }

  /** A stack without its top layer. */
  lemma Below(path: seq<DiffLayer>, disk: DiskLayer)
    requires path != [] && Linked(path, disk)
    ensures |path| == 1 ==> path[0].parent == Disk(disk)
    ensures |path| > 1 ==> path[0].parent == Diff(path[1]) && path[1..][0] == path[1] && Linked(path[1..], disk)
    ensures Covered(path) ==> Covered(path[1..])
    ensures Chain(path)[0] == path[0].Contents() && Chain(path)[1..] == Chain(path[1..])
  {
    var rest := path[1..];
    assert forall i :: 0 <= i < |rest| ==> rest[i] == path[i + 1];
    forall i | 0 <= i < |rest| ensures rest[i].parent == Next(rest, disk, i) {
      assert path[i + 1].parent == Next(path, disk, i + 1);
    }
  }

  function TotalMemory(path: seq<DiffLayer>): nat {
    if path == [] then 0 else path[0].memory + TotalMemory(path[1..])
  }
}
