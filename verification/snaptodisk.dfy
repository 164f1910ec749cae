/** Writing the bottom diff layer into the disk layer below it, operation by operation. */
module SnapToDisk {
  import opened Orders
  import opened SnapViews
  import opened SnapLayers

  const WIPE_FLUSH := 10000
  const IDEAL_BATCH_SIZE := 102400

  datatype Op =
    | PutAccount(a: Hash, v: Bytes)
    | DeleteAccount(a: Hash)
    | PutSlot(a: Hash, s: Hash, v: Bytes)
    | DeleteSlot(a: Hash, s: Hash)

  function ApplyOp(d: Stored, op: Op): Stored {
    match op
    case PutAccount(a, v) => d.(accounts := d.accounts[a := v])
    case DeleteAccount(a) => d.(accounts := d.accounts - {a})
    case PutSlot(a, s, v) => d.(slots := d.slots[(a, s) := v])
    case DeleteSlot(a, s) => d.(slots := d.slots - {(a, s)})
  }

  function Apply(d: Stored, ops: seq<Op>): Stored {
    if ops == [] then d else ApplyOp(Apply(d, ops[..|ops| - 1]), ops[|ops| - 1])
  }

  /** Operations waiting to be written. */
  class DBatch {
    const db: Database
    var batch: seq<Op>

    constructor (db: Database)
      ensures this.db == db && batch == [] && Result() == db.Contents()
    {
      this.db, batch := db, [];
    }

    /** The database once everything is written. */
    ghost function Result(): Stored
      reads this, db
    {
      Apply(db.Contents(), batch)
    }

    method Push(op: Op)
      modifies this
      ensures Result() == ApplyOp(old(Result()), op) && |batch| == old(|batch|) + 1
    {
      batch := batch + [op];
    }

    method Write()
      modifies this, db
      ensures Result() == old(Result()) && db.Contents() == Result() && batch == []
    {
      for i := 0 to |batch|
        modifies db
        invariant db.Contents() == Apply(old(db.Contents()), batch[..i])
      {
        assert batch[..i + 1][..i] == batch[..i];
        match batch[i]
        case PutAccount(a, v) => db.accounts := db.accounts[a := v];
        case DeleteAccount(a) => db.accounts := db.accounts - {a};
        case PutSlot(a, s, v) => db.slots := db.slots[(a, s) := v];
        case DeleteSlot(a, s) => db.slots := db.slots - {(a, s)};
      }
      assert batch[..|batch|] == batch;
      batch := [];
    }

    method WriteIfLarge()
      modifies this, db
      ensures Result() == old(Result())
      ensures db.Contents() == old(db.Contents()) || db.Contents() == Result()
    {
      if |batch| > IDEAL_BATCH_SIZE {
        Write();
      }
    }
  }

  /** The hashes of the slots of account `a` in `slots`, from `origin` on. */
  function SlotHashes(slots: map<(Hash, Hash), Bytes>, a: Hash, origin: Hash): set<Hash> {
    set k | k in slots && k.0 == a && origin <= k.1 :: k.1
  }

  /** Without the slots of `a` below or at `last`, as far as they are in the database `d`. */
  ghost predicate WipedUpTo(before: Stored, after: Stored, d: Stored, a: Hash, done: set<Hash>) {
    && after.accounts == before.accounts
    && forall k :: Lookup(after.slots, k) == if k.0 == a && k in d.slots && k.1 in done then None
      else Lookup(before.slots, k)
  }

  lemma WipedTwice(d0: Stored, d1: Stored, d2: Stored, d: Stored, a: Hash, done: set<Hash>, more: set<Hash>)
    requires WipedUpTo(d0, d1, d, a, done) && WipedUpTo(d1, d2, d, a, more)
    ensures WipedUpTo(d0, d2, d, a, done + more)
  {
    forall k
      ensures Lookup(d2.slots, k) == if k.0 == a && k in d.slots && k.1 in done + more then None
        else Lookup(d0.slots, k)
    {
      assert Lookup(d1.slots, k) == if k.0 == a && k in d.slots && k.1 in done then None else Lookup(d0.slots, k);
      assert Lookup(d2.slots, k) == if k.0 == a && k in d.slots && k.1 in more then None else Lookup(d1.slots, k);
    }
  }

  /** One traversal of the slots of `a` from `origin` on. Whenever the batch reaches a multiple of
      ten thousand operations the traversal is given up, at the slot last deleted. */
  method WipeFrom(batch: DBatch, a: Hash, origin: Hash) returns (again: bool, last: Hash, ghost done: set<Hash>)
    modifies batch
    ensures WipedUpTo(old(batch.Result()), batch.Result(), batch.db.Contents(), a, done)
    ensures done <= SlotHashes(batch.db.slots, a, origin)
    ensures !again ==> done == SlotHashes(batch.db.slots, a, origin) && last == origin
    ensures again ==> origin <= last && |batch.batch| % WIPE_FLUSH == 0
    ensures again ==> forall h :: h in SlotHashes(batch.db.slots, a, origin) && h < last ==> h in done
    ensures again && old(|batch.batch|) % WIPE_FLUSH == 0 ==>
      exists h :: h in SlotHashes(batch.db.slots, a, origin) && h < last
  {
    ghost var all := SlotHashes(batch.db.slots, a, origin);
    var hashes := Sort(SlotHashes(batch.db.slots, a, origin));
    done, last := {}, origin;
    for i := 0 to |hashes|
      invariant last == origin
      invariant done == set j | 0 <= j < i :: hashes[j]
      invariant WipedUpTo(old(batch.Result()), batch.Result(), batch.db.Contents(), a, done)
      invariant i < WIPE_FLUSH && old(|batch.batch|) % WIPE_FLUSH == 0 ==> |batch.batch| % WIPE_FLUSH == i
    {
      var hash := hashes[i];
      assert hash in hashes;
      ghost var before := batch.Result();
      batch.Push(DeleteSlot(a, hash));
      assert WipedUpTo(before, batch.Result(), batch.db.Contents(), a, {hash});
      WipedTwice(old(batch.Result()), before, batch.Result(), batch.db.Contents(), a, done, {hash});
      done := done + {hash};
      if |batch.batch| % WIPE_FLUSH == 0 {
        forall h | h in all && h < hash ensures h in done {
          assert h in hashes;
        }
        assert i > 0 ==> hashes[0] in hashes;
        return true, hash, done;
      }
    }
    forall h | h in all ensures h in done {
      assert h in hashes;
    }
    again := false;
  }

  /** Deletes every slot of `a` that is in the database. A traversal that was given up is started
      again where it stopped; it always gets further. */
  method WipeKeyRange(batch: DBatch, a: Hash)
    modifies batch
    ensures WipedUpTo(old(batch.Result()), batch.Result(), batch.db.Contents(), a, SlotHashes(batch.db.slots, a, 0))
  {
    ghost var all := SlotHashes(batch.db.slots, a, 0);
    var again, origin: Hash, done := WipeFrom(batch, a, 0);
    while again
      invariant done <= all && forall h :: h in all && h < origin ==> h in done
      invariant WipedUpTo(old(batch.Result()), batch.Result(), batch.db.Contents(), a, done)
      invariant if again then |batch.batch| % WIPE_FLUSH == 0 else done == all
      decreases SlotHashes(batch.db.slots, a, origin), again
    {
      ghost var before := batch.Result();
      ghost var more;
      ghost var start := origin;
      again, origin, more := WipeFrom(batch, a, origin);
      WipedTwice(old(batch.Result()), before, batch.Result(), batch.db.Contents(), a, done, more);
      done := done + more;
      assert SlotHashes(batch.db.slots, a, origin) <= SlotHashes(batch.db.slots, a, start);
      if again {
        ghost var h :| h in SlotHashes(batch.db.slots, a, start) && h < origin;
        assert h !in SlotHashes(batch.db.slots, a, origin);
      }
      assert forall h :: h in all && start <= h ==> h in SlotHashes(batch.db.slots, a, start);
    }
  }

  /** `after` is `before` without the accounts in `gone` and their slots. */
  ghost predicate Destroyed(before: Stored, after: Stored, gone: set<Hash>) {
    && after.accounts == before.accounts - gone
    && forall k :: Lookup(after.slots, k) == if k.0 in gone then None else Lookup(before.slots, k)
  }

  method WipeAccount(batch: DBatch, a: Hash)
    modifies batch, batch.db
    requires forall k: (Hash, Hash) :: k.0 == a ==> Lookup(batch.db.slots, k) == Lookup(batch.Result().slots, k)
    ensures Destroyed(old(batch.Result()), batch.Result(), {a})
    ensures batch.db.Contents() == old(batch.db.Contents()) || batch.db.Contents() == batch.Result()
  {
    batch.Push(DeleteAccount(a));
    WipeKeyRange(batch, a);
    forall k ensures Lookup(batch.Result().slots, k) == if k.0 in {a} then None
      else Lookup(old(batch.Result()).slots, k) {
      assert k.0 == a && k in batch.db.slots ==> k.1 in SlotHashes(batch.db.slots, a, 0);
    }
    batch.WriteIfLarge();
  }

  method WipeAccounts(batch: DBatch, destructs: set<Hash>)
    requires batch.db.Contents() == batch.Result()
    modifies batch, batch.db
    ensures Destroyed(old(batch.Result()), batch.Result(), destructs)
  {
    ghost var before := batch.Result();
    var todo := destructs;
    while todo != {}
      invariant todo <= destructs && Destroyed(before, batch.Result(), destructs - todo)
      invariant forall k: (Hash, Hash) :: k.0 in todo ==> Lookup(batch.db.slots, k) == Lookup(batch.Result().slots, k)
      decreases todo
    {
      var a :| a in todo;
      WipeAccount(batch, a);
      todo := todo - {a};
    }
  }

  method SaveAccounts(batch: DBatch, accounts: map<Hash, Bytes>)
    modifies batch, batch.db
    ensures batch.Result() == old(batch.Result()).(accounts := old(batch.Result()).accounts + accounts)
  {
    var todo := accounts.Keys;
    while todo != {}
      invariant todo <= accounts.Keys
      invariant batch.Result().slots == old(batch.Result()).slots
      invariant batch.Result().accounts == old(batch.Result()).accounts + (accounts - todo)
      decreases todo
    {
      var a :| a in todo;
      batch.Push(PutAccount(a, accounts[a]));
      batch.WriteIfLarge();
      todo := todo - {a};
    }
    assert accounts - {} == accounts;
  }

  /** `after` is `before` with the slots of the accounts in `done` written; empty ones deleted. */
  ghost predicate Written(before: Stored, after: Stored, storage: map<Hash, map<Hash, Bytes>>, done: set<Hash>) {
    && after.accounts == before.accounts
    && forall k :: Lookup(after.slots, k) == SavedSlot(before, storage, done, k)
  }

  function SavedSlot(before: Stored, storage: map<Hash, map<Hash, Bytes>>, done: set<Hash>,
      k: (Hash, Hash)): Option<Bytes> {
    if k.0 in done && k.0 in storage && k.1 in storage[k.0] then Present(storage[k.0][k.1]) else Lookup(before.slots, k)
  }

  method SaveSlots(batch: DBatch, a: Hash, slots: map<Hash, Bytes>)
    modifies batch
    ensures Written(old(batch.Result()), batch.Result(), map[a := slots], {a})
  {
    ghost var before := batch.Result();
    var todo := slots.Keys;
    while todo != {}
      invariant todo <= slots.Keys && Written(before, batch.Result(), map[a := slots - todo], {a})
      decreases todo
    {
      var s :| s in todo;
      ghost var mid := batch.Result();
      if |slots[s]| > 0 {
        batch.Push(PutSlot(a, s, slots[s]));
      } else {
        batch.Push(DeleteSlot(a, s));
      }
      forall k
        ensures Lookup(batch.Result().slots, k) == SavedSlot(before, map[a := slots - (todo - {s})], {a}, k)
      {
        assert Lookup(mid.slots, k) == SavedSlot(before, map[a := slots - todo], {a}, k);
      }
      todo := todo - {s};
    }
    assert slots - {} == slots;
  }

  method SaveStorage(batch: DBatch, storage: map<Hash, map<Hash, Bytes>>)
    modifies batch, batch.db
    ensures Written(old(batch.Result()), batch.Result(), storage, storage.Keys)
  {
    ghost var before := batch.Result();
    var todo := storage.Keys;
    while todo != {}
      invariant todo <= storage.Keys && Written(before, batch.Result(), storage, storage.Keys - todo)
      decreases todo
    {
      var a :| a in todo;
      ghost var mid := batch.Result();
      SaveSlots(batch, a, storage[a]);
      WrittenNext(before, mid, batch.Result(), storage, storage.Keys - todo, a);
      batch.WriteIfLarge();
      todo := todo - {a};
    }
  }

  lemma WrittenNext(before: Stored, mid: Stored, after: Stored, storage: map<Hash, map<Hash, Bytes>>, done: set<Hash>,
      a: Hash)
    requires a in storage && a !in done && Written(before, mid, storage, done)
    requires Written(mid, after, map[a := storage[a]], {a})
    ensures Written(before, after, storage, done + {a})
  {
    forall k ensures Lookup(after.slots, k) == SavedSlot(before, storage, done + {a}, k) {
      assert Lookup(after.slots, k) == SavedSlot(mid, map[a := storage[a]], {a}, k);
      assert Lookup(mid.slots, k) == SavedSlot(before, storage, done, k);
    }
  }

  lemma DestroyedThenWritten(bottom: Changes, d0: Stored, d1: Stored, d2: Stored, d3: Stored)
    requires Destroyed(d0, d1, bottom.destructs)
    requires d2 == d1.(accounts := d1.accounts + bottom.accounts)
    requires Written(d2, d3, bottom.storage, bottom.storage.Keys)
    ensures Persisted(bottom, d0, d3)
  {
    forall a, s ensures Lookup(d3.slots, (a, s)) == SlotAfter(bottom, d0, a, s) {
      assert Lookup(d1.slots, (a, s)) == if a in bottom.destructs then None else Lookup(d0.slots, (a, s));
      assert Lookup(d3.slots, (a, s)) == SavedSlot(d2, bottom.storage, bottom.storage.Keys, (a, s));
    }
  }

  /** Writes the bottom layer into the database and leaves the old disk layer stale. */
  method DiffToDisk(bottom: DiffLayer) returns (base: DiskLayer)
    requires bottom.parent.Disk? && !bottom.parent.disk.stale
    modifies bottom.parent.disk, bottom.parent.disk.db
    ensures bottom.parent.disk.stale
    ensures fresh(base) && base.db == bottom.parent.disk.db && base.root == bottom.root && !base.stale
    ensures Persisted(bottom.Contents(), old(bottom.parent.disk.db.Contents()), base.db.Contents())
  {
    var disk := bottom.parent.disk;
    disk.stale := true;
    var batch := new DBatch(disk.db);
    ghost var d0 := batch.Result();
    WipeAccounts(batch, bottom.destructSet);
    ghost var d1 := batch.Result();
    SaveAccounts(batch, bottom.accountData);
    ghost var d2 := batch.Result();
    SaveStorage(batch, bottom.storageData);
    batch.Write();
    DestroyedThenWritten(bottom.Contents(), d0, d1, d2, batch.Result());
    base := new DiskLayer(disk.db, bottom.root);
  }
}
