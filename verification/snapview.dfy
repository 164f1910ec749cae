/** What a stack of snapshot layers means: one map from accounts to values and one from slots to
values, got by folding the layers from the top. A destruct hides everything below it. */
module SnapViews {
  type Hash = nat
  type Bytes = seq<nat>

  datatype Option<+T> = None | Some(value: T)

  /** What one diff layer changes. An empty slot value stands for a deleted slot. */
  datatype Changes = Changes(destructs: set<Hash>, accounts: map<Hash, Bytes>, storage: map<Hash, map<Hash, Bytes>>)
  {
    predicate HasSlot(a: Hash, s: Hash) {
      a in storage && s in storage[a]
    }
  }

  /** The snapshot data on disk. */
  datatype Stored = Stored(accounts: map<Hash, Bytes>, slots: map<(Hash, Hash), Bytes>)

  function Lookup<K, V>(m: map<K, V>, k: K): Option<V> {
    if k in m then Some(m[k]) else None
  }

  function Present(v: Bytes): Option<Bytes> {
    if v == [] then None else Some(v)
  }

  /** The account as seen from the top of `layers`, topmost first. */
  function AccountAt(layers: seq<Changes>, disk: Stored, a: Hash): Option<Bytes> {
    if layers == [] then Lookup(disk.accounts, a)
    else if a in layers[0].accounts then Some(layers[0].accounts[a])
    else if a in layers[0].destructs then None
    else AccountAt(layers[1..], disk, a)
  }

  function SlotAt(layers: seq<Changes>, disk: Stored, a: Hash, s: Hash): Option<Bytes> {
    if layers == [] then
      if (a, s) in disk.slots then Present(disk.slots[(a, s)]) else None
    else if layers[0].HasSlot(a, s) then Present(layers[0].storage[a][s])
    else if a in layers[0].destructs then None
    else SlotAt(layers[1..], disk, a, s)
  }

  ghost predicate SameView(layers: seq<Changes>, disk: Stored, layers': seq<Changes>, disk': Stored) {
    && (forall a :: AccountAt(layers', disk', a) == AccountAt(layers, disk, a))
    && (forall a, s :: SlotAt(layers', disk', a, s) == SlotAt(layers, disk, a, s))
  }

  // ---- Flattening ----

  function Slots(storage: map<Hash, map<Hash, Bytes>>, a: Hash): map<Hash, Bytes> {
    if a in storage then storage[a] else map[]
  }

  function MergeStorage(lower: map<Hash, map<Hash, Bytes>>, upper: map<Hash, map<Hash, Bytes>>):
    map<Hash, map<Hash, Bytes>>
  {
    map a | a in lower.Keys + upper.Keys :: Slots(lower, a) + Slots(upper, a)
  }

  lemma MergeStorageNone(lower: map<Hash, map<Hash, Bytes>>)
    ensures MergeStorage(lower, map[]) == lower
  {
    forall a | a in lower ensures MergeStorage(lower, map[])[a] == lower[a] {
      assert lower[a] + map[] == lower[a];
    }
  }

  lemma MergedSlots(lower: map<Hash, map<Hash, Bytes>>, upper: map<Hash, map<Hash, Bytes>>, a: Hash)
    ensures Slots(MergeStorage(lower, upper), a) == Slots(lower, a) + Slots(upper, a)
  {
  }

  lemma MergeStorageAdd(lower: map<Hash, map<Hash, Bytes>>, upper: map<Hash, map<Hash, Bytes>>, a: Hash,
      slots: map<Hash, Bytes>)
    requires a !in upper
    ensures MergeStorage(lower, upper[a := slots]) ==
      MergeStorage(lower, upper)[a := Slots(MergeStorage(lower, upper), a) + slots]
  {
    var more, merged := MergeStorage(lower, upper[a := slots]), MergeStorage(lower, upper);
    var added := merged[a := Slots(merged, a) + slots];
    forall b | b in more ensures more[b] == added[b] {
      MergeStorageAddAt(lower, upper, a, slots, b);
    }
    assert more.Keys == added.Keys;
  }

  lemma MergeStorageAddAt(lower: map<Hash, map<Hash, Bytes>>, upper: map<Hash, map<Hash, Bytes>>, a: Hash,
      slots: map<Hash, Bytes>, b: Hash)
    requires a !in upper && b in MergeStorage(lower, upper[a := slots])
    ensures MergeStorage(lower, upper[a := slots])[b] ==
      if b == a then Slots(MergeStorage(lower, upper), a) + slots else MergeStorage(lower, upper)[b]
  {
    if b == a {
      MergedSlots(lower, upper, a);
      assert Slots(lower, a) + map[] == Slots(lower, a);
    } else {
      assert Slots(upper[a := slots], b) == Slots(upper, b);
    }
  }

  /** One layer that does what `lower` and then `upper` do. */
  function Merge(lower: Changes, upper: Changes): Changes {
    var kept := lower.storage - upper.destructs;
    Changes(
      lower.destructs + upper.destructs,
      (lower.accounts - upper.destructs) + upper.accounts,
      MergeStorage(kept, upper.storage))
  }

  /** All of `layers` as one, merged from the bottom up. */
  function MergeAll(layers: seq<Changes>): Changes
    requires layers != []
  {
    if |layers| == 1 then layers[0] else Merge(MergeAll(layers[1..]), layers[0])
  }

  lemma MergeView(lower: Changes, upper: Changes, rest: seq<Changes>, disk: Stored)
    ensures SameView([upper, lower] + rest, disk, [Merge(lower, upper)] + rest, disk)
  {
    var two, one := [upper, lower] + rest, [Merge(lower, upper)] + rest;
    assert two[1..][1..] == rest && one[1..] == rest;
    forall a, s ensures SlotAt(one, disk, a, s) == SlotAt(two, disk, a, s) {
      SlotTwice(two, disk, a, s);
      assert one[0].HasSlot(a, s) <==> upper.HasSlot(a, s) || (lower.HasSlot(a, s) && a !in upper.destructs);
    }
  }

  lemma SlotTwice(layers: seq<Changes>, disk: Stored, a: Hash, s: Hash)
    requires |layers| >= 2
    ensures SlotAt(layers, disk, a, s) ==
      if layers[0].HasSlot(a, s) then Present(layers[0].storage[a][s])
      else if a in layers[0].destructs then None
      else if layers[1].HasSlot(a, s) then Present(layers[1].storage[a][s])
      else if a in layers[1].destructs then None
      else SlotAt(layers[1..][1..], disk, a, s)
  {
    assert layers[1..][0] == layers[1];
  }

  /** Layers with the same view keep it under any further layer. */
  lemma {:induction false} ViewUnder(upper: seq<Changes>, lower: seq<Changes>, disk: Stored, lower': seq<Changes>,
      disk': Stored)
    requires SameView(lower, disk, lower', disk')
    ensures SameView(upper + lower, disk, upper + lower', disk')
  {
    if upper == [] {
      assert upper + lower == lower && upper + lower' == lower';
    } else {
      ViewUnder(upper[1..], lower, disk, lower', disk');
      assert (upper + lower)[1..] == upper[1..] + lower && (upper + lower')[1..] == upper[1..] + lower';
      forall a, s ensures SlotAt(upper + lower', disk', a, s) == SlotAt(upper + lower, disk, a, s) {
        assert SlotAt(upper[1..] + lower', disk', a, s) == SlotAt(upper[1..] + lower, disk, a, s);
      }
    }
  }

  /** Flattening keeps the view. */
  lemma {:induction false} FlattenView(layers: seq<Changes>, disk: Stored)
    requires layers != []
    ensures SameView(layers, disk, [MergeAll(layers)], disk)
  {
    if |layers| == 1 {
      assert layers == [MergeAll(layers)];
    } else {
      FlattenView(layers[1..], disk);
      ViewUnder([layers[0]], layers[1..], disk, [MergeAll(layers[1..])], disk);
      assert [layers[0]] + layers[1..] == layers;
      MergeView(MergeAll(layers[1..]), layers[0], [], disk);
      assert [layers[0]] + [MergeAll(layers[1..])] == [layers[0], MergeAll(layers[1..])] + [];
      assert [MergeAll(layers)] == [Merge(MergeAll(layers[1..]), layers[0])] + [];
    }
  }

  // ---- Persisting ----

  function SlotAfter(bottom: Changes, disk: Stored, a: Hash, s: Hash): Option<Bytes> {
    if bottom.HasSlot(a, s) then Present(bottom.storage[a][s])
    else if a in bottom.destructs then None
    else Lookup(disk.slots, (a, s))
  }

  function AccountAfter(bottom: Changes, disk: Stored, a: Hash): Option<Bytes> {
    if a in bottom.accounts then Some(bottom.accounts[a])
    else if a in bottom.destructs then None
    else Lookup(disk.accounts, a)
  }

  /** `disk'` is `disk` with the changes of `bottom` written into it. */
  ghost predicate Persisted(bottom: Changes, disk: Stored, disk': Stored) {
    && (forall a :: Lookup(disk'.accounts, a) == AccountAfter(bottom, disk, a))
    && (forall a, s :: Lookup(disk'.slots, (a, s)) == SlotAfter(bottom, disk, a, s))
  }

  /** Persisting keeps the view. */
  lemma PersistView(bottom: Changes, disk: Stored, disk': Stored)
    requires Persisted(bottom, disk, disk')
    ensures SameView([bottom], disk, [], disk')
  {
    assert [bottom][1..] == [];
    forall a ensures AccountAt([], disk', a) == AccountAt([bottom], disk, a) {
      assert Lookup(disk'.accounts, a) == AccountAfter(bottom, disk, a);
    }
    forall a, s ensures SlotAt([], disk', a, s) == SlotAt([bottom], disk, a, s) {
      assert Lookup(disk'.slots, (a, s)) == SlotAfter(bottom, disk, a, s);
    }
  }

  lemma SameViewTrans(l1: seq<Changes>, d1: Stored, l2: seq<Changes>, d2: Stored, l3: seq<Changes>, d3: Stored)
    requires SameView(l1, d1, l2, d2) && SameView(l2, d2, l3, d3)
    ensures SameView(l1, d1, l3, d3)
  {
    forall a ensures AccountAt(l3, d3, a) == AccountAt(l1, d1, a) {
      assert AccountAt(l2, d2, a) == AccountAt(l1, d1, a);
    }
    forall a, s ensures SlotAt(l3, d3, a, s) == SlotAt(l1, d1, a, s) {
      assert SlotAt(l2, d2, a, s) == SlotAt(l1, d1, a, s);
    }
  }

  /** Flattening all but the top `n` layers keeps the view. */
  lemma CapView(layers: seq<Changes>, n: nat, disk: Stored)
    requires n < |layers|
    ensures SameView(layers, disk, layers[..n] + [MergeAll(layers[n..])], disk)
  {
    FlattenView(layers[n..], disk);
    ViewUnder(layers[..n], layers[n..], disk, [MergeAll(layers[n..])], disk);
    assert layers[..n] + layers[n..] == layers;
  }

  /** So does writing the flattened layer to disk. */
  lemma CapPersistView(upper: seq<Changes>, bottom: Changes, disk: Stored, disk': Stored)
    requires Persisted(bottom, disk, disk')
    ensures SameView(upper + [bottom], disk, upper, disk')
  {
    PersistView(bottom, disk, disk');
    ViewUnder(upper, [bottom], disk, [], disk');
    assert upper + [] == upper;
  }

  // ---- Reading ----

  /** The slot as the layers are asked for it: destructs play no part. */
  function Find(layers: seq<Changes>, disk: Stored, a: Hash, s: Hash): Option<Bytes> {
    if layers == [] then
      if (a, s) in disk.slots then Present(disk.slots[(a, s)]) else None
    else if layers[0].HasSlot(a, s) then Present(layers[0].storage[a][s])
    else Find(layers[1..], disk, a, s)
  }

  /** The topmost value of a slot is in layer `k`, or on disk if `k` is past the layers; and it is
      not empty. */
  predicate TopValue(layers: seq<Changes>, disk: Stored, a: Hash, s: Hash, k: nat)
    requires k <= |layers|
  {
    && (forall j :: 0 <= j < k ==> !layers[j].HasSlot(a, s))
    && if k < |layers| then layers[k].HasSlot(a, s) && layers[k].storage[a][s] != []
       else (a, s) in disk.slots && disk.slots[(a, s)] != []
  }

  /** A destruct of the account lies above the topmost value of the slot. */
  predicate Resurrects(layers: seq<Changes>, disk: Stored, a: Hash, s: Hash) {
    exists i, k :: 0 <= i < k <= |layers| && a in layers[i].destructs && TopValue(layers, disk, a, s, k)
  }

  predicate Destructed(layers: seq<Changes>, a: Hash) {
    exists i :: 0 <= i < |layers| && a in layers[i].destructs
  }

  /** Reading a slot agrees with the view exactly when no destruct lies above the topmost value; so
      always, if the account is not destructed in any layer. */
  lemma FindIsView(layers: seq<Changes>, disk: Stored, a: Hash, s: Hash)
    ensures Find(layers, disk, a, s) == SlotAt(layers, disk, a, s) <==> !Resurrects(layers, disk, a, s)
    ensures !Destructed(layers, a) ==> Find(layers, disk, a, s) == SlotAt(layers, disk, a, s)
  {
    hide Find, SlotAt, TopValue;
    ViewIsFound(layers, disk, a, s);
    if i, k :| 0 <= i < k <= |layers| && a in layers[i].destructs && TopValue(layers, disk, a, s, k) {
      TopIsFound(layers, disk, a, s, k);
    }
  }

  lemma TopBelow(layers: seq<Changes>, disk: Stored, a: Hash, s: Hash, k: nat)
    requires 0 < k <= |layers|
    ensures TopValue(layers, disk, a, s, k) <==> !layers[0].HasSlot(a, s) && TopValue(layers[1..], disk, a, s, k - 1)
  {
    if !layers[0].HasSlot(a, s) && TopValue(layers[1..], disk, a, s, k - 1) {
      forall j | 0 <= j < k ensures !layers[j].HasSlot(a, s) {
        assert j > 0 ==> layers[1..][j - 1] == layers[j];
      }
    }
    if TopValue(layers, disk, a, s, k) {
      forall j | 0 <= j < k - 1 ensures !layers[1..][j].HasSlot(a, s) {
        assert layers[1..][j] == layers[j + 1];
      }
    }
  }

  /** The topmost value, if there is one, is what is read. */
  lemma {:induction false} TopIsFound(layers: seq<Changes>, disk: Stored, a: Hash, s: Hash, k: nat)
    requires k <= |layers| && TopValue(layers, disk, a, s, k)
    ensures Find(layers, disk, a, s) == Some(if k < |layers| then layers[k].storage[a][s] else disk.slots[(a, s)])
    decreases k
  {
    if k > 0 {
      TopBelow(layers, disk, a, s, k);
      TopIsFound(layers[1..], disk, a, s, k - 1);
    }
  }

  lemma {:induction false} FoundIsTop(layers: seq<Changes>, disk: Stored, a: Hash, s: Hash) returns (k: nat)
    requires Find(layers, disk, a, s).Some?
    ensures k <= |layers| && TopValue(layers, disk, a, s, k)
  {
    if layers == [] || layers[0].HasSlot(a, s) {
      k := 0;
    } else {
      var below := FoundIsTop(layers[1..], disk, a, s);
      k := below + 1;
      TopBelow(layers, disk, a, s, k);
    }
  }

  lemma {:induction false} ViewIsFound(layers: seq<Changes>, disk: Stored, a: Hash, s: Hash)
    ensures SlotAt(layers, disk, a, s) == if Resurrects(layers, disk, a, s) then None else Find(layers, disk, a, s)
  {
    hide TopValue, Resurrects;
    if layers == [] || layers[0].HasSlot(a, s) {
      TopFirst(layers, disk, a, s);
    } else if a in layers[0].destructs {
      if Find(layers, disk, a, s).Some? {
        var k := FoundIsTop(layers, disk, a, s);
        BelowFirst(layers, disk, a, s, k);
      }
    } else {
      ViewIsFound(layers[1..], disk, a, s);
      ResurrectsBelow(layers, disk, a, s);
    }
  }

  lemma TopFirst(layers: seq<Changes>, disk: Stored, a: Hash, s: Hash)
    requires layers == [] || layers[0].HasSlot(a, s)
    ensures !Resurrects(layers, disk, a, s)
  {
  }

  lemma BelowFirst(layers: seq<Changes>, disk: Stored, a: Hash, s: Hash, k: nat)
    requires layers != [] && !layers[0].HasSlot(a, s) && a in layers[0].destructs
    requires k <= |layers| && TopValue(layers, disk, a, s, k)
    ensures Resurrects(layers, disk, a, s)
  {
  }

  lemma ResurrectsBelow(layers: seq<Changes>, disk: Stored, a: Hash, s: Hash)
    requires layers != [] && !layers[0].HasSlot(a, s) && a !in layers[0].destructs
    ensures Resurrects(layers, disk, a, s) <==> Resurrects(layers[1..], disk, a, s)
  {
    hide TopValue;
    var rest := layers[1..];
    if i, k :| 0 <= i < k <= |layers| && a in layers[i].destructs && TopValue(layers, disk, a, s, k) {
      TopBelow(layers, disk, a, s, k);
      assert rest[i - 1] == layers[i];
    }
    if i, k :| 0 <= i < k <= |rest| && a in rest[i].destructs && TopValue(rest, disk, a, s, k) {
      TopBelow(layers, disk, a, s, k + 1);
      assert layers[i + 1] == rest[i];
    }
  }

  /** A slot of a destructed account that is read although it is gone. */
  lemma ReadOfDestructed()
    ensures exists layers, disk, a, s :: SlotAt(layers, disk, a, s) == None && Find(layers, disk, a, s) == Some([1])
  {
    var layers, disk := [Changes({7}, map[], map[])], Stored(map[7 := [1]], map[(7, 3) := [1]]);
    assert layers[1..] == [];
    assert SlotAt(layers, disk, 7, 3) == None && Find(layers, disk, 7, 3) == Some([1]);
  }

  // ---- The bloom shortcut ----

  datatype Key = AccountKey(a: Hash) | SlotKey(a: Hash, s: Hash)

  /** All keys a layer touches. */
  ghost predicate Touches(l: Changes, k: Key) {
    match k
    case AccountKey(a) => a in l.destructs || a in l.accounts
    case SlotKey(a, s) => l.HasSlot(a, s)
  }

  /** A key that no layer touches is read from disk. */
  lemma {:induction false} UntouchedIsOnDisk(layers: seq<Changes>, disk: Stored, k: Key)
    requires forall i :: 0 <= i < |layers| ==> !Touches(layers[i], k)
    ensures k.AccountKey? ==> AccountAt(layers, disk, k.a) == AccountAt([], disk, k.a)
    ensures k.SlotKey? ==> Find(layers, disk, k.a, k.s) == Find([], disk, k.a, k.s)
  {
    if layers != [] {
      assert !Touches(layers[0], k);
      forall i | 0 <= i < |layers[1..]| ensures !Touches(layers[1..][i], k) {
        assert layers[1..][i] == layers[i + 1];
      }
      UntouchedIsOnDisk(layers[1..], disk, k);
    }
  }

  lemma {:induction false} MergeAllTouches(layers: seq<Changes>, k: Key)
    requires layers != [] && Touches(MergeAll(layers), k)
    ensures exists i :: 0 <= i < |layers| && Touches(layers[i], k)
  {
    if |layers| > 1 {
      MergeTouches(MergeAll(layers[1..]), layers[0], k);
      if !Touches(layers[0], k) {
        MergeAllTouches(layers[1..], k);
        var i :| 0 <= i < |layers[1..]| && Touches(layers[1..][i], k);
        assert Touches(layers[i + 1], k);
      }
    }
  }

  /** Merged layers touch no other keys. */
  lemma MergeTouches(lower: Changes, upper: Changes, k: Key)
    ensures Touches(Merge(lower, upper), k) ==> Touches(lower, k) || Touches(upper, k)
  {
  }
}
