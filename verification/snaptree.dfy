/** The tree of snapshot layers: growing it, pruning it to one branch, and capping a branch. */
module SnapTrees {
  import opened SnapViews
  import opened SnapLayers
  import opened SnapToDisk
  import opened SnapIndexes
  import opened SnapCuts

  const AGGREGATOR_MEMORY_LIMIT := 4 * 1024 * 1024

  class SnapTree {
    const db: Database
    const locate: Locator
    var layers: map<Hash, Snapshot>
    ghost var paths: map<Hash, seq<DiffLayer>>
    ghost var disk: DiskLayer

    ghost predicate Valid()
      reads this, disk, LayersOf(paths)
    {
      && disk.db == db && !disk.stale
      && Indexed(layers, paths, disk)
      && AllOk(paths, disk)
      && forall r :: r in paths ==> SameLocator(paths[r], locate)
    }

    constructor (disk: DiskLayer, locate: Locator)
      requires !disk.stale
      ensures Valid() && this.disk == disk && this.locate == locate && layers == map[disk.root := Disk(disk)]
      ensures db == disk.db && paths == map[disk.root := []]
    {
      this.db, this.locate := disk.db, locate;
      layers, paths, this.disk := map[disk.root := Disk(disk)], map[disk.root := []], disk;
    }

    /** The changes stacked up at `root`. */
    ghost function ChainAt(root: Hash): seq<Changes>
      requires root in paths
      reads this, paths[root]
    {
      Chain(paths[root])
    }

    /** Returns false for an exception. */
    method Update(root: Hash, parentRoot: Hash, changes: Changes, memory: nat) returns (ok: bool)
      requires Valid()
      modifies this
      ensures Valid() && disk == old(disk)
      ensures ok <==> root != parentRoot && (root in old(layers) || parentRoot in old(layers))
      ensures ok && root !in old(layers) ==>
        layers.Keys == old(layers).Keys + {root} && ChainAt(root) == [changes] + old(ChainAt(parentRoot))
      ensures ok && root !in old(layers) ==>
        && root in paths && paths[root] != [] && fresh(paths[root][0]) && paths[root][1..] == old(paths[parentRoot])
        && paths == old(paths)[root := paths[root]]
      ensures !ok || root in old(layers) ==> layers == old(layers) && paths == old(paths)
      ensures forall r :: r in old(paths) ==>
        r in paths && paths[r] == old(paths)[r] && r in layers && layers[r] == old(layers)[r]
    {
      hide PathOk, Covers, IndexedAt, BloomBits;
      if root == parentRoot {
        return false;
      }
      if root in layers {
        return true;
      }
      if parentRoot !in layers {
        return false;
      }
      var parent := layers[parentRoot];
      ghost var below := paths[parentRoot];
      IndexTop(layers, paths, disk, parentRoot);
      var diffed := if parent.Diff? then parent.diff.diffed else {};
      var snap := new DiffLayer(parent, root, changes, diffed, memory, locate);
      BloomBitsCover(locate, snap.diffed, snap.Contents());
      PathTop(below, disk);
      Stacked(snap, below, disk);
      IndexGrows(layers, paths, disk, snap, parentRoot);
      assert layers[root := Diff(snap)].Keys == layers.Keys + {root};
      assert Chain([snap] + below) == [changes] + Chain(below);
      layers := layers[root := Diff(snap)];
      paths := paths[root := [snap] + below];
      ok := true;
    }

    ghost predicate Straight(root: Hash)
      reads this
      ensures Straight(root) ==> root in paths
    {
      root in paths && StraightAt(layers, paths[root], disk)
    }

    /** Keeps only the stack at `root`, down to the disk layer. Nothing is kept for a root that is
        not there. */
    method Discard(root: Hash)
      requires Valid()
      modifies this`layers, this`paths
      ensures root in old(layers) ==> Valid() && Straight(root) && paths[root] == old(paths)[root]
      ensures root !in old(layers) ==> layers == map[] && paths == map[]
    {
      hide PathOk, Indexed;
      var snaps := {};
      if root in layers {
        snaps := StackOf(root);
        PruneIndex(layers, paths, disk, root);
      }
      layers := Kept(layers, snaps);
      paths := KeptPaths(paths, layers);
      assert LayersOf(paths) <= old(LayersOf(paths));
    }

    /** Follows the parent pointers from `root` to the disk layer. */
    method StackOf(root: Hash) returns (snaps: set<Snapshot>)
      requires Valid() && root in layers
      ensures root in paths && snaps == Stack(paths[root], disk)
    {
      IndexTop(layers, paths, disk, root);
      ghost var path := paths[root];
      snaps := {};
      var snap: Option<Snapshot> := Some(layers[root]);
      ghost var i: nat := 0;
      while snap.Some?
        invariant i <= |path| + 1
        invariant snap == if i < |path| then Some(Diff(path[i])) else if i == |path| then Some(Disk(disk)) else None
        invariant snaps ==
          (set k: nat | k < i && k < |path| :: Diff(path[k])) + if i == |path| + 1 then {Disk(disk)} else {}
        decreases |path| + 1 - i
      {
        snaps := snaps + {snap.value};
        match snap.value {
          case Diff(diff) =>
            assert diff.parent == Next(path, disk, i);
            snap := Some(diff.parent);
          case Disk(_) =>
            snap := None;
        }
        i := i + 1;
      }
    }

    // ---- Capping ----

    /** Goes down `n - 1` layers, if there are so many. */
    method Dive(diff: DiffLayer, n: nat, ghost path: seq<DiffLayer>, ghost d: DiskLayer)
        returns (cur: Option<DiffLayer>)
      requires n >= 1 && path != [] && path[0] == diff && Linked(path, d)
      ensures cur == if n <= |path| then Some(path[n - 1]) else None
    {
      var c := diff;
      for i := 0 to n - 1
        invariant i < |path| && c == path[i]
      {
        assert c.parent == Next(path, d, i);
        if c.parent.Disk? {
          return None;
        }
        c := c.parent.diff;
      }
      cur := Some(c);
    }

    /** Flattens everything below `cur`, layer `n - 1` of the stack, into one layer. */
    method FlattenBelow(cur: DiffLayer, parent: DiffLayer, ghost n: nat, ghost path: seq<DiffLayer>, ghost d: DiskLayer)
      returns (flat: DiffLayer)
      requires 1 <= n < |path| - 1 && PathOk(path, d) && cur == path[n - 1] && parent == path[n]
      modifies this`layers, cur`parent, parent`stale, path[|path| - 1]
      ensures fresh(flat) && flat.root == path[n].root && flat.locate == path[n].locate
      ensures !flat.stale && flat.parent == Disk(d) && flat.origin == d
      ensures flat.Contents() == MergeAll(old(Chain(path))[n..]) && Covers(flat.locate, flat.diffed, flat.Contents())
      ensures layers == old(layers)[flat.root := Diff(flat)]
      ensures cur.parent == Diff(flat) && path[|path| - 1].stale && parent.stale
      ensures path[|path| - 1].parent == old(path[|path| - 1].parent)
    {
      hide *;
      PathFacts(path, n, d);
      Suffix(path, n, d);
      assert path[n..][|path[n..]| - 1] == path[|path| - 1];
      flat := parent.Flatten(path[n..], d);
      parent.stale := true;
      layers := layers[flat.root := Diff(flat)];
      cur.parent := Diff(flat);
    }

    /** Writes the flattened layer below `cur` to disk, and puts the new disk layer in its place. */
    method PersistBelow(cur: DiffLayer, flat: DiffLayer, ghost d: DiskLayer) returns (base: DiskLayer)
      requires flat.parent == Disk(d) && !d.stale && d.db == db && cur != flat
      modifies this`layers, cur`parent, flat`stale, d, d.db
      ensures fresh(base) && base.db == db && base.root == flat.root && !base.stale && d.stale
      ensures Persisted(old(flat.Contents()), old(db.Contents()), db.Contents())
      ensures layers == old(layers)[flat.root := Disk(base)] && cur.parent == Disk(base)
    {
      base := DiffToDisk(flat);
      flat.stale := true;
      layers := layers[base.root := Disk(base)];
      cur.parent := Disk(base);
    }

    lemma LayersAllocated()
      ensures forall l :: l in LayersOf(paths) ==> allocated(l)
    {
      LayersFrom(paths);
      assert forall l :: l in LayersOf(paths) ==> exists r :: r in paths && l in paths[r] && allocated(l);
    }

    /** Caps the stack below layer `n`: the layer there and what is below it is flattened, and written
        to disk if it holds too much. Returns the new disk layer if one was written. `was` and `parents`
        say what the layers were. */
    method CapStack(diff: DiffLayer, n: nat, ghost path: seq<DiffLayer>, ghost d: DiskLayer,
        ghost was: map<DiffLayer, State>, ghost parents: map<DiffLayer, Snapshot>)
      returns (base: Option<DiskLayer>, ghost flat: Option<DiffLayer>)
      requires n >= 1 && path != [] && path[0] == diff && PathOk(path, d) && d.db == db
      requires forall l :: l in was ==> Is(l, was[l])
      requires forall l :: l in parents ==> l.parent == parents[l]
      modifies this`layers, path, d, db
      ensures |path| <= n + 1 ==> base.None? && layers == old(layers) && db.Contents() == old(db.Contents())
      ensures |path| <= n + 1 ==> (old(Valid()) ==> Valid()) && forall l :: l in was ==> Is(l, was[l])
      ensures |path| > n + 1 ==> (base.None? <==> flat.Some?) && path[n].stale && path[|path| - 1].stale
      ensures |path| > n + 1 ==> forall l :: l in was && l !in path[n..] ==> Is(l, was[l])
      ensures |path| > n + 1 ==> forall l :: l in parents && l != path[n - 1] ==> l.parent == parents[l]
      ensures |path| > n + 1 && flat.Some? ==>
        && fresh(flat.value) && flat.value.root == path[n].root && flat.value.locate == path[n].locate
        && !flat.value.stale && flat.value.parent == Disk(d) && flat.value.origin == d
        && flat.value.Contents() == MergeAll(old(Chain(path))[n..])
        && Covers(flat.value.locate, flat.value.diffed, flat.value.Contents())
        && layers == old(layers)[path[n].root := Diff(flat.value)] && path[n - 1].parent == Diff(flat.value)
        && !d.stale && db.Contents() == old(db.Contents())
      ensures |path| > n + 1 && base.Some? ==>
        && fresh(base.value) && base.value.root == path[n].root && base.value.db == db && !base.value.stale
        && layers == old(layers)[path[n].root := Disk(base.value)] && path[n - 1].parent == Disk(base.value)
        && d.stale && Persisted(MergeAll(old(Chain(path))[n..]), old(db.Contents()), db.Contents())
    {
      hide *;
      base, flat := None, None;
      PathParts(path, d);
      LayersAllocated();
      var cur := Dive(diff, n, path, d);
      if cur == None {
        return;
      }
      NextParts(path, d, n - 1);
      if cur.value.parent.Disk? {
        return;
      }
      var parent := cur.value.parent.diff;
      NextParts(path, d, n);
      if parent.parent.Disk? {
        return;
      }
      ghost var before := layers;
      assert path[n] in path[n..] && path[|path| - 1] in path[n..] by {
        assert path[n..][0] == path[n] && path[n..][|path| - 1 - n] == path[|path| - 1];
      }
      var flattened := FlattenBelow(cur.value, parent, n, path, d);
      if flattened.memory < AGGREGATOR_MEMORY_LIMIT {
        flat := Some(flattened);
        return;
      }
      var written := PersistBelow(cur.value, flattened, d);
      assert layers == before[path[n].root := Disk(written)];
      base := Some(written);
    }

    /** The roots of the entries whose parent has a given root. */
    method Children() returns (children: map<Hash, seq<Hash>>)
      ensures ChildrenOf(layers, children)
    {
      children := map[];
      var todo := layers.Keys;
      while todo != {}
        invariant todo <= layers.Keys && ChildrenOf(layers - todo, children)
        decreases todo
      {
        var root :| root in todo;
        ghost var before := layers - todo;
        todo := todo - {root};
        assert layers - todo == before[root := layers[root]];
        if layers[root].Diff? {
          var parentRoot := RootOf(layers[root].diff.parent);
          var siblings := if parentRoot in children then children[parentRoot] else [];
          ChildAdded(before, children, root, layers[root].diff);
          children := children[parentRoot := siblings + [root]];
        }
      }
      assert layers - {} == layers;
    }

    /** Deletes `root` and everything that hangs on it. `depth` bounds the recursion, `condemned` is
        closed under children. */
    method Remove(root: Hash, children: map<Hash, seq<Hash>>, ghost all: map<Hash, seq<Hash>>,
        ghost depth: map<Hash, nat>, ghost condemned: set<Hash>)
      returns (rest: map<Hash, seq<Hash>>)
      requires root in condemned && Closed(all, depth, condemned) && Progress(all, children, layers.Keys, condemned)
      modifies this`layers
      ensures Progress(all, rest, layers.Keys, condemned) && rest.Keys <= children.Keys
      ensures root !in layers && root !in rest
      ensures forall r :: r in old(layers).Keys - layers.Keys ==> r !in rest
      ensures layers.Keys <= old(layers).Keys && old(layers).Keys - layers.Keys <= condemned
      ensures forall r :: r in layers ==> layers[r] == old(layers)[r]
      decreases depth[root]
    {
      layers := layers - {root};
      rest := children;
      if root in children {
        var datas := children[root];
        for i := 0 to |datas|
          invariant Progress(all, rest, layers.Keys, condemned) && rest.Keys <= children.Keys
          invariant root !in layers
          invariant forall r :: r in old(layers).Keys - layers.Keys && r != root ==> r !in rest
          invariant layers.Keys <= old(layers).Keys && old(layers).Keys - layers.Keys <= condemned
          invariant forall r :: r in layers ==> layers[r] == old(layers)[r]
          invariant forall k :: 0 <= k < i ==> datas[k] !in layers && datas[k] !in rest
        {
          rest := Remove(datas[i], rest, all, depth, condemned);
        }
      }
      rest := rest - {root};
    }

    /** Removes every stale entry, and every entry that hangs on one. */
    method RemoveStale(children: map<Hash, seq<Hash>>, ghost depth: map<Hash, nat>, ghost condemned: set<Hash>)
      returns (rest: map<Hash, seq<Hash>>)
      requires Closed(children, depth, condemned)
      requires forall r :: r in layers && IsStale(layers[r]) ==> r in condemned
      modifies this`layers
      ensures Progress(children, rest, layers.Keys, condemned)
      ensures layers.Keys <= old(layers).Keys && old(layers).Keys - layers.Keys <= condemned
      ensures forall r :: r in layers ==> layers[r] == old(layers)[r] && !IsStale(layers[r])
      ensures forall r :: r in old(layers).Keys - layers.Keys ==> r !in rest
    {
      rest := children;
      var todo := layers.Keys;
      while todo != {}
        invariant Progress(children, rest, layers.Keys, condemned)
        invariant layers.Keys <= old(layers).Keys && old(layers).Keys - layers.Keys <= condemned
        invariant forall r :: r in layers ==> layers[r] == old(layers)[r]
        invariant forall r :: r in layers && IsStale(layers[r]) ==> r in todo
        invariant forall r :: r in old(layers).Keys - layers.Keys ==> r !in rest
        decreases todo
      {
        var root :| root in todo;
        todo := todo - {root};
        if root in layers && IsStale(layers[root]) {
          rest := Remove(root, rest, children, depth, condemned);
        }
      }
    }

    /** Rebuilds the blooms from `root` up over the new disk layer, following the children. */
    method Rebloom(root: Hash, children: map<Hash, seq<Hash>>, base: DiskLayer, ghost stacks: map<Hash, seq<DiffLayer>>,
        ghost m: nat)
      requires Indexed(layers, stacks, base) && Family(children, layers, stacks, base) && Hanging(stacks)
      requires root in layers && root in stacks
      requires forall r :: r in stacks ==> |stacks[r]| <= m
      modifies Over(stacks, root)`origin, Over(stacks, root)`diffed
      ensures forall l :: l in Over(stacks, root) ==> Renewed(l, base)
      decreases m - |stacks[root]|
    {
      hide *;
      EntryRoot(layers, stacks, base, root);
      OverSelf(layers, stacks, base, root);
      if layers[root].Diff? {
        RebloomOne(root, layers[root].diff, base, stacks);
      }
      if root in children {
        var childs := children[root];
        FamilyList(layers, stacks, base, children, root);
        ghost var done: set<DiffLayer> := {};
        for k := 0 to |childs|
          invariant stacks[root] != [] ==> Renewed(stacks[root][0], base)
          invariant forall l :: l in done ==> Renewed(l, base)
          invariant forall l :: l in done ==> exists i :: 0 <= i < k && l in Over(stacks, childs[i])
          invariant forall i :: 0 <= i < k ==> Over(stacks, childs[i]) <= done
        {
          OverChild(layers, stacks, base, children, root, childs[k]);
          if stacks[root] != [] {
            TopOut(layers, stacks, base, root, childs[k]);
          }
          forall l | l in done
            ensures l !in Over(stacks, childs[k]) && (l.parent.Diff? ==> l.parent.diff !in Over(stacks, childs[k])) {
            var i :| 0 <= i < k && l in Over(stacks, childs[i]);
            OutOf(layers, stacks, base, childs[i], childs[k], l);
          }
          Rebloom(childs[k], children, base, stacks, m);
          assert forall l :: l in Over(stacks, childs[k]) ==> 0 <= k < k + 1 && l in Over(stacks, childs[k]);
          done := done + Over(stacks, childs[k]);
        }
      }
      forall l | l in Over(stacks, root) ensures Renewed(l, base) {
        if stacks[root] == [] || l != stacks[root][0] {
          OverSplits(layers, stacks, base, children, root, l);
        }
      }
    }

    method RebloomOne(root: Hash, diff: DiffLayer, base: DiskLayer, ghost stacks: map<Hash, seq<DiffLayer>>)
      requires Hanging(stacks) && root in stacks && stacks[root] != [] && stacks[root][0] == diff
      requires |stacks[root]| > 1 ==> stacks[root][1] != diff
      modifies diff`origin, diff`diffed
      ensures Renewed(diff, base)
    {
      assert HangsOn(stacks, stacks[root]);
      diff.ResetOrigin(base);
    }

    /** Flattens the whole stack into the disk layer. */
    method CapToDisk(diff: DiffLayer, ghost path: seq<DiffLayer>)
      requires Valid() && path != [] && path[0] == diff && PathOk(path, disk)
      modifies this, path, disk, db
      ensures Valid() && Straight(diff.root) && paths == map[diff.root := []] && layers.Keys == {diff.root}
      ensures SameView(old(Chain(path)), old(db.Contents()), [], db.Contents())
    {
      hide *;
      TreeDisk();
      PathBasics(path, disk);
      ghost var chain, stored := Chain(path), db.Contents();
      ChainLength(path);
      var flat := diff.Flatten(path, disk);
      FlattenView(chain, stored);
      var base := DiffToDisk(flat);
      CapPersistView([], flat.Contents(), stored, db.Contents());
      assert [] + [flat.Contents()] == [flat.Contents()];
      SameViewTrans(chain, stored, [flat.Contents()], stored, [], db.Contents());
      layers, paths, disk := map[base.root := Disk(base)], map[base.root := []], base;
      SingleDisk();
    }

    lemma TreeDisk()
      requires Valid()
      ensures disk.db == db && !disk.stale
    {
    }

    lemma SingleDisk()
      requires disk.db == db && !disk.stale && layers == map[disk.root := Disk(disk)] && paths == map[disk.root := []]
      ensures Valid() && Straight(disk.root) && paths[disk.root] == []
    {
      assert Roots([]) == {};
    }

    /** Removes what the cut left stale, and what hangs on it. */
    method Sweep(ghost x: Option<Cut>) returns (rest: map<Hash, seq<Hash>>)
      requires x.None? ==> forall r :: r in layers ==> !IsStale(layers[r])
      requires x.Some? ==> x.value.Right() && SameParents(x.value) && layers == x.value.After()
      requires x.Some? ==> forall r :: r in layers && IsStale(layers[r]) ==> r in x.value.Condemned()
      requires x.Some? ==> x.value.bottom.stale && (x.value.flat.None? ==> x.value.disk.stale)
      modifies this`layers
      ensures x.None? ==> layers == old(layers)
      ensures x.Some? ==> layers == x.value.Final()
      ensures x.Some? && x.value.flat.None? ==>
        Family(rest, x.value.Final(), x.value.FinalPaths(), x.value.disk')
    {
      hide *;
      ghost var after := layers;
      var children := Children();
      ghost var condemned := if x.Some? then x.value.Condemned() else {};
      ghost var depth: map<Hash, nat> := map[];
      if x.Some? {
        ghost var m := Longest(x.value.paths);
        depth := Depths(x.value.paths, m);
        CondemnedClosed(x.value, children, m);
      } else {
        NothingClosed(children);
      }
      rest := RemoveStale(children, depth, condemned);
      if x.Some? {
        CutBottom(x.value);
        StaleGone(after, layers, x.value.bottom.root);
        if x.value.flat.None? {
          StaleGone(after, layers, x.value.disk.root);
          FinalFamily(x.value, children, rest, layers.Keys);
        }
        FinalIs(x.value, children, rest, layers);
      } else {
        NothingGone(after, layers);
      }
    }

    lemma NothingClosed(children: map<Hash, seq<Hash>>)
      ensures Closed(children, map[], {})
    {
    }

    lemma NothingGone(after: map<Hash, Snapshot>, final: map<Hash, Snapshot>)
      requires final.Keys <= after.Keys && after.Keys - final.Keys <= {}
      requires forall r :: r in final ==> final[r] == after[r]
      ensures final == after
    {
      forall r | r in after ensures r in final {
        assert r !in after.Keys - final.Keys;
      }
    }

    lemma StaleGone(after: map<Hash, Snapshot>, final: map<Hash, Snapshot>, r: Hash)
      requires r in after && (after[r].Disk? ==> after[r].disk.stale) && (after[r].Diff? ==> after[r].diff.stale)
      requires forall r :: r in final ==> r in after && final[r] == after[r] && !IsStale(final[r])
      ensures r !in final
    {
    }

    /** Valid, but for stacks that hang on a layer that has gone stale. */
    ghost predicate Tidy()
      reads this, disk, LayersOf(paths), set l | l in LayersOf(paths) && l.parent.Diff? :: l.parent.diff
    {
      && disk.db == db && !disk.stale
      && Indexed(layers, paths, disk)
      && (forall r :: r in paths ==> SameLocator(paths[r], locate))
      && forall r :: r in paths ==> PathOk(paths[r], disk) || Adrift(paths[r])
    }

    lemma TreeParts(root: Hash)
      requires Valid() && root in layers
      ensures root in paths && disk.db == db && !disk.stale && Indexed(layers, paths, disk)
      ensures PathOk(paths[root], disk) && SameLocator(paths[root], locate)
      ensures layers[root] == if paths[root] == [] then Disk(disk) else Diff(paths[root][0])
      ensures paths[root] != [] ==> paths[root][0].root == root
      ensures forall l :: l in paths[root] ==> l in LayersOf(paths)
    {
      EntryRoot(layers, paths, disk, root);
    }

    lemma NothingStale()
      requires Valid()
      ensures forall r :: r in layers ==> !IsStale(layers[r])
    {
      forall r | r in layers ensures !IsStale(layers[r]) {
        TreeParts(r);
      }
    }

    lemma TreeKeys()
      requires Valid()
      ensures layers.Keys == paths.Keys && forall r :: r in paths ==> SameLocator(paths[r], locate)
    {
    }

    /** Takes down what the layers are. */
    lemma Record() returns (was: map<DiffLayer, State>, parents: map<DiffLayer, Snapshot>)
      requires Valid()
      ensures was.Keys == parents.Keys == LayersOf(paths)
      ensures forall l :: l in was ==> Is(l, was[l]) && l.parent == parents[l]
      ensures ParentsWere(paths, disk, parents)
      ensures forall r :: r in paths ==>
        && WasOk(paths[r], disk, was) && (forall l :: l in paths[r] ==> l in was)
        && Chain(paths[r]) == ChainWas(paths[r], was)
    {
      hide WasOk, Is, Indexed, Valid, PathOk, LayersOf, Chain, ChainWas;
      was := map l: DiffLayer | l in LayersOf(paths) :: State(l.stale, l.origin, l.diffed, l.Contents());
      parents := map l: DiffLayer | l in LayersOf(paths) :: l.parent;
      forall l | l in was ensures Is(l, was[l]) {
        Stated(l, was[l]);
      }
      Before(was, parents);
    }

    /** What there is before the cut. */
    lemma Before(was: map<DiffLayer, State>, parents: map<DiffLayer, Snapshot>)
      requires Valid()
      requires was.Keys == parents.Keys == LayersOf(paths)
      requires forall l :: l in was ==> Is(l, was[l]) && l.parent == parents[l]
      ensures ParentsWere(paths, disk, parents)
      ensures forall r :: r in paths ==>
        && WasOk(paths[r], disk, was) && (forall l :: l in paths[r] ==> l in was)
        && Chain(paths[r]) == ChainWas(paths[r], was)
    {
      hide WasOk, Is, Indexed, Valid, PathOk, LayersOf, Chain, ChainWas;
      TreeKeys();
      forall r | r in paths
        ensures (forall l :: l in paths[r] ==> l in was)
        ensures WasOk(paths[r], disk, was) && Chain(paths[r]) == ChainWas(paths[r], was)
      {
        TreeParts(r);
        Recorded(paths[r], disk, was);
      }
      forall r | r in paths && paths[r] != []
        ensures paths[r][0] in parents && parents[paths[r][0]] == Next(paths[r], disk, 0) {
        TreeParts(r);
        PathParts(paths[r], disk);
        assert paths[r][0] in paths[r];
      }
    }

    /** Cuts the stack at `root`, of more than `n + 1` layers. `was` and `parents` say what the layers
        were. */
    method CutStack(root: Hash, diff: DiffLayer, n: nat, ghost was: map<DiffLayer, State>,
        ghost parents: map<DiffLayer, Snapshot>)
      returns (base: Option<DiskLayer>, ghost x: Option<Cut>)
      requires Valid() && root in layers && root in paths && paths[root] != [] && paths[root][0] == diff && n >= 1
      requires was.Keys == parents.Keys && forall l :: l in paths[root] ==> l in was
      requires forall l :: l in was ==> Is(l, was[l]) && l.parent == parents[l]
      modifies this`layers, paths[root], disk, db
      ensures x.None? <==> |old(paths[root])| <= n + 1
      ensures x.None? ==> base.None? && layers == old(layers) && db.Contents() == old(db.Contents()) && Valid()
      ensures x.None? ==> forall l :: l in was ==> Is(l, was[l])
      ensures x.Some? ==> IsCut(x.value, old(layers), old(paths), old(disk), root, n) && layers == x.value.After()
      ensures x.Some? ==> Made(x.value, was, parents, db, old(db.Contents()))
      ensures x.Some? ==> base == if x.value.flat.Some? then None else Some(x.value.disk')
      ensures x.Some? ==> if x.value.flat.Some? then fresh(x.value.flat.value) else fresh(x.value.disk')
    {
      hide *;
      ghost var path, d, before, stacks, stored := paths[root], disk, layers, paths, db.Contents();
      TreeParts(root);
      PathParts(path, d);
      ChainRecorded(path, was);
      ghost var tail := if |path| > n + 1 then ChainWas(path, was)[n..] else [];
      ChainWasTail(path, was, if |path| > n + 1 then n else 0);
      ghost var flat: Option<DiffLayer>;
      base, flat := CapStack(diff, n, path, d, was, parents);
      x := None;
      if |path| > n + 1 {
        ghost var made := CutOf(before, stacks, d, root, n, flat, base);
        x := Some(made);
        CutOfRight(before, stacks, d, root, n, flat, base);
        NowCut(before, stacks, d, root, n, flat, base);
        NowOnly(made, was, parents);
        if flat.Some? {
          NowFlattened(made, was, tail);
        } else {
          NowWritten(made, was, tail, stored, db.Contents());
        }
        NowMade(made, was, parents, db, stored);
      }
    }

    /** Caps the stack at `root`, for at least one layer to keep. `x` is the cut that is made, `was` says
        what the layers were. */
    method CapAbove(root: Hash, diff: DiffLayer, n: nat)
      returns (ghost x: Option<Cut>, ghost was: map<DiffLayer, State>)
      requires Valid() && root in layers && root in paths && paths[root] != [] && paths[root][0] == diff && n >= 1
      modifies this, LayersOf(paths), disk, db
      ensures was.Keys == LayersOf(old(paths))
      ensures forall r :: r in old(paths) ==>
        (forall l :: l in old(paths)[r] ==> l in was) && old(Chain(paths[r])) == ChainWas(old(paths)[r], was)
      ensures x.None? <==> |old(paths[root])| <= n + 1
      ensures x.None? ==> Valid() && layers == old(layers) && paths == old(paths) && disk == old(disk)
      ensures x.None? ==> db.Contents() == old(db.Contents()) && forall l :: l in was ==> Is(l, was[l])
      ensures x.Some? ==> IsCut(x.value, old(layers), old(paths), old(disk), root, n)
      ensures x.Some? ==> layers == x.value.Final() && paths == x.value.FinalPaths() && disk == x.value.disk'
      ensures x.Some? ==> Done(x.value, was, db, old(db.Contents()), locate)
    {
      hide *;
      ghost var layers0, stacks, d := layers, paths, disk;
      ghost var parents: map<DiffLayer, Snapshot>;
      was, parents := Record();
      ghost var stored := db.Contents();
      TreeParts(root);
      TreeKeys();
      assert forall r, l :: r in stacks && l in stacks[r] ==> allocated(l);
      var base: Option<DiskLayer>;
      base, x := CutStack(root, diff, n, was, parents);
      if x.None? {
        NothingStale();
      } else {
        CutIs(x.value, layers0, stacks, d, root, n);
        CutReady(x.value, was, parents, db, stored);
        CutLeft(x.value, was, parents, db, stored, locate);
      }
      var rest := Sweep(x);
      if base.Some? {
        RebloomAll(base.value, rest, x.value, was, stored);
      }
      if x.Some? {
        AllDone(x.value, was, db, stored, locate);
        Adopt(x.value, was, stored);
      }
    }

    ghost method Adopt(x: Cut, was: map<DiffLayer, State>, before: Stored)
      requires Done(x, was, db, before, locate)
      modifies this`paths, this`disk
      ensures paths == x.FinalPaths() && disk == x.disk' && Done(x, was, db, before, locate)
    {
      hide Cut.FinalPaths;
      paths, disk := x.FinalPaths(), x.disk';
    }

    /** Rebuilds all blooms over a new disk layer. */
    method RebloomAll(base: DiskLayer, children: map<Hash, seq<Hash>>, ghost x: Cut, ghost was: map<DiffLayer, State>,
        ghost before: Stored)
      requires Left(x, was, db, before, locate) && x.flat.None? && x.disk' == base && layers == x.Final()
      requires Family(children, x.Final(), x.FinalPaths(), x.disk')
      requires LayersOf(x.paths) <= was.Keys
      modifies LayersOf(x.paths)`origin, LayersOf(x.paths)`diffed
      ensures AllRenewed(x.FinalPaths(), base) && Left(x, was, db, before, locate)
    {
      hide *;
      ghost var stacks := x.FinalPaths();
      ghost var m := Longest(stacks);
      LeftParts(x, was, db, before, locate);
      CutIndexed(x);
      IndexedDisk(layers, stacks, base);
      FinalHanging(x);
      OverOld(x, base.root);
      assert forall l :: l in LayersOf(x.paths) ==> l in was;
      Rebloom(base.root, children, base, stacks, m);
      NowRenewed(stacks, base);
    }

    lemma TidyOrValid(x: Cut, was: map<DiffLayer, State>, before: Stored)
      requires x.Right() && layers == x.Final() && paths == x.FinalPaths() && disk == x.disk'
      requires Done(x, was, db, before, locate)
      ensures Tidy() && (Valid() <==> forall r :: r in layers ==> !IsOff(x, r))
      ensures forall r :: r in layers ==> r in paths && (IsOff(x, r) ==> Adrift(paths[r]))
    {
      hide Indexed, Cut.Right, Cut.Final, Cut.FinalPaths, PathOk, Adrift, SameView, IsOff, Chain, ChainWas, SameLocator;
      CutIndexed(x);
      FinalKeys(x);
      assert forall r :: r in paths ==> StackDone(x, r, paths[r], was, db, before, locate);
      forall r | r in paths && IsOff(x, r) ensures !PathOk(paths[r], disk) {
        if PathOk(paths[r], disk) {
          OkNotAdrift(paths[r], disk);
        }
      }
    }

    /** Which stacks are in order after the cut, and which are not. */
    lemma CutSound(x: Cut, root: Hash, n: nat, was: map<DiffLayer, State>, layers0: map<Hash, Snapshot>,
        stacks: map<Hash, seq<DiffLayer>>, d: DiskLayer, before: Stored)
      requires IsCut(x, layers0, stacks, d, root, n) && root in layers0
      requires layers == x.Final() && paths == x.FinalPaths() && disk == x.disk'
      requires Done(x, was, db, before, locate)
      ensures Tidy() && CutBelow(stacks, layers, paths, root, n)
      ensures Valid() <==> forall r :: r in layers ==> !HangsOff(stacks, root, n, r)
      ensures forall r :: r in layers && HangsOff(stacks, root, n, r) ==> r in paths && Adrift(paths[r])
    {
      hide Done, Cut.Final, Cut.FinalPaths, Cut.Right, Indexed, PathOk, Adrift, Valid, Tidy, CutBelow, Off;
      TidyOrValid(x, was, before);
      CutBelowIs(x, root, n, layers0, stacks, d);
      forall r ensures IsOff(x, r) <==> HangsOff(stacks, root, n, r) {
        OffParts(x, r);
      }
    }

    lemma AllSame()
      ensures forall r :: r in paths ==> SameView(Chain(paths[r]), db.Contents(), Chain(paths[r]), db.Contents())
    {
      forall r | r in paths ensures SameView(Chain(paths[r]), db.Contents(), Chain(paths[r]), db.Contents()) {
        SameViewSelf(Chain(paths[r]), db.Contents());
      }
    }

    lemma StraightParts(root: Hash)
      ensures Straight(root) <==> root in paths && StraightAt(layers, paths[root], disk)
    {
    }

    /** Caps the stack at `root` for at least one layer to keep. */
    method CapTo(root: Hash, diff: DiffLayer, n: nat)
      requires Valid() && root in layers && root in paths && paths[root] != [] && paths[root][0] == diff && n >= 1
      modifies this, LayersOf(paths), disk, db
      ensures Tidy() && root in layers && root in paths
      ensures forall r :: r in paths ==>
        r in old(paths) && SameView(old(Chain(paths[r])), old(db.Contents()), Chain(paths[r]), db.Contents())
      ensures |old(paths[root])| <= n + 1 ==>
        Valid() && layers == old(layers) && paths == old(paths) && disk == old(disk)
      ensures |old(paths[root])| > n + 1 ==> CutBelow(old(paths), layers, paths, root, n)
      ensures |old(paths[root])| > n + 1 ==>
        && (Valid() <==> forall r :: r in layers ==> !HangsOff(old(paths), root, n, r))
        && forall r :: r in layers && HangsOff(old(paths), root, n, r) ==> r in paths && Adrift(paths[r])
      ensures old(Straight(root)) ==> Valid() && Straight(root)
    {
      hide *;
      ghost var layers0, stacks, d, stored, straight := layers, paths, disk, db.Contents(), Straight(root);
      StraightParts(root);
      ghost var x, was := CapAbove(root, diff, n);
      if x.Some? {
        CutIs(x.value, layers0, stacks, d, root, n);
        CutSound(x.value, root, n, was, layers0, stacks, d, stored);
        NewStack(x.value, root, n, layers0, stacks, d);
        DoneViews(x.value, was, db, stored, locate);
        if straight {
          StraightStays(x.value, root, n, layers0, stacks, d);
          TidyOrValid(x.value, was, stored);
        }
      } else {
        ValidTidy();
        AllStay(paths, was, db.Contents());
        StraightParts(root);
      }
    }

    lemma StraightStays(x: Cut, root: Hash, n: nat, layers0: map<Hash, Snapshot>, stacks: map<Hash, seq<DiffLayer>>,
        d: DiskLayer)
      requires IsCut(x, layers0, stacks, d, root, n) && root in layers0 && StraightAt(layers0, stacks[root], d)
      requires layers == x.Final() && paths == x.FinalPaths() && disk == x.disk'
      ensures Straight(root) && forall r :: r in layers ==> !IsOff(x, r)
    {
      hide Cut.Final, Cut.FinalPaths, Cut.Right, Indexed, StraightAt, IsOff;
      NewStack(x, root, n, layers0, stacks, d);
      forall r | r in layers ensures !IsOff(x, r) && r in Roots(paths[root]) + {disk.root} {
        StraightEntry(x, root, n, layers0, stacks, d, r);
      }
      StraightHas(root);
    }

    lemma StraightHas(root: Hash)
      requires Indexed(layers, paths, disk) && root in layers && root in paths
      requires forall r :: r in layers ==> r in Roots(paths[root]) + {disk.root}
      ensures Straight(root)
    {
      hide Indexed;
      IndexedDisk(layers, paths, disk);
      forall r | r in Roots(paths[root]) ensures r in layers {
        var i: nat :| i < |paths[root]| && paths[root][i].root == r;
        TailEntry(layers, paths, disk, root, i);
      }
    }

    lemma ValidTidy()
      requires Valid()
      ensures Tidy()
    {
    }

    /** Limits the stack at `root` to `n` layers and one more that collects what is older; the
        collecting layer is written to disk when it holds too much. With no layer to keep,
        everything is written. An unknown root changes nothing. */
    method Cap(root: Hash, n: nat)
      requires root in layers ==> Valid()
      modifies this, LayersOf(paths), disk, db
      ensures root !in old(layers) ==> layers == old(layers) && db.Contents() == old(db.Contents())
      ensures root in old(layers) ==> Tidy() && root in layers && root in old(paths) && root in paths
      ensures root in old(layers) ==> forall r :: r in paths ==>
        r in old(paths) && SameView(old(Chain(paths[r])), old(db.Contents()), Chain(paths[r]), db.Contents())
      ensures root in old(layers) && (old(paths[root]) == [] || (n > 0 && |old(paths[root])| <= n + 1)) ==>
        Valid() && layers == old(layers) && paths == old(paths)
      ensures root in old(layers) && n == 0 ==> Valid() && paths[root] == []
      ensures root in old(layers) && n == 0 && old(paths[root]) != [] ==> layers.Keys == {root}
      ensures root in old(layers) && 0 < n < |old(paths[root])| - 1 ==>
        && CutBelow(old(paths), layers, paths, root, n)
        && (Valid() <==> forall r :: r in layers ==> !HangsOff(old(paths), root, n, r))
        && forall r :: r in layers && HangsOff(old(paths), root, n, r) ==> r in paths && Adrift(paths[r])
      ensures root in old(layers) && old(Straight(root)) ==> Valid() && Straight(root)
    {
      hide *;
      if root !in layers {
        return;
      }
      TreeParts(root);
      if layers[root].Disk? {
        AllSame();
        ValidTidy();
        return;
      }
      var diff := layers[root].diff;
      if n == 0 {
        CapToDisk(diff, paths[root]);
        ValidTidy();
        EmptyChain();
        assert forall r :: r in paths ==> r == root;
      } else {
        CapTo(root, diff, n);
      }
    }

    /** The layers of the stack at `root`, none if there is no such stack. */
    ghost function LayersAt(root: Hash): set<DiffLayer>
      reads this`paths
    {
      LayersIn(paths, root)
    }

    lemma LayersAtIs(root: Hash)
      ensures LayersAt(root) == LayersIn(paths, root)
    {
    }

    lemma StraightLayers(root: Hash)
      requires root in layers ==> Valid() && Straight(root)
      requires root !in layers ==> paths == map[]
      ensures LayersOf(paths) <= LayersAt(root) == LayersIn(paths, root)
    {
      if root in layers {
        StraightOnly(layers, paths, disk, root);
      }
    }

    /** What the node does with the snapshots after each block. An unknown root empties the tree. */
    method Commit(root: Hash, n: nat)
      requires Valid()
      modifies this, LayersAt(root), disk, db
      ensures root in old(layers) ==> Valid() && Straight(root)
      ensures root in old(layers) ==> |paths[root]| <= if n == 0 then 0 else n + 1
      ensures root in old(layers) ==>
        root in old(paths) && SameView(old(Chain(paths[root])), old(db.Contents()), Chain(paths[root]), db.Contents())
      ensures root !in old(layers) ==> layers == map[] && db.Contents() == old(db.Contents())
    {
      hide *;
      if root in layers {
        TreeParts(root);
      }
      ghost var known, path := root in layers, if root in layers then paths[root] else [];
      LayersAtIs(root);
      LayersInIs(paths, root);
      Discard(root);
      if known {
        StraightIn(root);
      }
      StraightLayers(root);
      LayersInIs(paths, root);
      ChainSame(path);
      ghost var stacks := paths;
      Cap(root, n);
      if known && 0 < n < |path| - 1 {
        CutSize(stacks, layers, paths, root, n);
      }
    }

    lemma StraightIn(root: Hash)
      requires Valid() && Straight(root)
      ensures root in layers && root in paths
    {
    }
  }

  method Grow(tree: SnapTree, root: Hash, parentRoot: Hash, ghost before: set<DiffLayer>)
    returns (ghost after: set<DiffLayer>)
    requires tree.Valid() && root !in tree.layers && parentRoot in tree.layers && tree.layers.Keys == tree.paths.Keys
    requires LayersOf(tree.paths) <= before
    modifies tree
    ensures tree.Valid() && tree.disk == old(tree.disk) && tree.layers.Keys == old(tree.layers).Keys + {root}
    ensures tree.paths.Keys == tree.layers.Keys && |tree.paths[root]| == |old(tree.paths[parentRoot])| + 1
    ensures tree.paths[root][1..] == old(tree.paths[parentRoot])
    ensures forall r :: r in old(tree.paths) ==> tree.paths[r] == old(tree.paths)[r]
    ensures LayersOf(tree.paths) <= after && fresh(after - before)
  {
    hide *;
    ghost var stacks := tree.paths;
    var ok := tree.Update(root, parentRoot, Changes({}, map[], map[]), 0);
    assert tree.paths.Keys == stacks.Keys + {root};
    LayersFrom(tree.paths);
    ghost var top, below := tree.paths[root][0], tree.paths[root][1..];
    assert tree.paths[root] == [top] + below;
    assert forall l :: l in below ==> l in LayersOf(stacks);
    after := before + {top};
  }

  method TwoLayers(disk: DiskLayer, locate: Locator) returns (tree: SnapTree, ghost ls: set<DiffLayer>)
    requires !disk.stale && disk.root == 0
    ensures fresh(tree) && tree.Valid() && tree.disk == disk && tree.db == disk.db
    ensures LayersOf(tree.paths) <= ls && fresh(ls) && tree.layers.Keys == tree.paths.Keys == {0, 1, 2}
    ensures |tree.paths[2]| == 2
  {
    hide *;
    tree := new SnapTree(disk, locate);
    ls := {};
    LayersFrom(tree.paths);
    ls := Grow(tree, 1, 0, ls);
    assert tree.layers.Keys == {0, 1};
    ls := Grow(tree, 2, 1, ls);
  }

  /** Two layers, and two branches on them. */
  method TwoBranches(disk: DiskLayer, locate: Locator) returns (tree: SnapTree)
    requires !disk.stale && disk.root == 0
    ensures fresh(tree) && tree.Valid() && tree.disk == disk && tree.db == disk.db
    ensures fresh(LayersOf(tree.paths)) && {2, 3, 4} <= tree.layers.Keys && {2, 3, 4} <= tree.paths.Keys
    ensures |tree.paths[2]| == 2 && |tree.paths[3]| == |tree.paths[4]| == 3
    ensures tree.paths[3][1..] == tree.paths[4][1..] == tree.paths[2]
  {
    hide *;
    ghost var ls;
    tree, ls := TwoLayers(disk, locate);
    ls := Grow(tree, 3, 2, ls);
    assert tree.layers.Keys == {0, 1, 2, 3};
    ls := Grow(tree, 4, 2, ls);
  }

  /** A branch that capping without discarding leaves on a layer that has gone stale. */
  method StrandedBranch(disk: DiskLayer, locate: Locator) returns (tree: SnapTree)
    requires !disk.stale && disk.root == 0
    modifies disk, disk.db
    ensures tree.Tidy() && !tree.Valid() && 4 in tree.layers && 4 in tree.paths && Adrift(tree.paths[4])
  {
    tree := TwoBranches(disk, locate);
    tree.TreeParts(3);
    Branches(tree.layers, tree.paths, tree.disk);
    LayersFrom(tree.paths);
    hide *;
    tree.Cap(3, 1);
  }

  lemma Branches(layers: map<Hash, Snapshot>, paths: map<Hash, seq<DiffLayer>>, disk: DiskLayer)
    requires Indexed(layers, paths, disk) && {2, 3, 4} <= layers.Keys && {2, 3, 4} <= paths.Keys
    requires |paths[2]| == 2 && |paths[3]| == |paths[4]| == 3 && paths[3][1..] == paths[4][1..] == paths[2]
    ensures HangsOff(paths, 3, 1, 4) && paths[3][1] in paths[4]
  {
    hide Indexed;
    EntryRoot(layers, paths, disk, 2);
    EntryRoot(layers, paths, disk, 3);
    EntryRoot(layers, paths, disk, 4);
    assert paths[4][1] == paths[4][1..][0] == paths[3][1..][0] == paths[3][1];
    assert paths[4][0].root != paths[4][1].root;
  }
}
