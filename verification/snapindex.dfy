/** The index of a snapshot tree, from roots to layers, with the stack of layers below each entry. */
module SnapIndexes {
  import opened SnapViews
  import opened SnapLayers

  ghost predicate PathOk(path: seq<DiffLayer>, disk: DiskLayer)
    reads path, disk
  {
    Linked(path, disk) && Live(path, disk) && Origins(path, disk) && Covered(path)
  }

  lemma StackedLinked(snap: DiffLayer, below: seq<DiffLayer>, disk: DiskLayer)
    requires Linked(below, disk) && snap !in below
    requires snap.parent == (if below == [] then Disk(disk) else Diff(below[0]))
    ensures Linked([snap] + below, disk)
  {
    var path := [snap] + below;
    forall i | 0 <= i < |path| ensures path[i].parent == Next(path, disk, i) {
      if i > 0 {
        assert below[i - 1].parent == Next(below, disk, i - 1);
      }
    }
  }

  lemma StackedCovered(snap: DiffLayer, below: seq<DiffLayer>)
    requires Covered(below)
    requires below == [] || (snap.locate == below[0].locate && below[0].diffed <= snap.diffed)
    requires Covers(snap.locate, snap.diffed, snap.Contents())
    ensures Covered([snap] + below)
  {
    var path := [snap] + below;
    forall i, j | 0 <= i <= j < |path|
      ensures path[i].locate == path[j].locate && Covers(path[i].locate, path[i].diffed, path[j].Contents())
    {
      if i > 0 {
        assert Covers(below[i - 1].locate, below[i - 1].diffed, below[j - 1].Contents());
      } else if j > 0 {
        assert Covers(below[0].locate, below[0].diffed, below[j - 1].Contents());
      }
    }
  }

  lemma Stacked(snap: DiffLayer, below: seq<DiffLayer>, disk: DiskLayer)
    requires PathOk(below, disk) && snap !in below
    requires snap.parent == (if below == [] then Disk(disk) else Diff(below[0])) && !snap.stale && snap.origin == disk
    requires !disk.stale
    requires below == [] || (snap.locate == below[0].locate && below[0].diffed <= snap.diffed)
    requires Covers(snap.locate, snap.diffed, snap.Contents())
    ensures PathOk([snap] + below, disk)
  {
    hide Covers, Linked, Covered;
    StackedLinked(snap, below, disk);
    StackedCovered(snap, below);
  }

  lemma PathTop(path: seq<DiffLayer>, disk: DiskLayer)
    requires PathOk(path, disk)
    ensures path != [] ==> path[0].origin == disk
  {
  }

  // ---- The index from roots to layers ----

  /** Every entry is the disk layer or the top of a stack whose layers all have their own entry. */
  ghost predicate Indexed(layers: map<Hash, Snapshot>, paths: map<Hash, seq<DiffLayer>>, disk: DiskLayer) {
    && disk.root in layers && layers[disk.root] == Disk(disk)
    && paths.Keys == layers.Keys
    && forall r :: r in layers ==> IndexedAt(layers, paths, disk, r)
  }

  ghost predicate IndexedAt(layers: map<Hash, Snapshot>, paths: map<Hash, seq<DiffLayer>>, disk: DiskLayer, r: Hash)
    requires r in layers && r in paths
  {
    match layers[r]
    case Disk(d) => d == disk && r == disk.root && paths[r] == []
    case Diff(diff) => paths[r] != [] && diff == paths[r][0] && diff.root == r && OnTree(layers, paths, paths[r])
  }

  ghost predicate OnTree(layers: map<Hash, Snapshot>, paths: map<Hash, seq<DiffLayer>>, path: seq<DiffLayer>) {
    forall i :: 0 <= i < |path| ==> HasEntry(layers, paths, path[i].root, path[i], path[i..])
  }

  ghost predicate HasEntry(layers: map<Hash, Snapshot>, paths: map<Hash, seq<DiffLayer>>, r: Hash, diff: DiffLayer,
      path: seq<DiffLayer>) {
    r in layers && layers[r] == Diff(diff) && r in paths && paths[r] == path
  }

  lemma IndexGrows(layers: map<Hash, Snapshot>, paths: map<Hash, seq<DiffLayer>>, disk: DiskLayer, snap: DiffLayer,
      parentRoot: Hash)
    requires Indexed(layers, paths, disk) && snap.root !in layers && parentRoot in layers
    ensures Indexed(layers[snap.root := Diff(snap)], paths[snap.root := [snap] + paths[parentRoot]], disk)
  {
    var path := [snap] + paths[parentRoot];
    var layers', paths' := layers[snap.root := Diff(snap)], paths[snap.root := path];
    assert IndexedAt(layers, paths, disk, parentRoot);
    assert OnTree(layers, paths, paths[parentRoot]);
    forall i | 0 <= i < |path| ensures HasEntry(layers', paths', path[i].root, path[i], path[i..]) {
      if i > 0 {
        assert HasEntry(layers, paths, path[i].root, paths[parentRoot][i - 1], paths[parentRoot][i - 1..]);
        assert path[i..] == paths[parentRoot][i - 1..];
      } else {
        assert path[0..] == path;
      }
    }
    forall r | r in layers' ensures IndexedAt(layers', paths', disk, r) {
      if r != snap.root {
        assert IndexedAt(layers, paths, disk, r);
        assert OnTree(layers', paths', paths[r]) by {
          forall i | 0 <= i < |paths[r]|
            ensures HasEntry(layers', paths', paths[r][i].root, paths[r][i], paths[r][i..])
          {
            assert layers[r].Diff?;
            assert HasEntry(layers, paths, paths[r][i].root, paths[r][i], paths[r][i..]);
          }
        }
      }
    }
  }

  ghost function LayersOf(paths: map<Hash, seq<DiffLayer>>): (ls: set<DiffLayer>)
    ensures forall r, l :: r in paths && l in paths[r] ==> l in ls
  {
    set r, l | r in paths && l in paths[r] :: l
  }

  lemma LayersFrom(paths: map<Hash, seq<DiffLayer>>)
    ensures forall l :: l in LayersOf(paths) ==> exists r :: r in paths && l in paths[r]
  {
  }

  ghost predicate AllOk(paths: map<Hash, seq<DiffLayer>>, disk: DiskLayer)
    reads disk, LayersOf(paths)
  {
    forall r :: r in paths ==> PathOk(paths[r], disk)
  }

  ghost predicate SameLocator(path: seq<DiffLayer>, locate: Locator) {
    forall i :: 0 <= i < |path| ==> path[i].locate == locate
  }

  lemma IndexTop(layers: map<Hash, Snapshot>, paths: map<Hash, seq<DiffLayer>>, disk: DiskLayer, r: Hash)
    requires Indexed(layers, paths, disk) && r in layers
    ensures r in paths && (if paths[r] == [] then layers[r] == Disk(disk) else layers[r] == Diff(paths[r][0]))
  {
    assert IndexedAt(layers, paths, disk, r);
  }

  function Roots(path: seq<DiffLayer>): set<Hash> {
    set i: nat | i < |path| :: path[i].root
  }

  /** Nothing but the stack at `root` and the disk layer. */
  ghost predicate StraightAt(layers: map<Hash, Snapshot>, path: seq<DiffLayer>, disk: DiskLayer) {
    layers.Keys == Roots(path) + {disk.root}
  }

  /** The entries of one stack. */
  function Stack(path: seq<DiffLayer>, disk: DiskLayer): set<Snapshot> {
    (set i: nat | i < |path| :: Diff(path[i])) + {Disk(disk)}
  }

  function Kept(layers: map<Hash, Snapshot>, stack: set<Snapshot>): map<Hash, Snapshot> {
    map r | r in layers && layers[r] in stack :: layers[r]
  }

  function KeptPaths(paths: map<Hash, seq<DiffLayer>>, kept: map<Hash, Snapshot>): map<Hash, seq<DiffLayer>> {
    map r | r in kept && r in paths :: paths[r]
  }

  lemma KeptRoots(layers: map<Hash, Snapshot>, paths: map<Hash, seq<DiffLayer>>, disk: DiskLayer, root: Hash)
    requires Indexed(layers, paths, disk) && root in layers
    ensures Kept(layers, Stack(paths[root], disk)).Keys == Roots(paths[root]) + {disk.root}
  {
    var path := paths[root];
    var kept := Kept(layers, Stack(path, disk));
    assert IndexedAt(layers, paths, disk, root);
    forall r | r in kept ensures r in Roots(path) + {disk.root} {
      assert IndexedAt(layers, paths, disk, r);
    }
    forall r | r in Roots(path) ensures r in kept {
      var i: nat :| i < |path| && path[i].root == r;
      assert HasEntry(layers, paths, path[i].root, path[i], path[i..]);
      assert Diff(path[i]) in Stack(path, disk);
    }
  }

  lemma PruneIndex(layers: map<Hash, Snapshot>, paths: map<Hash, seq<DiffLayer>>, disk: DiskLayer, root: Hash)
    requires Indexed(layers, paths, disk) && root in layers
    ensures root in paths
    ensures var kept := Kept(layers, Stack(paths[root], disk));
      Indexed(kept, KeptPaths(paths, kept), disk) && root in kept && StraightAt(kept, paths[root], disk)
  {
    var path := paths[root];
    var kept := Kept(layers, Stack(path, disk));
    var paths' := KeptPaths(paths, kept);
    KeptRoots(layers, paths, disk, root);
    assert IndexedAt(layers, paths, disk, root);
    assert root in kept by {
      assert layers[root].Diff? ==> Diff(path[0]) in Stack(path, disk);
    }
    forall r | r in kept ensures IndexedAt(kept, paths', disk, r) {
      assert IndexedAt(layers, paths, disk, r);
      if layers[r].Diff? {
        PruneEntries(layers, paths, disk, root, r);
      }
    }
  }

  lemma PruneEntries(layers: map<Hash, Snapshot>, paths: map<Hash, seq<DiffLayer>>, disk: DiskLayer, root: Hash,
      r: Hash)
    requires Indexed(layers, paths, disk) && root in layers && r in layers && layers[r].Diff?
    requires layers[r] in Stack(paths[root], disk)
    ensures var kept := Kept(layers, Stack(paths[root], disk)); OnTree(kept, KeptPaths(paths, kept), paths[r])
  {
    var path := paths[root];
    var k := InStack(layers, paths, disk, root, r);
    hide Indexed, IndexedAt, HasEntry, Kept, KeptPaths, Stack;
    var kept := Kept(layers, Stack(path, disk));
    forall i | 0 <= i < |paths[r]|
      ensures HasEntry(kept, KeptPaths(paths, kept), paths[r][i].root, paths[r][i], paths[r][i..])
    {
      assert paths[r][i..] == path[k + i..];
      KeptEntry(layers, paths, disk, path, k + i);
    }
  }

  lemma InStack(layers: map<Hash, Snapshot>, paths: map<Hash, seq<DiffLayer>>, disk: DiskLayer, root: Hash, r: Hash)
      returns (k: nat)
    requires Indexed(layers, paths, disk) && root in layers && r in layers && layers[r].Diff?
    requires layers[r] in Stack(paths[root], disk)
    ensures k <= |paths[root]| && paths[r] == paths[root][k..] && OnTree(layers, paths, paths[root])
  {
    hide OnTree;
    var path := paths[root];
    assert IndexedAt(layers, paths, disk, r) && IndexedAt(layers, paths, disk, root);
    k :| k < |path| && Diff(path[k]) == layers[r];
    TreeEntry(layers, paths, path, k);
  }

  lemma TreeEntry(layers: map<Hash, Snapshot>, paths: map<Hash, seq<DiffLayer>>, path: seq<DiffLayer>, k: nat)
    requires OnTree(layers, paths, path) && k < |path|
    ensures HasEntry(layers, paths, path[k].root, path[k], path[k..])
  {
  }

  lemma KeptEntry(layers: map<Hash, Snapshot>, paths: map<Hash, seq<DiffLayer>>, disk: DiskLayer, path: seq<DiffLayer>,
      k: nat)
    requires OnTree(layers, paths, path) && k < |path|
    ensures var kept := Kept(layers, Stack(path, disk));
      HasEntry(kept, KeptPaths(paths, kept), path[k].root, path[k], path[k..])
  {
    hide OnTree;
    TreeEntry(layers, paths, path, k);
    assert Diff(path[k]) in Stack(path, disk);
  }

  function RootOf(s: Snapshot): Hash {
    if s.Disk? then s.disk.root else s.diff.root
  }

  function IsStale(s: Snapshot): bool
    reads if s.Disk? then {s.disk} else {s.diff}
  {
    if s.Disk? then s.disk.stale else s.diff.stale
  }

  /** `children` lists, for each root, the entries of diff layers whose parent has that root. */
  ghost predicate ChildrenOf(layers: map<Hash, Snapshot>, children: map<Hash, seq<Hash>>)
    reads set r | r in layers && layers[r].Diff? :: layers[r].diff
  {
    && (forall r :: r in layers && layers[r].Diff? ==>
          RootOf(layers[r].diff.parent) in children && r in children[RootOf(layers[r].diff.parent)])
    && (forall p, r :: p in children && r in children[p] ==>
      r in layers && layers[r].Diff? && RootOf(layers[r].diff.parent) == p)
    && (forall p :: p in children ==> NoRepeats(children[p]))
  }

  predicate NoRepeats(list: seq<Hash>) {
    forall i, j :: 0 <= i < j < |list| ==> list[i] != list[j]
  }

  lemma ChildAdded(layers: map<Hash, Snapshot>, children: map<Hash, seq<Hash>>, root: Hash, diff: DiffLayer)
    requires ChildrenOf(layers, children) && root !in layers
    ensures var p := RootOf(diff.parent);
      ChildrenOf(layers[root := Diff(diff)], children[p := (if p in children then children[p] else []) + [root]])
  {
    var p := RootOf(diff.parent);
    var layers', children' := layers[root := Diff(diff)],
      children[p := (if p in children then children[p] else []) + [root]];
    forall r | r in layers' && layers'[r].Diff?
      ensures RootOf(layers'[r].diff.parent) in children' && r in children'[RootOf(layers'[r].diff.parent)]
    {
      if r != root {
        assert r in children[RootOf(layers[r].diff.parent)];
      }
    }
    forall q, r | q in children' && r in children'[q]
      ensures r in layers' && layers'[r].Diff? && RootOf(layers'[r].diff.parent) == q
    {
      if q in children && r in children[q] {
        assert layers'[r] == layers[r];
      }
    }
  }

  ghost predicate Closed(children: map<Hash, seq<Hash>>, depth: map<Hash, nat>, condemned: set<Hash>) {
    && (forall p :: p in condemned ==> p in depth)
    && forall p, r :: p in condemned && p in children && r in children[p] ==>
      r in condemned && r in depth && depth[r] < depth[p]
  }

  /** What has been struck off the list of children has no children left. */
  ghost predicate Progress(all: map<Hash, seq<Hash>>, rest: map<Hash, seq<Hash>>, roots: set<Hash>,
      condemned: set<Hash>) {
    && rest.Keys <= all.Keys
    && (forall p :: p in rest ==> rest[p] == all[p])
    && (forall p :: p in all && p !in condemned ==> p in rest)
    && (forall p, r :: p in all && p !in rest && r in all[p] ==> r !in roots && r !in rest)
  }

  lemma SameViewSelf(chain: seq<Changes>, disk: Stored)
    ensures SameView(chain, disk, chain, disk)
  {
  }

  lemma PathParts(path: seq<DiffLayer>, d: DiskLayer)
    requires PathOk(path, d)
    ensures Linked(path, d) && !d.stale
    ensures forall l :: l in path ==> !l.stale && l.locate == path[0].locate
    ensures forall i, j :: 0 <= i < j < |path| ==> path[i] != path[j]
    ensures forall i :: 0 <= i < |path| ==> path[i].parent == Next(path, d, i)
  {
    assert forall i :: 0 <= i < |path| ==> path[0].locate == path[i].locate;
  }

  lemma NextParts(path: seq<DiffLayer>, d: DiskLayer, i: nat)
    requires i < |path| && Linked(path, d)
    ensures path[i].parent == if i + 1 < |path| then Diff(path[i + 1]) else Disk(d)
  {
    assert path[i].parent == Next(path, d, i);
  }

  lemma ChainLength(path: seq<DiffLayer>)
    ensures |Chain(path)| == |path|
  {
  }

  twostate lemma ChainSame(path: seq<DiffLayer>)
    requires forall l :: l in path ==> l.Contents() == old(l.Contents())
    ensures Chain(path) == old(Chain(path))
  {
  }

  lemma PathFacts(path: seq<DiffLayer>, n: nat, d: DiskLayer)
    requires 1 <= n < |path| - 1 && PathOk(path, d)
    ensures Linked(path, d) && Covered(path) && !d.stale
    ensures forall i, j :: 0 <= i < j < |path| ==> path[i] != path[j]
    ensures forall i :: 0 <= i < n - 1 ==> path[i].parent == Diff(path[i + 1])
    ensures forall i :: 0 <= i < |path| ==>
      !path[i].stale && path[i].origin == d && Chain(path)[i] == path[i].Contents()
    ensures forall i, j :: 0 <= i <= j < n ==>
      path[i].locate == path[j].locate && Covers(path[i].locate, path[i].diffed, path[j].Contents())
    ensures |Chain(path)| == |path|
  {
    hide Covers;
    assert forall i :: 0 <= i < n - 1 ==> path[i].parent == Next(path, d, i);
  }

  lemma PathJoin(path: seq<DiffLayer>, d: DiskLayer)
    requires Linked(path, d) && Covered(path) && !d.stale
    requires forall i :: 0 <= i < |path| ==> !path[i].stale && path[i].origin == d
    ensures PathOk(path, d)
  {
  }

  lemma Suffix(path: seq<DiffLayer>, n: nat, disk: DiskLayer)
    requires n < |path| && Linked(path, disk) && Covered(path)
    ensures Linked(path[n..], disk) && Covered(path[n..]) && Chain(path[n..]) == Chain(path)[n..]
  {
    hide Linked, Covered;
    SuffixLinked(path, n, disk);
    SuffixCovered(path, n);
    assert forall i :: 0 <= i < |path| - n ==> Chain(path[n..])[i] == path[n + i].Contents() == Chain(path)[n..][i];
  }

  lemma SuffixLinked(path: seq<DiffLayer>, n: nat, disk: DiskLayer)
    requires n < |path| && Linked(path, disk)
    ensures Linked(path[n..], disk)
  {
    var tail := path[n..];
    forall i | 0 <= i < |tail| ensures tail[i].parent == Next(tail, disk, i) {
      assert path[n + i].parent == Next(path, disk, n + i);
    }
  }

  lemma SuffixCovered(path: seq<DiffLayer>, n: nat)
    requires n < |path| && Covered(path)
    ensures Covered(path[n..])
  {
    hide Covers;
    var tail := path[n..];
    forall i, j | 0 <= i <= j < |tail|
      ensures tail[i].locate == tail[j].locate && Covers(tail[i].locate, tail[i].diffed, tail[j].Contents())
    {
      assert tail[i] == path[n + i] && tail[j] == path[n + j];
    }
  }

  function RootAt(path: seq<DiffLayer>, disk: DiskLayer, i: nat): Hash
    requires i <= |path|
  {
    if i < |path| then path[i].root else disk.root
  }
}
