/** Cutting one stack of a snapshot tree: what that does to all stacks. Flattening, or writing to disk,
puts one snapshot in the place of a layer and all that is below it; what hung on anything below is
removed. */
module SnapCuts {
  import opened SnapViews
  import opened SnapLayers
  import opened SnapIndexes

  // ---- Cutting a stack ----

  /** Where `c` stands in a stack; the length of the stack if it does not. */
  ghost function Pos(q: seq<DiffLayer>, c: DiffLayer): (j: nat)
    ensures j <= |q| && (j < |q| ==> q[j] == c) && (j < |q| <==> c in q)
    ensures forall i :: 0 <= i < j ==> q[i] != c
  {
    if q == [] || q[0] == c then 0 else 1 + Pos(q[1..], c)
  }

  /** The stack with `top` in place of `c` and all that is below it. */
  ghost function Recut(q: seq<DiffLayer>, c: DiffLayer, top: seq<DiffLayer>): seq<DiffLayer> {
    if c in q then q[..Pos(q, c)] + top else q
  }

  lemma {:induction false} PosSuffix(q: seq<DiffLayer>, c: DiffLayer, i: nat)
    requires i <= Pos(q, c)
    ensures Pos(q[i..], c) == Pos(q, c) - i
  {
    if i == 0 {
      assert q[0..] == q;
    } else {
      PosSuffix(q[1..], c, i - 1);
      assert q[i..] == q[1..][i - 1..];
    }
  }

  lemma RecutSuffix(q: seq<DiffLayer>, c: DiffLayer, top: seq<DiffLayer>, i: nat)
    requires i <= Pos(q, c)
    ensures Recut(q[i..], c, top) == Recut(q, c, top)[i..]
    ensures c in q[i..] <==> c in q
  {
    hide Pos;
    PosSuffix(q, c, i);
    if c in q {
      SuffixPut(q, Pos(q, c), i, top);
    }
  }

  lemma SuffixPut(q: seq<DiffLayer>, p: nat, i: nat, top: seq<DiffLayer>)
    requires i <= p <= |q|
    ensures q[i..][..p - i] + top == (q[..p] + top)[i..]
  {
  }

  /** A stack that stays when the stack of `c`, down to `bottom`, is cut: it goes through `c`, or has
      nothing of what is below; the latter only if the disk layer stays. */
  predicate Stays(q: seq<DiffLayer>, c: DiffLayer, bottom: DiffLayer, sameDisk: bool) {
    c in q || (sameDisk && bottom !in q)
  }

  /** A stack in which the layer at the cut carries another layer than `above`. */
  ghost predicate Off(q: seq<DiffLayer>, c: DiffLayer, above: DiffLayer) {
    0 < Pos(q, c) < |q| && q[Pos(q, c) - 1] != above
  }

  /** The cut between the layers `above` and `c`: the layer `c` and what is below it, down to
      `bottom`, becomes the layer `flat`, or goes to the new disk layer `disk'`. */
  datatype Cut = Cut(layers: map<Hash, Snapshot>, paths: map<Hash, seq<DiffLayer>>, disk: DiskLayer,
                     above: DiffLayer, c: DiffLayer, bottom: DiffLayer, flat: Option<DiffLayer>, disk': DiskLayer) {
    ghost predicate Right() {
      && Indexed(layers, paths, disk) && Bottomed(layers, paths, c, bottom)
      && HasEntry(layers, paths, above.root, above, [above] + paths[c.root])
      && (match flat
          case Some(f) => f.root == c.root && disk' == disk
          case None => disk'.root == c.root && disk' != disk)
    }

    function Top(): seq<DiffLayer> {
      if flat.Some? then [flat.value] else []
    }

    /** What takes the place of the layer at the cut. */
    function Instead(): Snapshot {
      if flat.Some? then Diff(flat.value) else Disk(disk')
    }

    /** The index when the cut has been made. */
    function After(): map<Hash, Snapshot> {
      layers[c.root := Instead()]
    }

    ghost predicate Kept(r: Hash) {
      r in paths && Stays(paths[r], c, bottom, flat.Some?)
    }

    ghost function Condemned(): set<Hash> {
      set r | r in paths && !Kept(r)
    }

    /** The index when everything below the cut has been removed. */
    ghost function Final(): map<Hash, Snapshot> {
      map r | r in After() && Kept(r) :: After()[r]
    }

    ghost function FinalPaths(): map<Hash, seq<DiffLayer>> {
      map r | r in After() && Kept(r) :: Recut(paths[r], c, Top())
    }
  }

  ghost predicate Bottomed(layers: map<Hash, Snapshot>, paths: map<Hash, seq<DiffLayer>>, c: DiffLayer,
      bottom: DiffLayer) {
    && c.root in layers && layers[c.root] == Diff(c) && c.root in paths && |paths[c.root]| >= 2
    && paths[c.root][|paths[c.root]| - 1] == bottom
  }

  lemma CutParts(x: Cut)
    requires x.Right()
    ensures Indexed(x.layers, x.paths, x.disk) && Bottomed(x.layers, x.paths, x.c, x.bottom)
    ensures if x.flat.Some? then x.flat.value.root == x.c.root && x.disk' == x.disk
      else x.disk'.root == x.c.root && x.disk' != x.disk
    ensures x.layers.Keys == x.paths.Keys
    ensures HasEntry(x.layers, x.paths, x.above.root, x.above, [x.above] + x.paths[x.c.root])
  {
    hide IndexedAt, Bottomed, HasEntry;
  }

  lemma CutDisk(x: Cut)
    requires x.Right()
    ensures x.disk.root in x.layers && x.layers[x.disk.root] == Disk(x.disk)
    ensures x.disk.root in x.paths && x.paths[x.disk.root] == []
  {
    hide IndexedAt, Bottomed;
    IndexedEntry(x.layers, x.paths, x.disk, x.disk.root);
    DiskEntry(x.layers, x.paths, x.disk, x.disk.root);
  }

  lemma DiskEntry(layers: map<Hash, Snapshot>, paths: map<Hash, seq<DiffLayer>>, disk: DiskLayer, r: Hash)
    requires r in layers && r in paths && IndexedAt(layers, paths, disk, r)
    ensures layers[r].Disk? <==> paths[r] == []
    ensures layers[r].Disk? ==> layers[r].disk == disk && r == disk.root
    ensures layers[r].Diff? ==>
      layers[r].diff == paths[r][0] && layers[r].diff.root == r && OnTree(layers, paths, paths[r])
  {
  }

  /** What is known of an entry. */
  lemma EntryIs(x: Cut, r: Hash)
    requires x.Right() && r in x.layers
    ensures r in x.paths && (x.layers[r].Disk? <==> x.paths[r] == [])
    ensures x.layers[r].Disk? ==> x.layers[r].disk == x.disk && r == x.disk.root
    ensures x.layers[r].Diff? ==> x.layers[r].diff == x.paths[r][0] && x.layers[r].diff.root == r
    ensures OnTree(x.layers, x.paths, x.paths[r])
  {
    hide IndexedAt, OnTree;
    IndexedEntry(x.layers, x.paths, x.disk, r);
    DiskEntry(x.layers, x.paths, x.disk, r);
    if x.paths[r] == [] {
      NoEntries(x.layers, x.paths);
    }
  }

  lemma NoEntries(layers: map<Hash, Snapshot>, paths: map<Hash, seq<DiffLayer>>)
    ensures OnTree(layers, paths, [])
  {
  }

  /** What is known of the entry at the cut. */
  lemma CutPoint(x: Cut)
    requires x.Right()
    ensures x.c.root in x.layers && x.layers[x.c.root] == Diff(x.c) && x.c.root in x.paths
    ensures x.paths[x.c.root] != [] && x.paths[x.c.root][0] == x.c && x.bottom in x.paths[x.c.root]
    ensures x.Kept(x.c.root) && Recut(x.paths[x.c.root], x.c, x.Top()) == x.Top()
  {
    hide OnTree, Indexed, Cut.Right;
    CutParts(x);
    EntryIs(x, x.c.root);
  }

  /** A stack that goes through the layer at the cut goes on as the stack there does. */
  lemma Through(x: Cut, r: Hash)
    requires x.Right() && r in x.layers && r in x.paths && x.c in x.paths[r]
    ensures x.paths[r][Pos(x.paths[r], x.c)..] == x.paths[x.c.root]
  {
    hide *;
    var q := x.paths[r];
    EntryIs(x, r);
    TreeEntry(x.layers, x.paths, q, Pos(q, x.c));
    EntryParts(x.layers, x.paths, x.c.root, x.c, q[Pos(q, x.c)..]);
  }

  lemma FinalAt(x: Cut, r: Hash)
    requires x.Right()
    ensures r in x.Final() <==> r in x.layers && x.Kept(r)
    ensures r in x.FinalPaths() <==> r in x.Final()
    ensures r in x.Final() ==> x.FinalPaths()[r] == Recut(x.paths[r], x.c, x.Top())
    ensures r in x.Final() && r != x.c.root ==> x.Final()[r] == x.layers[r]
    ensures r in x.Final() && r == x.c.root ==>
      x.Final()[r] == x.Instead()
  {
    hide Indexed, Recut, Stays, Cut.Right, Cut.Kept;
    CutPoint(x);
  }

  lemma SuffixStays(x: Cut, q: seq<DiffLayer>, i: nat)
    requires i <= |q| && i <= Pos(q, x.c) && Stays(q, x.c, x.bottom, x.flat.Some?)
    ensures Stays(q[i..], x.c, x.bottom, x.flat.Some?)
  {
    RecutSuffix(q, x.c, [], i);
  }

  /** An entry of a stack that stays, down to the cut. */
  lemma EntryStays(x: Cut, r: Hash, i: nat)
    requires x.Right() && r in x.Final() && r in x.paths
    requires i < |x.paths[r]| && i < Pos(x.paths[r], x.c)
    ensures var q := Recut(x.paths[r], x.c, x.Top());
      i < |q| && q[i] == x.paths[r][i] && HasEntry(x.Final(), x.FinalPaths(), q[i].root, q[i], q[i..])
  {
    hide OnTree, Indexed, HasEntry, Recut, Stays, Pos;
    hide Cut.Final, Cut.FinalPaths, Cut.Right;
    var q, c := x.paths[r], x.c;
    FinalAt(x, r);
    EntryIs(x, r);
    TreeEntry(x.layers, x.paths, q, i);
    EntryParts(x.layers, x.paths, q[i].root, q[i], q[i..]);
    SuffixStays(x, q, i);
    FinalAt(x, q[i].root);
    RecutSuffix(q, c, x.Top(), i);
    RecutParts(q, c, x.Top());
    CutPoint(x);
    HasEntryIs(x.Final(), x.FinalPaths(), q[i].root, q[i], Recut(q, c, x.Top())[i..]);
  }

  lemma EntryParts(layers: map<Hash, Snapshot>, paths: map<Hash, seq<DiffLayer>>, r: Hash, diff: DiffLayer,
      path: seq<DiffLayer>)
    requires HasEntry(layers, paths, r, diff, path)
    ensures r in layers && layers[r] == Diff(diff) && r in paths && paths[r] == path
  {
  }

  lemma HasEntryIs(layers: map<Hash, Snapshot>, paths: map<Hash, seq<DiffLayer>>, r: Hash, diff: DiffLayer,
      path: seq<DiffLayer>)
    requires r in layers && layers[r] == Diff(diff) && r in paths && paths[r] == path
    ensures HasEntry(layers, paths, r, diff, path)
  {
  }

  lemma FinalTree(x: Cut, r: Hash)
    requires x.Right() && r in x.Final() && r in x.paths
    ensures OnTree(x.Final(), x.FinalPaths(), Recut(x.paths[r], x.c, x.Top()))
  {
    hide HasEntry, Indexed, Recut;
    hide Cut.Final, Cut.FinalPaths, Cut.Right;
    var q, c := x.paths[r], x.c;
    var q' := Recut(q, c, x.Top());
    RecutParts(q, c, x.Top());
    forall i | 0 <= i < |q'| ensures HasEntry(x.Final(), x.FinalPaths(), q'[i].root, q'[i], q'[i..]) {
      if i < Pos(q, c) {
        EntryStays(x, r, i);
      } else {
        FlatEntry(x);
        assert q'[i..] == x.Top();
      }
    }
  }

  lemma FinalEntry(x: Cut, r: Hash)
    requires x.Right() && r in x.Final()
    ensures r in x.FinalPaths() && IndexedAt(x.Final(), x.FinalPaths(), x.disk', r)
  {
    hide HasEntry, Indexed, Recut, OnTree;
    hide Cut.Final, Cut.FinalPaths, Cut.Right;
    FinalAt(x, r);
    CutParts(x);
    var q, c := x.paths[r], x.c;
    EntryIs(x, r);
    FinalTree(x, r);
    RecutParts(q, c, x.Top());
    CutPoint(x);
    CutDisk(x);
  }

  lemma IndexedEntry(layers: map<Hash, Snapshot>, paths: map<Hash, seq<DiffLayer>>, disk: DiskLayer, r: Hash)
    requires Indexed(layers, paths, disk) && r in layers
    ensures r in paths && IndexedAt(layers, paths, disk, r)
  {
  }

  lemma RecutParts(q: seq<DiffLayer>, c: DiffLayer, top: seq<DiffLayer>)
    ensures Recut(q, c, top) == if c in q then q[..Pos(q, c)] + top else q
  {
  }

  lemma FlatEntry(x: Cut)
    requires x.Right() && x.flat.Some?
    ensures HasEntry(x.Final(), x.FinalPaths(), x.flat.value.root, x.flat.value, [x.flat.value])
  {
    hide OnTree, Indexed, Recut, Stays;
    hide Cut.Final, Cut.FinalPaths, Cut.Right;
    CutPoint(x);
    CutParts(x);
    FinalAt(x, x.c.root);
  }

  /** With everything below the cut removed, every entry again has its stack, down to the disk layer. */
  lemma CutIndexed(x: Cut)
    requires x.Right()
    ensures Indexed(x.Final(), x.FinalPaths(), x.disk')
  {
    hide IndexedAt, Recut, OnTree, HasEntry;
    hide Cut.Final, Cut.FinalPaths, Cut.Right;
    CutPoint(x);
    CutParts(x);
    CutDisk(x);
    FinalAt(x, x.disk'.root);
    forall r ensures r in x.Final() <==> r in x.FinalPaths() {
      FinalAt(x, r);
    }
    assert x.FinalPaths().Keys == x.Final().Keys;
    forall r | r in x.Final() ensures IndexedAt(x.Final(), x.FinalPaths(), x.disk', r) {
      FinalEntry(x, r);
    }
  }

  // ---- Removing what is below the cut ----

  /** The parents have the roots that they had, and what is flattened hangs on the disk layer. */
  ghost predicate SameParents(x: Cut)
    reads set r | r in x.layers && x.layers[r].Diff? :: x.layers[r].diff
    reads if x.flat.Some? then {x.flat.value} else {}
  {
    && (forall r :: r in x.layers && r in x.paths && x.paths[r] != [] && x.layers[r].Diff? ==>
          RootOf(x.layers[r].diff.parent) == RootAt(x.paths[r], x.disk, 1))
    && (x.flat.Some? ==> RootOf(x.flat.value.parent) == x.disk.root)
  }

  /** The stack below an entry is that of its parent. */
  lemma ParentStack(x: Cut, r: Hash)
    requires x.Right() && r in x.layers && x.layers[r].Diff?
    ensures r in x.paths && x.paths[r] != []
    ensures var p := RootAt(x.paths[r], x.disk, 1); p in x.layers && p in x.paths && x.paths[p] == x.paths[r][1..]
  {
    hide OnTree, Cut.Right, HasEntry;
    EntryIs(x, r);
    CutDisk(x);
    var q := x.paths[r];
    if |q| > 1 {
      TreeEntry(x.layers, x.paths, q, 1);
      EntryParts(x.layers, x.paths, q[1].root, q[1], q[1..]);
    }
  }

  lemma AfterParent(x: Cut, r: Hash)
    requires x.Right() && SameParents(x) && r in x.After() && x.After()[r].Diff?
    ensures r in x.layers && x.layers[r].Diff? && r in x.paths && x.paths[r] != []
    ensures RootOf(x.After()[r].diff.parent) ==
      if r == x.c.root then x.disk.root else RootAt(x.paths[r], x.disk, 1)
    ensures r == x.c.root ==> x.flat.Some?
  {
    hide Indexed, Cut.Right, Recut;
    CutPoint(x);
    EntryIs(x, r);
  }

  /** What hangs on a condemned entry is condemned, and has a longer stack. */
  lemma CondemnedChild(x: Cut, p: Hash, r: Hash)
    requires x.Right() && SameParents(x) && p in x.layers && !x.Kept(p)
    requires r in x.After() && x.After()[r].Diff? && RootOf(x.After()[r].diff.parent) == p
    ensures r in x.layers && !x.Kept(r) && r in x.paths && p in x.paths && |x.paths[r]| == |x.paths[p]| + 1
  {
    hide Cut.Right, SameParents, Recut;
    AfterParent(x, r);
    ParentStack(x, r);
    CutDisk(x);
    EntryIs(x, r);
    var q := x.paths[r];
    assert q == [q[0]] + q[1..];
  }

  lemma {:induction false} Longest(paths: map<Hash, seq<DiffLayer>>) returns (m: nat)
    ensures forall r :: r in paths ==> |paths[r]| <= m
    decreases paths.Keys
  {
    m := 0;
    if r :| r in paths {
      var rest := paths - {r};
      assert r !in rest.Keys && rest.Keys < paths.Keys;
      m := Longest(rest);
      assert forall s :: s in paths && s != r ==> s in rest;
      m := if m < |paths[r]| then |paths[r]| else m;
    }
  }

  /** How far the entries are from the longest stack. */
  ghost function Depths(paths: map<Hash, seq<DiffLayer>>, m: nat): map<Hash, nat>
    requires forall r :: r in paths ==> |paths[r]| <= m
  {
    map r | r in paths :: m - |paths[r]|
  }

  lemma CondemnedClosed(x: Cut, children: map<Hash, seq<Hash>>, m: nat)
    requires x.Right() && SameParents(x) && ChildrenOf(x.After(), children)
    requires forall r :: r in x.paths ==> |x.paths[r]| <= m
    ensures Closed(children, Depths(x.paths, m), x.Condemned())
  {
    hide Cut.Right, SameParents, Cut.Kept, Cut.After;
    CutParts(x);
    forall p, r | p in x.Condemned() && p in children && r in children[p]
      ensures r in x.Condemned() && r in x.paths && |x.paths[r]| == |x.paths[p]| + 1
    {
      CondemnedChild(x, p, r);
    }
  }

  /** Once what is stale is gone, everything that is condemned is gone. */
  lemma {:induction false} CondemnedGone(x: Cut, children: map<Hash, seq<Hash>>, rest: map<Hash, seq<Hash>>,
      final: map<Hash, Snapshot>, r: Hash)
    requires x.Right() && SameParents(x) && ChildrenOf(x.After(), children)
    requires Progress(children, rest, final.Keys, x.Condemned())
    requires forall r :: r in x.After() && r !in final ==> r !in rest
    requires if x.flat.Some? then x.bottom.root !in final else x.disk.root !in final
    requires r in x.layers && !x.Kept(r) && r in x.paths
    ensures r !in final
    decreases |x.paths[r]|
  {
    hide Cut.Right, SameParents, Recut, Cut.Condemned, OnTree;
    EntryIs(x, r);
    var q := x.paths[r];
    CutPoint(x);
    if q != [] && (x.flat.Some? ==> q[0] != x.bottom) {
      ParentStack(x, r);
      var p := RootAt(q, x.disk, 1);
      assert q == [q[0]] + q[1..];
      AfterParent(x, r);
      CondemnedGone(x, children, rest, final, p);
      assert p in children && r in children[p];
    }
  }

  lemma AfterKeys(x: Cut, r: Hash)
    requires x.Right() && r in x.After()
    ensures r in x.layers && r in x.paths && (r in x.Condemned() <==> !x.Kept(r))
  {
    hide Cut.Kept, Cut.Right, Indexed;
    CutParts(x);
  }

  /** What remains then. */
  lemma FinalIs(x: Cut, children: map<Hash, seq<Hash>>, rest: map<Hash, seq<Hash>>, final: map<Hash, Snapshot>)
    requires x.Right() && SameParents(x) && ChildrenOf(x.After(), children)
    requires Progress(children, rest, final.Keys, x.Condemned())
    requires final.Keys <= x.After().Keys && x.After().Keys - final.Keys <= x.Condemned()
    requires forall r :: r in final ==> final[r] == x.After()[r]
    requires forall r :: r in x.After().Keys - final.Keys ==> r !in rest
    requires if x.flat.Some? then x.bottom.root !in final else x.disk.root !in final
    ensures final == x.Final()
  {
    hide Cut.Right, SameParents, Recut, Progress, ChildrenOf, Cut.Kept, Indexed, Bottomed, Cut.Condemned;
    hide Cut.After;
    forall r | r in x.After() ensures r in final <==> x.Kept(r) {
      AfterKeys(x, r);
      if !x.Kept(r) {
        CondemnedGone(x, children, rest, final, r);
      }
    }
  }

  /** Nothing that is kept is stale. */
  lemma StaleCondemned(x: Cut)
    requires x.Right()
    requires x.flat.Some? ==> !x.flat.value.stale
    requires !x.disk'.stale
    requires forall r, i :: r in x.paths && x.Kept(r) && 0 <= i < Pos(x.paths[r], x.c) ==> !x.paths[r][i].stale
    ensures forall r :: r in x.After() && IsStale(x.After()[r]) ==> r in x.Condemned()
  {
    hide Cut.Right, Recut, OnTree;
    CutParts(x);
    CutPoint(x);
    forall r | r in x.After() && x.Kept(r) ensures !IsStale(x.After()[r]) {
      EntryIs(x, r);
      if r != x.c.root && x.layers[r].Diff? {
        assert Pos(x.paths[r], x.c) > 0;
      }
    }
  }

  // ---- Blooms after the disk layer changed ----

  /** `children` has exactly the entries, each under the root of the one below it. */
  ghost predicate Family(children: map<Hash, seq<Hash>>, layers: map<Hash, Snapshot>,
      paths: map<Hash, seq<DiffLayer>>, disk: DiskLayer) {
    && (forall r :: r in layers && r in paths && paths[r] != [] ==>
          var p := RootAt(paths[r], disk, 1); p in children && r in children[p])
    && (forall p, r :: p in layers && p in children && r in children[p] ==>
          r in layers && p in paths && r in paths && paths[r] != [] && paths[r][1..] == paths[p])
    && (forall p :: p in children ==> NoRepeats(children[p]))
  }

  /** Whether `a` goes down through `b`. */
  predicate EndsWith(a: seq<DiffLayer>, b: seq<DiffLayer>) {
    |b| <= |a| && a[|a| - |b|..] == b
  }

  /** The layers at `root` and above. */
  ghost function Over(paths: map<Hash, seq<DiffLayer>>, root: Hash): set<DiffLayer>
    requires root in paths
  {
    set r | r in paths && paths[r] != [] && EndsWith(paths[r], paths[root]) :: paths[r][0]
  }

  /** The layers are children of the ones below them. */
  ghost predicate Hanging(paths: map<Hash, seq<DiffLayer>>)
    reads (set r | r in paths && paths[r] != [] :: paths[r][0])`parent
  {
    forall r :: r in paths && paths[r] != [] ==> HangsOn(paths, paths[r])
  }

  ghost predicate HangsOn(paths: map<Hash, seq<DiffLayer>>, q: seq<DiffLayer>)
    requires q != []
    reads (if q == [] then {} else {q[0]})`parent
  {
    if |q| > 1 then q[0].parent == Diff(q[1])
    else q[0].parent.Diff? ==> forall r :: r in paths && paths[r] != [] ==> paths[r][0] != q[0].parent.diff
  }

  /** A layer that knows the disk layer, with all that the bloom of its parent has. */
  ghost predicate Renewed(l: DiffLayer, base: DiskLayer)
    reads l, if l.parent.Diff? then {l.parent.diff} else {}
  {
    && l.origin == base && BloomBits(l.locate, l.Contents()) <= l.diffed
    && (l.parent.Diff? ==> l.parent.diff.diffed <= l.diffed)
  }

  /** Two children of one entry have nothing above them in common. */
  lemma Apart(layers: map<Hash, Snapshot>, paths: map<Hash, seq<DiffLayer>>, disk: DiskLayer, r: Hash, s: Hash,
      t: Hash)
    requires Indexed(layers, paths, disk) && r in layers && s in layers && t in layers && r != s
    requires paths[r] != [] && paths[s] != [] && |paths[r]| == |paths[s]|
    requires EndsWith(paths[t], paths[r])
    ensures !EndsWith(paths[t], paths[s])
  {
    IndexedEntry(layers, paths, disk, r);
    IndexedEntry(layers, paths, disk, s);
  }

  /** The entry of a layer that is over `root`. */
  lemma OverEntry(layers: map<Hash, Snapshot>, paths: map<Hash, seq<DiffLayer>>, disk: DiskLayer, root: Hash,
      l: DiffLayer)
    requires Indexed(layers, paths, disk) && root in layers
    ensures root in paths
    ensures l in Over(paths, root) <==>
      l.root in paths && paths[l.root] != [] && paths[l.root][0] == l && EndsWith(paths[l.root], paths[root])
  {
    hide OnTree, EndsWith;
    IndexedEntry(layers, paths, disk, root);
    if l in Over(paths, root) {
      var r :| r in paths && paths[r] != [] && EndsWith(paths[r], paths[root]) && paths[r][0] == l;
      IndexedEntry(layers, paths, disk, r);
    }
  }

  /** The stack below a layer is that of its parent. */
  lemma TailEntry(layers: map<Hash, Snapshot>, paths: map<Hash, seq<DiffLayer>>, disk: DiskLayer, r: Hash, k: nat)
    requires Indexed(layers, paths, disk) && r in layers
    ensures r in paths
    ensures k < |paths[r]| ==>
      var s := paths[r][k].root; s in layers && s in paths && paths[s] == paths[r][k..] && paths[s][0].root == s
  {
    hide OnTree, HasEntry;
    IndexedEntry(layers, paths, disk, r);
    if k < |paths[r]| {
      TreeEntry(layers, paths, paths[r], k);
      EntryParts(layers, paths, paths[r][k].root, paths[r][k], paths[r][k..]);
    }
  }

  lemma OverSelf(layers: map<Hash, Snapshot>, paths: map<Hash, seq<DiffLayer>>, disk: DiskLayer, root: Hash)
    requires Indexed(layers, paths, disk) && root in layers
    ensures root in paths
    ensures paths[root] != [] ==> paths[root][0] in Over(paths, root)
    ensures |paths[root]| > 1 ==> paths[root][1] != paths[root][0]
  {
    hide Over, IndexedAt;
    EntryRoot(layers, paths, disk, root);
    StackDistinct(layers, paths, disk, root);
    if paths[root] != [] {
      OverEntry(layers, paths, disk, root, paths[root][0]);
    }
  }

  /** What is over one child, and the parents of that, is not over another child. */
  lemma OutOf(layers: map<Hash, Snapshot>, paths: map<Hash, seq<DiffLayer>>, disk: DiskLayer, r: Hash, s: Hash,
      l: DiffLayer)
    requires Indexed(layers, paths, disk) && Hanging(paths) && r in layers && s in layers && r != s
    requires r in paths && s in paths && paths[r] != [] && paths[s] != [] && |paths[r]| == |paths[s]|
    requires l in Over(paths, r)
    ensures l !in Over(paths, s) && (l.parent.Diff? ==> l.parent.diff !in Over(paths, s))
  {
    hide Indexed, Over;
    OverEntry(layers, paths, disk, r, l);
    OverEntry(layers, paths, disk, s, l);
    IndexedKeys(layers, paths, disk);
    Apart(layers, paths, disk, r, s, l.root);
    if l.parent.Diff? && l.parent.diff in Over(paths, s) {
      var z := l.parent.diff;
      OverEntry(layers, paths, disk, s, z);
      assert HangsOn(paths, paths[l.root]);
      TailEntry(layers, paths, disk, l.root, 1);
      assert paths[z.root] == paths[l.root][1..];
      EndsLonger(paths[l.root], paths[s]);
    }
  }

  lemma EndsLonger(q: seq<DiffLayer>, b: seq<DiffLayer>)
    requires q != [] && EndsWith(q[1..], b)
    ensures EndsWith(q, b)
  {
  }

  lemma IndexedKeys(layers: map<Hash, Snapshot>, paths: map<Hash, seq<DiffLayer>>, disk: DiskLayer)
    requires Indexed(layers, paths, disk)
    ensures layers.Keys == paths.Keys
  {
  }

  /** A layer and its parent are not over its children. */
  lemma TopOut(layers: map<Hash, Snapshot>, paths: map<Hash, seq<DiffLayer>>, disk: DiskLayer, r: Hash, s: Hash)
    requires Indexed(layers, paths, disk) && Hanging(paths) && r in layers && s in layers
    requires r in paths && s in paths && paths[r] != [] && |paths[s]| > |paths[r]|
    ensures var l := paths[r][0]; l !in Over(paths, s) && (l.parent.Diff? ==> l.parent.diff !in Over(paths, s))
  {
    hide Indexed, Over;
    var l := paths[r][0];
    TailEntry(layers, paths, disk, r, 0);
    OverEntry(layers, paths, disk, s, l);
    assert HangsOn(paths, paths[r]);
    if l.parent.Diff? && l.parent.diff in Over(paths, s) {
      var z := l.parent.diff;
      OverEntry(layers, paths, disk, s, z);
      TailEntry(layers, paths, disk, r, 1);
    }
  }

  /** What is over an entry is its layer, or over one of its children. */
  lemma OverSplits(layers: map<Hash, Snapshot>, paths: map<Hash, seq<DiffLayer>>, disk: DiskLayer,
      children: map<Hash, seq<Hash>>, root: Hash, l: DiffLayer)
    requires Indexed(layers, paths, disk) && Family(children, layers, paths, disk) && root in layers
    requires root in paths && l in Over(paths, root) && (paths[root] == [] || l != paths[root][0])
    ensures root in children
    ensures exists k :: 0 <= k < |children[root]| && children[root][k] in paths && l in Over(paths, children[root][k])
  {
    hide Over;
    OverEntry(layers, paths, disk, root, l);
    var q := paths[l.root];
    var k := |q| - |paths[root]| - 1;
    EntryRoot(layers, paths, disk, root);
    assert q[0..] == q;
    assert k >= 0;
    TailEntry(layers, paths, disk, l.root, k);
    var s := q[k].root;
    assert paths[s][1..] == paths[root];
    assert RootAt(paths[s], disk, 1) == root;
    OverEntry(layers, paths, disk, s, l);
  }

  lemma EntryRoot(layers: map<Hash, Snapshot>, paths: map<Hash, seq<DiffLayer>>, disk: DiskLayer, r: Hash)
    requires Indexed(layers, paths, disk) && r in layers
    ensures r in paths && r == RootAt(paths[r], disk, 0)
    ensures layers[r] == if paths[r] == [] then Disk(disk) else Diff(paths[r][0])
  {
    IndexedEntry(layers, paths, disk, r);
  }

  lemma OverChild(layers: map<Hash, Snapshot>, paths: map<Hash, seq<DiffLayer>>, disk: DiskLayer,
      children: map<Hash, seq<Hash>>, root: Hash, s: Hash)
    requires Indexed(layers, paths, disk) && Family(children, layers, paths, disk) && root in layers
    requires root in children && s in children[root]
    ensures root in paths && s in layers && s in paths && |paths[s]| == |paths[root]| + 1
    ensures Over(paths, s) <= Over(paths, root)
  {
    hide Over, EndsWith, Indexed;
    EntryRoot(layers, paths, disk, root);
    forall l | l in Over(paths, s) ensures l in Over(paths, root) {
      OverEntry(layers, paths, disk, s, l);
      OverEntry(layers, paths, disk, root, l);
      EndsAbove(paths[l.root], paths[s]);
    }
  }

  lemma EndsAbove(q: seq<DiffLayer>, b: seq<DiffLayer>)
    requires b != [] && EndsWith(q, b)
    ensures EndsWith(q, b[1..])
  {
    assert q[|q| - |b|..][1..] == q[|q| - |b| + 1..];
  }

  lemma FamilyList(layers: map<Hash, Snapshot>, paths: map<Hash, seq<DiffLayer>>, disk: DiskLayer,
      children: map<Hash, seq<Hash>>, root: Hash)
    requires Indexed(layers, paths, disk) && Family(children, layers, paths, disk) && root in layers && root in children
    ensures root in paths && NoRepeats(children[root])
    ensures forall k :: 0 <= k < |children[root]| ==>
      var s := children[root][k]; s in layers && s in paths && paths[s] != [] && |paths[s]| == |paths[root]| + 1
    ensures forall i, k :: 0 <= i < k < |children[root]| ==> children[root][i] != children[root][k]
  {
    hide IndexedAt;
    forall k | 0 <= k < |children[root]|
      ensures var s := children[root][k];
        s in layers && s in paths && paths[s] != [] && |paths[s]| == |paths[root]| + 1
    {
      assert children[root][k] in children[root];
    }
  }

  // ---- The stacks after the cut ----

  /** The parents after the cut: only the layer above it has got another one. */
  ghost predicate Reparented(x: Cut)
    reads (set r | r in x.paths && x.paths[r] != [] :: x.paths[r][0])`parent
    reads (if x.flat.Some? then {x.flat.value} else {})`parent
  {
    && (forall r :: r in x.paths && x.paths[r] != [] ==>
          x.paths[r][0].parent ==
            if x.paths[r][0] == x.above then x.Instead() else Next(x.paths[r], x.disk, 0))
    && (x.flat.Some? ==> x.flat.value.parent == Disk(x.disk))
  }

  lemma ReparentedAt(x: Cut, r: Hash)
    requires Reparented(x) && r in x.paths && x.paths[r] != []
    ensures x.paths[r][0].parent == if x.paths[r][0] == x.above then x.Instead() else Next(x.paths[r], x.disk, 0)
  {
  }

  lemma ParentsSame(x: Cut)
    requires x.Right() && Reparented(x)
    ensures SameParents(x)
  {
    hide Indexed, Cut.Right, Reparented;
    CutParts(x);
    forall r | r in x.layers && r in x.paths && x.paths[r] != [] && x.layers[r].Diff?
      ensures RootOf(x.layers[r].diff.parent) == RootAt(x.paths[r], x.disk, 1)
    {
      EntryIs(x, r);
      ReparentedAt(x, r);
      if x.paths[r][0] == x.above {
        AboveEntry(x);
      }
    }
    assert x.flat.Some? ==> x.flat.value.parent == Disk(x.disk) by { FlatParent(x); }
  }

  lemma FlatParent(x: Cut)
    requires Reparented(x)
    ensures x.flat.Some? ==> x.flat.value.parent == Disk(x.disk)
  {
  }

  lemma AboveEntry(x: Cut)
    requires x.Right()
    ensures x.above.root in x.layers && x.layers[x.above.root] == Diff(x.above) && x.above.root in x.paths
    ensures x.paths[x.above.root] == [x.above] + x.paths[x.c.root] && x.paths[x.above.root][1] == x.c
    ensures x.c.root in x.paths && x.Instead() == x.After()[x.c.root] && RootOf(x.Instead()) == x.c.root
  {
    hide Indexed;
    CutPoint(x);
  }

  lemma StackDistinct(layers: map<Hash, Snapshot>, paths: map<Hash, seq<DiffLayer>>, disk: DiskLayer, r: Hash)
    requires Indexed(layers, paths, disk) && r in layers && r in paths
    ensures forall i, j :: 0 <= i < j < |paths[r]| ==> paths[r][i] != paths[r][j]
  {
    hide Indexed;
    forall i, j | 0 <= i < j < |paths[r]| ensures paths[r][i] != paths[r][j] {
      TailEntry(layers, paths, disk, r, i);
      TailEntry(layers, paths, disk, r, j);
    }
  }

  /** The parents along a stack. */
  lemma StackParent(x: Cut, r: Hash, i: nat)
    requires x.Right() && Reparented(x) && r in x.layers && r in x.paths && i < |x.paths[r]|
    ensures var q := x.paths[r]; q[i].parent == if q[i] == x.above then x.Instead() else Next(q, x.disk, i)
  {
    hide Indexed, Reparented, Cut.Right;
    CutParts(x);
    var q := x.paths[r];
    TailEntry(x.layers, x.paths, x.disk, r, i);
    ReparentedAt(x, q[i].root);
    assert i + 1 < |q| ==> q[i..][1] == q[i + 1];
  }

  /** Where the layer above the cut stands in a stack that goes through it. */
  lemma AbovePos(x: Cut, r: Hash, i: nat)
    requires x.Right() && r in x.layers && r in x.paths && i < |x.paths[r]| && x.paths[r][i] == x.above
    ensures x.c in x.paths[r] && Pos(x.paths[r], x.c) == i + 1
  {
    hide Indexed, Cut.Right;
    CutParts(x);
    AboveEntry(x);
    var q := x.paths[r];
    TailEntry(x.layers, x.paths, x.disk, r, i);
    assert q[i..][1] == q[i + 1];
    StackDistinct(x.layers, x.paths, x.disk, r);
  }

  /** A stack that the cut leaves in order is linked down to the disk layer. */
  lemma FinalLinked(x: Cut, r: Hash)
    requires x.Right() && Reparented(x) && r in x.Final() && !Off(x.paths[r], x.c, x.above)
    requires x.flat.Some? ==> x.flat.value !in x.paths[r]
    ensures Linked(Recut(x.paths[r], x.c, x.Top()), x.disk')
  {
    hide Indexed, Cut.Right, Reparented, Recut, HasEntry;
    CutParts(x);
    FinalAt(x, r);
    var q := x.paths[r];
    var q' := Recut(q, x.c, x.Top());
    RecutParts(q, x.c, x.Top());
    StackDistinct(x.layers, x.paths, x.disk, r);
    forall i | 0 <= i < |q'| ensures q'[i].parent == Next(q', x.disk', i) {
      if i < Pos(q, x.c) {
        StackParent(x, r, i);
        if q[i] == x.above {
          AbovePos(x, r, i);
        }
      } else {
        FlatParent(x);
      }
    }
  }

  /** Some layer of the stack hangs on one that is stale. */
  ghost predicate Adrift(q: seq<DiffLayer>)
    reads q, set l | l in q && l.parent.Diff? :: l.parent.diff
  {
    exists l :: l in q && l.parent.Diff? && l.parent.diff.stale
  }

  /** A stack that hangs off the cut still has the layer at the cut as a parent. */
  lemma OffAdrift(x: Cut, r: Hash)
    requires x.Right() && Reparented(x) && r in x.Final() && Off(x.paths[r], x.c, x.above) && x.c.stale
    ensures Adrift(Recut(x.paths[r], x.c, x.Top()))
  {
    hide Indexed, Cut.Right, Reparented, HasEntry;
    FinalAt(x, r);
    CutParts(x);
    var q, i := x.paths[r], Pos(x.paths[r], x.c) - 1;
    StackParent(x, r, i);
    assert q[i] in Recut(q, x.c, x.Top());
  }

  /** A linked stack of live layers is not adrift. */
  lemma OkNotAdrift(q: seq<DiffLayer>, disk: DiskLayer)
    requires PathOk(q, disk)
    ensures !Adrift(q)
  {
    hide Covered;
    forall l | l in q && l.parent.Diff? ensures !l.parent.diff.stale {
      var i :| 0 <= i < |q| && q[i] == l;
      assert q[i].parent == Next(q, disk, i);
    }
  }

  /** After everything went to disk, the stacks are what is left above the cut. */
  lemma FinalUpper(x: Cut, r: Hash)
    requires x.Right() && x.flat.None? && r in x.Final()
    ensures r in x.layers && r in x.paths && x.c in x.paths[r] && r in x.FinalPaths()
    ensures x.FinalPaths()[r] == x.paths[r][..Pos(x.paths[r], x.c)]
    ensures x.FinalPaths()[r] != [] ==> r != x.c.root && x.Final()[r] == x.layers[r] && x.layers[r].Diff?
    ensures x.paths[r] != []
  {
    hide Indexed, Cut.Right, HasEntry;
    FinalAt(x, r);
    CutParts(x);
    EntryIs(x, r);
    CutPoint(x);
  }

  lemma FinalHanging(x: Cut)
    requires x.Right() && Reparented(x) && x.flat.None?
    ensures Hanging(x.FinalPaths())
  {
    hide Indexed, Cut.Right, HasEntry, Reparented, Cut.FinalPaths, Cut.Final;
    var paths := x.FinalPaths();
    forall r | r in paths && paths[r] != [] ensures HangsOn(paths, paths[r]) {
      FinalAt(x, r);
      FinalUpper(x, r);
      ReparentedAt(x, r);
      if x.paths[r][0] == x.above {
        AbovePos(x, r, 0);
      }
      forall t | t in paths && paths[t] != [] ensures paths[t][0] != x.c {
        FinalAt(x, t);
        FinalUpper(x, t);
      }
    }
  }

  /** The child whose parent has the root `p`, in the final index. */
  lemma FinalChild(x: Cut, p: Hash, r: Hash)
    requires x.Right() && SameParents(x) && x.flat.None? && p in x.Final()
    requires r in x.After() && x.After()[r].Diff? && RootOf(x.After()[r].diff.parent) == p
    ensures r in x.Final() && p in x.FinalPaths() && r in x.FinalPaths()
    ensures x.FinalPaths()[r] != [] && x.FinalPaths()[r][1..] == x.FinalPaths()[p]
  {
    hide Indexed, Cut.Right, HasEntry, SameParents, Cut.FinalPaths, Cut.Final, OnTree;
    FinalAt(x, p);
    FinalAt(x, r);
    AfterParent(x, r);
    ParentStack(x, r);
    EntryIs(x, r);
    CutPoint(x);
    FinalUpper(x, p);
    var q := x.paths[r];
    assert q == [q[0]] + q[1..] && x.c in q;
    PosSuffix(q, x.c, 1);
  }

  lemma FinalFamily(x: Cut, children: map<Hash, seq<Hash>>, rest: map<Hash, seq<Hash>>, roots: set<Hash>)
    requires x.Right() && SameParents(x) && x.flat.None? && ChildrenOf(x.After(), children)
    requires Progress(children, rest, roots, x.Condemned())
    ensures Family(rest, x.Final(), x.FinalPaths(), x.disk')
  {
    hide Indexed, Cut.Right, HasEntry, SameParents, Cut.FinalPaths, Cut.Final, Cut.Condemned, OnTree;
    var layers, paths := x.Final(), x.FinalPaths();
    forall r | r in layers && r in paths && paths[r] != []
      ensures var p := RootAt(paths[r], x.disk', 1); p in rest && r in rest[p]
    {
      FinalListed(x, children, rest, roots, r);
    }
    forall p, r | p in layers && p in rest && r in rest[p]
      ensures r in layers && p in paths && r in paths && paths[r] != [] && paths[r][1..] == paths[p]
    {
      assert r in children[p];
      FinalChild(x, p, r);
    }
  }

  lemma FinalListed(x: Cut, children: map<Hash, seq<Hash>>, rest: map<Hash, seq<Hash>>, roots: set<Hash>, r: Hash)
    requires x.Right() && SameParents(x) && x.flat.None? && ChildrenOf(x.After(), children)
    requires Progress(children, rest, roots, x.Condemned())
    requires r in x.Final() && r in x.FinalPaths() && x.FinalPaths()[r] != []
    ensures var p := RootAt(x.FinalPaths()[r], x.disk', 1); p in rest && r in rest[p]
  {
    hide Indexed, Cut.Right, HasEntry, SameParents, Cut.FinalPaths, Cut.Final, Cut.Condemned, OnTree;
    FinalUpper(x, r);
    FinalAt(x, r);
    CutParts(x);
    AfterParent(x, r);
    ParentStack(x, r);
    var q := x.paths[r];
    var p := RootAt(q, x.disk, 1);
    assert q == [q[0]] + q[1..] && x.c in q[1..];
    assert p == RootAt(x.FinalPaths()[r], x.disk', 1);
    AfterKeys(x, p);
    assert p in children && r in children[p];
  }

  lemma EmptyChain()
    ensures Chain([]) == []
  {
  }

  lemma PathBasics(path: seq<DiffLayer>, disk: DiskLayer)
    requires PathOk(path, disk)
    ensures Linked(path, disk) && Covered(path) && !disk.stale
    ensures forall i :: 0 <= i < |path| ==> !path[i].stale
  {
  }

  // ---- Blooms of the stacks ----

  lemma {:induction false} RenewedCovers(q: seq<DiffLayer>, base: DiskLayer, i: nat, j: nat)
    requires Linked(q, base) && i <= j < |q|
    requires forall l :: l in q ==> Renewed(l, base)
    requires forall l :: l in q ==> l.locate == q[0].locate
    ensures q[j].diffed <= q[i].diffed
    decreases j - i
  {
    if i < j {
      RenewedCovers(q, base, i + 1, j);
      assert q[i].parent == Next(q, base, i);
      assert Renewed(q[i], base);
    }
  }

  /** Layers that are all renewed have blooms that cover what is below them. */
  lemma RenewedOk(q: seq<DiffLayer>, base: DiskLayer)
    requires Linked(q, base) && !base.stale
    requires forall l :: l in q ==> Renewed(l, base) && !l.stale
    requires forall l :: l in q ==> l.locate == q[0].locate
    ensures PathOk(q, base)
  {
    hide Linked, Covers;
    forall i, j | 0 <= i <= j < |q|
      ensures q[i].locate == q[j].locate && Covers(q[i].locate, q[i].diffed, q[j].Contents())
    {
      assert Renewed(q[j], base);
      RenewedCovers(q, base, i, j);
      BloomBitsCover(q[j].locate, q[i].diffed, q[j].Contents());
    }
    assert forall i :: 0 <= i < |q| ==> Renewed(q[i], base);
  }

  // ---- Before and after the cut ----

  /** What a layer was before the cut. */
  datatype State = State(stale: bool, origin: DiskLayer, diffed: set<nat>, contents: Changes)

  ghost predicate Is(l: DiffLayer, s: State)
    reads l`stale, l`origin, l`diffed, l`destructSet, l`accountData, l`storageData
  {
    l.stale == s.stale && l.origin == s.origin && l.diffed == s.diffed && l.Contents() == s.contents
  }

  lemma Stated(l: DiffLayer, s: State)
    ensures Is(l, s) <==>
      l.stale == s.stale && l.origin == s.origin && l.diffed == s.diffed && l.Contents() == s.contents
  {
  }

  ghost predicate AllIs(q: seq<DiffLayer>, k: nat, was: map<DiffLayer, State>)
    reads q
  {
    k <= |q| && forall i :: 0 <= i < k ==> q[i] in was && Is(q[i], was[q[i]])
  }

  ghost predicate WasOk(q: seq<DiffLayer>, disk: DiskLayer, was: map<DiffLayer, State>) {
    && (forall i :: 0 <= i < |q| ==> q[i] in was && !was[q[i]].stale && was[q[i]].origin == disk)
    && (forall i, j :: 0 <= i <= j < |q| ==>
          q[i].locate == q[j].locate && Covers(q[i].locate, was[q[i]].diffed, was[q[j]].contents))
  }

  ghost function ChainWas(q: seq<DiffLayer>, was: map<DiffLayer, State>): (chain: seq<Changes>)
    requires forall i :: 0 <= i < |q| ==> q[i] in was
    ensures |chain| == |q|
  {
    seq(|q|, i requires 0 <= i < |q| => was[q[i]].contents)
  }

  lemma Recorded(q: seq<DiffLayer>, disk: DiskLayer, was: map<DiffLayer, State>)
    requires PathOk(q, disk) && AllIs(q, |q|, was)
    ensures WasOk(q, disk, was) && Chain(q) == ChainWas(q, was)
  {
    hide Covers, Linked;
  }

  lemma MergedCovered(q: seq<DiffLayer>, disk: DiskLayer, was: map<DiffLayer, State>, k: nat)
    requires WasOk(q, disk, was) && k < |q|
    ensures forall i :: 0 <= i < k ==> Covers(q[i].locate, was[q[i]].diffed, MergeAll(ChainWas(q, was)[k..]))
  {
    hide MergeAll;
    var tail := ChainWas(q, was)[k..];
    forall i, key | 0 <= i < k && Touches(MergeAll(tail), key) ensures q[i].locate(key) <= was[q[i]].diffed {
      MergeAllTouches(tail, key);
      var j :| 0 <= j < |tail| && Touches(tail[j], key);
      assert Covers(q[i].locate, was[q[i]].diffed, was[q[k + j]].contents);
    }
  }

  /** The flattened layer: all that was at the cut and below. */
  ghost predicate Flattened(x: Cut, was: map<DiffLayer, State>)
    reads if x.flat.Some? then {x.flat.value} else {}
  {
    && x.flat.Some? && x.c.root in x.paths && x.paths[x.c.root] != []
    && (forall l :: l in x.paths[x.c.root] ==> l in was)
    && !x.flat.value.stale && x.flat.value.origin == x.disk' && x.flat.value.locate == x.c.locate
    && x.flat.value.Contents() == MergeAll(ChainWas(x.paths[x.c.root], was))
    && Covers(x.flat.value.locate, x.flat.value.diffed, x.flat.value.Contents())
  }

  /** All that was at the cut and below has been written to disk. */
  ghost predicate WrittenDown(x: Cut, was: map<DiffLayer, State>, before: Stored, after: Stored) {
    && x.c.root in x.paths && x.paths[x.c.root] != []
    && (forall i :: 0 <= i < |x.paths[x.c.root]| ==> x.paths[x.c.root][i] in was)
    && Persisted(MergeAll(ChainWas(x.paths[x.c.root], was)), before, after)
  }

  /** A stack that the cut leaves in order is in good order again. */
  lemma FlatOk(x: Cut, r: Hash, was: map<DiffLayer, State>)
    requires x.Right() && Reparented(x) && r in x.Final() && !Off(x.paths[r], x.c, x.above)
    requires x.flat.Some? && Flattened(x, was) && x.flat.value !in x.paths[r] && !x.disk'.stale
    requires WasOk(x.paths[r], x.disk, was) && AllIs(x.paths[r], Pos(x.paths[r], x.c), was)
    ensures PathOk(Recut(x.paths[r], x.c, x.Top()), x.disk')
  {
    hide *;
    FinalLinked(x, r);
    FinalAt(x, r);
    CutParts(x);
    FlatCovered(x, r, was);
    RecutParts(x.paths[r], x.c, x.Top());
    PathJoin(Recut(x.paths[r], x.c, x.Top()), x.disk');
  }

  /** Layers that are what they were cover each other as they did. */
  lemma StillOk(q: seq<DiffLayer>, disk: DiskLayer, was: map<DiffLayer, State>, k: nat)
    requires WasOk(q, disk, was) && AllIs(q, k, was)
    ensures forall i :: 0 <= i < k ==> !q[i].stale && q[i].origin == disk
    ensures forall i, j :: 0 <= i <= j < k ==>
      q[i].locate == q[j].locate && Covers(q[i].locate, q[i].diffed, q[j].Contents())
  {
    hide Covers;
  }

  /** And they cover what has been merged below them. */
  lemma StillCovers(x: Cut, r: Hash, was: map<DiffLayer, State>)
    requires x.Right() && r in x.layers && r in x.paths && Flattened(x, was) && x.c in x.paths[r]
    requires WasOk(x.paths[r], x.disk, was) && AllIs(x.paths[r], Pos(x.paths[r], x.c), was)
    ensures forall i :: 0 <= i < Pos(x.paths[r], x.c) ==>
      var l := x.paths[r][i];
      l.locate == x.flat.value.locate && Covers(x.flat.value.locate, l.diffed, x.flat.value.Contents())
  {
    hide Indexed, Cut.Right, HasEntry, MergeAll, Covers;
    var q, k := x.paths[r], Pos(x.paths[r], x.c);
    Through(x, r);
    assert ChainWas(x.paths[x.c.root], was) == ChainWas(q, was)[k..];
    MergedCovered(q, x.disk, was, k);
    assert forall i :: 0 <= i < k ==> q[i].locate == q[k].locate;
  }

  lemma FlatCovered(x: Cut, r: Hash, was: map<DiffLayer, State>)
    requires x.Right() && r in x.layers && r in x.paths && Flattened(x, was) && x.disk' == x.disk
    requires WasOk(x.paths[r], x.disk, was) && AllIs(x.paths[r], Pos(x.paths[r], x.c), was)
    ensures var q' := Recut(x.paths[r], x.c, x.Top());
      Covered(q') && forall i :: 0 <= i < |q'| ==> !q'[i].stale && q'[i].origin == x.disk'
  {
    hide Indexed, Cut.Right, HasEntry, MergeAll, Covers, ChainWas, WasOk, AllIs, Flattened, Pos;
    var q, k := x.paths[r], Pos(x.paths[r], x.c);
    StillOk(q, x.disk, was, k);
    if x.c in q {
      StillCovers(x, r, was);
      FlatCovers(x, was);
      CoveredAbove(q[..k], x.flat.value);
    }
  }

  lemma FlatCovers(x: Cut, was: map<DiffLayer, State>)
    requires Flattened(x, was)
    ensures x.flat.Some? && !x.flat.value.stale && x.flat.value.origin == x.disk'
    ensures Covers(x.flat.value.locate, x.flat.value.diffed, x.flat.value.Contents())
  {
    hide Covers, MergeAll;
  }

  lemma CoveredAbove(upper: seq<DiffLayer>, flat: DiffLayer)
    requires forall i, j :: 0 <= i <= j < |upper| ==>
      upper[i].locate == upper[j].locate && Covers(upper[i].locate, upper[i].diffed, upper[j].Contents())
    requires forall i :: 0 <= i < |upper| ==>
      upper[i].locate == flat.locate && Covers(flat.locate, upper[i].diffed, flat.Contents())
    requires Covers(flat.locate, flat.diffed, flat.Contents())
    ensures Covered(upper + [flat])
  {
    hide Covers;
  }

  /** A layer of a stack that stays, above the cut, is not among those that are cut off. */
  lemma UpperOutside(x: Cut, r: Hash, i: nat)
    requires x.Right() && r in x.layers && r in x.paths && x.Kept(r) && i < Pos(x.paths[r], x.c)
    ensures x.c.root in x.paths && x.paths[r][i] !in x.paths[x.c.root]
  {
    hide Indexed, Cut.Right, HasEntry;
    CutParts(x);
    CutPoint(x);
    var q, cut := x.paths[r], x.paths[x.c.root];
    StackDistinct(x.layers, x.paths, x.disk, x.c.root);
    if q[i] in cut {
      var k :| 0 <= k < |cut| && cut[k] == q[i];
      TailEntry(x.layers, x.paths, x.disk, r, i);
      TailEntry(x.layers, x.paths, x.disk, x.c.root, k);
    }
  }

  lemma ChainSplits(q: seq<DiffLayer>, k: nat, top: seq<DiffLayer>, was: map<DiffLayer, State>)
    requires k <= |q| && forall i :: 0 <= i < |q| ==> q[i] in was
    requires forall i :: 0 <= i < k ==> q[i].Contents() == was[q[i]].contents
    ensures Chain(q[..k] + top) == ChainWas(q, was)[..k] + Chain(top)
    ensures ChainWas(q[k..], was) == ChainWas(q, was)[k..]
  {
    var s := q[..k] + top;
    forall i | 0 <= i < |s| ensures Chain(s)[i] == (ChainWas(q, was)[..k] + Chain(top))[i] {
    }
  }

  /** Cutting the changes at `k`, into one layer or onto disk. */
  lemma CutChainView(chain: seq<Changes>, k: nat, top: seq<Changes>, before: Stored, after: Stored)
    requires k < |chain|
    requires if top == [] then Persisted(MergeAll(chain[k..]), before, after)
      else top == [MergeAll(chain[k..])] && after == before
    ensures SameView(chain, before, chain[..k] + top, after)
  {
    hide SameView, Persisted, MergeAll;
    CapView(chain, k, before);
    if top == [] {
      assert chain[..k] + top == chain[..k];
      CapPersistView(chain[..k], MergeAll(chain[k..]), before, after);
      SameViewTrans(chain, before, chain[..k] + [MergeAll(chain[k..])], before, chain[..k], after);
    }
  }

  lemma TopChain(x: Cut, was: map<DiffLayer, State>, chain: seq<Changes>, before: Stored, after: Stored)
    requires if x.flat.Some? then Flattened(x, was) && after == before else WrittenDown(x, was, before, after)
    requires x.c.root in x.paths && (forall l :: l in x.paths[x.c.root] ==> l in was)
    requires chain == ChainWas(x.paths[x.c.root], was) && chain != []
    ensures if Chain(x.Top()) == [] then Persisted(MergeAll(chain), before, after)
      else Chain(x.Top()) == [MergeAll(chain)] && after == before
  {
    hide Covers, Persisted, MergeAll;
  }

  /** The view at a stack that stays is what it was. */
  lemma CutView(x: Cut, r: Hash, was: map<DiffLayer, State>, before: Stored, after: Stored)
    requires x.Right() && r in x.Final() && r in x.paths && forall l :: l in x.paths[r] ==> l in was
    requires forall i :: 0 <= i < Pos(x.paths[r], x.c) ==> x.paths[r][i].Contents() == was[x.paths[r][i]].contents
    requires if x.flat.Some? then Flattened(x, was) && after == before else WrittenDown(x, was, before, after)
    ensures SameView(ChainWas(x.paths[r], was), before, Chain(Recut(x.paths[r], x.c, x.Top())), after)
  {
    hide *;
    var q, k := x.paths[r], Pos(x.paths[r], x.c);
    FinalAt(x, r);
    RecutParts(q, x.c, x.Top());
    ChainSplits(q, k, x.Top(), was);
    if x.c in q {
      Through(x, r);
      CutPoint(x);
      TopChain(x, was, ChainWas(q, was)[k..], before, after);
      CutChainView(ChainWas(q, was), k, Chain(x.Top()), before, after);
    } else {
      CutNothing(x, r, was);
      SameViewSelf(ChainWas(q, was), before);
    }
  }

  lemma CutNothing(x: Cut, r: Hash, was: map<DiffLayer, State>)
    requires x.Right() && r in x.Final() && r in x.paths && x.c !in x.paths[r]
    requires forall l :: l in x.paths[r] ==> l in was
    requires forall i :: 0 <= i < |x.paths[r]| ==> x.paths[r][i].Contents() == was[x.paths[r][i]].contents
    ensures Chain(x.paths[r]) == ChainWas(x.paths[r], was) && x.flat.Some?
  {
    hide Cut.Right;
  }

  /** A stack over a new disk layer, with its layers renewed, is in good order. */
  lemma PersistedOk(x: Cut, r: Hash)
    requires x.Right() && Reparented(x) && r in x.Final() && x.flat.None? && !Off(x.paths[r], x.c, x.above)
    requires x.disk'.root in x.FinalPaths()
    requires forall l :: l in Over(x.FinalPaths(), x.disk'.root) ==> Renewed(l, x.disk')
    requires forall i :: 0 <= i < Pos(x.paths[r], x.c) ==> !x.paths[r][i].stale
    requires forall l :: l in x.paths[r] ==> l.locate == x.paths[r][0].locate
    requires !x.disk'.stale
    ensures PathOk(Recut(x.paths[r], x.c, x.Top()), x.disk')
  {
    hide Indexed, Cut.Right, HasEntry, Reparented, Cut.FinalPaths, Cut.Final, Over, Renewed, PathOk, Linked;
    FinalAt(x, r);
    FinalUpper(x, r);
    FinalLinked(x, r);
    CutIndexed(x);
    var layers, paths := x.Final(), x.FinalPaths();
    var q' := paths[r];
    FinalAt(x, x.disk'.root);
    EntryRoot(layers, paths, x.disk', x.disk'.root);
    IndexedDisk(layers, paths, x.disk');
    forall i | 0 <= i < |q'| ensures q'[i] in Over(paths, x.disk'.root) {
      TailEntry(layers, paths, x.disk', r, i);
      OverEntry(layers, paths, x.disk', x.disk'.root, q'[i]);
    }
    RenewedOk(q', x.disk');
  }

  lemma IndexedDisk(layers: map<Hash, Snapshot>, paths: map<Hash, seq<DiffLayer>>, disk: DiskLayer)
    requires Indexed(layers, paths, disk)
    ensures disk.root in layers && disk.root in paths && paths[disk.root] == []
  {
    IndexedEntry(layers, paths, disk, disk.root);
  }

  /** The layers at a cut below layer `n` of the stack at `root`. */
  lemma CutAt(layers: map<Hash, Snapshot>, paths: map<Hash, seq<DiffLayer>>, disk: DiskLayer, root: Hash, n: nat)
    requires Indexed(layers, paths, disk) && root in layers && root in paths && 1 <= n < |paths[root]| - 1
    ensures var q := paths[root];
      && Bottomed(layers, paths, q[n], q[|q| - 1]) && q[n].root in paths && paths[q[n].root] == q[n..]
      && HasEntry(layers, paths, q[n - 1].root, q[n - 1], [q[n - 1]] + paths[q[n].root])
  {
    hide Indexed;
    var q := paths[root];
    TailEntry(layers, paths, disk, root, n - 1);
    TailEntry(layers, paths, disk, root, n);
    CutEntry(layers, paths, disk, q[n].root);
    CutEntry(layers, paths, disk, q[n - 1].root);
    assert q[n - 1..] == [q[n - 1]] + q[n..];
  }

  /** The cut below layer `n` of the stack at `root`. */
  function CutOf(layers: map<Hash, Snapshot>, paths: map<Hash, seq<DiffLayer>>, disk: DiskLayer, root: Hash, n: nat,
      flat: Option<DiffLayer>, base: Option<DiskLayer>): Cut
    requires root in paths && 1 <= n < |paths[root]|
  {
    var q := paths[root];
    Cut(layers, paths, disk, q[n - 1], q[n], q[|q| - 1], flat, if base.Some? then base.value else disk)
  }

  lemma CutOfRight(layers: map<Hash, Snapshot>, paths: map<Hash, seq<DiffLayer>>, disk: DiskLayer, root: Hash, n: nat,
      flat: Option<DiffLayer>, base: Option<DiskLayer>)
    requires Indexed(layers, paths, disk) && root in layers && root in paths && 1 <= n < |paths[root]| - 1
    requires flat.Some? <==> base.None?
    requires flat.Some? ==> flat.value.root == paths[root][n].root
    requires base.Some? ==> base.value.root == paths[root][n].root && base.value != disk
    ensures CutOf(layers, paths, disk, root, n, flat, base).Right()
    ensures paths[root][n].root in paths && paths[paths[root][n].root] == paths[root][n..]
  {
    hide Indexed, Bottomed, HasEntry;
    CutAt(layers, paths, disk, root, n);
  }

  lemma CutEntry(layers: map<Hash, Snapshot>, paths: map<Hash, seq<DiffLayer>>, disk: DiskLayer, r: Hash)
    requires Indexed(layers, paths, disk) && r in layers && r in paths && paths[r] != []
    ensures layers[r] == Diff(paths[r][0])
  {
    EntryRoot(layers, paths, disk, r);
  }

  /** The bottom layer and the disk layer still have their entries right after the cut. */
  lemma CutBottom(x: Cut)
    requires x.Right()
    ensures x.bottom.root in x.After() && x.After()[x.bottom.root] == Diff(x.bottom)
    ensures x.disk.root in x.After() && x.After()[x.disk.root] == Disk(x.disk)
  {
    hide Indexed, Cut.Right, HasEntry;
    CutParts(x);
    CutPoint(x);
    CutDisk(x);
    var k := |x.paths[x.c.root]| - 1;
    TailEntry(x.layers, x.paths, x.disk, x.c.root, k);
    CutEntry(x.layers, x.paths, x.disk, x.bottom.root);
    StackDistinct(x.layers, x.paths, x.disk, x.c.root);
  }

  /** The parents before the cut. */
  ghost predicate ParentsWere(paths: map<Hash, seq<DiffLayer>>, disk: DiskLayer, parents: map<DiffLayer, Snapshot>) {
    forall r :: r in paths && paths[r] != [] ==>
      paths[r][0] in parents && parents[paths[r][0]] == Next(paths[r], disk, 0)
  }

  lemma NowReparented(x: Cut, parents: map<DiffLayer, Snapshot>)
    requires ParentsWere(x.paths, x.disk, parents)
    requires forall l :: l in parents ==> l.parent == if l == x.above then x.Instead() else parents[l]
    requires x.flat.Some? ==> x.flat.value.parent == Disk(x.disk)
    ensures Reparented(x)
  {
  }

  /** What is known of the layers that stay, when only those that are cut off have changed. */
  lemma KeptLayers(x: Cut, r: Hash, was: map<DiffLayer, State>)
    requires x.Right() && r in x.layers && r in x.paths && x.Kept(r) && x.c.root in x.paths
    requires forall l :: l in was && l !in x.paths[x.c.root] ==> Is(l, was[l])
    requires forall l :: l in x.paths[r] ==> l in was
    requires WasOk(x.paths[r], x.disk, was)
    ensures AllIs(x.paths[r], Pos(x.paths[r], x.c), was)
    ensures forall i :: 0 <= i < Pos(x.paths[r], x.c) ==> !x.paths[r][i].stale
    ensures forall i :: 0 <= i < Pos(x.paths[r], x.c) ==> x.paths[r][i] in was && x.paths[r][i] !in x.paths[x.c.root]
  {
    hide Cut.Right, Indexed, Covers, Cut.Kept;
    forall i | 0 <= i < Pos(x.paths[r], x.c) ensures x.paths[r][i] !in x.paths[x.c.root] {
      UpperOutside(x, r, i);
    }
  }

  /** The layers over the new disk layer are among those that there were. */
  lemma OverOld(x: Cut, root: Hash)
    requires x.Right() && x.flat.None? && root in x.FinalPaths()
    ensures forall l :: l in Over(x.FinalPaths(), root) ==> exists r :: r in x.paths && l in x.paths[r]
  {
    hide Cut.Right, Cut.FinalPaths, Cut.Final;
    var paths := x.FinalPaths();
    forall l | l in Over(paths, root) ensures exists r :: r in x.paths && l in x.paths[r] {
      var r :| r in paths && paths[r] != [] && EndsWith(paths[r], paths[root]) && paths[r][0] == l;
      FinalAt(x, r);
      FinalUpper(x, r);
    }
  }

  /** The layers that are cut off, and nothing else that stays, may have gone stale. */
  lemma CutStale(x: Cut, was: map<DiffLayer, State>)
    requires x.Right() && x.c.root in x.paths && !x.disk'.stale && (x.flat.Some? ==> !x.flat.value.stale)
    requires forall l :: l in was && l !in x.paths[x.c.root] ==> Is(l, was[l])
    requires forall r :: r in x.paths ==> WasOk(x.paths[r], x.disk, was) && forall l :: l in x.paths[r] ==> l in was
    ensures forall r :: r in x.After() && IsStale(x.After()[r]) ==> r in x.Condemned()
  {
    hide *;
    CutParts(x);
    forall r, i | r in x.paths && x.Kept(r) && 0 <= i < Pos(x.paths[r], x.c) ensures !x.paths[r][i].stale {
      KeptLayers(x, r, was);
    }
    StaleCondemned(x);
  }

  lemma ChainRecorded(q: seq<DiffLayer>, was: map<DiffLayer, State>)
    requires forall l :: l in q ==> l in was && Is(l, was[l])
    ensures Chain(q) == ChainWas(q, was)
  {
  }

  lemma ChainWasTail(q: seq<DiffLayer>, was: map<DiffLayer, State>, n: nat)
    requires n <= |q| && forall l :: l in q ==> l in was
    ensures ChainWas(q[n..], was) == ChainWas(q, was)[n..]
  {
  }

  lemma NowFlattened(x: Cut, was: map<DiffLayer, State>, chain: seq<Changes>)
    requires x.flat.Some? && x.c.root in x.paths && chain != []
    requires (forall l :: l in x.paths[x.c.root] ==> l in was) && chain == ChainWas(x.paths[x.c.root], was)
    requires !x.flat.value.stale && x.flat.value.origin == x.disk' && x.flat.value.locate == x.c.locate
    requires x.flat.value.Contents() == MergeAll(chain)
    requires Covers(x.flat.value.locate, x.flat.value.diffed, x.flat.value.Contents())
    ensures Flattened(x, was)
  {
    hide Covers, MergeAll;
  }

  lemma NowWritten(x: Cut, was: map<DiffLayer, State>, chain: seq<Changes>, before: Stored, after: Stored)
    requires x.c.root in x.paths && chain != []
    requires (forall l :: l in x.paths[x.c.root] ==> l in was) && chain == ChainWas(x.paths[x.c.root], was)
    requires Persisted(MergeAll(chain), before, after)
    ensures WrittenDown(x, was, before, after)
  {
    hide Persisted, MergeAll;
  }

  /** Nothing but what is cut off has changed, and the parent of the layer above the cut. */
  ghost predicate OnlyCut(x: Cut, was: map<DiffLayer, State>, parents: map<DiffLayer, Snapshot>)
    reads was.Keys, parents.Keys, if x.flat.Some? then {x.flat.value} else {}
  {
    && x.c.root in x.paths
    && (forall l :: l in was && l !in x.paths[x.c.root] ==> Is(l, was[l]))
    && (forall l :: l in parents ==> l.parent == if l == x.above then x.Instead() else parents[l])
    && (x.flat.Some? ==> x.flat.value.parent == Disk(x.disk))
  }

  lemma NowOnly(x: Cut, was: map<DiffLayer, State>, parents: map<DiffLayer, Snapshot>)
    requires x.c.root in x.paths
    requires forall l :: l in was && l !in x.paths[x.c.root] ==> Is(l, was[l])
    requires forall l :: l in parents && l != x.above ==> l.parent == parents[l]
    requires x.above.parent == x.Instead()
    requires x.flat.Some? ==> x.flat.value.parent == Disk(x.disk)
    ensures OnlyCut(x, was, parents)
  {
  }

  ghost predicate IsCut(x: Cut, layers: map<Hash, Snapshot>, paths: map<Hash, seq<DiffLayer>>, disk: DiskLayer,
      root: Hash, n: nat) {
    && root in paths && 1 <= n < |paths[root]| - 1
    && x.layers == layers && x.paths == paths && x.disk == disk && x.Right()
    && x.above == paths[root][n - 1] && x.c == paths[root][n] && x.bottom == paths[root][|paths[root]| - 1]
    && x.c.root in paths && paths[x.c.root] == paths[root][n..]
  }

  lemma NowCut(layers: map<Hash, Snapshot>, paths: map<Hash, seq<DiffLayer>>, disk: DiskLayer, root: Hash, n: nat,
      flat: Option<DiffLayer>, base: Option<DiskLayer>)
    requires root in paths && 1 <= n < |paths[root]| - 1 && (flat.Some? <==> base.None?)
    requires CutOf(layers, paths, disk, root, n, flat, base).Right()
    requires paths[root][n].root in paths && paths[paths[root][n].root] == paths[root][n..]
    ensures var x := CutOf(layers, paths, disk, root, n, flat, base);
      && IsCut(x, layers, paths, disk, root, n) && x.flat == flat
      && x.disk' == (if base.Some? then base.value else disk)
      && x.c == paths[root][n] && x.above == paths[root][n - 1] && x.bottom == paths[root][|paths[root]| - 1]
      && x.paths == paths && x.Instead() == (if base.Some? then Disk(base.value) else Diff(flat.value))
      && x.disk == disk && x.After() == layers[paths[root][n].root := x.Instead()]
  {
    hide Cut.Right;
  }

  /** What the cut leaves: what was flattened, or written to `db`, which had the contents `before`. */
  ghost predicate Made(x: Cut, was: map<DiffLayer, State>, parents: map<DiffLayer, Snapshot>, db: Database,
      before: Stored)
    reads was.Keys, parents.Keys, if x.flat.Some? then {x.flat.value} else {}
    reads x.c, x.bottom, x.disk, x.disk', db
  {
    && OnlyCut(x, was, parents) && x.c.stale && x.bottom.stale && !x.disk'.stale && x.disk'.db == db
    && if x.flat.Some? then Flattened(x, was) && db.Contents() == before
       else x.disk.stale && WrittenDown(x, was, before, db.Contents())
  }

  lemma NowMade(x: Cut, was: map<DiffLayer, State>, parents: map<DiffLayer, Snapshot>, db: Database, before: Stored)
    requires OnlyCut(x, was, parents) && x.c.stale && x.bottom.stale && !x.disk'.stale && x.disk'.db == db
    requires x.flat.Some? ==> Flattened(x, was) && db.Contents() == before
    requires x.flat.None? ==> x.disk.stale && WrittenDown(x, was, before, db.Contents())
    ensures Made(x, was, parents, db, before)
  {
  }

  ghost predicate IsOff(x: Cut, r: Hash) {
    r in x.paths && Off(x.paths[r], x.c, x.above)
  }

  /** What the cut leaves is ready for the removal of what is stale. */
  lemma CutReady(x: Cut, was: map<DiffLayer, State>, parents: map<DiffLayer, Snapshot>, db: Database, before: Stored)
    requires x.Right() && Made(x, was, parents, db, before) && ParentsWere(x.paths, x.disk, parents)
    requires forall r :: r in x.paths ==> WasOk(x.paths[r], x.disk, was) && forall l :: l in x.paths[r] ==> l in was
    ensures Reparented(x) && SameParents(x) && x.bottom.stale && (x.flat.None? ==> x.disk.stale)
    ensures forall r :: r in x.After() && IsStale(x.After()[r]) ==> r in x.Condemned()
  {
    hide *;
    MadeParts(x, was, parents, db, before);
    NowReparented(x, parents);
    ParentsSame(x);
    CutStale(x, was);
  }

  lemma MadeParts(x: Cut, was: map<DiffLayer, State>, parents: map<DiffLayer, Snapshot>, db: Database, before: Stored)
    requires Made(x, was, parents, db, before)
    ensures x.c.stale && x.bottom.stale && (x.flat.None? ==> x.disk.stale) && !x.disk'.stale && x.disk'.db == db
    ensures x.flat.Some? ==> !x.flat.value.stale && x.flat.value.parent == Disk(x.disk)
    ensures x.c.root in x.paths && forall l :: l in was && l !in x.paths[x.c.root] ==> Is(l, was[l])
    ensures forall l :: l in parents ==> l.parent == if l == x.above then x.Instead() else parents[l]
    ensures if x.flat.Some? then Flattened(x, was) && db.Contents() == before
      else WrittenDown(x, was, before, db.Contents())
  {
    hide Covers, Persisted;
  }

  lemma CutIs(x: Cut, layers: map<Hash, Snapshot>, paths: map<Hash, seq<DiffLayer>>, disk: DiskLayer, root: Hash,
      n: nat)
    requires IsCut(x, layers, paths, disk, root, n)
    ensures x.layers == layers && x.paths == paths && x.disk == disk && x.Right()
  {
  }

  /** The layers of a stack, none if there is no such stack. */
  ghost function LayersIn(paths: map<Hash, seq<DiffLayer>>, r: Hash): set<DiffLayer> {
    if r in paths then set l | l in paths[r] else {}
  }

  /** The layers of a stack above the cut are live, with the changes that they had. */
  ghost predicate UpperSame(x: Cut, r: Hash, was: map<DiffLayer, State>)
    reads LayersIn(x.paths, r)`stale, LayersIn(x.paths, r)`destructSet
    reads LayersIn(x.paths, r)`accountData, LayersIn(x.paths, r)`storageData
  {
    r in x.paths && forall i :: 0 <= i < Pos(x.paths[r], x.c) ==>
      var l := x.paths[r][i]; l in was && !l.stale && l.Contents() == was[l].contents
  }

  lemma NowUpperSame(x: Cut, r: Hash, was: map<DiffLayer, State>)
    requires x.Right() && r in x.layers && r in x.paths && x.Kept(r) && x.c.root in x.paths
    requires forall l :: l in was && l !in x.paths[x.c.root] ==> Is(l, was[l])
    requires forall l :: l in x.paths[r] ==> l in was
    requires WasOk(x.paths[r], x.disk, was)
    ensures AllIs(x.paths[r], Pos(x.paths[r], x.c), was) && UpperSame(x, r, was)
  {
    hide Cut.Right, Cut.Kept, WasOk;
    KeptLayers(x, r, was);
  }

  lemma OffParts(x: Cut, r: Hash)
    ensures IsOff(x, r) <==> r in x.paths && Off(x.paths[r], x.c, x.above)
  {
  }

  /** What has become of a stack, when the cut was flattened. */
  lemma FlatStack(x: Cut, r: Hash, q: seq<DiffLayer>, was: map<DiffLayer, State>, before: Stored, after: Stored)
    requires r in x.FinalPaths() && q == x.FinalPaths()[r] && r in x.Final() && r in x.paths
    requires x.Right() && Reparented(x) && x.flat.Some? && Flattened(x, was)
    requires x.flat.value !in x.paths[r] && !x.disk'.stale && x.c.stale && after == before
    requires WasOk(x.paths[r], x.disk, was) && (forall l :: l in x.paths[r] ==> l in was)
    requires AllIs(x.paths[r], Pos(x.paths[r], x.c), was) && UpperSame(x, r, was)
    ensures if IsOff(x, r) then Adrift(q) else PathOk(q, x.disk')
    ensures SameView(ChainWas(x.paths[r], was), before, Chain(q), after)
  {
    hide *;
    FinalAt(x, r);
    OffParts(x, r);
    UpperParts(x, r, was);
    CutView(x, r, was, before, after);
    if IsOff(x, r) {
      OffAdrift(x, r);
    } else {
      FlatOk(x, r, was);
    }
  }

  lemma UpperParts(x: Cut, r: Hash, was: map<DiffLayer, State>)
    requires UpperSame(x, r, was)
    ensures r in x.paths && forall i :: 0 <= i < Pos(x.paths[r], x.c) ==>
      var l := x.paths[r][i]; l in was && !l.stale && l.Contents() == was[l].contents
  {
  }

  /** Everything over the new disk layer knows it. */
  ghost predicate AllRenewed(paths: map<Hash, seq<DiffLayer>>, base: DiskLayer)
    reads var ls := if base.root in paths then Over(paths, base.root) else {};
      ls + set l | l in ls && l.parent.Diff? :: l.parent.diff
  {
    base.root in paths && forall l :: l in Over(paths, base.root) ==> Renewed(l, base)
  }

  lemma RenewedParts(x: Cut, r: Hash, locate: Locator)
    requires AllRenewed(x.FinalPaths(), x.disk') && r in x.paths && SameLocator(x.paths[r], locate)
    ensures x.disk'.root in x.FinalPaths()
    ensures forall l :: l in Over(x.FinalPaths(), x.disk'.root) ==> Renewed(l, x.disk')
    ensures forall l :: l in x.paths[r] ==> l.locate == x.paths[r][0].locate
  {
    hide Over, Renewed, Cut.FinalPaths;
  }

  /** What has become of a stack, when the cut was written to disk. */
  lemma PersistedStack(x: Cut, r: Hash, q: seq<DiffLayer>, was: map<DiffLayer, State>, before: Stored, after: Stored,
      locate: Locator)
    requires r in x.FinalPaths() && q == x.FinalPaths()[r] && r in x.Final() && r in x.paths
    requires x.Right() && Reparented(x) && x.flat.None?
    requires WrittenDown(x, was, before, after) && !x.disk'.stale && x.c.stale
    requires AllRenewed(x.FinalPaths(), x.disk') && SameLocator(x.paths[r], locate)
    requires (forall l :: l in x.paths[r] ==> l in was) && UpperSame(x, r, was)
    ensures if IsOff(x, r) then Adrift(q) else PathOk(q, x.disk')
    ensures SameView(ChainWas(x.paths[r], was), before, Chain(q), after)
  {
    hide *;
    FinalAt(x, r);
    OffParts(x, r);
    UpperParts(x, r, was);
    CutView(x, r, was, before, after);
    if IsOff(x, r) {
      OffAdrift(x, r);
    } else {
      RenewedParts(x, r, locate);
      PersistedOk(x, r);
    }
  }

  lemma RecutLocator(x: Cut, r: Hash, locate: Locator)
    requires x.Right() && r in x.Final() && r in x.paths && SameLocator(x.paths[r], locate)
    requires x.flat.Some? ==> x.flat.value.locate == x.c.locate
    ensures r in x.FinalPaths() && SameLocator(x.FinalPaths()[r], locate)
  {
    hide Cut.Right;
    FinalAt(x, r);
  }

  lemma NowRenewed(paths: map<Hash, seq<DiffLayer>>, base: DiskLayer)
    requires base.root in paths && forall l :: l in Over(paths, base.root) ==> Renewed(l, base)
    ensures AllRenewed(paths, base)
  {
  }

  lemma FinalKeys(x: Cut)
    requires x.Right()
    ensures x.Final().Keys == x.FinalPaths().Keys
  {
    hide Cut.Right, Cut.Final, Cut.FinalPaths;
    forall r ensures r in x.Final() <==> r in x.FinalPaths() {
      FinalAt(x, r);
    }
  }

  /** What the cut leaves to be shown of the stacks. */
  ghost predicate Left(x: Cut, was: map<DiffLayer, State>, db: Database, before: Stored, locate: Locator)
    reads x.c`stale, x.disk'`stale, db
    reads LayersOf(x.paths)`parent, LayersOf(x.paths)`stale, LayersOf(x.paths)`destructSet
    reads LayersOf(x.paths)`accountData, LayersOf(x.paths)`storageData
    reads if x.flat.Some? then LayersOf(x.paths) + {x.flat.value} else {}
  {
    && x.Right() && Reparented(x) && x.c.stale && !x.disk'.stale && x.disk'.db == db
    && (if x.flat.Some? then Flattened(x, was) && db.Contents() == before
        else WrittenDown(x, was, before, db.Contents()))
    && forall r :: r in x.Final() && r in x.paths ==> StackLeft(x, r, was, locate)
  }

  ghost predicate StackLeft(x: Cut, r: Hash, was: map<DiffLayer, State>, locate: Locator)
    reads LayersIn(x.paths, r)`stale, LayersIn(x.paths, r)`destructSet
    reads LayersIn(x.paths, r)`accountData, LayersIn(x.paths, r)`storageData
    reads if x.flat.Some? then LayersIn(x.paths, r) else {}
  {
    && UpperSame(x, r, was) && WasOk(x.paths[r], x.disk, was) && SameLocator(x.paths[r], locate)
    && (forall l :: l in x.paths[r] ==> l in was)
    && (x.flat.Some? ==> x.flat.value !in x.paths[r] && AllIs(x.paths[r], Pos(x.paths[r], x.c), was))
  }

  lemma CutLeft(x: Cut, was: map<DiffLayer, State>, parents: map<DiffLayer, Snapshot>, db: Database, before: Stored,
      locate: Locator)
    requires x.Right() && Made(x, was, parents, db, before) && Reparented(x)
    requires forall r :: r in x.paths ==> WasOk(x.paths[r], x.disk, was) && forall l :: l in x.paths[r] ==> l in was
    requires forall r :: r in x.paths ==> SameLocator(x.paths[r], locate)
    requires x.flat.Some? ==> forall r :: r in x.paths ==> x.flat.value !in x.paths[r]
    ensures Left(x, was, db, before, locate)
  {
    hide Cut.Right, Reparented, Made, Flattened, WrittenDown, WasOk, AllIs, UpperSame, SameLocator, Cut.Final, Is;
    MadeParts(x, was, parents, db, before);
    forall r | r in x.Final() && r in x.paths ensures StackLeft(x, r, was, locate) {
      FinalAt(x, r);
      NowUpperSame(x, r, was);
    }
  }

  /** What has become of a stack. */
  lemma StackAfter(x: Cut, r: Hash, was: map<DiffLayer, State>, db: Database, before: Stored, locate: Locator)
    requires Left(x, was, db, before, locate) && (x.flat.None? ==> AllRenewed(x.FinalPaths(), x.disk'))
    requires r in x.FinalPaths() && forall l :: l in x.paths[r] ==> l in was
    ensures SameLocator(x.FinalPaths()[r], locate)
    ensures if IsOff(x, r) then Adrift(x.FinalPaths()[r]) else PathOk(x.FinalPaths()[r], x.disk')
    ensures SameView(ChainWas(x.paths[r], was), before, Chain(x.FinalPaths()[r]), db.Contents())
  {
    hide *;
    LeftParts(x, was, db, before, locate);
    FinalAt(x, r);
    CutParts(x);
    StackLeftParts(x, r, was, locate);
    if x.flat.Some? {
      FlatStack(x, r, x.FinalPaths()[r], was, before, db.Contents());
      FlattenedLocator(x, was);
    } else {
      PersistedStack(x, r, x.FinalPaths()[r], was, before, db.Contents(), locate);
    }
    RecutLocator(x, r, locate);
  }

  lemma FlattenedLocator(x: Cut, was: map<DiffLayer, State>)
    requires Flattened(x, was)
    ensures x.flat.Some? && x.flat.value.locate == x.c.locate
  {
    hide Covers;
  }

  lemma LeftParts(x: Cut, was: map<DiffLayer, State>, db: Database, before: Stored, locate: Locator)
    requires Left(x, was, db, before, locate)
    ensures x.Right() && Reparented(x) && x.c.stale && !x.disk'.stale && x.disk'.db == db
    ensures if x.flat.Some? then Flattened(x, was) && db.Contents() == before
      else WrittenDown(x, was, before, db.Contents())
    ensures forall r :: r in x.Final() && r in x.paths ==> StackLeft(x, r, was, locate)
  {
    hide Cut.Right, Reparented, Flattened, WrittenDown, StackLeft, Cut.Final;
  }

  lemma StackLeftParts(x: Cut, r: Hash, was: map<DiffLayer, State>, locate: Locator)
    requires StackLeft(x, r, was, locate)
    ensures UpperSame(x, r, was) && r in x.paths && WasOk(x.paths[r], x.disk, was) && SameLocator(x.paths[r], locate)
    ensures forall l :: l in x.paths[r] ==> l in was
    ensures x.flat.Some? ==> x.flat.value !in x.paths[r] && AllIs(x.paths[r], Pos(x.paths[r], x.c), was)
  {
    hide WasOk, AllIs, SameLocator;
  }

  /** All stacks that the cut leaves: in order, with the views that they had, but for those that hang
      off the cut. */
  ghost predicate Done(x: Cut, was: map<DiffLayer, State>, db: Database, before: Stored, locate: Locator)
    reads x.disk', db, LayersOf(x.FinalPaths())
    reads set l | l in LayersOf(x.FinalPaths()) && l.parent.Diff? :: l.parent.diff
  {
    && x.disk'.db == db && !x.disk'.stale
    && forall r :: r in x.FinalPaths() ==> StackDone(x, r, x.FinalPaths()[r], was, db, before, locate)
  }

  ghost predicate StackDone(x: Cut, r: Hash, q: seq<DiffLayer>, was: map<DiffLayer, State>, db: Database,
      before: Stored, locate: Locator)
    reads x.disk', db, q, set l | l in q && l.parent.Diff? :: l.parent.diff
  {
    && r in x.paths && (forall l :: l in x.paths[r] ==> l in was)
    && SameView(ChainWas(x.paths[r], was), before, Chain(q), db.Contents())
    && SameLocator(q, locate) && if IsOff(x, r) then Adrift(q) else PathOk(q, x.disk')
  }

  lemma AllDone(x: Cut, was: map<DiffLayer, State>, db: Database, before: Stored, locate: Locator)
    requires Left(x, was, db, before, locate) && (x.flat.None? ==> AllRenewed(x.FinalPaths(), x.disk'))
    requires LayersOf(x.paths) <= was.Keys
    ensures Done(x, was, db, before, locate)
  {
    hide Left, Cut.FinalPaths, SameView, PathOk, Adrift, AllRenewed, IsOff, SameLocator, Chain, ChainWas, Cut.Right;
    LeftParts(x, was, db, before, locate);
    CutParts(x);
    assert forall l :: l in LayersOf(x.paths) ==> l in was;
    forall r | r in x.FinalPaths() ensures StackDone(x, r, x.FinalPaths()[r], was, db, before, locate) {
      FinalAt(x, r);
      StackAfter(x, r, was, db, before, locate);
    }
  }

  lemma AllStay(paths: map<Hash, seq<DiffLayer>>, was: map<DiffLayer, State>, stored: Stored)
    requires LayersOf(paths) <= was.Keys && forall l :: l in was ==> Is(l, was[l])
    ensures forall r :: r in paths ==>
      (forall l :: l in paths[r] ==> l in was) && SameView(ChainWas(paths[r], was), stored, Chain(paths[r]), stored)
  {
    hide Is, SameView;
    forall r | r in paths ensures SameView(ChainWas(paths[r], was), stored, Chain(paths[r]), stored) {
      ChainRecorded(paths[r], was);
      SameViewSelf(Chain(paths[r]), stored);
    }
  }

  lemma NewStack(x: Cut, root: Hash, n: nat, layers: map<Hash, Snapshot>, stacks: map<Hash, seq<DiffLayer>>,
      d: DiskLayer)
    requires IsCut(x, layers, stacks, d, root, n) && root in layers
    ensures root in x.Final() && root in x.FinalPaths() && Indexed(x.Final(), x.FinalPaths(), x.disk')
    ensures x.FinalPaths()[root] == stacks[root][..n] + x.Top()
  {
    hide Cut.Final, Cut.FinalPaths, Cut.Right, Indexed, Cut.Top;
    CutIndexed(x);
    CutParts(x);
    FinalAt(x, root);
    StackDistinct(layers, stacks, d, root);
    StackAt(stacks[root], n, 0);
    assert stacks[root][0..] == stacks[root];
  }

  /** With nothing but one stack, nothing hangs off the cut, and nothing but the new stack is left. */
  lemma StraightEntry(x: Cut, root: Hash, n: nat, layers: map<Hash, Snapshot>, stacks: map<Hash, seq<DiffLayer>>,
      d: DiskLayer, r: Hash)
    requires IsCut(x, layers, stacks, d, root, n) && root in layers && StraightAt(layers, stacks[root], d)
    requires r in x.Final()
    ensures !IsOff(x, r) && r in Roots(stacks[root][..n] + x.Top()) + {x.disk'.root}
  {
    hide Cut.Final, Cut.FinalPaths, Cut.Right, Indexed, HasEntry, Recut;
    CutParts(x);
    CutDisk(x);
    FinalAt(x, r);
    StackDistinct(layers, stacks, d, root);
    var q := stacks[root];
    if r != d.root {
      var k: nat :| k < |q| && q[k].root == r;
      TailEntry(layers, stacks, d, root, k);
      StackAt(q, n, k);
      StraightKept(x, q, n, k);
    }
  }

  lemma StraightKept(x: Cut, q: seq<DiffLayer>, n: nat, k: nat)
    requires 1 <= n < |q| && k <= n && x.c == q[n] && x.above == q[n - 1]
    requires if x.flat.Some? then x.flat.value.root == x.c.root else x.disk'.root == x.c.root
    requires Pos(q[k..], x.c) == n - k
    ensures !Off(q[k..], x.c, x.above) && q[k].root in Roots(q[..n] + x.Top()) + {x.disk'.root}
  {
    hide Pos;
    var s := q[..n] + x.Top();
    if k < n {
      assert s[k] == q[k];
    } else if x.flat.Some? {
      assert s[n] == x.flat.value;
    }
  }

  /** Where the layer `n` of a stack stands in what remains from layer `k` on. */
  lemma StackAt(q: seq<DiffLayer>, n: nat, k: nat)
    requires n < |q| && k < |q| && forall i, j :: 0 <= i < j < |q| ==> q[i] != q[j]
    ensures k <= n ==> Pos(q[k..], q[n]) == n - k && q[n] in q[k..]
    ensures k > n ==> q[n] !in q[k..] && q[|q| - 1] in q[k..]
  {
    hide Pos;
    var t := q[k..];
    assert t[|t| - 1] == q[|q| - 1];
    if k <= n {
      assert t[n - k] == q[n];
      var p := Pos(t, q[n]);
      assert t[p] == q[k + p];
    }
  }

  lemma DoneViews(x: Cut, was: map<DiffLayer, State>, db: Database, before: Stored, locate: Locator)
    requires Done(x, was, db, before, locate)
    ensures forall r :: r in x.FinalPaths() ==>
      r in x.paths && (forall l :: l in x.paths[r] ==> l in was)
      && SameView(ChainWas(x.paths[r], was), before, Chain(x.FinalPaths()[r]), db.Contents())
  {
    hide SameView, Cut.FinalPaths, PathOk, Adrift;
    forall r | r in x.FinalPaths()
      ensures r in x.paths && (forall l :: l in x.paths[r] ==> l in was)
      ensures SameView(ChainWas(x.paths[r], was), before, Chain(x.FinalPaths()[r]), db.Contents()) {
      assert StackDone(x, r, x.FinalPaths()[r], was, db, before, locate);
    }
  }

  lemma LayersInIs(paths: map<Hash, seq<DiffLayer>>, r: Hash)
    ensures LayersIn(paths, r) == if r in paths then set l | l in paths[r] else {}
  {
  }

  /** With nothing but one stack, there are no other layers. */
  lemma StraightOnly(layers: map<Hash, Snapshot>, paths: map<Hash, seq<DiffLayer>>, disk: DiskLayer, root: Hash)
    requires Indexed(layers, paths, disk) && root in layers && root in paths && StraightAt(layers, paths[root], disk)
    ensures LayersOf(paths) <= LayersIn(paths, root)
  {
    hide Indexed;
    LayersFrom(paths);
    IndexedKeys(layers, paths, disk);
    IndexedDisk(layers, paths, disk);
    forall l | l in LayersOf(paths) ensures l in paths[root] {
      var r :| r in paths && l in paths[r];
      var k: nat :| k < |paths[root]| && paths[root][k].root == r;
      TailEntry(layers, paths, disk, root, k);
    }
  }

  /** A stack that goes through the layer `n` of the stack at `root`, but not through the one above. */
  ghost predicate HangsOff(stacks: map<Hash, seq<DiffLayer>>, root: Hash, n: nat, r: Hash)
    requires root in stacks && 1 <= n < |stacks[root]|
  {
    r in stacks && Off(stacks[r], stacks[root][n], stacks[root][n - 1])
  }

  /** What cutting below layer `n` of the stack at `root` makes of a tree with the stacks `before`.
      What was at the cut and below is one layer or the new disk layer. What hung on anything below is
      gone; all else is there. */
  ghost predicate CutBelow(before: map<Hash, seq<DiffLayer>>, layers: map<Hash, Snapshot>,
      paths: map<Hash, seq<DiffLayer>>, root: Hash, n: nat)
    requires root in before && 1 <= n < |before[root]|
  {
    var q := before[root];
    var c, bottom := q[n], q[|q| - 1];
    && root in paths && c.root in paths && |paths[c.root]| <= 1 && paths[root] == q[..n] + paths[c.root]
    && (forall r :: r in layers <==> r in before && Stays(before[r], c, bottom, paths[c.root] != []))
    && (forall r :: r in layers ==> r in paths && paths[r] == Recut(before[r], c, paths[c.root]))
  }

  lemma CutSize(before: map<Hash, seq<DiffLayer>>, layers: map<Hash, Snapshot>, paths: map<Hash, seq<DiffLayer>>,
      root: Hash, n: nat)
    requires root in before && 1 <= n < |before[root]| && CutBelow(before, layers, paths, root, n)
    ensures root in paths && n <= |paths[root]| <= n + 1 && paths[root][..n] == before[root][..n]
  {
  }

  lemma CutBelowIs(x: Cut, root: Hash, n: nat, layers: map<Hash, Snapshot>, stacks: map<Hash, seq<DiffLayer>>,
      d: DiskLayer)
    requires IsCut(x, layers, stacks, d, root, n) && root in layers
    ensures CutBelow(stacks, x.Final(), x.FinalPaths(), root, n)
  {
    hide Cut.Final, Cut.FinalPaths, Cut.Right, Indexed, Stays, Recut, Pos;
    NewStack(x, root, n, layers, stacks, d);
    CutPoint(x);
    CutParts(x);
    FinalAt(x, x.c.root);
    forall r ensures r in x.Final() <==> r in stacks && Stays(stacks[r], x.c, x.bottom, x.flat.Some?) {
      FinalAt(x, r);
    }
    forall r | r in x.Final() ensures r in x.FinalPaths() && x.FinalPaths()[r] == Recut(stacks[r], x.c, x.Top()) {
      FinalAt(x, r);
    }
  }
}
