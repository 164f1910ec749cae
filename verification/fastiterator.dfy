/** The merge of several sorted iterators into one, the shallowest layer winning. */
module FastIterators {
  import opened SnapViews

  datatype Value = Null | Account(data: Bytes) | Slot(data: Bytes)

  datatype Entry = Entry(hash: Hash, value: Value)

  /** One underlying iterator: what it still has to deliver. Once started, the first entry is the
      current one. */
  datatype Cursor = Cursor(list: seq<Entry>, started: bool, priority: nat)
  {
    /** Moves on; the iterator is used up when nothing is left. */
    function Next(): Cursor {
      if !started then this.(started := true)
      else if list == [] then this
      else this.(list := list[1..])
    }

    predicate Sorted() {
      forall i, j :: 0 <= i < j < |list| ==> list[i].hash < list[j].hash
    }

    predicate Contains(h: Hash) {
      exists i :: 0 <= i < |list| && list[i].hash == h
    }

    predicate Ready() {
      started && list != [] && Sorted()
    }

    predicate Before(other: Cursor)
      requires list != [] && other.list != []
    {
      Key() < other.Key() || (Key() == other.Key() && priority < other.priority)
    }

    function Key(): Hash
      requires list != []
    {
      list[0].hash
    }
  }

  /** `e` is what the shallowest iterator that has its hash says. */
  ghost predicate Wins(cs: seq<Cursor>, e: Entry) {
    exists c :: WinsAt(cs, e, c)
  }

  ghost predicate WinsAt(cs: seq<Cursor>, e: Entry, c: Cursor) {
    c in cs && e in c.list && forall d :: d in cs && d.Contains(e.hash) ==> c.priority <= d.priority
  }

  ghost predicate SameMerge(cs: seq<Cursor>, cs': seq<Cursor>) {
    forall e :: Wins(cs, e) <==> Wins(cs', e)
  }

  predicate Distinct(cs: seq<Cursor>) {
    forall i, j :: 0 <= i < j < |cs| ==> cs[i].priority != cs[j].priority
  }

  predicate AllReady(cs: seq<Cursor>) {
    forall i :: 0 <= i < |cs| ==> cs[i].Ready()
  }

  /** In ascending order of the current hashes, no two of which are equal. */
  predicate Ordered(cs: seq<Cursor>) {
    AllReady(cs) && Distinct(cs) && forall i, j :: 0 <= i < j < |cs| ==> cs[i].Key() < cs[j].Key()
  }

  /** Ordered, but for iterator `k`, which may be shadowed by the one before it. */
  predicate OrderedBut(cs: seq<Cursor>, k: nat) {
    && AllReady(cs) && Distinct(cs)
    && forall i, j :: 0 <= i < j < |cs| ==>
      cs[i].Key() < cs[j].Key() || (j == k && i == k - 1 && cs[i].Key() == cs[j].Key()
        && cs[i].priority < cs[j].priority)
  }

  function Total(cs: seq<Cursor>): nat {
    if cs == [] then 0 else |cs[0].list| + Total(cs[1..])
  }

  lemma {:induction false} TotalSplit(cs: seq<Cursor>, ds: seq<Cursor>)
    ensures Total(cs + ds) == Total(cs) + Total(ds)
  {
    if cs == [] {
      assert cs + ds == ds;
    } else {
      TotalSplit(cs[1..], ds);
      assert (cs + ds)[1..] == cs[1..] + ds;
    }
  }

  lemma TotalUpdate(cs: seq<Cursor>, i: nat, d: Cursor)
    requires i < |cs|
    ensures Total(cs[i := d]) == Total(cs) - |cs[i].list| + |d.list|
  {
    TotalSplit(cs[..i], [cs[i]] + cs[i + 1..]);
    TotalSplit(cs[..i], [d] + cs[i + 1..]);
    assert cs[..i] + ([cs[i]] + cs[i + 1..]) == cs;
    assert cs[..i] + ([d] + cs[i + 1..]) == cs[i := d];
  }

  lemma TotalSwap(a: seq<Cursor>, b: seq<Cursor>, c: seq<Cursor>, d: seq<Cursor>)
    ensures Total(a + b + c + d) == Total(a + c + b + d)
  {
    TotalSplit(a + b + c, d);
    TotalSplit(a + b, c);
    TotalSplit(a, b);
    TotalSplit(a + c + b, d);
    TotalSplit(a + c, b);
    TotalSplit(a, c);
  }

  lemma TotalMove(cs: seq<Cursor>, i: nat, k: nat)
    requires i <= k < |cs|
    ensures Total(Moved(cs, i, k)) == Total(cs)
  {
    hide Total;
    var a, b, c, d := cs[..i], [cs[i]], cs[i + 1..k + 1], cs[k + 1..];
    assert a + b == cs[..i + 1];
    assert cs[..i + 1] + c == cs[..k + 1];
    assert cs[..k + 1] + d == cs;
    TotalSwap(a, b, c, d);
  }

  /** Element `i` moved behind element `k`. */
  function Moved(cs: seq<Cursor>, i: nat, k: nat): seq<Cursor>
    requires i <= k < |cs|
  {
    cs[..i] + cs[i + 1..k + 1] + [cs[i]] + cs[k + 1..]
  }

  lemma SameElements(cs: seq<Cursor>, cs': seq<Cursor>)
    requires forall c :: c in cs <==> c in cs'
    ensures SameMerge(cs, cs')
  {
    forall e ensures Wins(cs, e) <==> Wins(cs', e) {
      if c :| WinsAt(cs, e, c) {
        assert WinsAt(cs', e, c);
      }
      if c :| WinsAt(cs', e, c) {
        assert WinsAt(cs, e, c);
      }
    }
  }

  lemma MovedSame(cs: seq<Cursor>, i: nat, k: nat)
    requires i <= k < |cs|
    ensures SameMerge(cs, Moved(cs, i, k))
  {
    var cs' := Moved(cs, i, k);
    forall c ensures c in cs <==> c in cs' {
      if c in cs {
        var n :| 0 <= n < |cs| && cs[n] == c;
        assert cs'[if n < i then n else if n == i then k else if n <= k then n - 1 else n] == c;
      }
    }
    SameElements(cs, cs');
  }

  /** An iterator with nothing left does not matter. */
  lemma EmptyLeaves(cs: seq<Cursor>, i: nat, cs': seq<Cursor>)
    requires i < |cs| && cs[i].list == []
    requires forall c :: c in cs' ==> c in cs
    requires forall n :: 0 <= n < |cs| && n != i ==> cs[n] in cs'
    ensures SameMerge(cs, cs')
  {
    forall e ensures Wins(cs, e) <==> Wins(cs', e) {
      if c :| WinsAt(cs, e, c) {
        var n :| 0 <= n < |cs| && cs[n] == c;
        assert WinsAt(cs', e, c);
      }
      if c :| WinsAt(cs', e, c) {
        forall d | d in cs && d.Contains(e.hash) ensures c.priority <= d.priority {
          var n :| 0 <= n < |cs| && cs[n] == d;
        }
        assert WinsAt(cs, e, c);
      }
    }
  }

  /** Dropping an entry whose hash a shallower iterator also has changes nothing. */
  lemma ShadowedDrops(cs: seq<Cursor>, i: nat, s: nat)
    requires i < |cs| && s < |cs| && s != i && Distinct(cs) && cs[i].Ready() && cs[s].priority < cs[i].priority
    requires cs[s].Contains(cs[i].Key())
    ensures SameMerge(cs, cs[i := cs[i].Next()])
  {
    var d := cs[i].Next();
    var cs' := cs[i := d];
    NextContains(cs[i]);
    forall e ensures Wins(cs, e) <==> Wins(cs', e) {
      if c :| WinsAt(cs, e, c) {
        WinsAfter(cs, i, s, e, c);
      }
      if c :| WinsAt(cs', e, c) {
        WinsBefore(cs, i, s, e, c);
      }
    }
  }

  lemma NextContains(c: Cursor)
    requires c.Ready()
    ensures |c.Next().list| == |c.list| - 1
    ensures forall e :: e in c.list <==> e == c.list[0] || e in c.Next().list
    ensures forall h :: c.Contains(h) <==> h == c.Key() || c.Next().Contains(h)
    ensures !c.Next().Contains(c.Key()) && c.Next().Sorted()
    ensures c.Next().list != [] ==> c.Key() < c.Next().Key()
  {
    assert forall k :: 0 <= k < |c.list[1..]| ==> c.list[1..][k] == c.list[k + 1];
    forall h | c.Contains(h) ensures h == c.Key() || c.Next().Contains(h) {
      var k :| 0 <= k < |c.list| && c.list[k].hash == h;
      assert k > 0 ==> c.list[1..][k - 1].hash == h;
    }
  }

  lemma WinsAfter(cs: seq<Cursor>, i: nat, s: nat, e: Entry, c: Cursor)
    requires i < |cs| && s < |cs| && s != i && Distinct(cs) && cs[i].Ready() && cs[s].priority < cs[i].priority
    requires cs[s].Contains(cs[i].Key()) && WinsAt(cs, e, c)
    ensures Wins(cs[i := cs[i].Next()], e)
  {
    var d := cs[i].Next();
    var cs' := cs[i := d];
    NextContains(cs[i]);
    assert cs'[s] == cs[s] && cs'[i] == d;
    forall c' | c' in cs' && c'.Contains(e.hash) ensures c.priority <= c'.priority {
      var n :| 0 <= n < |cs'| && cs'[n] == c';
      assert cs[n] in cs && cs[n].Contains(e.hash);
    }
    var n :| 0 <= n < |cs| && cs[n] == c;
    if n == i {
      assert cs[s] in cs;
      assert e != cs[i].list[0];
      assert WinsAt(cs', e, d);
    } else {
      assert cs'[n] == c;
      assert WinsAt(cs', e, c);
    }
  }

  lemma WinsBefore(cs: seq<Cursor>, i: nat, s: nat, e: Entry, c: Cursor)
    requires i < |cs| && s < |cs| && s != i && Distinct(cs) && cs[i].Ready() && cs[s].priority < cs[i].priority
    requires cs[s].Contains(cs[i].Key()) && WinsAt(cs[i := cs[i].Next()], e, c)
    ensures Wins(cs, e)
  {
    var d := cs[i].Next();
    var cs' := cs[i := d];
    NextContains(cs[i]);
    var n :| 0 <= n < |cs'| && cs'[n] == c;
    var c0 := cs[n];
    assert c0.priority == c.priority && e in c0.list;
    forall c' | c' in cs && c'.Contains(e.hash) ensures c0.priority <= c'.priority {
      var k :| 0 <= k < |cs| && cs[k] == c';
      assert cs'[k] in cs' && cs'[s] in cs' && cs'[s] == cs[s];
      if k == i && !d.Contains(e.hash) {
        assert e.hash == cs[i].Key() && cs[s].Contains(e.hash);
      }
    }
    assert WinsAt(cs, e, c0);
  }

  /** Taking the current entry of the first iterator takes exactly that entry. */
  lemma FirstTaken(cs: seq<Cursor>, e: Entry)
    requires Ordered(cs) && cs != []
    ensures Wins(cs, e) <==> e == cs[0].list[0] || Wins(cs[0 := cs[0].Next()], e)
    ensures Wins(cs[0 := cs[0].Next()], e) ==> cs[0].Key() < e.hash
  {
    if c :| WinsAt(cs, e, c) {
      if e != cs[0].list[0] {
        RestStillWins(cs, e, c);
      }
    }
    var cs' := cs[0 := cs[0].Next()];
    if c :| WinsAt(cs', e, c) {
      RestWon(cs, e, c);
    }
    if e == cs[0].list[0] {
      FirstWins(cs);
    }
  }

  lemma FirstWins(cs: seq<Cursor>)
    requires Ordered(cs) && cs != []
    ensures Wins(cs, cs[0].list[0])
  {
    var e := cs[0].list[0];
    forall c' | c' in cs && c'.Contains(e.hash) ensures cs[0].priority <= c'.priority {
      var k :| 0 <= k < |cs| && cs[k] == c';
      var m :| 0 <= m < |c'.list| && c'.list[m].hash == e.hash;
      if k > 0 {
        LaterGreater(cs, k, c'.list[m]);
      }
    }
    assert WinsAt(cs, e, cs[0]);
  }

  lemma RestStillWins(cs: seq<Cursor>, e: Entry, c: Cursor)
    requires Ordered(cs) && cs != [] && WinsAt(cs, e, c) && e != cs[0].list[0]
    ensures Wins(cs[0 := cs[0].Next()], e)
  {
    var cs' := cs[0 := cs[0].Next()];
    NextContains(cs[0]);
    var n :| 0 <= n < |cs| && cs[n] == c;
    forall c' | c' in cs' && c'.Contains(e.hash) ensures cs'[n].priority <= c'.priority {
      var k :| 0 <= k < |cs'| && cs'[k] == c';
      assert cs[k] in cs && cs[k].Contains(e.hash);
    }
    assert WinsAt(cs', e, cs'[n]);
  }

  lemma RestWon(cs: seq<Cursor>, e: Entry, c: Cursor)
    requires Ordered(cs) && cs != [] && WinsAt(cs[0 := cs[0].Next()], e, c)
    ensures Wins(cs, e) && cs[0].Key() < e.hash
  {
    var d := cs[0].Next();
    var cs' := cs[0 := d];
    NextContains(cs[0]);
    var n :| 0 <= n < |cs'| && cs'[n] == c;
    if n == 0 {
      var k :| 0 <= k < |d.list| && d.list[k] == e;
      assert cs[0].list[k + 1] == e;
    } else {
      LaterGreater(cs, n, e);
    }
    forall c' | c' in cs && c'.Contains(e.hash) ensures cs[n].priority <= c'.priority {
      var k :| 0 <= k < |cs| && cs[k] == c';
      assert cs'[k] in cs' && cs'[k].Contains(e.hash);
    }
    assert WinsAt(cs, e, cs[n]);
  }

  lemma LaterGreater(cs: seq<Cursor>, n: nat, e: Entry)
    requires Ordered(cs) && 0 < n < |cs| && e in cs[n].list
    ensures cs[0].Key() < e.hash
  {
    var m :| 0 <= m < |cs[n].list| && cs[n].list[m] == e;
    assert cs[0].Key() < cs[n].Key();
  }

  /** Ordered, but that iterator `k`, which has just moved on, may belong further back. */
  predicate Stepped(cs: seq<Cursor>, k: nat) {
    && AllReady(cs) && Distinct(cs)
    && forall i, j :: 0 <= i < j < |cs| && i != k ==> cs[i].Key() < cs[j].Key()
  }

  /** Ordered, but that iterator `k` is shadowed by the one before it. */
  predicate Shadowed(cs: seq<Cursor>, k: nat) {
    0 < k < |cs| && OrderedBut(cs, k) && cs[k - 1].Key() == cs[k].Key() && cs[k - 1].priority < cs[k].priority
  }

  lemma StepOrdered(cs: seq<Cursor>, k: nat)
    requires k < |cs| && OrderedBut(cs, k) && cs[k].Next().list != []
    ensures Stepped(cs[k := cs[k].Next()], k)
  {
    NextContains(cs[k]);
  }

  lemma StepSettled(cs: seq<Cursor>, k: nat)
    requires k < |cs| && Stepped(cs, k)
    ensures k == |cs| - 1 || cs[k].Key() < cs[k + 1].Key() ==> Ordered(cs)
    ensures k < |cs| - 1 && cs[k].Key() == cs[k + 1].Key() && cs[k].priority < cs[k + 1].priority ==>
      Shadowed(cs, k + 1)
  {
  }

  lemma RemovedOrdered(cs: seq<Cursor>, k: nat)
    requires k < |cs| && OrderedBut(cs, k)
    ensures Ordered(cs[..k] + cs[k + 1..])
  {
    var rest := cs[..k] + cs[k + 1..];
    assert forall i :: 0 <= i < |rest| ==> rest[i] == cs[if i < k then i else i + 1];
  }

  lemma TotalRemove(cs: seq<Cursor>, k: nat)
    requires k < |cs|
    ensures Total(cs[..k] + cs[k + 1..]) == Total(cs) - |cs[k].list|
  {
    TotalSplit(cs[..k], cs[k + 1..]);
    TotalSplit(cs[..k], [cs[k]] + cs[k + 1..]);
    assert cs[..k] + ([cs[k]] + cs[k + 1..]) == cs;
  }

  lemma MovedAt(cs: seq<Cursor>, i: nat, k: nat)
    requires i <= k < |cs|
    ensures |Moved(cs, i, k)| == |cs|
    ensures forall n :: 0 <= n < |cs| ==>
      Moved(cs, i, k)[n] == cs[if n < i || n > k then n else if n == k then i else n + 1]
  {
  }

  lemma PlacedOrdered(cs: seq<Cursor>, k: nat, pos: nat)
    requires k <= pos < |cs| && Stepped(cs, k)
    requires forall m :: k < m <= pos ==> cs[m].Key() < cs[k].Key()
    requires pos < |cs| - 1 ==> cs[k].Key() < cs[pos + 1].Key()
    ensures Ordered(Moved(cs, k, pos))
  {
    MovedAt(cs, k, pos);
  }

  lemma PlacedBefore(cs: seq<Cursor>, k: nat, pos: nat)
    requires k <= pos < |cs| - 1 && Stepped(cs, k)
    requires forall m :: k < m <= pos ==> cs[m].Key() < cs[k].Key()
    requires cs[k].Key() == cs[pos + 1].Key() && cs[k].priority < cs[pos + 1].priority
    ensures Shadowed(Moved(cs, k, pos), pos + 1)
  {
    MovedAt(cs, k, pos);
  }

  lemma PlacedAfter(cs: seq<Cursor>, k: nat, pos: nat)
    requires k < pos < |cs| && Stepped(cs, k)
    requires cs[pos].Key() == cs[k].Key() && cs[pos].priority < cs[k].priority
    ensures Shadowed(Moved(cs, k, pos), pos)
  {
    MovedAt(cs, k, pos);
  }

  lemma SameMergeTrans(a: seq<Cursor>, b: seq<Cursor>, c: seq<Cursor>)
    requires SameMerge(a, b) && SameMerge(b, c)
    ensures SameMerge(a, c)
  {
    forall e ensures Wins(a, e) <==> Wins(c, e) {
      assert Wins(a, e) <==> Wins(b, e);
    }
  }

  // ---- Starting ----

  predicate Fresh(cs: seq<Cursor>) {
    Distinct(cs) && forall i :: 0 <= i < |cs| ==> !cs[i].started && cs[i].Sorted()
  }

  /** The iterators below `i` are started, at different hashes, which `positioned` records. */
  predicate Placed(cs: seq<Cursor>, i: nat, positioned: map<Hash, nat>) {
    && i <= |cs| && Distinct(cs)
    && (forall j :: 0 <= j < |cs| ==> cs[j].Sorted())
    && (forall j :: 0 <= j < i ==> cs[j].Ready() && cs[j].Key() in positioned && positioned[cs[j].Key()] == j)
    && (forall h :: h in positioned ==> positioned[h] < i && cs[positioned[h]].Key() == h)
  }

  predicate Starting(cs: seq<Cursor>, i: nat, positioned: map<Hash, nat>) {
    Placed(cs, i, positioned) && forall j :: i <= j < |cs| ==> !cs[j].started
  }

  /** Iterator `i` is not started, or is shadowed by one below. */
  predicate Working(cs: seq<Cursor>, i: nat, positioned: map<Hash, nat>) {
    && i < |cs| && Placed(cs, i, positioned) && (forall j :: i < j < |cs| ==> !cs[j].started)
    && (cs[i].started ==> cs[i].Ready() && cs[i].Key() in positioned)
    && (cs[i].started ==> cs[positioned[cs[i].Key()]].priority < cs[i].priority)
  }

  lemma StepWorking(cs: seq<Cursor>, i: nat, positioned: map<Hash, nat>)
    requires Working(cs, i, positioned)
    ensures var cs' := cs[i := cs[i].Next()];
      SameMerge(cs, cs') && Placed(cs', i, positioned) && cs'[i].started && forall j :: i < j < |cs| ==> !cs'[j].started
    ensures |cs[i].Next().list| == |cs[i].list| - if cs[i].started then 1 else 0
    ensures cs[i].Next().list != [] ==> cs[i].Next().Ready()
  {
    var cs' := cs[i := cs[i].Next()];
    if cs[i].started {
      var s := positioned[cs[i].Key()];
      assert cs[s].list[0].hash == cs[i].Key();
      ShadowedDrops(cs, i, s);
      NextContains(cs[i]);
    } else {
      JustStarted(cs, i);
    }
  }

  lemma PlacedMore(cs: seq<Cursor>, i: nat, positioned: map<Hash, nat>)
    requires i < |cs| && Placed(cs, i, positioned) && cs[i].Ready() && cs[i].Key() !in positioned
    ensures Placed(cs, i + 1, positioned[cs[i].Key() := i])
  {
  }

  lemma PlacedOther(cs: seq<Cursor>, i: nat, positioned: map<Hash, nat>, h: Hash)
    requires i < |cs| && Placed(cs, i, positioned) && h in positioned
    ensures positioned[h] < i && cs[positioned[h]].priority != cs[i].priority
  {
  }

  lemma JustStarted(cs: seq<Cursor>, i: nat)
    requires i < |cs|
    ensures SameMerge(cs, cs[i := cs[i].(started := true)])
  {
    var cs' := cs[i := cs[i].(started := true)];
    forall e ensures Wins(cs, e) <==> Wins(cs', e) {
      if c :| WinsAt(cs, e, c) {
        JustStartedWins(cs, cs', e, c);
      }
      if c :| WinsAt(cs', e, c) {
        JustStartedWins(cs', cs, e, c);
      }
    }
  }

  lemma JustStartedWins(cs: seq<Cursor>, cs': seq<Cursor>, e: Entry, c: Cursor)
    requires |cs| == |cs'| && forall n :: 0 <= n < |cs| ==>
      cs'[n].list == cs[n].list && cs'[n].priority == cs[n].priority
    requires WinsAt(cs, e, c)
    ensures Wins(cs', e)
  {
    var n :| 0 <= n < |cs| && cs[n] == c;
    forall d | d in cs' && d.Contains(e.hash) ensures cs'[n].priority <= d.priority {
      var k :| 0 <= k < |cs'| && cs'[k] == d;
      assert cs[k] in cs && cs[k].Contains(e.hash);
    }
    assert WinsAt(cs', e, cs'[n]);
  }

  lemma PopStarting(cs: seq<Cursor>, i: nat, positioned: map<Hash, nat>)
    requires i < |cs| && Placed(cs, i, positioned) && cs[i].list == [] && forall j :: i < j < |cs| ==> !cs[j].started
    ensures var rest := cs[i := cs[|cs| - 1]][..|cs| - 1]; Starting(rest, i, positioned) && SameMerge(cs, rest)
  {
    var rest := cs[i := cs[|cs| - 1]][..|cs| - 1];
    forall n | 0 <= n < |cs| && n != i ensures cs[n] in rest {
      if n < |cs| - 1 {
        assert rest[n] == cs[n];
      } else {
        assert rest[i] == cs[n];
      }
    }
    EmptyLeaves(cs, i, rest);
  }

  lemma SwapWorking(cs: seq<Cursor>, i: nat, other: nat, positioned: map<Hash, nat>)
    requires i < |cs| && Placed(cs, i, positioned) && cs[i].Ready() && forall j :: i < j < |cs| ==> !cs[j].started
    requires cs[i].Key() in positioned && positioned[cs[i].Key()] == other && cs[other].priority > cs[i].priority
    ensures var swapped := cs[i := cs[other]][other := cs[i]];
      Working(swapped, i, positioned) && SameMerge(cs, swapped) && Total(swapped) == Total(cs) && swapped[i].started
  {
    var swapped := cs[i := cs[other]][other := cs[i]];
    SwapSame(cs, i, other);
    assert swapped[i] == cs[other] && swapped[other] == cs[i];
    assert forall j :: 0 <= j < |cs| && j != i && j != other ==> swapped[j] == cs[j];
    assert Distinct(swapped);
  }

  lemma SwapSame(cs: seq<Cursor>, i: nat, other: nat)
    requires i < |cs| && other < |cs|
    ensures var swapped := cs[i := cs[other]][other := cs[i]]; SameMerge(cs, swapped) && Total(swapped) == Total(cs)
  {
    hide SameMerge, Total;
    var swapped := cs[i := cs[other]][other := cs[i]];
    forall c ensures c in cs <==> c in swapped {
      if c in cs {
        var n :| 0 <= n < |cs| && cs[n] == c;
        assert swapped[if n == i then other else if n == other then i else n] == c;
      }
    }
    SameElements(cs, swapped);
    TotalUpdate(cs, i, cs[other]);
    TotalUpdate(cs[i := cs[other]], other, cs[i]);
  }

  /** Sorts by current hash, and by depth among equal ones. */
  method SortCursors(cs: seq<Cursor>) returns (sorted: seq<Cursor>)
    requires AllReady(cs) && Distinct(cs)
    requires forall i, j :: 0 <= i < j < |cs| ==> cs[i].Key() != cs[j].Key()
    ensures Ordered(sorted) && forall c :: c in sorted <==> c in cs
  {
    sorted := [];
    for i := 0 to |cs|
      invariant Ordered(sorted) && forall c :: c in sorted <==> c in cs[..i]
    {
      var c := cs[i];
      assert forall d :: d in sorted ==> d.Ready() && d.Key() != c.Key() && d.priority != c.priority;
      var p := 0;
      while p < |sorted| && sorted[p].Before(c)
        invariant p <= |sorted| && forall k :: 0 <= k < p ==> sorted[k].Key() < c.Key()
      {
        assert sorted[p] in sorted;
        p := p + 1;
      }
      assert p < |sorted| ==> sorted[p] in sorted;
      InsertOrdered(sorted, p, c);
      assert cs[..i + 1] == cs[..i] + [c];
      sorted := sorted[..p] + [c] + sorted[p..];
    }
    assert cs[..|cs|] == cs;
  }

  function Inserted(sorted: seq<Cursor>, p: nat, c: Cursor): seq<Cursor>
    requires p <= |sorted|
  {
    sorted[..p] + [c] + sorted[p..]
  }

  lemma InsertedAt(sorted: seq<Cursor>, p: nat, c: Cursor, k: nat)
    requires p <= |sorted| && k <= |sorted|
    ensures |Inserted(sorted, p, c)| == |sorted| + 1
    ensures Inserted(sorted, p, c)[k] == if k < p then sorted[k] else if k == p then c else sorted[k - 1]
  {
  }

  lemma InsertOrdered(sorted: seq<Cursor>, p: nat, c: Cursor)
    requires Ordered(sorted) && p <= |sorted| && c.Ready()
    requires forall d :: d in sorted ==> d.priority != c.priority
    requires forall k :: 0 <= k < p ==> sorted[k].Key() < c.Key()
    requires p < |sorted| ==> c.Key() < sorted[p].Key()
    ensures Ordered(Inserted(sorted, p, c))
    ensures forall d :: d in Inserted(sorted, p, c) <==> d == c || d in sorted
  {
    hide Inserted;
    InsertElements(sorted, p, c);
    InsertedAt(sorted, p, c, p);
    forall k: nat | k <= |sorted| ensures Inserted(sorted, p, c)[k].Ready() {
      InsertedAt(sorted, p, c, k);
    }
    forall i: nat, j: nat | i < j <= |sorted|
      ensures Inserted(sorted, p, c)[i].Key() < Inserted(sorted, p, c)[j].Key()
      ensures Inserted(sorted, p, c)[i].priority != Inserted(sorted, p, c)[j].priority
    {
      InsertedAt(sorted, p, c, i);
      InsertedAt(sorted, p, c, j);
      if p < |sorted| && p < j {
        assert sorted[p].Key() <= sorted[j - 1].Key();
      }
    }
  }

  lemma InsertElements(sorted: seq<Cursor>, p: nat, c: Cursor)
    requires p <= |sorted|
    ensures forall d :: d in Inserted(sorted, p, c) <==> d == c || d in sorted
  {
    assert sorted == sorted[..p] + sorted[p..];
  }

  // ---- Delivering ----

  predicate Visible(v: Value) {
    match v
    case Null => false
    case Account(_) => true
    case Slot(data) => data != []
  }

  predicate AscendingEntries(es: seq<Entry>) {
    forall i, j :: 0 <= i < j < |es| ==> es[i].hash < es[j].hash
  }

  /** `done` has been delivered of what `start` held, in order, and `cs` still holds the rest. */
  ghost predicate Delivered(start: seq<Cursor>, done: seq<Entry>, cs: seq<Cursor>) {
    && AscendingEntries(done)
    && (forall e :: Wins(start, e) <==> e in done || Wins(cs, e))
    && (forall d, e :: d in done && Wins(cs, e) ==> d.hash < e.hash)
  }

  /** `out` is `all` without what is not visible. */
  ghost predicate Filtered(all: seq<Entry>, out: seq<Entry>) {
    && (forall e :: e in out <==> e in all && Visible(e.value))
    && AscendingEntries(out)
    && (all != [] && out != [] ==> out[|out| - 1].hash <= all[|all| - 1].hash)
  }

  lemma DeliverNext(start: seq<Cursor>, done: seq<Entry>, cs: seq<Cursor>)
    requires Delivered(start, done, cs) && Ordered(cs) && cs != []
    ensures Delivered(start, done + [cs[0].list[0]], cs[0 := cs[0].Next()])
  {
    var e0, cs' := cs[0].list[0], cs[0 := cs[0].Next()];
    FirstWins(cs);
    forall e ensures Wins(start, e) <==> e in done + [e0] || Wins(cs', e) {
      FirstTaken(cs, e);
    }
    forall d, e | d in done + [e0] && Wins(cs', e) ensures d.hash < e.hash {
      FirstTaken(cs, e);
    }
    assert forall i :: 0 <= i < |done| ==> done[i] in done;
  }

  lemma DeliveredSame(start: seq<Cursor>, done: seq<Entry>, cs: seq<Cursor>, cs': seq<Cursor>)
    requires Delivered(start, done, cs) && SameMerge(cs, cs')
    ensures Delivered(start, done, cs')
  {
  }

  lemma FilterNext(all: seq<Entry>, out: seq<Entry>, e: Entry)
    requires Filtered(all, out) && forall d :: d in all ==> d.hash < e.hash
    ensures Filtered(all + [e], if Visible(e.value) then out + [e] else out)
  {
    assert forall i :: 0 <= i < |out| ==> out[i] in out;
    assert all != [] ==> all[|all| - 1] in all;
  }

  lemma NothingWins(cs: seq<Cursor>)
    requires cs == []
    ensures forall e :: !Wins(cs, e)
  {
  }

  class FastSnapIterator {
    var iterators: seq<Cursor>

    constructor (cs: seq<Cursor>)
      ensures iterators == cs
    {
      iterators := cs;
    }

    /** Moves the iterator at `index` on and puts it where it belongs. Whenever its new hash is
        also that of another iterator, the deeper of the two is moved on in turn. */
    method Next(index: nat) returns (more: bool)
      requires OrderedBut(iterators, index)
      modifies this
      ensures Ordered(iterators) && |iterators| >= |old(iterators)| - 1
      ensures index >= |old(iterators)| ==> iterators == old(iterators) && !more
      ensures index < |old(iterators)| ==>
        SameMerge(old(iterators)[index := old(iterators)[index].Next()], iterators)
        && Total(iterators) < Total(old(iterators)) && more == (|iterators| > 0)
      decreases Total(iterators)
    {
      hide SameMerge, Total, Cursor.Next, Cursor.Contains, Cursor.Sorted, Distinct;
      if index >= |iterators| {
        return false;
      }
      ghost var before := iterators;
      var iter := iterators[index].Next();
      NextContains(iterators[index]);
      ghost var stepped := iterators[index := iter];
      TotalUpdate(iterators, index, iter);
      if iter.list == [] {
        iterators := iterators[..index] + iterators[index + 1..];
        RemovedOrdered(before, index);
        assert iterators == stepped[..index] + stepped[index + 1..];
        EmptyLeaves(stepped, index, iterators);
        TotalRemove(before, index);
        return |iterators| > 0;
      }
      StepOrdered(before, index);
      StepSettled(stepped, index);
      iterators := iterators[index := iter];
      if index == |iterators| - 1 {
        SameElements(stepped, iterators);
        return true;
      }
      var next := iterators[index + 1];
      if iter.Key() < next.Key() {
        SameElements(stepped, iterators);
        return true;
      }
      if iter.Key() == next.Key() && iter.priority < next.priority {
        assert next == stepped[index + 1];
        ShadowedDrops(stepped, index + 1, index);
        var _ := Next(index + 1);
        SameMergeTrans(stepped, stepped[index + 1 := next.Next()], iterators);
        return true;
      }
      var pos, clash := FindPosition(index);
      iterators := iterators[..index] + iterators[index + 1..pos + 1] + [iterators[index]] + iterators[pos + 1..];
      ghost var moved := iterators;
      assert moved == Moved(stepped, index, pos);
      MovedSame(stepped, index, pos);
      TotalMove(stepped, index, pos);
      if clash.Some? {
        ShadowedDrops(moved, clash.value, clash.value - 1);
        var _ := Next(clash.value);
        SameMergeTrans(moved, moved[clash.value := moved[clash.value].Next()], iterators);
        SameMergeTrans(stepped, moved, iterators);
      }
      more := true;
    }

    /** Behind which iterator the one at `index` belongs, and which iterator must be moved on after
        that because it is shadowed. */
    method FindPosition(index: nat) returns (pos: nat, clash: Option<nat>)
      requires index < |iterators| - 1 && Stepped(iterators, index)
      requires iterators[index + 1].Key() <= iterators[index].Key()
      ensures index <= pos < |iterators|
      ensures clash == None ==> Ordered(Moved(iterators, index, pos))
      ensures clash.Some? ==> 0 < clash.value < |iterators| && Shadowed(Moved(iterators, index, pos), clash.value)
    {
      pos, clash := index, None;
      var curr := iterators[index];
      while pos < |iterators| - 1
        invariant index <= pos < |iterators|
        invariant clash.Some? ==> clash.value == pos > index
        invariant clash.Some? ==> iterators[pos].Key() == curr.Key() && iterators[pos].priority < curr.priority
        invariant forall m :: index < m <= pos && clash != Some(m) ==> iterators[m].Key() < curr.Key()
      {
        var next := iterators[pos + 1];
        if curr.Key() < next.Key() {
          break;
        }
        if curr.Key() == next.Key() {
          clash := Some(pos + 1);
          if curr.priority < next.priority {
            PlacedBefore(iterators, index, pos);
            return;
          }
        }
        pos := pos + 1;
      }
      if clash.Some? {
        PlacedAfter(iterators, index, pos);
      } else {
        PlacedOrdered(iterators, index, pos);
      }
    }

    /** Starts every iterator and moves on those that are shadowed, until no two have the same
        current hash; used up iterators are replaced by the last one. */
    method Init()
      requires Fresh(iterators)
      modifies this
      ensures Ordered(iterators) && SameMerge(old(iterators), iterators)
    {
      var positioned: map<Hash, nat> := map[];
      var i: nat := 0;
      while i < |iterators|
        invariant Starting(iterators, i, positioned)
        invariant SameMerge(old(iterators), iterators)
        decreases |iterators| - i
      {
        ghost var before := iterators;
        i, positioned := Position(i, positioned);
        SameMergeTrans(old(iterators), before, iterators);
      }
      ghost var before := iterators;
      iterators := SortCursors(iterators);
      SameElements(before, iterators);
      SameMergeTrans(old(iterators), before, iterators);
    }

    /** Brings the iterator at `i` to a hash that no earlier one is at, or removes it. */
    method Position(i: nat, before: map<Hash, nat>) returns (next: nat, positioned: map<Hash, nat>)
      requires i < |iterators| && Starting(iterators, i, before)
      modifies this
      ensures Starting(iterators, next, positioned) && SameMerge(old(iterators), iterators)
      ensures if next == i then |iterators| == old(|iterators|) - 1
        else next == i + 1 && |iterators| == old(|iterators|)
    {
      hide SameMerge, Total, Placed, Cursor.Next;
      SameElements(iterators, iterators);
      positioned := before;
      while true
        invariant i < |iterators| == old(|iterators|) && Working(iterators, i, positioned)
        invariant SameMerge(old(iterators), iterators)
        decreases Total(iterators), if iterators[i].started then 0 else 1
      {
        ghost var cs := iterators;
        var iter := iterators[i].Next();
        StepWorking(cs, i, positioned);
        TotalUpdate(cs, i, iter);
        iterators := iterators[i := iter];
        SameMergeTrans(old(iterators), cs, iterators);
        ghost var stepped := iterators;
        if iter.list == [] {
          var last := iterators[|iterators| - 1];
          iterators := iterators[i := last];
          iterators := iterators[..|iterators| - 1];
          PopStarting(stepped, i, positioned);
          SameMergeTrans(old(iterators), stepped, iterators);
          return i, positioned;
        }
        var hash := iter.Key();
        if hash !in positioned {
          PlacedMore(stepped, i, positioned);
          return i + 1, positioned[hash := i];
        }
        var other := positioned[hash];
        PlacedOther(stepped, i, positioned, hash);
        if iterators[other].priority > iter.priority {
          iterators := iterators[i := iterators[other]][other := iter];
          SwapWorking(stepped, i, other, positioned);
          SameMergeTrans(old(iterators), stepped, iterators);
        }
      }
    }

    /** Everything there is to deliver, in order; null and empty values are left out. */
    method Entries() returns (out: seq<Entry>)
      requires Fresh(iterators)
      modifies this
      ensures AscendingEntries(out)
      ensures forall e :: e in out <==> Wins(old(iterators), e) && Visible(e.value)
    {
      Init();
      out := [];
      if |iterators| == 0 {
        NothingWins(iterators);
        return;
      }
      ghost var start, all, first := old(iterators), [iterators[0].list[0]], iterators;
      if Visible(iterators[0].list[0].value) {
        out := out + [iterators[0].list[0]];
      }
      assert Delivered(start, [], first);
      DeliverNext(start, [], first);
      var more := Next(0);
      DeliveredSame(start, all, first[0 := first[0].Next()], iterators);
      while more
        invariant Ordered(iterators) && more == (|iterators| > 0)
        invariant Delivered(start, all, iterators) && Filtered(all, out)
        decreases Total(iterators)
      {
        ghost var cs, done := iterators, all;
        var entry := iterators[0].list[0];
        FirstWins(cs);
        FilterNext(done, out, entry);
        if Visible(entry.value) {
          out := out + [entry];
        }
        all := all + [entry];
        DeliverNext(start, done, cs);
        more := Next(0);
        DeliveredSame(start, all, cs[0 := cs[0].Next()], iterators);
      }
      NothingWins(iterators);
    }
  }
}
