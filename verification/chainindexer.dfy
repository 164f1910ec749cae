/** The indexer that turns confirmed sections of the canonical chain into rows of bloom bits. */
module ChainIndexers {
  import C = Compression
  import opened BloomBits

  type Hash = nat

  const EMPTY_HASH: Hash := 0

  datatype Header = Header(hash: Hash, parentHash: Hash, bloom: Bloom)

  /** The canonical headers that the database finds; some may have been lost. */
  type Canon = map<nat, Header>

  function BloomOf(canon: Canon, n: nat): Bloom {
    if n in canon then canon[n].bloom else C.Zeros(BYTE_LENGTH)
  }

  function HashOf(canon: Canon, n: nat): Hash {
    if n in canon then canon[n].hash else EMPTY_HASH
  }

  // ---- The database ----

  type Key = (nat, nat, Hash)

  /** Rows by bit, section and hash of the section's last block; and the last section stored. */
  datatype Index = Index(bits: map<Key, Bytes>, count: Option<nat>)

  datatype Op = SaveBloomBits(bit: nat, section: nat, hash: Hash, bits: Bytes)

  function Save(bits: map<Key, Bytes>, op: Op): map<Key, Bytes> {
    bits[(op.bit, op.section, op.hash) := C.Compress(op.bits)]
  }

  function SaveAll(bits: map<Key, Bytes>, ops: seq<Op>): map<Key, Bytes> {
    if ops == [] then bits else Save(SaveAll(bits, ops[..|ops| - 1]), ops[|ops| - 1])
  }

  /** The rows of a section: one operation for every bit. */
  function Rows(blooms: seq<Bloom>, section: nat, hash: Hash, n: nat): (ops: seq<Op>)
    requires |blooms| == SECTION_SIZE && n <= BIT_LENGTH
    ensures |ops| == n
  {
    seq(n, i requires 0 <= i < n => SaveBloomBits(i, section, hash, Row(blooms, i)))
  }

  // ---- What a call does ----

  function SectionBlooms(canon: Canon, s: nat): (blooms: seq<Bloom>)
    ensures |blooms| == SECTION_SIZE
  {
    seq<Bloom>(SECTION_SIZE, k requires 0 <= k => BloomOf(canon, s * SECTION_SIZE + k))
  }

  function LastHash(canon: Canon, s: nat): Hash {
    HashOf(canon, s * SECTION_SIZE + SECTION_SIZE - 1)
  }

  /** A header, with the one before it also found, that does not name it as its parent. */
  predicate Torn(canon: Canon, n: nat) {
    n > 0 && n in canon && n - 1 in canon && canon[n].parentHash != canon[n - 1].hash
  }

  predicate TornIn(canon: Canon, a: nat, b: nat) {
    exists n :: a <= n < b && Torn(canon, n)
  }

  predicate TornSection(canon: Canon, s: nat) {
    TornIn(canon, s * SECTION_SIZE, (s + 1) * SECTION_SIZE)
  }

  function StoreSection(x: Index, canon: Canon, s: nat): Index {
    Index(SaveAll(x.bits, Rows(SectionBlooms(canon, s), s, LastHash(canon, s), BIT_LENGTH)), Some(s))
  }

  /** Sections one after the other, until one is torn, or an abort is seen after so many. */
  function StoreSections(x: Index, canon: Canon, from: nat, last: nat, abortAfter: nat): Index
    decreases last + 1 - from
  {
    if from > last || TornSection(canon, from) then x
    else if abortAfter <= 1 then StoreSection(x, canon, from)
    else StoreSections(StoreSection(x, canon, from), canon, from + 1, last, abortAfter - 1)
  }

  /** The last section whose blocks are all more than 256 below this one. */
  function Confirmed(number: nat): Option<nat> {
    var sections := if number > CONFIRMS then (number - CONFIRMS) / SECTION_SIZE else 0;
    if sections > 0 then Some(sections - 1) else None
  }

  predicate Behind(count: Option<nat>, confirmed: Option<nat>) {
    confirmed.Some? && (count.None? || confirmed.value > count.value)
  }

  function Start(count: Option<nat>): nat {
    if count.Some? then count.value else 0
  }

  function Process(x: Index, canon: Canon, number: nat, abortAfter: nat): Index {
    var confirmed := Confirmed(number);
    if Behind(x.count, confirmed) then StoreSections(x, canon, Start(x.count), confirmed.value, abortAfter) else x
  }

  // ---- What the index is good for ----

  predicate SectionIndexed(bits: map<Key, Bytes>, canon: Canon, s: nat) {
    forall b: nat :: b < BIT_LENGTH ==> Indexed(bits, canon, s, b)
  }

  predicate Indexed(bits: map<Key, Bytes>, canon: Canon, s: nat, b: nat)
    requires b < BIT_LENGTH
  {
    var key := (b, s, LastHash(canon, s));
    key in bits && C.Decompress(bits[key], ROW_LENGTH) == C.Ok(Row(SectionBlooms(canon, s), b))
  }

  /** Every section up to the stored one is the transpose of the blooms of its headers. */
  ghost predicate Exact(x: Index, canon: Canon) {
    x.count.Some? ==> AllIndexed(x.bits, canon, x.count.value + 1)
  }

  ghost predicate AllIndexed(bits: map<Key, Bytes>, canon: Canon, n: nat) {
    forall s: nat :: s < n ==> SectionIndexed(bits, canon, s)
  }

  /** The last block of the last section is at least 257 below `highest`. */
  predicate Deep(x: Index, highest: nat) {
    x.count.Some? ==> (x.count.value + 1) * SECTION_SIZE - 1 + 257 <= highest
  }

  lemma {:induction false} SaveAllAt(bits: map<Key, Bytes>, blooms: seq<Bloom>, s: nat, hash: Hash, n: nat, key: Key)
    requires |blooms| == SECTION_SIZE && n <= BIT_LENGTH
    ensures var saved := SaveAll(bits, Rows(blooms, s, hash, n));
      if key.0 < n && key.1 == s && key.2 == hash then key in saved && saved[key] == C.Compress(Row(blooms, key.0))
      else (key in saved <==> key in bits) && (key in bits ==> saved[key] == bits[key])
  {
    hide Row, C.Compress;
    if n > 0 {
      SaveAllAt(bits, blooms, s, hash, n - 1, key);
      var ops := Rows(blooms, s, hash, n);
      assert ops[..n - 1] == Rows(blooms, s, hash, n - 1);
    }
  }

  lemma {:induction false} StoreSectionsCount(x: Index, canon: Canon, from: nat, last: nat, abortAfter: nat)
    ensures var x' := StoreSections(x, canon, from, last, abortAfter);
      && (x'.count == x.count || (x'.count.Some? && from <= x'.count.value <= last))
      && ((forall n :: !Torn(canon, n)) && abortAfter > last - from && from <= last ==> x'.count == Some(last))
    decreases last + 1 - from
  {
    hide StoreSection;
    if from <= last && !TornSection(canon, from) {
      StoredCount(x, canon, from);
      if abortAfter > 1 {
        StoreSectionsCount(StoreSection(x, canon, from), canon, from + 1, last, abortAfter - 1);
      }
    }
  }

  lemma StoredCount(x: Index, canon: Canon, s: nat)
    ensures StoreSection(x, canon, s).count == Some(s)
  {
  }

  lemma ConfirmedIsDeep(number: nat)
    ensures Confirmed(number).Some? ==> (Confirmed(number).value + 1) * SECTION_SIZE - 1 + 257 <= number
    ensures number >= CONFIRMS + SECTION_SIZE ==>
      Confirmed(number).Some? && number < (Confirmed(number).value + 2) * SECTION_SIZE + CONFIRMS
  {
  }

  lemma ProcessDeep(x: Index, canon: Canon, number: nat, abortAfter: nat, highest: nat)
    requires Deep(x, highest)
    ensures Deep(Process(x, canon, number, abortAfter), if number > highest then number else highest)
  {
    hide StoreSections, Confirmed;
    ConfirmedIsDeep(number);
    if Behind(x.count, Confirmed(number)) {
      StoreSectionsCount(x, canon, Start(x.count), Confirmed(number).value, abortAfter);
    }
  }

  /** On a chain that is linked, and with no abort, a call stores every section confirmed by then;
      so at most 4096 + 256 blocks up to this one are left without an index. */
  lemma ProcessCatchesUp(x: Index, canon: Canon, number: nat, abortAfter: nat)
    requires (forall n :: !Torn(canon, n)) && number >= CONFIRMS + SECTION_SIZE && abortAfter > number
    ensures var count := Process(x, canon, number, abortAfter).count;
      count.Some? && number < (count.value + 2) * SECTION_SIZE + CONFIRMS
  {
    hide StoreSections, Confirmed;
    ConfirmedIsDeep(number);
    if Behind(x.count, Confirmed(number)) {
      StoreSectionsCount(x, canon, Start(x.count), Confirmed(number).value, abortAfter);
    }
  }

  // ---- Runs ----

  /** A new header's number, with the canonical chain as the database has it at that time. */
  datatype Call = Call(number: nat, canon: Canon, abortAfter: nat)

  function Run(calls: seq<Call>): Index {
    if calls == [] then Index(map[], None)
    else
      var call := calls[|calls| - 1];
      Process(Run(calls[..|calls| - 1]), call.canon, call.number, call.abortAfter)
  }

  function Highest(calls: seq<Call>): nat {
    if calls == [] then 0
    else
      var before, number := Highest(calls[..|calls| - 1]), calls[|calls| - 1].number;
      if number > before then number else before
  }

  ghost predicate Agree(c: Canon, c': Canon, below: int) {
    forall n: nat :: n < below ==> (n in c <==> n in c') && (n in c ==> c[n] == c'[n])
  }

  /** Blocks more than 256 below the highest number handled so far are not reorganized. */
  ghost predicate Settled(calls: seq<Call>) {
    |calls| < 2 ||
    (Settled(calls[..|calls| - 1])
     && Agree(calls[|calls| - 2].canon, calls[|calls| - 1].canon, Highest(calls[..|calls| - 1]) - CONFIRMS))
  }

  lemma SectionAgrees(c: Canon, c': Canon, s: nat)
    requires Agree(c, c', (s + 1) * SECTION_SIZE)
    ensures SectionBlooms(c, s) == SectionBlooms(c', s) && LastHash(c, s) == LastHash(c', s)
  {
    forall k: nat | k < SECTION_SIZE ensures SectionBlooms(c, s)[k] == SectionBlooms(c', s)[k] {
      assert BloomOf(c, s * SECTION_SIZE + k) == BloomOf(c', s * SECTION_SIZE + k);
    }
  }

  // ---- Which call stored what ----

  /** The first section from `from` on that is not stored. */
  function StoreEnd(canon: Canon, from: nat, last: nat, abortAfter: nat): (end: nat)
    ensures from <= end && (end > from ==> end <= last + 1)
    decreases last + 1 - from
  {
    if from > last || TornSection(canon, from) then from
    else if abortAfter <= 1 then from + 1
    else StoreEnd(canon, from + 1, last, abortAfter - 1)
  }

  /** Whether a call that finds the index as `x` stores section `s`. */
  predicate Stores(x: Index, call: Call, s: nat) {
    var confirmed := Confirmed(call.number);
    Behind(x.count, confirmed)
    && Start(x.count) <= s < StoreEnd(call.canon, Start(x.count), confirmed.value, call.abortAfter)
  }

  predicate SameAt(bits: map<Key, Bytes>, bits': map<Key, Bytes>, key: Key) {
    (key in bits' <==> key in bits) && (key in bits ==> bits'[key] == bits[key])
  }

  /** Under `key` there is the row of its section's blooms. */
  predicate HoldsRow(bits: map<Key, Bytes>, canon: Canon, key: Key)
    requires key.0 < BIT_LENGTH
  {
    key in bits && bits[key] == C.Compress(Row(SectionBlooms(canon, key.1), key.0))
  }

  lemma StoreSectionAt(x: Index, canon: Canon, s: nat, key: Key)
    requires key.0 < BIT_LENGTH
    ensures var bits := StoreSection(x, canon, s).bits;
      if key.1 == s && key.2 == LastHash(canon, s) then HoldsRow(bits, canon, key) else SameAt(x.bits, bits, key)
  {
    hide Row, SectionBlooms, LastHash, C.Compress, SaveAll, Rows;
    SaveAllAt(x.bits, SectionBlooms(canon, s), s, LastHash(canon, s), BIT_LENGTH, key);
  }

  lemma {:induction false} StoreSectionsAt(x: Index, canon: Canon, from: nat, last: nat, abortAfter: nat, key: Key)
    requires key.0 < BIT_LENGTH
    ensures var bits, end := StoreSections(x, canon, from, last, abortAfter).bits,
      StoreEnd(canon, from, last, abortAfter);
      if from <= key.1 < end && key.2 == LastHash(canon, key.1) then HoldsRow(bits, canon, key)
        else SameAt(x.bits, bits, key)
    decreases last + 1 - from
  {
    hide StoreSection, LastHash, Row, SectionBlooms, C.Compress, TornSection;
    if from <= last && !TornSection(canon, from) {
      StoreSectionAt(x, canon, from, key);
      if abortAfter > 1 {
        StoreSectionsAt(StoreSection(x, canon, from), canon, from + 1, last, abortAfter - 1, key);
      }
    }
  }

  /** Once the next section is confirmed, a call stores the last section again, as it is in the chain
      now, whatever chain it was stored for before. */
  lemma LastIsRedone(x: Index, canon: Canon, number: nat, abortAfter: nat)
    requires x.count.Some? && number >= (x.count.value + 2) * SECTION_SIZE + CONFIRMS
    requires !TornSection(canon, x.count.value)
    ensures SectionIndexed(Process(x, canon, number, abortAfter).bits, canon, x.count.value)
  {
    hide StoreSections, LastHash, Row, SectionBlooms, C.Compress, C.Decompress, TornSection;
    var s, bits := x.count.value, Process(x, canon, number, abortAfter).bits;
    ConfirmedIsDeep(number);
    forall b: nat | b < BIT_LENGTH ensures Indexed(bits, canon, s, b) {
      var key: Key := (b, s, LastHash(canon, s));
      StoreSectionsAt(x, canon, s, Confirmed(number).value, abortAfter, key);
      RowBack(SectionBlooms(canon, s), b);
    }
  }

  lemma RowBack(blooms: seq<Bloom>, b: nat)
    requires |blooms| == SECTION_SIZE && b < BIT_LENGTH
    ensures C.Decompress(C.Compress(Row(blooms, b)), ROW_LENGTH) == C.Ok(Row(blooms, b))
  {
    C.RoundTrip(Row(blooms, b));
  }

  lemma {:induction false} StoreSectionsEnd(x: Index, canon: Canon, from: nat, last: nat, abortAfter: nat)
    ensures var end := StoreEnd(canon, from, last, abortAfter);
      StoreSections(x, canon, from, last, abortAfter).count == if end > from then Some(end - 1) else x.count
    decreases last + 1 - from
  {
    hide StoreSection, TornSection;
    if from <= last && !TornSection(canon, from) {
      StoredCount(x, canon, from);
      if abortAfter > 1 {
        StoreSectionsEnd(StoreSection(x, canon, from), canon, from + 1, last, abortAfter - 1);
      }
    }
  }

  /** The last call that stored section `s` under the hash `hash`. */
  function LastStore(calls: seq<Call>, s: nat, hash: Hash): (k: Option<nat>)
    ensures k.Some? ==> k.value < |calls| && LastHash(calls[k.value].canon, s) == hash
  {
    if calls == [] then None
    else
      var before, call := calls[..|calls| - 1], calls[|calls| - 1];
      if Stores(Run(before), call, s) && LastHash(call.canon, s) == hash then Some(|calls| - 1)
      else LastStore(before, s, hash)
  }

  /** The last call that stored section `s` at all. */
  function LastStoring(calls: seq<Call>, s: nat): (k: Option<nat>)
    ensures k.Some? ==> k.value < |calls| && Stores(Run(calls[..k.value]), calls[k.value], s)
    ensures k.Some? ==> LastStore(calls, s, LastHash(calls[k.value].canon, s)) == k
  {
    if calls == [] then None
    else
      var before, call := calls[..|calls| - 1], calls[|calls| - 1];
      if Stores(Run(before), call, s) then Some(|calls| - 1)
      else
        var k := LastStoring(before, s);
        assert k.Some? ==> calls[..k.value] == before[..k.value];
        k
  }

  /** What is in the database after a run, and only that. */
  lemma {:induction false} RunBits(calls: seq<Call>, key: Key)
    requires key.0 < BIT_LENGTH
    ensures var k := LastStore(calls, key.1, key.2);
      if k.Some? then HoldsRow(Run(calls).bits, calls[k.value].canon, key) else key !in Run(calls).bits
  {
    hide HoldsRow, StoreSections, StoreEnd, LastHash, Confirmed;
    if calls != [] {
      var before, call := calls[..|calls| - 1], calls[|calls| - 1];
      var x := Run(before);
      RunBits(before, key);
      if Behind(x.count, Confirmed(call.number)) {
        StoreSectionsAt(x, call.canon, Start(x.count), Confirmed(call.number).value, call.abortAfter, key);
      }
      var k := LastStore(before, key.1, key.2);
      if k.Some? {
        SameHolds(x.bits, Run(calls).bits, before[k.value].canon, key);
      }
    }
  }

  lemma SameHolds(bits: map<Key, Bytes>, bits': map<Key, Bytes>, canon: Canon, key: Key)
    requires key.0 < BIT_LENGTH
    ensures SameAt(bits, bits', key) && HoldsRow(bits, canon, key) ==> HoldsRow(bits', canon, key)
  {
  }

  /** Some call stored the section with the last block that it has in `canon`, and the last such
      call read the blooms that it has in `canon`. */
  predicate StoredAsIn(calls: seq<Call>, canon: Canon, s: nat) {
    var k := LastStore(calls, s, LastHash(canon, s));
    k.Some? && SectionBlooms(calls[k.value].canon, s) == SectionBlooms(canon, s)
  }

  /** After any run whatever, a section is exact for a chain exactly if it was last stored as it is
      in that chain. */
  lemma SectionIsExact(calls: seq<Call>, canon: Canon, s: nat)
    ensures SectionIndexed(Run(calls).bits, canon, s) <==> StoredAsIn(calls, canon, s)
  {
    hide Run, LastStore, SectionBlooms, Row, LastHash, C.Compress, C.Decompress;
    var bits, k := Run(calls).bits, LastStore(calls, s, LastHash(canon, s));
    forall b: nat | b < BIT_LENGTH
      ensures Indexed(bits, canon, s, b) <==>
        k.Some? && Row(SectionBlooms(calls[k.value].canon, s), b) == Row(SectionBlooms(canon, s), b)
    {
      RunBits(calls, (b, s, LastHash(canon, s)));
      if k.Some? {
        C.RoundTrip(Row(SectionBlooms(calls[k.value].canon, s), b));
      }
    }
    if SectionIndexed(bits, canon, s) {
      assert Indexed(bits, canon, s, 0);
      forall b: nat | b < BIT_LENGTH
        ensures Row(SectionBlooms(calls[k.value].canon, s), b) == Row(SectionBlooms(canon, s), b) {
        assert Indexed(bits, canon, s, b);
      }
      RowsDetermine(SectionBlooms(calls[k.value].canon, s), SectionBlooms(canon, s));
    }
  }

  /** So the whole index is exact for a chain exactly if this holds of all its sections. */
  lemma IndexIsExact(calls: seq<Call>, canon: Canon)
    ensures Exact(Run(calls), canon) <==>
      Run(calls).count.Some? ==> forall s: nat :: s <= Run(calls).count.value ==> StoredAsIn(calls, canon, s)
  {
    hide Run, SectionIndexed, StoredAsIn;
    forall s: nat ensures SectionIndexed(Run(calls).bits, canon, s) <==> StoredAsIn(calls, canon, s) {
      SectionIsExact(calls, canon, s);
    }
  }

  lemma {:induction false} CountIsStored(calls: seq<Call>, s: nat)
    requires Run(calls).count.Some? && s <= Run(calls).count.value
    ensures LastStoring(calls, s).Some?
  {
    hide StoreSections, StoreEnd, Confirmed;
    if calls != [] {
      var before, call := calls[..|calls| - 1], calls[|calls| - 1];
      var x := Run(before);
      if Behind(x.count, Confirmed(call.number)) {
        StoreSectionsEnd(x, call.canon, Start(x.count), Confirmed(call.number).value, call.abortAfter);
      }
      if !Stores(x, call, s) {
        CountIsStored(before, s);
      }
    }
  }

  /** After any run, every section up to the count was stored by some call, and is exact for the
      chain that the last such call saw. */
  lemma SectionIsExactForItsCall(calls: seq<Call>, s: nat)
    requires Run(calls).count.Some? && s <= Run(calls).count.value
    ensures var k := LastStoring(calls, s);
      k.Some? && SectionIndexed(Run(calls).bits, calls[k.value].canon, s)
  {
    hide Run, SectionIndexed, SectionBlooms, LastHash, Stores;
    CountIsStored(calls, s);
    SectionIsExact(calls, calls[LastStoring(calls, s).value].canon, s);
  }

  /** After any run, every stored section ends at least 257 blocks below the highest number handled. */
  lemma {:induction false} RunIsDeep(calls: seq<Call>)
    ensures Deep(Run(calls), Highest(calls))
  {
    hide Deep, Process;
    if calls == [] {
      EmptyIsDeep();
    } else {
      var before, call := calls[..|calls| - 1], calls[|calls| - 1];
      RunIsDeep(before);
      ProcessDeep(Run(before), call.canon, call.number, call.abortAfter, Highest(before));
    }
  }

  lemma EmptyIsDeep()
    ensures Deep(Index(map[], None), 0)
  {
  }

  /** A reorganization below the confirmed blocks leaves the index stale: the second call finds no
      new section to store. */
  lemma DeepReorganizationIsMissed()
    ensures exists calls: seq<Call> :: |calls| == 2 && !Exact(Run(calls), calls[1].canon)
  {
    hide Exact, LastHash, Stores, StoreSections, SectionBlooms;
    var old1: Canon, new1: Canon := map[], map[4095 := Header(7, 0, C.Zeros(BYTE_LENGTH))];
    var first, second := Call(4352, old1, 1), Call(4352, new1, 1);
    var calls := [first, second];
    assert calls[..1] == [first] && [first][..0] == [];
    OneSection(old1);
    LastHashes(new1);
    assert Run([first]) == Process(Index(map[], None), old1, 4352, 1) && Run([first]).count == Some(0);
    assert !Stores(Run([first]), second, 0) by { NotBehind(Run([first]), second); }
    assert Run(calls) == Run([first]);
    assert LastStore([], 0, 7) == None && LastStore([first], 0, 7) == None && LastStore(calls, 0, 7) == None;
    IndexIsExact(calls, new1);
    assert !StoredAsIn(calls, new1, 0);
  }

  lemma OneSection(canon: Canon)
    requires canon == map[]
    ensures Process(Index(map[], None), canon, 4352, 1).count == Some(0) && LastHash(canon, 0) == EMPTY_HASH
  {
    StoredCount(Index(map[], None), canon, 0);
  }

  lemma LastHashes(canon: Canon)
    ensures 4095 in canon ==> LastHash(canon, 0) == canon[4095].hash
  {
  }

  lemma NotBehind(x: Index, call: Call)
    requires x.count == Some(0) && call.number == 4352
    ensures !Stores(x, call, 0) && Process(x, call.canon, call.number, call.abortAfter) == x
  {
  }

  lemma HighestAt(calls: seq<Call>, k: nat)
    requires k < |calls|
    ensures calls[k].number <= Highest(calls[..k + 1])
  {
    assert calls[..k + 1][..k] == calls[..k];
  }

  /** Later chains still have what was settled at call `k`. */
  lemma {:induction false} SettledAgree(calls: seq<Call>, k: nat)
    requires Settled(calls) && k < |calls|
    ensures Agree(calls[k].canon, calls[|calls| - 1].canon, Highest(calls[..k + 1]) - CONFIRMS)
    decreases |calls|
  {
    if k < |calls| - 1 {
      var before := calls[..|calls| - 1];
      SettledAgree(before, k);
      assert before[..k + 1] == calls[..k + 1];
      HighestGrows(before, k + 1);
    }
  }

  lemma {:induction false} HighestGrows(calls: seq<Call>, k: nat)
    requires k <= |calls|
    ensures Highest(calls[..k]) <= Highest(calls)
    decreases |calls|
  {
    if k == |calls| {
      assert calls[..k] == calls;
    } else {
      assert calls[..|calls| - 1][..k] == calls[..k];
      HighestGrows(calls[..|calls| - 1], k);
    }
  }

  /** After any run, through aborts and errors and through reorganizations no deeper than what is
      confirmed, every stored section is exact for the chain as it is now. */
  lemma RunIsExact(calls: seq<Call>)
    requires |calls| > 0 && Settled(calls)
    ensures Exact(Run(calls), calls[|calls| - 1].canon)
  {
    hide Settled, Run, SectionIndexed, Agree, SectionBlooms, LastHash, Confirmed, StoreEnd;
    var x, now := Run(calls), calls[|calls| - 1].canon;
    if x.count.Some? {
      forall s: nat | s < x.count.value + 1 ensures SectionIndexed(x.bits, now, s) {
        SectionIsExactForItsCall(calls, s);
        var k := LastStoring(calls, s).value;
        ConfirmedIsDeep(calls[k].number);
        HighestAt(calls, k);
        SettledAgree(calls, k);
        AgreeBelow(calls[k].canon, now, Highest(calls[..k + 1]) - CONFIRMS, (s + 1) * SECTION_SIZE);
        SectionAgrees(calls[k].canon, now, s);
        SectionAlso(x.bits, calls[k].canon, now, s);
      }
    }
  }

  lemma SectionAlso(bits: map<Key, Bytes>, c: Canon, c': Canon, s: nat)
    requires SectionIndexed(bits, c, s) && SectionBlooms(c, s) == SectionBlooms(c', s)
    requires LastHash(c, s) == LastHash(c', s)
    ensures SectionIndexed(bits, c', s)
  {
    hide SectionBlooms, LastHash, Row;
    forall b: nat | b < BIT_LENGTH ensures Indexed(bits, c', s, b) {
      assert Indexed(bits, c, s, b);
    }
  }

  lemma AgreeBelow(c: Canon, c': Canon, a: int, b: int)
    requires Agree(c, c', a) && b <= a
    ensures Agree(c, c', b)
  {
  }

  // ---- The code ----

  class BloomBitsIndexer {
    var gen: BloomBitsGenerator
    var section: nat
    var headerHash: Hash

    ghost predicate Valid()
      reads this, gen, gen.blooms
    {
      gen.Valid()
    }

    constructor ()
      ensures Valid() && fresh(gen) && fresh(gen.blooms)
    {
      gen := new BloomBitsGenerator();
      section := 0;
      headerHash := EMPTY_HASH;
    }

    method Reset(section: nat)
      modifies this
      ensures Valid() && fresh(gen) && fresh(gen.blooms) && gen.added == [] && this.section == section
    {
      this.section := section;
      gen := new BloomBitsGenerator();
    }

    /** It fails only when the header is not the next one of the section. */
    method Process(number: nat, bloom: Bloom, hash: Hash) returns (ok: bool)
      requires Valid()
      modifies this`headerHash, gen, gen.blooms
      ensures Valid() && ok == (|old(gen.added)| < SECTION_SIZE && number - section * SECTION_SIZE == |old(gen.added)|)
      ensures ok ==> gen.added == old(gen.added) + [bloom] && headerHash == hash
    {
      ok := gen.AddBloom(number - section * SECTION_SIZE, bloom);
      if ok {
        headerHash := hash;
      }
    }

    method Commit() returns (r: Result<seq<Op>>)
      requires Valid()
      ensures r == if |gen.added| == SECTION_SIZE then Ok(Rows(gen.added, section, headerHash, BIT_LENGTH)) else Err
    {
      var batch: seq<Op> := [];
      for i := 0 to BIT_LENGTH
        invariant i > 0 ==> |gen.added| == SECTION_SIZE
        invariant |gen.added| == SECTION_SIZE ==> batch == Rows(gen.added, section, headerHash, i)
      {
        var bits := gen.Bitset(i);
        if bits.Err? {
          return Err;
        }
        batch := batch + [SaveBloomBits(i, section, headerHash, bits.value)];
      }
      r := Ok(batch);
    }
  }

  lemma NextBloom(canon: Canon, s: nat, num: nat)
    requires s * SECTION_SIZE <= num < (s + 1) * SECTION_SIZE
    ensures var k, blooms := num - s * SECTION_SIZE, SectionBlooms(canon, s);
      blooms[..k + 1] == blooms[..k] + [BloomOf(canon, num)]
  {
  }

  class ChainIndexer {
    var bits: map<Key, Bytes>
    var sectionCount: Option<nat>
    var storedSections: Option<nat>
    const backend: BloomBitsIndexer

    ghost predicate Valid()
      reads this, backend, backend.gen, backend.gen.blooms
    {
      backend.Valid() && storedSections == sectionCount
    }

    ghost function Stored(): Index
      reads this
    {
      Index(bits, sectionCount)
    }

    constructor (bits: map<Key, Bytes>, sectionCount: Option<nat>)
      ensures Valid() && Stored() == Index(bits, sectionCount)
      ensures fresh(backend) && fresh(backend.gen) && fresh(backend.gen.blooms)
    {
      this.bits, this.sectionCount, storedSections := bits, sectionCount, sectionCount;
      backend := new BloomBitsIndexer();
    }

    method Batch(ops: seq<Op>, count: nat)
      modifies this`bits, this`sectionCount
      ensures bits == SaveAll(old(bits), ops) && sectionCount == Some(count)
    {
      for i := 0 to |ops|
        invariant bits == SaveAll(old(bits), ops[..i])
      {
        bits := Save(bits, ops[i]);
        assert ops[..i + 1][..i] == ops[..i];
      }
      assert ops[..|ops|] == ops;
      sectionCount := Some(count);
    }

    /** Hands every header of a section to the backend, in order; the backend takes them all. */
    method ReadSection(s: nat, canon: Canon) returns (ok: bool)
      modifies backend
      ensures ok == !TornSection(canon, s)
      ensures fresh(backend.gen) && fresh(backend.gen.blooms) && backend.Valid()
      ensures ok ==> backend.gen.added == SectionBlooms(canon, s)
      ensures ok ==> backend.section == s && backend.headerHash == LastHash(canon, s)
    {
      backend.Reset(s);
      var lastHeader: Option<Header> := None;
      if s > 0 && s * SECTION_SIZE - 1 in canon {
        lastHeader := Some(canon[s * SECTION_SIZE - 1]);
      }
      for num := s * SECTION_SIZE to (s + 1) * SECTION_SIZE
        invariant fresh(backend.gen) && fresh(backend.gen.blooms) && backend.Valid() && backend.section == s
        invariant lastHeader == if num > 0 && num - 1 in canon then Some(canon[num - 1]) else None
        invariant !TornIn(canon, s * SECTION_SIZE, num)
        invariant backend.gen.added == SectionBlooms(canon, s)[..num - s * SECTION_SIZE]
        invariant num > s * SECTION_SIZE ==> backend.headerHash == HashOf(canon, num - 1)
      {
        var header: Option<Header> := if num in canon then Some(canon[num]) else None;
        if lastHeader.Some? && header.Some? && header.value.parentHash != lastHeader.value.hash {
          assert Torn(canon, num);
          return false;
        }
        assert !Torn(canon, num);
        var bloom: Bloom := if header.Some? then header.value.bloom else C.Zeros(BYTE_LENGTH);
        var hash := if header.Some? then header.value.hash else EMPTY_HASH;
        var taken := backend.Process(num, bloom, hash);
        assert taken;
        NextBloom(canon, s, num);
        lastHeader := header;
      }
      ok := true;
    }

    method ProcessNewHeader(number: nat, canon: Canon, abortAfter: nat)
      requires Valid()
      modifies this, backend
      ensures Valid() && Stored() == Process(old(Stored()), canon, number, abortAfter)
      ensures backend.gen == old(backend.gen) || (fresh(backend.gen) && fresh(backend.gen.blooms))
    {
      hide TornSection, SectionBlooms, LastHash, Rows, SaveAll;
      var confirmedSections: Option<nat> := Some(if number > CONFIRMS then (number - CONFIRMS) / SECTION_SIZE else 0);
      confirmedSections := if confirmedSections.value > 0 then Some(confirmedSections.value - 1) else None;
      if confirmedSections.Some? && (storedSections.None? || confirmedSections.value > storedSections.value) {
        var currentSections := if storedSections.Some? then storedSections.value else 0;
        var done := 0;
        while currentSections <= confirmedSections.value
          invariant Valid() && currentSections <= confirmedSections.value + 1
          invariant backend.gen == old(backend.gen) || (fresh(backend.gen) && fresh(backend.gen.blooms))
          invariant done > 0 ==> done < abortAfter
          invariant StoreSections(Stored(), canon, currentSections, confirmedSections.value, abortAfter - done)
            == Process(old(Stored()), canon, number, abortAfter)
        {
          var ok := ReadSection(currentSections, canon);
          if !ok {
            return;
          }
          var batch := backend.Commit();
          Batch(batch.value, currentSections);
          storedSections := Some(currentSections);
          currentSections := currentSections + 1;
          done := done + 1;
          if done >= abortAfter {
            return;
          }
        }
      }
    }
  }
}
