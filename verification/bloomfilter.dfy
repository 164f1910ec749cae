/** Log queries over a range of blocks: through the index where there is one, block by block after
it. They must find what a scan of all the blocks finds. */
module BloomBitsFilters {
  import C = Compression
  import opened BloomBits
  import opened ChainIndexers

  const MAX_RESULTS: nat := 10000

  datatype Log = Log(address: Buffer, topics: seq<Buffer>, data: Buffer, blockNumber: Option<nat>)

  /** The logs that the machine emitted, and the one that the fee callback puts after them. */
  datatype Receipt = Receipt(emitted: seq<Log>, usage: Option<Log>)

  function Logs(r: Receipt): seq<Log> {
    r.emitted + if r.usage.Some? then [r.usage.value] else []
  }

  /** What a `Usage` log looks like: the fee contract's address, a fixed topic, two encoded numbers. */
  datatype UsageForm = UsageForm(feeAddr: Buffer, usageTopic: Buffer)

  predicate IsUsage(form: UsageForm, log: Log) {
    && log.address == form.feeAddr && |log.topics| == 3 && log.topics[0] == form.usageTopic
    && |log.topics[1]| == 32 && |log.topics[2]| == 32
  }

  ghost predicate Proper(form: UsageForm, receipts: seq<Receipt>) {
    forall r :: r in receipts && r.usage.Some? ==> IsUsage(form, r.usage.value)
  }

  /** What may stand at one position: anything (`null`), a topic, or a list of alternatives, of which
      one may again be `null`. */
  datatype Topic = Any | One(topic: Buffer) | OneOf(list: seq<Option<Buffer>>)

  datatype Query = Query(addresses: seq<Buffer>, topics: seq<Topic>)

  // ---- Which logs match ----

  predicate TopicMatches(t: Topic, x: Buffer) {
    match t
    case Any => true
    case One(topic) => topic == [] || x == topic
    case OneOf(list) => list == [] || None in list || Some(x) in list
  }

  predicate TopicsMatch(topics: seq<Topic>, logTopics: seq<Buffer>) {
    |topics| <= |logTopics| && forall i :: 0 <= i < |topics| ==> TopicMatches(topics[i], logTopics[i])
  }

  predicate Matches(q: Query, log: Log) {
    (q.addresses == [] || log.address in q.addresses) && TopicsMatch(q.topics, log.topics)
  }

  function MatchingLogs(q: Query, logs: seq<Log>): seq<Log> {
    if logs == [] then []
    else MatchingLogs(q, logs[..|logs| - 1]) + if Matches(q, logs[|logs| - 1]) then [logs[|logs| - 1]] else []
  }

  function Matching(q: Query, receipts: seq<Receipt>): seq<Log> {
    if receipts == [] then []
    else Matching(q, receipts[..|receipts| - 1]) + MatchingLogs(q, Logs(receipts[|receipts| - 1]))
  }

  method TopicMatched(topics: seq<Topic>, logTopics: seq<Buffer>) returns (r: bool)
    ensures r == TopicsMatch(topics, logTopics)
  {
    for i := 0 to |topics|
      invariant i > 0 ==> |topics| <= |logTopics|
      invariant |topics| <= |logTopics| ==> forall k :: 0 <= k < i ==> TopicMatches(topics[k], logTopics[k])
    {
      if |topics| > |logTopics| {
        return false;
      }
      var sub := topics[i];
      if !(sub.Any? || (sub.One? && sub.topic == []) || (sub.OneOf? && sub.list == [])) {
        var matched := false;
        if sub.One? {
          matched := logTopics[i] == sub.topic;
        } else {
          var j := 0;
          while j < |sub.list| && !matched
            invariant 0 <= j <= |sub.list|
            invariant matched == (None in sub.list[..j] || Some(logTopics[i]) in sub.list[..j])
          {
            assert sub.list[..j + 1] == sub.list[..j] + [sub.list[j]];
            if sub.list[j].None? || logTopics[i] == sub.list[j].value {
              matched := true;
            }
            j := j + 1;
          }
          assert sub.list[..|sub.list|] == sub.list;
        }
        if !matched {
          assert !TopicMatches(topics[i], logTopics[i]);
          return false;
        }
      }
    }
    r := true;
  }

  predicate InRange(log: Log, from: Option<nat>, to: Option<nat>) {
    && (from.Some? ==> log.blockNumber.Some? && from.value <= log.blockNumber.value)
    && (to.Some? ==> log.blockNumber.Some? && log.blockNumber.value <= to.value)
  }

  method CheckLogMatches(log: Log, q: Query, from: Option<nat>, to: Option<nat>) returns (r: bool)
    ensures r == (InRange(log, from, to) && Matches(q, log))
  {
    if from.Some? && (log.blockNumber.None? || from.value > log.blockNumber.value) {
      return false;
    }
    if to.Some? && (log.blockNumber.None? || to.value < log.blockNumber.value) {
      return false;
    }
    if |q.addresses| > 0 && log.address !in q.addresses {
      return false;
    }
    r := TopicMatched(q.topics, log.topics);
  }

  method CheckBlockMatches(receipts: seq<Receipt>, q: Query) returns (logs: seq<Log>)
    ensures logs == Matching(q, receipts)
  {
    logs := [];
    for i := 0 to |receipts|
      invariant logs == Matching(q, receipts[..i])
    {
      ghost var before := logs;
      var receipt := Logs(receipts[i]);
      for j := 0 to |receipt|
        invariant logs == before + MatchingLogs(q, receipt[..j])
      {
        assert receipt[..j + 1][..j] == receipt[..j];
        var matched := CheckLogMatches(receipt[j], q, None, None);
        if matched {
          logs := logs + [receipt[j]];
        }
      }
      assert receipt[..|receipt|] == receipt && receipts[..i + 1][..i] == receipts[..i];
    }
    assert receipts[..|receipts|] == receipts;
  }

  // ---- What the filter sees ----

  /** The index, the canonical headers, the receipts that can still be read, the latest block. */
  datatype World = World(index: Index, canon: Canon, receipts: map<nat, seq<Receipt>>, latest: nat)

  function LogsAt(w: World, q: Query, n: nat): seq<Log> {
    if n in w.receipts then Matching(q, w.receipts[n]) else []
  }

  /** The simple thing: the matching logs of every block from `a` up to `b`, in order. */
  function Scan(w: World, q: Query, a: nat, b: nat): seq<Log>
    decreases b
  {
    if a >= b then [] else Scan(w, q, a, b - 1) + LogsAt(w, q, b - 1)
  }

  /** The buffers that the filter looks for in the index. */
  function Terms(q: Query): seq<Buffer> {
    q.addresses + TopicTerms(q.topics)
  }

  function TopicTerms(topics: seq<Topic>): seq<Buffer> {
    if topics == [] then [] else TopicTerms(topics[..|topics| - 1]) + TermsOf(topics[|topics| - 1])
  }

  function TermsOf(t: Topic): seq<Buffer> {
    match t
    case Any => []
    case One(topic) => [topic]
    case OneOf(list) => Present(list)
  }

  function Present(list: seq<Option<Buffer>>): seq<Buffer> {
    if list == [] then []
    else Present(list[..|list| - 1]) + if list[|list| - 1].Some? then [list[|list| - 1].value] else []
  }

  predicate Candidate(hashing: Hashing, terms: seq<Buffer>, bloom: Bloom) {
    exists i :: 0 <= i < |terms| && Has(bloom, hashing(terms[i]))
  }

  // ---- Rows in the database ----

  /** The bit indexes of a buffer. */
  function CalcBloomIndexes(hashing: Hashing, data: Buffer): (idxs: seq<nat>)
    ensures |idxs| == 3 && forall i :: 0 <= i < 3 ==> idxs[i] < BIT_LENGTH
  {
    var l := hashing(data);
    [BloomIndex(l.0), BloomIndex(l.1), BloomIndex(l.2)]
  }

  /** Past the end of the bits, which is where the loop's last step looks, there is nothing. */
  predicate CheckSingleNumber(bits: Bytes, sectionStart: nat, num: nat) {
    sectionStart <= num && (num - sectionStart) / 8 < |bits| && C.Bit(bits, num - sectionStart)
  }

  function And(a: Bytes, b: Bytes): (r: Bytes)
    requires |a| == |b|
    ensures |r| == |a|
  {
    seq(|b|, i requires 0 <= i < |b| => AndByte(a[i], b[i]))
  }

  function AndByte(a: Byte, b: Byte): Byte {
    seq(8, j requires 0 <= j < 8 => a[j] && b[j])
  }

  lemma AndBit(a: Bytes, b: Bytes, k: nat)
    requires |a| == |b| && k / 8 < |a|
    ensures C.Bit(And(a, b), k) == (C.Bit(a, k) && C.Bit(b, k))
  {
    assert And(a, b)[k / 8] == AndByte(a[k / 8], b[k / 8]);
  }

  /** Whether the row of a bit can be read for a section, under the hash its last block has now. */
  predicate Readable(w: World, section: nat, bit: nat) {
    var key := (bit, section, LastHash(w.canon, section));
    key in w.index.bits && C.Decompress(w.index.bits[key], ROW_LENGTH).Ok?
  }

  function StoredRow(w: World, section: nat, bit: nat): (row: Bytes)
    requires Readable(w, section, bit)
    ensures |row| == ROW_LENGTH
  {
    var stored := w.index.bits[(bit, section, LastHash(w.canon, section))];
    C.DecompressLength(stored, ROW_LENGTH);
    C.Decompress(stored, ROW_LENGTH).value
  }

  predicate TermReadable(w: World, hashing: Hashing, term: Buffer, section: nat) {
    var i := CalcBloomIndexes(hashing, term);
    Readable(w, section, i[0]) && Readable(w, section, i[1]) && Readable(w, section, i[2])
  }

  /** The three rows of an item, and-ed. */
  function TermRow(w: World, hashing: Hashing, term: Buffer, section: nat): (bits: Bytes)
    requires TermReadable(w, hashing, term, section)
    ensures |bits| == ROW_LENGTH
  {
    var i := CalcBloomIndexes(hashing, term);
    And(And(StoredRow(w, section, i[0]), StoredRow(w, section, i[1])), StoredRow(w, section, i[2]))
  }

  /** The index says that block `n` has the item. */
  predicate Hit(w: World, hashing: Hashing, term: Buffer, n: nat) {
    TermReadable(w, hashing, term, n / SECTION_SIZE)
    && C.Bit(TermRow(w, hashing, term, n / SECTION_SIZE), n % SECTION_SIZE)
  }

  predicate Picked(w: World, hashing: Hashing, terms: seq<Buffer>, n: nat) {
    exists i :: 0 <= i < |terms| && Hit(w, hashing, terms[i], n)
  }

  function IndexedEnd(index: Index): nat {
    if index.count.Some? then (index.count.value + 1) * SECTION_SIZE else 0
  }

  /** Whether the filter reads the logs of block `n`. */
  predicate Examined(w: World, hashing: Hashing, q: Query, n: nat) {
    Terms(q) == [] || if n < IndexedEnd(w.index) then Picked(w, hashing, Terms(q), n) else n > 0
  }

  function Found(w: World, hashing: Hashing, q: Query, a: nat, b: nat): multiset<Log>
    decreases b
  {
    if a >= b then multiset{}
    else
      Found(w, hashing, q, a, b - 1) +
      if Examined(w, hashing, q, b - 1) then multiset(LogsAt(w, q, b - 1)) else multiset{}
  }

  // ---- No false negatives ----

  function Items(log: Log): seq<Buffer> {
    [log.address] + log.topics
  }

  function AddItems(hashing: Hashing, bloom: Bloom, items: seq<Buffer>): Bloom {
    if items == [] then bloom else Add(AddItems(hashing, bloom, items[..|items| - 1]), hashing(items[|items| - 1]))
  }

  function AddLogs(hashing: Hashing, bloom: Bloom, logs: seq<Log>): Bloom {
    if logs == [] then bloom
    else AddItems(hashing, AddLogs(hashing, bloom, logs[..|logs| - 1]), Items(logs[|logs| - 1]))
  }

  function AddReceipts(hashing: Hashing, bloom: Bloom, receipts: seq<Receipt>): Bloom {
    if receipts == [] then bloom
    else AddLogs(hashing, AddReceipts(hashing, bloom, receipts[..|receipts| - 1]), receipts[|receipts| - 1].emitted)
  }

  /** The bloom that the machine computes for a block, and checks against its header: it has only
      the emitted logs. */
  function BlockBloom(hashing: Hashing, receipts: seq<Receipt>): Bloom {
    AddReceipts(hashing, C.Zeros(BYTE_LENGTH), receipts)
  }

  /** Receipts are only read with their block's header, whose bloom was checked against them. */
  ghost predicate WellKept(w: World, hashing: Hashing, form: UsageForm) {
    forall n :: n in w.receipts ==>
      n in w.canon && w.canon[n].bloom == BlockBloom(hashing, w.receipts[n]) && Proper(form, w.receipts[n])
  }

  lemma {:induction false} AddItemsHas(hashing: Hashing, bloom: Bloom, items: seq<Buffer>)
    ensures Within(bloom, AddItems(hashing, bloom, items))
    ensures forall x :: x in items ==> Has(AddItems(hashing, bloom, items), hashing(x))
  {
    hide Add, BitAt, BloomIndex;
    if items != [] {
      var rest := items[..|items| - 1];
      AddItemsHas(hashing, bloom, rest);
      AddHas(AddItems(hashing, bloom, rest), hashing(items[|items| - 1]));
      assert forall x :: x in items ==> x in rest || x == items[|items| - 1];
    }
  }

  lemma {:induction false} AddLogsHas(hashing: Hashing, bloom: Bloom, logs: seq<Log>)
    ensures Within(bloom, AddLogs(hashing, bloom, logs))
    ensures forall log, x :: log in logs && x in Items(log) ==> Has(AddLogs(hashing, bloom, logs), hashing(x))
  {
    hide Add, BitAt, BloomIndex, AddItems, Items;
    if logs != [] {
      var rest := logs[..|logs| - 1];
      AddLogsHas(hashing, bloom, rest);
      AddItemsHas(hashing, AddLogs(hashing, bloom, rest), Items(logs[|logs| - 1]));
      assert forall log :: log in logs ==> log in rest || log == logs[|logs| - 1];
    }
  }

  lemma {:induction false} AddReceiptsHas(hashing: Hashing, bloom: Bloom, receipts: seq<Receipt>)
    ensures Within(bloom, AddReceipts(hashing, bloom, receipts))
    ensures forall r, log, x :: r in receipts && log in r.emitted && x in Items(log) ==>
      Has(AddReceipts(hashing, bloom, receipts), hashing(x))
  {
    hide Add, BitAt, BloomIndex, AddLogs, Items;
    if receipts != [] {
      var rest := receipts[..|receipts| - 1];
      AddReceiptsHas(hashing, bloom, rest);
      AddLogsHas(hashing, AddReceipts(hashing, bloom, rest), receipts[|receipts| - 1].emitted);
      assert forall r :: r in receipts ==> r in rest || r == receipts[|receipts| - 1];
    }
  }

  /** A position that a log can only match with one of its terms. */
  predicate Strict(t: Topic) {
    match t
    case Any => false
    case One(topic) => topic != []
    case OneOf(list) => list != [] && None !in list
  }

  /** The query's terms say enough: it names an address, or some position is strict. */
  predicate Sound(q: Query) {
    q.addresses != [] || exists i :: 0 <= i < |q.topics| && Strict(q.topics[i])
  }

  lemma {:induction false} PresentIn(list: seq<Option<Buffer>>, x: Buffer)
    ensures x in Present(list) <==> Some(x) in list
  {
    if list != [] {
      PresentIn(list[..|list| - 1], x);
      assert list == list[..|list| - 1] + [list[|list| - 1]];
    }
  }

  lemma {:induction false} TopicTermsIn(topics: seq<Topic>, x: Buffer)
    ensures x in TopicTerms(topics) <==> exists i :: 0 <= i < |topics| && x in TermsOf(topics[i])
  {
    hide TermsOf;
    if topics != [] {
      TopicTermsIn(topics[..|topics| - 1], x);
    }
  }

  lemma {:induction false} MatchingLogsIn(q: Query, logs: seq<Log>)
    ensures MatchingLogs(q, logs) == [] <==> forall log :: log in logs ==> !Matches(q, log)
  {
    hide Matches;
    if logs != [] {
      MatchingLogsIn(q, logs[..|logs| - 1]);
      assert logs == logs[..|logs| - 1] + [logs[|logs| - 1]];
    }
  }

  lemma {:induction false} MatchingIn(q: Query, receipts: seq<Receipt>)
    ensures Matching(q, receipts) == [] <==> forall r, log :: r in receipts && log in Logs(r) ==> !Matches(q, log)
  {
    hide Matches, MatchingLogs, Logs;
    if receipts != [] {
      var rest, last := receipts[..|receipts| - 1], receipts[|receipts| - 1];
      MatchingIn(q, rest);
      MatchingLogsIn(q, Logs(last));
      assert receipts == rest + [last];
      assert Matching(q, receipts) == [] <==> Matching(q, rest) == [] && MatchingLogs(q, Logs(last)) == [];
    }
  }

  /** A log that matches a sound query holds one of the query's terms. */
  lemma MatchHoldsTerm(q: Query, log: Log) returns (x: Buffer)
    requires Sound(q) && Matches(q, log)
    ensures x in Items(log) && x in Terms(q)
  {
    if q.addresses != [] {
      x := log.address;
    } else {
      var i :| 0 <= i < |q.topics| && Strict(q.topics[i]);
      x := log.topics[i];
      assert TopicMatches(q.topics[i], x);
      if q.topics[i].OneOf? {
        PresentIn(q.topics[i].list, x);
      }
      TopicTermsIn(q.topics, x);
    }
  }

  /** Some `Usage` log matches the query. */
  ghost predicate WantsUsage(q: Query, form: UsageForm) {
    exists u :: IsUsage(form, u) && Matches(q, u)
  }

  ghost predicate Complete(q: Query, form: UsageForm) {
    Sound(q) && !WantsUsage(q, form)
  }

  lemma CompleteIsCandidate(hashing: Hashing, form: UsageForm, q: Query, receipts: seq<Receipt>)
    requires Complete(q, form) && Proper(form, receipts) && Matching(q, receipts) != []
    ensures Candidate(hashing, Terms(q), BlockBloom(hashing, receipts))
  {
    hide Sound, Matches, Has, AddReceipts, Terms, Items, IsUsage;
    MatchingIn(q, receipts);
    var r, log :| r in receipts && log in Logs(r) && Matches(q, log);
    assert log in r.emitted;
    var x := MatchHoldsTerm(q, log);
    AddReceiptsHas(hashing, C.Zeros(BYTE_LENGTH), receipts);
    var i :| 0 <= i < |Terms(q)| && Terms(q)[i] == x;
    assert Has(BlockBloom(hashing, receipts), hashing(Terms(q)[i]));
  }

  /** A block with just a `Usage` log is never a candidate, for any hash function. */
  lemma UsageMissed(hashing: Hashing, q: Query, u: Log)
    requires Matches(q, u)
    ensures var receipts := [Receipt([], Some(u))];
      Matching(q, receipts) != [] && !Candidate(hashing, Terms(q), BlockBloom(hashing, receipts))
  {
    hide BitAt, C.Zeros, Matches, Terms, BloomIndex;
    var receipts := [Receipt([], Some(u))];
    assert u in Logs(receipts[0]);
    MatchingIn(q, receipts);
    assert receipts[..0] == [];
    assert BlockBloom(hashing, receipts) == AddLogs(hashing, AddReceipts(hashing, C.Zeros(BYTE_LENGTH), []), []) ==
      C.Zeros(BYTE_LENGTH);
    forall i | 0 <= i < |Terms(q)| ensures !Has(C.Zeros(BYTE_LENGTH), hashing(Terms(q)[i])) {
      ZerosAt(BloomIndex(hashing(Terms(q)[i]).0));
    }
  }

  /** A buffer longer than all of these. */
  lemma {:induction false} Fresh(terms: seq<Buffer>) returns (x: Buffer)
    ensures forall t :: t in terms ==> |t| < |x|
  {
    if terms == [] {
      x := [C.ZERO];
    } else {
      var y := Fresh(terms[..|terms| - 1]);
      x := y + terms[|terms| - 1] + [C.ZERO];
      assert terms == terms[..|terms| - 1] + [terms[|terms| - 1]];
    }
  }

  /** For a query that is not sound, a hash function and a block whose log is missed. */
  lemma UnsoundMisses(q: Query) returns (hashing: Hashing, receipts: seq<Receipt>)
    requires !Sound(q)
    ensures Matching(q, receipts) != [] && !Candidate(hashing, Terms(q), BlockBloom(hashing, receipts))
    ensures forall r :: r in receipts ==> r.usage == None
  {
    hide Sound, Matches, Matching, Terms, Has, BlockBloom;
    var terms := Terms(q);
    var x := Fresh(terms);
    hashing := b => if b in terms then (0, 0, 0) else (1, 1, 1);
    var log := UnsoundMatches(q, x);
    receipts := [Receipt([log], None)];
    assert log in Logs(receipts[0]);
    MatchingIn(q, receipts);
    OnlyOne(hashing, log, x);
    assert forall i :: 0 <= i < |terms| ==> terms[i] in terms;
  }

  /** A query that is not sound matches a log with the same buffer everywhere. */
  lemma UnsoundMatches(q: Query, x: Buffer) returns (log: Log)
    requires !Sound(q)
    ensures Matches(q, log) && forall y :: y in Items(log) ==> y == x
  {
    log := Log(x, seq(|q.topics|, _ => x), [], None);
    forall i | 0 <= i < |q.topics| ensures TopicMatches(q.topics[i], log.topics[i]) {
      assert !Strict(q.topics[i]);
    }
  }

  lemma OnlyOne(hashing: Hashing, log: Log, x: Buffer)
    requires (forall y :: y in Items(log) ==> y == x) && hashing(x) == (1, 1, 1)
    ensures !Has(BlockBloom(hashing, [Receipt([log], None)]), (0, 0, 0))
  {
    hide AddItems, Items, BitAt, C.Zeros;
    var none := C.Zeros(BYTE_LENGTH);
    var receipts := [Receipt([log], None)];
    assert BlockBloom(hashing, receipts) == AddItems(hashing, none, Items(log)) by {
      assert receipts[..0] == [] && [log][..0] == [];
      assert AddLogs(hashing, none, [log]) == AddItems(hashing, AddLogs(hashing, none, []), Items(log));
      assert AddReceipts(hashing, none, receipts) == AddLogs(hashing, AddReceipts(hashing, none, []), [log]);
    }
    assert !BitAt(none, BloomIndex(0)) by { ZerosAt(BloomIndex(0)); }
    NeverAdded(hashing, none, Items(log), BloomIndex(0));
  }

  lemma ZerosAt(i: nat)
    requires i < BIT_LENGTH
    ensures !BitAt(C.Zeros(BYTE_LENGTH), i)
  {
    assert C.IsZero(C.Zeros(BYTE_LENGTH)[i / 8]);
  }

  lemma {:induction false} NeverAdded(hashing: Hashing, bloom: Bloom, items: seq<Buffer>, i: nat)
    requires i < BIT_LENGTH && !BitAt(bloom, i)
    requires forall y :: y in items ==>
      var l := hashing(y); i != BloomIndex(l.0) && i != BloomIndex(l.1) && i != BloomIndex(l.2)
    ensures !BitAt(AddItems(hashing, bloom, items), i)
  {
    hide Add, BitAt, BloomIndex;
    if items != [] {
      var rest := items[..|items| - 1];
      NeverAdded(hashing, bloom, rest, i);
      AddAt(AddItems(hashing, bloom, rest), hashing(items[|items| - 1]), i);
    }
  }

  /** Every block with a matching log is a candidate, whatever the hash function: exactly for the
      sound queries that match no `Usage` log. */
  lemma CompleteExactly(q: Query, form: UsageForm)
    ensures Complete(q, form) <==> forall hashing: Hashing, receipts: seq<Receipt> ::
      Proper(form, receipts) && Matching(q, receipts) != [] ==>
        Candidate(hashing, Terms(q), BlockBloom(hashing, receipts))
  {
    hide Sound, Matching, Candidate, Terms, BlockBloom, Matches, IsUsage;
    if Complete(q, form) {
      forall hashing: Hashing, receipts: seq<Receipt> | Proper(form, receipts) && Matching(q, receipts) != []
        ensures Candidate(hashing, Terms(q), BlockBloom(hashing, receipts))
      {
        CompleteIsCandidate(hashing, form, q, receipts);
      }
    } else if !Sound(q) {
      var hashing, receipts := UnsoundMisses(q);
      assert Proper(form, receipts);
    } else {
      var u :| IsUsage(form, u) && Matches(q, u);
      var hashing: Hashing := _ => (0, 0, 0);
      UsageMissed(hashing, q, u);
      assert Proper(form, [Receipt([], Some(u))]);
    }
  }

  // ---- Found is scanned ----

  /** All of a range's matching logs are found exactly when every block that has some is examined. */
  predicate Missed(w: World, hashing: Hashing, q: Query, n: nat) {
    !Examined(w, hashing, q, n) && LogsAt(w, q, n) != []
  }

  lemma {:induction false} FoundIsScan(w: World, hashing: Hashing, q: Query, a: nat, b: nat)
    ensures Found(w, hashing, q, a, b) <= multiset(Scan(w, q, a, b))
    ensures Found(w, hashing, q, a, b) == multiset(Scan(w, q, a, b)) <==>
      forall n: nat :: a <= n < b ==> !Missed(w, hashing, q, n)
    decreases b
  {
    hide Examined, LogsAt;
    if a < b {
      FoundIsScan(w, hashing, q, a, b - 1);
      var all := LogsAt(w, q, b - 1);
      OneMore(Found(w, hashing, q, a, b - 1), Scan(w, q, a, b - 1), all, Examined(w, hashing, q, b - 1));
      assert Missed(w, hashing, q, b - 1) <==> !Examined(w, hashing, q, b - 1) && all != [];
    }
  }

  lemma OneMore(found: multiset<Log>, scanned: seq<Log>, all: seq<Log>, examined: bool)
    requires found <= multiset(scanned)
    ensures var more := if examined then multiset(all) else multiset{};
      && found + more <= multiset(scanned + all)
      && (found + more == multiset(scanned + all) <==> found == multiset(scanned) && (examined || all == []))
  {
    var some, more := multiset(scanned), if examined then multiset(all) else multiset{};
    assert multiset(scanned + all) == some + multiset(all);
    if examined {
      Cancel(found, some, multiset(all));
    } else if all == [] {
      assert found + more == found && some + multiset(all) == some;
    } else {
      var e := all[0];
      assert e in multiset(all) && (found + more)[e] == found[e] <= some[e] < (some + multiset(all))[e];
    }
  }

  lemma Cancel(x: multiset<Log>, y: multiset<Log>, z: multiset<Log>)
    ensures x + z == y + z <==> x == y
  {
    if x + z == y + z {
      assert forall e :: (x + z)[e] == x[e] + z[e] && (y + z)[e] == y[e] + z[e];
    }
  }

  /** The three rows of an item, and-ed: a bit is set exactly for the blocks whose bloom has it. */
  lemma RowsAnd(blooms: seq<Bloom>, hashing: Hashing, data: Buffer, k: nat)
    requires |blooms| == SECTION_SIZE && k < SECTION_SIZE
    ensures var i := CalcBloomIndexes(hashing, data);
      C.Bit(And(And(Row(blooms, i[0]), Row(blooms, i[1])), Row(blooms, i[2])), k) == Has(blooms[k], hashing(data))
  {
    hide BitAt, Row, And, C.Bit;
    var i := CalcBloomIndexes(hashing, data);
    AndBit(And(Row(blooms, i[0]), Row(blooms, i[1])), Row(blooms, i[2]), k);
    AndBit(Row(blooms, i[0]), Row(blooms, i[1]), k);
    RowBit(blooms, i[0], k);
    RowBit(blooms, i[1], k);
    RowBit(blooms, i[2], k);
  }

  /** Where a section is exact, the index picks just the blocks whose bloom has an item. */
  lemma PickedIsCandidate(w: World, hashing: Hashing, terms: seq<Buffer>, n: nat)
    requires SectionIndexed(w.index.bits, w.canon, n / SECTION_SIZE)
    ensures Picked(w, hashing, terms, n) <==> Candidate(hashing, terms, BloomOf(w.canon, n))
  {
    hide Hit, Has;
    forall i | 0 <= i < |terms| ensures Hit(w, hashing, terms[i], n) == Has(BloomOf(w.canon, n), hashing(terms[i])) {
      HitIsHas(w, hashing, terms[i], n);
    }
  }

  lemma HitIsHas(w: World, hashing: Hashing, term: Buffer, n: nat)
    requires SectionIndexed(w.index.bits, w.canon, n / SECTION_SIZE)
    ensures Hit(w, hashing, term, n) == Has(BloomOf(w.canon, n), hashing(term))
  {
    hide Row, And, C.Bit, Has, C.Decompress, LastHash, CalcBloomIndexes;
    var s, i := n / SECTION_SIZE, CalcBloomIndexes(hashing, term);
    var blooms := SectionBlooms(w.canon, s);
    forall k | 0 <= k < 3 ensures Readable(w, s, i[k]) && StoredRow(w, s, i[k]) == Row(blooms, i[k]) {
      assert Indexed(w.index.bits, w.canon, s, i[k]);
    }
    RowsAnd(blooms, hashing, term, n % SECTION_SIZE);
    assert s * SECTION_SIZE + n % SECTION_SIZE == n;
  }

  /** With an exact index, for a complete query, or one without any terms: the filter finds what the
      scan finds exactly when block zero is out of the range, indexed, without matching logs, or
      there are no terms. */
  lemma CompleteFindsAll(w: World, hashing: Hashing, form: UsageForm, q: Query, a: nat, b: nat)
    requires Exact(w.index, w.canon) && WellKept(w, hashing, form) && (Complete(q, form) || Terms(q) == [])
    ensures Found(w, hashing, q, a, b) == multiset(Scan(w, q, a, b)) <==>
      (a > 0 || b == 0 || w.index.count.Some? || Terms(q) == [] || LogsAt(w, q, 0) == [])
  {
    hide Complete, Candidate, Terms, Matching, BlockBloom, Proper, Picked, SectionIndexed;
    FoundIsScan(w, hashing, q, a, b);
    forall n: nat | Missed(w, hashing, q, n) ensures n == 0 && w.index.count.None? && Terms(q) != [] {
      if n < IndexedEnd(w.index) {
        CompleteIsCandidate(hashing, form, q, w.receipts[n]);
        assert SectionIndexed(w.index.bits, w.canon, n / SECTION_SIZE);
        PickedIsCandidate(w, hashing, Terms(q), n);
      }
    }
    if a == 0 && b > 0 && w.index.count.None? && Terms(q) != [] && LogsAt(w, q, 0) != [] {
      assert Missed(w, hashing, q, 0);
    }
  }

  // ---- The query ----

  method CollectTerms(q: Query) returns (terms: seq<Buffer>)
    ensures terms == Terms(q)
  {
    var topicsBuf: seq<Buffer> := [];
    for i := 0 to |q.topics|
      invariant topicsBuf == TopicTerms(q.topics[..i])
    {
      assert q.topics[..i + 1][..i] == q.topics[..i];
      match q.topics[i]
      case Any =>
      case One(topic) => topicsBuf := topicsBuf + [topic];
      case OneOf(list) =>
        ghost var before := topicsBuf;
        for j := 0 to |list|
          invariant topicsBuf == before + Present(list[..j])
        {
          assert list[..j + 1][..j] == list[..j];
          if list[j].Some? {
            topicsBuf := topicsBuf + [list[j].value];
          }
        }
        assert list[..|list|] == list;
    }
    assert q.topics[..|q.topics|] == q.topics;
    terms := q.addresses + topicsBuf;
  }

  method FilterBlock(w: World, n: nat, q: Query) returns (logs: seq<Log>)
    ensures logs == LogsAt(w, q, n)
  {
    logs := [];
    if n in w.receipts {
      logs := CheckBlockMatches(w.receipts[n], q);
    }
  }

  /** Appends what was found, unless the answer gets too long. */
  method Append(logs: seq<Log>, more: seq<Log>) returns (r: Result<seq<Log>>)
    ensures r == if |logs| + |more| > MAX_RESULTS then Err else Ok(logs + more)
  {
    r := if |logs + more| > MAX_RESULTS then Err else Ok(logs + more);
  }

  ghost predicate CacheRight(w: World, section: nat, cache: map<nat, Bytes>) {
    forall bit :: bit in cache ==> Readable(w, section, bit) && cache[bit] == StoredRow(w, section, bit)
  }

  /** The rows of an item from the cache or the database, and-ed; an error if one is not there or
      does not decompress. */
  method GetBits(w: World, hashing: Hashing, term: Buffer, section: nat, cache: map<nat, Bytes>)
    returns (r: Result<Bytes>, cache': map<nat, Bytes>)
    requires CacheRight(w, section, cache)
    ensures CacheRight(w, section, cache')
    ensures r == if TermReadable(w, hashing, term, section) then Ok(TermRow(w, hashing, term, section)) else Err
  {
    hide And, C.Decompress, LastHash, CalcBloomIndexes;
    var idxs := CalcBloomIndexes(hashing, term);
    cache' := cache;
    var bitsArray: seq<Bytes> := [];
    for i := 0 to 3
      invariant CacheRight(w, section, cache') && |bitsArray| == i
      invariant forall k :: 0 <= k < i ==>
        Readable(w, section, idxs[k]) && bitsArray[k] == StoredRow(w, section, idxs[k])
    {
      var bit := idxs[i];
      if bit !in cache' {
        var key := (bit, section, LastHash(w.canon, section));
        if key !in w.index.bits {
          return Err, cache';
        }
        var stored := C.DecompressBytes(w.index.bits[key], ROW_LENGTH);
        if stored.Err? {
          return Err, cache';
        }
        cache' := cache'[bit := stored.value];
      }
      bitsArray := bitsArray + [cache'[bit]];
    }
    r := Ok(And(And(bitsArray[0], bitsArray[1]), bitsArray[2]));
  }

  /** The matching logs of the blocks of `s` in a range. */
  function Gather(w: World, q: Query, s: set<nat>, a: nat, b: nat): multiset<Log>
    decreases b
  {
    if a >= b then multiset{}
    else Gather(w, q, s, a, b - 1) + if b - 1 in s then multiset(LogsAt(w, q, b - 1)) else multiset{}
  }

  lemma {:induction false} GatherAdd(w: World, q: Query, s: set<nat>, n: nat, a: nat, b: nat)
    requires n !in s
    ensures Gather(w, q, s + {n}, a, b) ==
      Gather(w, q, s, a, b) + if a <= n < b then multiset(LogsAt(w, q, n)) else multiset{}
    decreases b
  {
    hide LogsAt;
    if a < b {
      GatherAdd(w, q, s, n, a, b - 1);
    }
  }

  lemma {:induction false} GatherNone(w: World, q: Query, a: nat, b: nat)
    ensures Gather(w, q, {}, a, b) == multiset{}
    decreases b
  {
    if a < b {
      GatherNone(w, q, a, b - 1);
    }
  }

  lemma {:induction false} GatherFound(w: World, hashing: Hashing, q: Query, s: set<nat>, a: nat, b: nat)
    requires forall n :: n in s && a <= n < b ==> Examined(w, hashing, q, n)
    ensures |Gather(w, q, s, a, b)| <= |Found(w, hashing, q, a, b)|
    ensures (forall n: nat :: a <= n < b && Examined(w, hashing, q, n) ==> n in s) ==>
      Gather(w, q, s, a, b) == Found(w, hashing, q, a, b)
    decreases b
  {
    hide LogsAt, Examined;
    if a < b {
      GatherFound(w, hashing, q, s, a, b - 1);
    }
  }

  lemma {:induction false} FoundSplit(w: World, hashing: Hashing, q: Query, a: nat, b: nat, c: nat)
    requires a <= b <= c
    ensures Found(w, hashing, q, a, c) == Found(w, hashing, q, a, b) + Found(w, hashing, q, b, c)
    decreases c
  {
    hide LogsAt, Examined;
    if b < c {
      FoundSplit(w, hashing, q, a, b, c - 1);
      assert Found(w, hashing, q, b, c) == Found(w, hashing, q, b, c - 1)
        + if Examined(w, hashing, q, c - 1) then multiset(LogsAt(w, q, c - 1)) else multiset{};
    }
  }

  /** The blocks of a range that the index has an item for. */
  function Hits(w: World, hashing: Hashing, term: Buffer, a: nat, b: nat): set<nat> {
    set n: nat | a <= n < b && Hit(w, hashing, term, n)
  }

  lemma CheckIsHit(w: World, hashing: Hashing, term: Buffer, section: nat, num: nat)
    requires TermReadable(w, hashing, term, section)
    requires section * SECTION_SIZE <= num <= (section + 1) * SECTION_SIZE
    ensures CheckSingleNumber(TermRow(w, hashing, term, section), section * SECTION_SIZE, num) <==>
      num < (section + 1) * SECTION_SIZE && Hit(w, hashing, term, num)
  {
    hide C.Bit, TermRow, TermReadable;
    if num < (section + 1) * SECTION_SIZE {
      assert num / SECTION_SIZE == section && num % SECTION_SIZE == num - section * SECTION_SIZE;
    }
  }

  function Min(a: nat, b: nat): nat {
    if a < b then a else b
  }

  function Max(a: nat, b: nat): nat {
    if a < b then b else a
  }

  /** Every block of the range with the bits set is looked at, unless it was before. */
  method CheckTerm(w: World, ghost hashing: Hashing, q: Query, ghost term: Buffer, bits: Bytes, section: nat,
      fromBlock: nat, toBlock: nat, logs: seq<Log>, checked: set<nat>, ghost base: multiset<Log>)
    returns (r: Result<seq<Log>>, checked': set<nat>)
    requires TermReadable(w, hashing, term, section) && bits == TermRow(w, hashing, term, section)
    requires section * SECTION_SIZE <= fromBlock && toBlock <= (section + 1) * SECTION_SIZE
    requires multiset(logs) == base + Gather(w, q, checked, fromBlock, Min(toBlock + 1, (section + 1) * SECTION_SIZE))
    requires |logs| <= MAX_RESULTS
    ensures var hi := Min(toBlock + 1, (section + 1) * SECTION_SIZE);
      && checked <= checked' <= checked + Hits(w, hashing, term, fromBlock, hi)
      && match r
         case Ok(found) => multiset(found) == base + Gather(w, q, checked', fromBlock, hi) && |found| <= MAX_RESULTS
           && checked' == checked + Hits(w, hashing, term, fromBlock, hi)
         case Err => |base| + |Gather(w, q, checked', fromBlock, hi)| > MAX_RESULTS
  {
    hide TermRow, TermReadable, CheckSingleNumber, Hit, LogsAt, Gather;
    var sectionStart := section * SECTION_SIZE;
    ghost var hi := Min(toBlock + 1, (section + 1) * SECTION_SIZE);
    checked' := checked;
    var found := logs;
    var num := fromBlock;
    while num <= toBlock
      invariant num <= toBlock + 1 || num == fromBlock
      invariant checked <= checked' <= checked + Hits(w, hashing, term, fromBlock, hi)
      invariant forall n :: n in Hits(w, hashing, term, fromBlock, hi) && n < num ==> n in checked'
      invariant multiset(found) == base + Gather(w, q, checked', fromBlock, hi) && |found| <= MAX_RESULTS
      decreases toBlock + 1 - num
    {
      CheckIsHit(w, hashing, term, section, num);
      if num !in checked' && CheckSingleNumber(bits, sectionStart, num) {
        GatherAdd(w, q, checked', num, fromBlock, hi);
        checked' := checked' + {num};
        var more := FilterBlock(w, num, q);
        var appended := Append(found, more);
        if appended.Err? {
          assert |multiset(found) + multiset(more)| == |found| + |more|;
          return Err, checked';
        }
        found := appended.value;
      }
      num := num + 1;
    }
    r := Ok(found);
  }

  /** Every row that the terms need can be read. */
  predicate SectionReadable(w: World, hashing: Hashing, terms: seq<Buffer>, section: nat) {
    forall i :: 0 <= i < |terms| ==> TermReadable(w, hashing, terms[i], section)
  }

  /** All the terms are looked up in a section; each block is looked at once. It fails exactly if a
      row cannot be read, or the answer gets too long. */
  method FilterSection(w: World, hashing: Hashing, q: Query, terms: seq<Buffer>, from: nat, to: nat, section: nat,
      logs: seq<Log>)
    returns (r: Result<seq<Log>>)
    requires terms == Terms(q) && terms != [] && |logs| <= MAX_RESULTS
    requires (section + 1) * SECTION_SIZE <= IndexedEnd(w.index)
    ensures var found := Found(w, hashing, q, Max(from, section * SECTION_SIZE),
      Min(to + 1, (section + 1) * SECTION_SIZE));
      && (r.Ok? <==> SectionReadable(w, hashing, terms, section) && |logs| + |found| <= MAX_RESULTS)
      && (r.Ok? ==> multiset(r.value) == multiset(logs) + found)
  {
    hide Hit, Gather, Found, TermRow, TermReadable, LogsAt, Terms, Readable, StoredRow;
    var sectionStart, sectionEnd := section * SECTION_SIZE, (section + 1) * SECTION_SIZE;
    var fromBlock := if from < sectionStart then sectionStart else from;
    var toBlock := if to > sectionEnd then sectionEnd else to;
    ghost var hi := Min(to + 1, sectionEnd);
    var found, checked: set<nat>, cache := logs, {}, map[];
    GatherNone(w, q, fromBlock, hi);
    for i := 0 to |terms|
      invariant multiset(found) == multiset(logs) + Gather(w, q, checked, fromBlock, hi) && |found| <= MAX_RESULTS
      invariant forall n :: n in checked ==> fromBlock <= n < hi && Picked(w, hashing, terms, n)
      invariant forall k, n: nat :: 0 <= k < i && fromBlock <= n < hi && Hit(w, hashing, terms[k], n) ==> n in checked
      invariant forall k :: 0 <= k < i ==> TermReadable(w, hashing, terms[k], section)
      invariant CacheRight(w, section, cache)
    {
      var bits;
      bits, cache := GetBits(w, hashing, terms[i], section, cache);
      if bits.Err? {
        return Err;
      }
      var next;
      next, checked := CheckTerm(w, hashing, q, terms[i], bits.value, section, fromBlock, toBlock, found, checked,
        multiset(logs));
      assert forall n :: n in checked ==> Picked(w, hashing, terms, n);
      GatherFound(w, hashing, q, checked, fromBlock, hi);
      if next.Err? {
        return Err;
      }
      found := next.value;
    }
    GatherFound(w, hashing, q, checked, fromBlock, hi);
    assert |multiset(found)| == |found|;
    r := Ok(found);
  }

  /** Block after block, up to the end of the range or the latest block. */
  method FilterBlocks(w: World, ghost hashing: Hashing, q: Query, start: nat, to: nat, logs: seq<Log>)
      returns (r: Result<seq<Log>>)
    requires |logs| <= MAX_RESULTS && forall n: nat :: n >= start ==> Examined(w, hashing, q, n)
    ensures var found := Found(w, hashing, q, start, Min(to, w.latest) + 1);
      && (r.Ok? <==> |logs| + |found| <= MAX_RESULTS)
      && (r.Ok? ==> multiset(r.value) == multiset(logs) + found)
  {
    hide Examined, LogsAt, Found;
    var found, num := logs, start;
    ghost var end := Max(start, Min(to, w.latest) + 1);
    FoundBeyond(w, hashing, q, start, start);
    FoundBeyond(w, hashing, q, end, Min(to, w.latest) + 1);
    while num <= to && num <= w.latest
      invariant start <= num <= end
      invariant multiset(found) == multiset(logs) + Found(w, hashing, q, start, num) && |found| <= MAX_RESULTS
    {
      var more := FilterBlock(w, num, q);
      var appended := Append(found, more);
      FoundNext(w, hashing, q, start, num);
      assert multiset(found + more) == multiset(found) + multiset(more);
      if appended.Err? {
        assert |multiset(found + more)| == |found| + |more|;
        FoundSplit(w, hashing, q, start, num + 1, end);
        return Err;
      }
      found := appended.value;
      num := num + 1;
    }
    assert |multiset(found)| == |found|;
    r := Ok(found);
  }

  lemma FoundNext(w: World, hashing: Hashing, q: Query, a: nat, n: nat)
    requires a <= n && Examined(w, hashing, q, n)
    ensures Found(w, hashing, q, a, n + 1) == Found(w, hashing, q, a, n) + multiset(LogsAt(w, q, n))
  {
  }

  /** Where the query has got to once all sections before this one are done. */
  function Reached(from: nat, to: nat, section: nat): nat {
    Max(from, Min(section * SECTION_SIZE, to + 1))
  }

  lemma SectionAdvances(w: World, hashing: Hashing, q: Query, from: nat, to: nat, section: nat)
    ensures Found(w, hashing, q, from, Reached(from, to, section + 1)) ==
      Found(w, hashing, q, from, Reached(from, to, section))
      + Found(w, hashing, q, Max(from, section * SECTION_SIZE), Min(to + 1, (section + 1) * SECTION_SIZE))
  {
    hide Examined, LogsAt;
    FoundSplit(w, hashing, q, from, Reached(from, to, section), Reached(from, to, section + 1));
  }

  /** The sections that a query visits: those of its range, or the last one if it starts later. */
  predicate Visits(from: nat, to: nat, maxSection: nat, section: nat) {
    Min(from / SECTION_SIZE, maxSection) <= section <= Min(to / SECTION_SIZE, maxSection)
  }

  predicate IndexReadable(w: World, hashing: Hashing, terms: seq<Buffer>, from: nat, to: nat, maxSection: nat) {
    forall section: nat :: section <= maxSection && Visits(from, to, maxSection, section) ==>
      SectionReadable(w, hashing, terms, section)
  }

  method FilterIndexed(w: World, hashing: Hashing, q: Query, terms: seq<Buffer>, from: nat, to: nat, maxSection: nat)
    returns (r: Result<seq<Log>>)
    requires terms == Terms(q) && terms != [] && w.index.count == Some(maxSection)
    ensures var found := Found(w, hashing, q, from, Reached(from, to, maxSection + 1));
      && (r.Ok? <==> IndexReadable(w, hashing, terms, from, to, maxSection) && |found| <= MAX_RESULTS)
      && (r.Ok? ==> multiset(r.value) == found)
  {
    hide Examined, LogsAt, Terms, SectionReadable, Found;
    var fromSection, toSection := from / SECTION_SIZE, to / SECTION_SIZE;
    fromSection := if fromSection > maxSection then maxSection else fromSection;
    toSection := if toSection > maxSection then maxSection else toSection;
    var logs, section := [], fromSection;
    assert Reached(from, to, fromSection) == from;
    FoundNone(w, hashing, q, from);
    while section <= toSection
      invariant fromSection <= section <= Max(fromSection, toSection + 1)
      invariant multiset(logs) == Found(w, hashing, q, from, Reached(from, to, section)) && |logs| <= MAX_RESULTS
      invariant forall k: nat :: fromSection <= k < section ==> SectionReadable(w, hashing, terms, k)
    {
      var next := FilterSection(w, hashing, q, terms, from, to, section, logs);
      SectionAdvances(w, hashing, q, from, to, section);
      if next.Err? {
        assert Visits(from, to, maxSection, section);
        assert |multiset(logs)| == |logs|;
        FoundSplit(w, hashing, q, from, Reached(from, to, section + 1), Reached(from, to, maxSection + 1));
        return Err;
      }
      logs := next.value;
      assert |multiset(logs)| == |logs|;
      section := section + 1;
    }
    assert Reached(from, to, section) == Reached(from, to, maxSection + 1);
    assert |multiset(logs)| == |logs|;
    r := Ok(logs);
  }

  lemma FoundNone(w: World, hashing: Hashing, q: Query, a: nat)
    ensures Found(w, hashing, q, a, a) == multiset{}
  {
  }

  /** The end of what a query looks at: the tail goes up to the latest block, the index as far as
      it was stored. */
  function Upper(w: World, q: Query, from: nat, to: nat): nat {
    if from > w.latest then from
    else if Terms(q) == [] then Min(to, w.latest) + 1
    else Min(to + 1, Max(w.latest + 1, IndexedEnd(w.index)))
  }

  /** Every row that a query needs can be read. */
  predicate QueryReadable(w: World, hashing: Hashing, q: Query, from: nat, to: nat) {
    from <= w.latest && Terms(q) != [] && w.index.count.Some? ==>
      IndexReadable(w, hashing, Terms(q), from, to, w.index.count.value)
  }

  /** The query over a range: as a multiset, the matching logs of the blocks that it examines; it
      fails exactly when a row cannot be read, or when these are more than 10000. */
  method FilterRange(w: World, hashing: Hashing, from: nat, to: nat, q: Query) returns (r: Result<seq<Log>>)
    ensures var found := Found(w, hashing, q, from, Upper(w, q, from, to));
      && (r.Ok? <==> QueryReadable(w, hashing, q, from, to) && |found| <= MAX_RESULTS)
      && (r.Ok? ==> multiset(r.value) == found)
  {
    hide LogsAt, Terms, Found, IndexReadable;
    var terms := CollectTerms(q);
    if from > w.latest {
      FoundBeyond(w, hashing, q, from, from);
      return Ok([]);
    }
    if |terms| == 0 {
      r := FilterBlocks(w, hashing, q, from, to, []);
      return;
    }
    var logs := [];
    var maxSection := w.index.count;
    if maxSection.Some? {
      var indexed := FilterIndexed(w, hashing, q, terms, from, to, maxSection.value);
      TailSplits(w, hashing, q, from, to);
      if indexed.Err? {
        return Err;
      }
      logs := indexed.value;
      assert |multiset(logs)| == |logs|;
    } else {
      GenesisSkipped(w, hashing, q, from, to);
    }
    var maxIndexedBlockNumber := if maxSection.Some? then (maxSection.value + 1) * SECTION_SIZE - 1 else 0;
    var startAt := maxIndexedBlockNumber + 1;
    r := FilterBlocks(w, hashing, q, if from > startAt then from else startAt, to, logs);
  }

  lemma FoundBeyond(w: World, hashing: Hashing, q: Query, a: nat, b: nat)
    requires a >= b
    ensures Found(w, hashing, q, a, b) == multiset{}
  {
  }

  lemma TailSplits(w: World, hashing: Hashing, q: Query, from: nat, to: nat)
    requires w.index.count.Some? && from <= w.latest && Terms(q) != []
    ensures Found(w, hashing, q, from, Upper(w, q, from, to)) ==
      Found(w, hashing, q, from, Reached(from, to, w.index.count.value + 1))
      + Found(w, hashing, q, Max(from, IndexedEnd(w.index)), Min(to, w.latest) + 1)
  {
    hide Examined, LogsAt, Terms, Found;
    var start, end, indexed := Max(from, IndexedEnd(w.index)), Min(to, w.latest) + 1,
      Reached(from, to, w.index.count.value + 1);
    if start < end {
      FoundSplit(w, hashing, q, from, start, end);
    } else {
      FoundBeyond(w, hashing, q, start, end);
      if Upper(w, q, from, to) != indexed {
        FoundBeyond(w, hashing, q, from, Upper(w, q, from, to));
        FoundBeyond(w, hashing, q, from, indexed);
      }
    }
  }

  lemma GenesisSkipped(w: World, hashing: Hashing, q: Query, from: nat, to: nat)
    requires w.index.count.None? && Terms(q) != [] && from <= w.latest
    ensures Found(w, hashing, q, from, Upper(w, q, from, to)) ==
      Found(w, hashing, q, Max(from, 1), Min(to, w.latest) + 1)
  {
    hide LogsAt, Terms;
    if from == 0 {
      FoundSplit(w, hashing, q, 0, 1, Min(to, w.latest) + 1);
      assert !Examined(w, hashing, q, 0);
      assert Found(w, hashing, q, 0, 1) == Found(w, hashing, q, 0, 0);
    }
  }

  // ---- From the indexer to the query ----

  /** An index that is exact and below the latest block: every row can be read, and a complete query,
      or one without terms, finds what the scan up to the latest block finds, but for block zero. */
  lemma ExactQueryIsScan(w: World, hashing: Hashing, form: UsageForm, q: Query, from: nat, to: nat)
    requires Exact(w.index, w.canon) && Deep(w.index, w.latest)
    requires WellKept(w, hashing, form) && (Complete(q, form) || Terms(q) == [])
    ensures QueryReadable(w, hashing, q, from, to)
    ensures Found(w, hashing, q, from, Upper(w, q, from, to)) == multiset(Scan(w, q, from, Min(to, w.latest) + 1)) <==>
      (from > 0 || w.index.count.Some? || Terms(q) == [] || LogsAt(w, q, 0) == [])
  {
    hide LogsAt, Terms, Found, WellKept, Complete, TermReadable, SectionIndexed;
    if w.index.count.Some? {
      forall section: nat, i | section <= w.index.count.value && 0 <= i < |Terms(q)|
        ensures TermReadable(w, hashing, Terms(q)[i], section)
      {
        assert SectionIndexed(w.index.bits, w.canon, section);
        IndexedIsReadable(w, hashing, Terms(q)[i], section);
      }
    }
    CompleteFindsAll(w, hashing, form, q, from, Min(to, w.latest) + 1);
    if from > w.latest {
      FoundBeyond(w, hashing, q, from, from);
      FoundBeyond(w, hashing, q, from, Min(to, w.latest) + 1);
    }
  }

  lemma IndexedIsReadable(w: World, hashing: Hashing, term: Buffer, section: nat)
    requires SectionIndexed(w.index.bits, w.canon, section)
    ensures TermReadable(w, hashing, term, section)
  {
    hide C.Decompress, LastHash, Row, SectionBlooms;
    var i := CalcBloomIndexes(hashing, term);
    assert Indexed(w.index.bits, w.canon, section, i[0]);
    assert Indexed(w.index.bits, w.canon, section, i[1]);
    assert Indexed(w.index.bits, w.canon, section, i[2]);
  }

  /** After any run of the indexer in which every section up to the count was last stored as it is in
      the chain now, a complete query over any range finds what a scan of the blocks finds, exactly
      unless block zero counts and no section is stored. */
  lemma RunQueryIsScan(calls: seq<Call>, w: World, hashing: Hashing, form: UsageForm, q: Query, from: nat, to: nat)
    requires w.index == Run(calls) && Highest(calls) <= w.latest
    requires forall s: nat :: w.index.count.Some? && s <= w.index.count.value ==> StoredAsIn(calls, w.canon, s)
    requires WellKept(w, hashing, form) && (Complete(q, form) || Terms(q) == [])
    ensures QueryReadable(w, hashing, q, from, to)
    ensures Found(w, hashing, q, from, Upper(w, q, from, to)) == multiset(Scan(w, q, from, Min(to, w.latest) + 1)) <==>
      (from > 0 || w.index.count.Some? || Terms(q) == [] || LogsAt(w, q, 0) == [])
  {
    hide Run, StoredAsIn, WellKept, Complete, Found, QueryReadable;
    RunIsDeep(calls);
    IndexIsExact(calls, w.canon);
    ExactQueryIsScan(w, hashing, form, q, from, to);
  }

  /** And so after any run in which no confirmed block is reorganized. */
  lemma SettledQueryIsScan(calls: seq<Call>, w: World, hashing: Hashing, form: UsageForm, q: Query, from: nat, to: nat)
    requires |calls| > 0 && Settled(calls) && w.canon == calls[|calls| - 1].canon
    requires w.index == Run(calls) && Highest(calls) <= w.latest
    requires WellKept(w, hashing, form) && (Complete(q, form) || Terms(q) == [])
    ensures QueryReadable(w, hashing, q, from, to)
    ensures Found(w, hashing, q, from, Upper(w, q, from, to)) == multiset(Scan(w, q, from, Min(to, w.latest) + 1)) <==>
      (from > 0 || w.index.count.Some? || Terms(q) == [] || LogsAt(w, q, 0) == [])
  {
    hide Run, Exact, WellKept, Complete, Found, QueryReadable, Settled;
    RunIsExact(calls);
    RunIsDeep(calls);
    ExactQueryIsScan(w, hashing, form, q, from, to);
  }
}
