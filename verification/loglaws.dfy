/** What a query for logs asks for: the laws of matching, and that a log with what is asked for is in
the answer. */
module LogLaws {
  import opened BloomBits
  import opened ChainIndexers
  import opened BloomBitsFilters

  // ---- One position ----

  /** A topic is matched by itself and, unless it is empty, by nothing else; an empty one, like none,
      is matched by everything. */
  lemma TopicLaws(t: Buffer, y: Buffer)
    ensures TopicsMatch([One(t)], [t])
    ensures t != [] && y != t ==> !TopicsMatch([One(t)], [y])
    ensures TopicsMatch([One([])], [y]) && TopicsMatch([Any], [y])
  {
    assert TopicsMatch([One(t)], [y]) ==> TopicMatches([One(t)][0], [y][0]);
  }

  /** A list of alternatives matches what one of its parts matches. */
  lemma AlternativesAreUnion(a: seq<Option<Buffer>>, b: seq<Option<Buffer>>, x: seq<Buffer>)
    requires a != [] && b != []
    ensures TopicsMatch([OneOf(a + b)], x) <==> TopicsMatch([OneOf(a)], x) || TopicsMatch([OneOf(b)], x)
  {
    if |x| > 0 {
      assert TopicMatches(OneOf(a + b), x[0]) <==> TopicMatches(OneOf(a), x[0]) || TopicMatches(OneOf(b), x[0]);
      assert forall p: Topic :: TopicsMatch([p], x) <==> TopicMatches([p][0], x[0]);
    }
  }

  /** A single alternative is a topic, an empty list or a `null` in it is anything. An empty
      alternative, unlike an empty topic, is matched by an empty topic only. */
  lemma AlternativeLaws(t: Buffer, x: seq<Buffer>)
    ensures t != [] ==> (TopicsMatch([OneOf([Some(t)])], x) <==> TopicsMatch([One(t)], x))
    ensures TopicsMatch([OneOf([])], x) <==> TopicsMatch([Any], x)
    ensures TopicsMatch([OneOf([None])], x) <==> TopicsMatch([Any], x)
    ensures TopicsMatch([OneOf([Some([])])], x) <==> |x| > 0 && x[0] == []
  {
    var y0: Buffer := [];
    assert forall p: Topic :: TopicsMatch([p], x) ==> |x| > 0 && TopicMatches([p][0], x[0]);
    assert Some(t) in [Some(t)] && forall y: Buffer :: Some(y) in [Some(t)] ==> y == t;
    assert Some(y0) in [Some(y0)] && forall y: Buffer :: Some(y) in [Some(y0)] ==> y == y0;
  }

  // ---- All positions ----

  /** Only the topics at the positions that the query names count, and they have to be there. */
  lemma FurtherTopicsDontCount(ts: seq<Topic>, x: seq<Buffer>, more: seq<Buffer>)
    ensures TopicsMatch([], x)
    ensures TopicsMatch(ts, x) ==> TopicsMatch(ts, x + more)
    ensures TopicsMatch(ts, x) <==> |ts| <= |x| && TopicsMatch(ts, x[..|ts|])
  {
    if TopicsMatch(ts, x) {
      assert forall i :: 0 <= i < |ts| ==> TopicMatches(ts[i], (x + more)[i]);
    }
  }

  /** Each position is asked about by itself. */
  lemma PositionsSplit(ts: seq<Topic>, p: Topic, x: seq<Buffer>)
    ensures TopicsMatch(ts + [p], x) <==> TopicsMatch(ts, x) && |ts| < |x| && TopicsMatch([p], [x[|ts|]])
  {
    var all := ts + [p];
    assert forall i :: 0 <= i < |all| ==> all[i] == if i < |ts| then ts[i] else p;
    assert forall y: Buffer :: TopicsMatch([p], [y]) <==> TopicMatches([p][0], [y][0]);
    if |ts| < |x| {
      assert TopicsMatch(all, x) ==> TopicMatches(all[|ts|], x[|ts|]);
      assert TopicsMatch(all, x) ==> forall i :: 0 <= i < |ts| ==> TopicMatches(all[i], x[i]);
    }
  }

  /** Addresses are alternatives, and do not bear on the topics. */
  lemma AddressesAreUnion(a: seq<Buffer>, b: seq<Buffer>, ts: seq<Topic>, log: Log)
    ensures Matches(Query([], ts), log) <==> TopicsMatch(ts, log.topics)
    ensures a != [] && b != [] ==>
      (Matches(Query(a + b, ts), log) <==> Matches(Query(a, ts), log) || Matches(Query(b, ts), log))
    ensures forall address :: Matches(Query([address], ts), log) <==>
      log.address == address && Matches(Query([], ts), log)
  {
    hide TopicsMatch;
  }

  /** A log counts for a range of blocks if its block is in it; one without a block only if the range
      is open on both sides. */
  lemma RangeLaws(log: Log, from: nat, to: nat)
    ensures InRange(log, Some(from), Some(to)) <==> exists n :: log.blockNumber == Some(n) && from <= n <= to
    ensures InRange(log, Some(from), None) <==> exists n :: log.blockNumber == Some(n) && from <= n
    ensures InRange(log, None, Some(to)) <==> exists n :: log.blockNumber == Some(n) && n <= to
    ensures InRange(log, None, None)
  {
    if log.blockNumber.Some? {
      var n := log.blockNumber.value;
      assert log.blockNumber == Some(n);
    }
  }

  // ---- What a scan finds ----

  /** Every log of some receipts, in order. */
  function LogsOf(receipts: seq<Receipt>): seq<Log> {
    if receipts == [] then [] else LogsOf(receipts[..|receipts| - 1]) + Logs(receipts[|receipts| - 1])
  }

  /** Every log of the readable blocks from `a` up to `b`, in order. */
  function AllLogs(w: World, a: nat, b: nat): seq<Log>
    decreases b
  {
    if a >= b then [] else AllLogs(w, a, b - 1) + if b - 1 in w.receipts then LogsOf(w.receipts[b - 1]) else []
  }

  /** The logs that match, in order. */
  function Sift(q: Query, logs: seq<Log>): seq<Log> {
    if logs == [] then [] else (if Matches(q, logs[0]) then [logs[0]] else []) + Sift(q, logs[1..])
  }

  lemma {:induction false} SiftJoin(q: Query, a: seq<Log>, b: seq<Log>)
    ensures Sift(q, a + b) == Sift(q, a) + Sift(q, b)
  {
    hide Matches;
    if a == [] {
      assert a + b == b;
    } else {
      SiftJoin(q, a[1..], b);
      assert (a + b)[1..] == a[1..] + b;
    }
  }

  lemma {:induction false} SiftHas(q: Query, logs: seq<Log>, log: Log)
    ensures log in Sift(q, logs) <==> log in logs && Matches(q, log)
  {
    hide Matches;
    if logs != [] {
      SiftHas(q, logs[1..], log);
      assert logs == [logs[0]] + logs[1..];
    }
  }

  lemma {:induction false} LogsSifted(q: Query, logs: seq<Log>)
    ensures MatchingLogs(q, logs) == Sift(q, logs)
  {
    hide Matches;
    if logs != [] {
      var rest, last := logs[..|logs| - 1], logs[|logs| - 1];
      LogsSifted(q, rest);
      SiftJoin(q, rest, [last]);
      assert logs == rest + [last];
    }
  }

  lemma {:induction false} ReceiptsSifted(q: Query, receipts: seq<Receipt>)
    ensures Matching(q, receipts) == Sift(q, LogsOf(receipts))
  {
    hide Matches, Logs, MatchingLogs;
    if receipts != [] {
      var rest, last := receipts[..|receipts| - 1], Logs(receipts[|receipts| - 1]);
      ReceiptsSifted(q, rest);
      LogsSifted(q, last);
      SiftJoin(q, LogsOf(rest), last);
    }
  }

  /** A scan of a range is all its logs, in order, without those that do not match. */
  lemma {:induction false} ScanIsSifted(w: World, q: Query, a: nat, b: nat)
    ensures Scan(w, q, a, b) == Sift(q, AllLogs(w, a, b))
    decreases b
  {
    hide LogsOf, Matching;
    if a < b {
      ScanIsSifted(w, q, a, b - 1);
      if b - 1 in w.receipts {
        ReceiptsSifted(q, w.receipts[b - 1]);
        SiftJoin(q, AllLogs(w, a, b - 1), LogsOf(w.receipts[b - 1]));
      } else {
        assert AllLogs(w, a, b) == AllLogs(w, a, b - 1) && Scan(w, q, a, b) == Scan(w, q, a, b - 1);
      }
    }
  }

  lemma {:induction false} AllLogsHas(w: World, a: nat, b: nat, n: nat, r: Receipt, log: Log)
    requires a <= n < b && n in w.receipts && r in w.receipts[n] && log in Logs(r)
    ensures log in AllLogs(w, a, b)
    decreases b
  {
    hide LogsOf, Logs;
    if n < b - 1 {
      AllLogsHas(w, a, b - 1, n, r, log);
    } else {
      LogsOfHas(w.receipts[n], r, log);
    }
  }

  lemma {:induction false} LogsOfHas(receipts: seq<Receipt>, r: Receipt, log: Log)
    requires r in receipts && log in Logs(r)
    ensures log in LogsOf(receipts)
  {
    hide Logs;
    if r != receipts[|receipts| - 1] {
      LogsOfHas(receipts[..|receipts| - 1], r, log);
    }
  }

  // ---- What a query finds ----

  /** A query asks for the log by name: for its address or for any, and at each of its positions for
      anything, for the log's topic, or for one of several with the log's among them. */
  predicate Names(q: Query, log: Log) {
    && (q.addresses == [] || log.address in q.addresses)
    && |q.topics| <= |log.topics|
    && forall i :: 0 <= i < |q.topics| ==>
      match q.topics[i]
      case Any => true
      case One(topic) => topic == log.topics[i]
      case OneOf(list) => Some(log.topics[i]) in list
  }

  /** A log that the query names, of a readable block of the range, is in the answer, whatever topics
      it has beyond the named positions. */
  lemma NamedIsFound(w: World, hashing: Hashing, form: UsageForm, q: Query, from: nat, to: nat, n: nat, r: Receipt,
      log: Log)
    requires Exact(w.index, w.canon) && Deep(w.index, w.latest)
    requires WellKept(w, hashing, form) && (Complete(q, form) || Terms(q) == [])
    requires from <= n <= to && n <= w.latest && n in w.receipts && r in w.receipts[n] && log in Logs(r)
    requires n > 0 || w.index.count.Some? || Terms(q) == []
    requires Names(q, log)
    ensures log in Found(w, hashing, q, from, Upper(w, q, from, to))
    ensures log in Scan(w, q, from, Min(to, w.latest) + 1)
  {
    hide Complete, WellKept, Exact, Deep, Found, Scan, Terms, QueryReadable, Logs, LogsAt, Matches;
    var end, start := Min(to, w.latest) + 1, if n == 0 then from else Max(from, 1);
    assert Matches(q, log) by { NamesMatches(q, log); }
    ScanHas(w, q, from, end, n, r, log);
    ScanHas(w, q, start, end, n, r, log);
    ExactQueryIsScan(w, hashing, form, q, start, to);
    assert log in Found(w, hashing, q, start, Upper(w, q, start, to));
    FoundSplit(w, hashing, q, from, start, Upper(w, q, from, to));
  }

  lemma NamesMatches(q: Query, log: Log)
    requires Names(q, log)
    ensures Matches(q, log)
  {
  }

  lemma ScanHas(w: World, q: Query, a: nat, b: nat, n: nat, r: Receipt, log: Log)
    requires a <= n < b && n in w.receipts && r in w.receipts[n] && log in Logs(r) && Matches(q, log)
    ensures log in Scan(w, q, a, b)
  {
    hide Logs, Scan, AllLogs, Matches;
    ScanIsSifted(w, q, a, b);
    AllLogsHas(w, a, b, n, r, log);
    SiftHas(q, AllLogs(w, a, b), log);
  }

  /** A query that starts within the index needs just the rows of the sections that its blocks are in. */
  lemma ReadsItsSections(w: World, hashing: Hashing, q: Query, from: nat, to: nat)
    requires w.index.count.Some? && Terms(q) != [] && from <= w.latest && from <= to && from < IndexedEnd(w.index)
    ensures QueryReadable(w, hashing, q, from, to) <==>
      forall n: nat :: from <= n <= to && n < IndexedEnd(w.index) ==>
        SectionReadable(w, hashing, Terms(q), n / SECTION_SIZE)
  {
    hide SectionReadable, Terms;
    var last := w.index.count.value;
    assert from / SECTION_SIZE <= last;
    if forall n: nat :: from <= n <= to && n < IndexedEnd(w.index) ==>
      SectionReadable(w, hashing, Terms(q), n / SECTION_SIZE)
    {
      forall section: nat | section <= last && Visits(from, to, last, section)
        ensures SectionReadable(w, hashing, Terms(q), section)
      {
        var n := Max(from, section * SECTION_SIZE);
        assert n / SECTION_SIZE == section && n <= to;
      }
    } else {
      var n: nat :| from <= n <= to && n < IndexedEnd(w.index)
        && !SectionReadable(w, hashing, Terms(q), n / SECTION_SIZE);
      assert Visits(from, to, last, n / SECTION_SIZE);
    }
  }

  /** And whatever is in an answer is a log of a readable block of the range, from an address that was
      asked for, if any was, and with one of the terms at every position that is strict. */
  lemma AnswerIsAsked(w: World, hashing: Hashing, q: Query, from: nat, to: nat, log: Log)
    requires log in Found(w, hashing, q, from, Upper(w, q, from, to))
    ensures log in AllLogs(w, from, Upper(w, q, from, to))
    ensures q.addresses != [] ==> log.address in q.addresses
    ensures |q.topics| <= |log.topics|
    ensures forall i :: 0 <= i < |q.topics| && Strict(q.topics[i]) ==> log.topics[i] in TermsOf(q.topics[i])
  {
    hide Found, Scan, AllLogs, Present;
    var end := Upper(w, q, from, to);
    FoundIsScan(w, hashing, q, from, end);
    assert multiset(Scan(w, q, from, end))[log] > 0;
    ScanIsSifted(w, q, from, end);
    SiftHas(q, AllLogs(w, from, end), log);
    forall i | 0 <= i < |q.topics| && Strict(q.topics[i]) ensures log.topics[i] in TermsOf(q.topics[i]) {
      assert TopicMatches(q.topics[i], log.topics[i]);
      if q.topics[i].OneOf? {
        PresentIn(q.topics[i].list, log.topics[i]);
      }
    }
  }
}
