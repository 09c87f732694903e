/** A caller's scan: pages read one after the other from the same cursor chain, and what they return in all. */
module ProfileScans {
  import opened ByteStrings
  import opened ProfileAssembly
  import opened ProfileDecoding
  import opened ProfileKeys
  import opened ProfilePages
  import opened ProfilePaging
  import opened ProfileRuns
  import opened ProfileScanning
  import opened Sequences

  /** A page that was read when the first `seen` rows were there, and the number of them that it read. */
  datatype Reading = Reading(cursor: Cursor, seen: nat, read: nat, page: Page)

  ghost predicate IsReadingOf(rows: seq<Row>, r: Reading, kept: seq<Output>) {
    var lo := LowerBound(rows, r.cursor.key);
    && lo + r.read <= r.seen <= |rows|
    && IsPage(r.cursor, rows[lo..r.seen], r.read, kept, r.page)
    && (!r.page.exhausted ==> r.read > 0)
  }

  /** What `ReadPage` promises of the rows of the cursor's range that were there. */
  ghost predicate IsReading(rows: seq<Row>, r: Reading) {
    exists kept :: IsReadingOf(rows, r, kept)
  }

  function FinalOf(start: Cursor, readings: seq<Reading>): Cursor {
    if readings == [] then start else readings[|readings| - 1].page.next
  }

  /** Each page is read from where the one before it said to resume. */
  ghost predicate AreReadings(rows: seq<Row>, start: Cursor, readings: seq<Reading>) {
    forall k :: 0 <= k < |readings| ==>
      IsReading(rows, readings[k]) && readings[k].cursor == FinalOf(start, readings[..k])
  }

  /** The transactions the pages return, page after page. */
  function TransactionsRead(readings: seq<Reading>): seq<ProfiledTransaction> {
    if readings == [] then []
    else TransactionsRead(readings[..|readings| - 1]) + readings[|readings| - 1].page.transactions
  }

  /** The transactions of outcomes, as a page would return them. */
  function TransactionsIn(outputs: seq<Output>): seq<ProfiledTransaction> {
    if outputs == [] then []
    else TransactionsIn(outputs[..|outputs| - 1]) + TransactionsOf(outputs[|outputs| - 1])
  }

  lemma TransactionsInNext(outputs: seq<Output>, o: Output)
    ensures TransactionsIn(outputs + [o]) == TransactionsIn(outputs) + TransactionsOf(o)
  {
    hide TransactionsOf;
    assert (outputs + [o])[..|outputs|] == outputs;
  }

  lemma {:induction false} TransactionsInConcat(a: seq<Output>, b: seq<Output>)
    ensures TransactionsIn(a + b) == TransactionsIn(a) + TransactionsIn(b)
  {
    hide TransactionsOf;
    if b == [] {
      Empty(a);
      Empty(TransactionsIn(a));
    } else {
      var n := |b| - 1;
      Unsnoc(b);
      Assoc(a, b[..n], [b[n]]);
      TransactionsInConcat(a, b[..n]);
      TransactionsInNext(a + b[..n], b[n]);
      Assoc(TransactionsIn(a), TransactionsIn(b[..n]), TransactionsOf(b[n]));
    }
  }

  lemma {:induction false} PageReturns(kept: seq<Output>, next: bytes, exhausted: bool)
    ensures PageOf(kept, next, exhausted).transactions == TransactionsIn(kept)
  {
    hide TransactionsOf, SkipsOf;
    if kept != [] {
      PageReturns(kept[..|kept| - 1], next, exhausted);
    }
  }

  /** A broken outcome is no transaction. */
  lemma {:induction false} TransactionsInCompletes(outputs: seq<Output>)
    ensures TransactionsIn(CompletesOf(outputs)) == TransactionsIn(outputs)
  {
    hide Decoded;
    if outputs != [] {
      var n := |outputs| - 1;
      TransactionsInCompletes(outputs[..n]);
      if outputs[n].assembled.Complete? {
        TransactionsInNext(CompletesOf(outputs[..n]), outputs[n]);
      } else {
        Empty(TransactionsIn(outputs[..n]));
      }
    }
  }

  /** The same pages, with the outcomes they kept. */
  ghost predicate ArePagesOf(rows: seq<Row>, readings: seq<Reading>, pages: seq<PageRun>) {
    |pages| == |readings| && forall k :: 0 <= k < |pages| ==> IsPageOf(rows, readings[k], pages[k])
  }

  ghost predicate IsPageOf(rows: seq<Row>, r: Reading, p: PageRun) {
    && IsReadingOf(rows, r, p.kept)
    && p == PageRun(r.cursor.key, LowerBound(rows, r.cursor.key) + r.read, !r.page.exhausted, p.kept, r.page.next.key)
  }

  lemma {:induction false} PagesOfReadings(rows: seq<Row>, start: Cursor, readings: seq<Reading>)
    returns (pages: seq<PageRun>)
    requires Sorted(rows) && AreReadings(rows, start, readings)
    ensures ArePagesOf(rows, readings, pages) && AreChained(rows, start.key, pages)
    ensures FinalCursor(start.key, pages) == FinalOf(start, readings).key
    ensures TransactionsRead(readings) == TransactionsIn(KeptBy(pages))
  {
    hide Sorted, IsPageRun, TransactionsIn, IsReadingOf, PageOf, LowerBound;
    if readings == [] {
      pages := [];
      NoTransactions();
    } else {
      var n := |readings| - 1;
      var before, r := readings[..n], readings[n];
      FirstAreReadings(rows, start, readings);
      var earlier := PagesOfReadings(rows, start, before);
      var kept :| IsReadingOf(rows, r, kept);
      var p := PageRun(r.cursor.key, LowerBound(rows, r.cursor.key) + r.read, !r.page.exhausted, kept, r.page.next.key);
      ReadingIsPage(rows, r, p);
      pages := earlier + [p];
      OneMorePage(rows, start.key, earlier, p);
      assert pages[..n] == earlier;
      TransactionsInConcat(KeptBy(earlier), kept);
    }
  }

  lemma NoTransactions()
    ensures TransactionsIn([]) == []
  {
  }

  lemma FirstAreReadings(rows: seq<Row>, start: Cursor, readings: seq<Reading>)
    requires AreReadings(rows, start, readings) && readings != []
    ensures AreReadings(rows, start, readings[..|readings| - 1])
  {
    hide IsReading, FinalOf;
    var before := readings[..|readings| - 1];
    forall k | 0 <= k < |before|
      ensures IsReading(rows, before[k]) && before[k].cursor == FinalOf(start, before[..k])
    {
      assert before[k] == readings[k] && before[..k] == readings[..k];
    }
  }

  lemma ReadingIsPage(rows: seq<Row>, r: Reading, p: PageRun)
    requires Sorted(rows) && IsPageOf(rows, r, p)
    ensures IsPageRun(rows, p) && r.page.transactions == TransactionsIn(p.kept)
  {
    hide Sorted, LowerBound, Finishes, PageOf, TransactionsIn;
    ReadPageIsPageRun(rows, r.seen, r.cursor, r.read, p.kept, r.page);
    PageReturns(p.kept, r.page.next.key, r.page.exhausted);
  }

  lemma OneMorePage(rows: seq<Row>, start: bytes, pages: seq<PageRun>, p: PageRun)
    requires AreChained(rows, start, pages) && IsPageRun(rows, p) && p.start == FinalCursor(start, pages)
    ensures AreChained(rows, start, pages + [p])
  {
    hide IsPageRun, FinalCursor;
    var all := pages + [p];
    forall k | 0 <= k < |all|
      ensures IsPageRun(rows, all[k]) && all[k].start == FinalCursor(start, all[..k])
    {
      if k < |pages| {
        assert all[k] == pages[k] && all[..k] == pages[..k];
      } else {
        assert all[..k] == pages;
      }
    }
  }

  /**
   What a scan returns: the transactions of one pass over the rows that were there in the end, up to the final cursor,
   in order and once each, but for those that a page broke. The pages may be stopped anywhere, and may tail the rows.
   */
  lemma ScanReturnsOnePass(rows: seq<Row>, start: Cursor, readings: seq<Reading>) returns (pages: seq<PageRun>)
    requires Sorted(rows) && AreReadings(rows, start, readings)
    ensures ArePagesOf(rows, readings, pages)
    ensures var onePass := Fed(rows, LowerBound(rows, start.key), |rows|);
            TransactionsRead(readings)
            == TransactionsIn(Unbroken(rows, pages,
                                       EndingBefore(CompletesOf(onePass.outputs), FinalOf(start, readings).key)))
  {
    hide Sorted, LowerBound, TransactionsIn, TransactionsRead, AreChained, AreReadings, ArePagesOf, Fed, Unbroken,
      EndingBefore, CompletesOf, FinalOf, FinalCursor, KeptBy;
    pages := PagesOfReadings(rows, start, readings);
    PagingRefinesOnePass(rows, start.key, pages);
    TransactionsInCompletes(KeptBy(pages));
  }
}
