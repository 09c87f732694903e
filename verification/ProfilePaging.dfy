/** A sequence of pages, each resuming where the one before it said, against one pass over all the rows. */
module ProfilePaging {
  import opened ByteStrings
  import opened ProfileAssembly
  import opened ProfileDecoding
  import opened ProfileKeys
  import opened ProfilePages
  import opened ProfileRuns
  import opened ProfileScanning
  import opened Sequences
  import opened Wrappers

  /** The number of rows before a key. */
  function LowerBound(rows: seq<Row>, key: bytes): (n: nat)
    ensures n <= |rows|
  {
    if rows == [] then 0
    else if Lt(rows[|rows| - 1].key, key) then |rows|
    else LowerBound(rows[..|rows| - 1], key)
  }

  lemma {:induction false} RowsBefore(rows: seq<Row>, key: bytes, i: nat)
    requires Sorted(rows) && i < |rows|
    ensures i < LowerBound(rows, key) <==> Lt(rows[i].key, key)
  {
    hide CmpBytes;
    var n := |rows| - 1;
    if Lt(rows[n].key, key) {
      LtTotal(rows[i].key, rows[n].key);
      LtTransitive(rows[i].key, rows[n].key, key);
    } else if i < n {
      assert rows[..n][i] == rows[i];
      RowsBefore(rows[..n], key, i);
    }
  }

  /** The rows from `lo` on are those at or after `key`. */
  lemma LowerBoundIs(rows: seq<Row>, key: bytes, lo: nat)
    requires Sorted(rows) && lo <= |rows|
    requires lo > 0 ==> Lt(rows[lo - 1].key, key)
    requires lo < |rows| ==> Le(key, rows[lo].key)
    ensures LowerBound(rows, key) == lo
  {
    hide CmpBytes, LowerBound;
    if lo > 0 {
      RowsBefore(rows, key, lo - 1);
    }
    if lo < |rows| {
      LtTotal(rows[lo].key, key);
      LtTotal(key, rows[lo].key);
      RowsBefore(rows, key, lo);
    }
  }

  lemma LowerBoundAtRow(rows: seq<Row>, m: nat)
    requires Sorted(rows) && m < |rows|
    ensures LowerBound(rows, rows[m].key) == m
  {
    hide CmpBytes, LowerBound;
    LtTotal(rows[m].key, rows[m].key);
    LowerBoundIs(rows, rows[m].key, m);
  }

  lemma LowerBoundAfterRow(rows: seq<Row>, m: nat)
    requires Sorted(rows) && m < |rows|
    ensures LowerBound(rows, KeyAfter(rows[m].key)) == m + 1
  {
    hide CmpBytes, LowerBound;
    var next := KeyAfter(rows[m].key);
    KeyAfterIsNext(rows[m].key, next);
    LtTotal(next, next);
    if m + 1 < |rows| {
      KeyAfterIsNext(rows[m].key, rows[m + 1].key);
    }
    LowerBoundIs(rows, next, m + 1);
  }

  // ---------- one page ----------

  /** A page that began at `start`, read the rows up to `hi`, and said to resume at `next`. */
  datatype PageRun = PageRun(start: bytes, hi: nat, stopped: bool, kept: seq<Output>, next: bytes)

  /** A page stops after a row, or ends with the rows there were when it was read; more may have come since. */
  ghost predicate IsPageRun(rows: seq<Row>, p: PageRun) {
    var lo := LowerBound(rows, p.start);
    && lo <= p.hi <= |rows|
    && (p.stopped ==> lo < p.hi)
    && Finishes(Fed(rows, lo, p.hi), p.start, p.stopped, p.kept, p.next)
  }

  /** The page had pending transactions and still resumes after its last row. */
  ghost predicate BreaksPending(rows: seq<Row>, p: PageRun)
    requires LowerBound(rows, p.start) <= p.hi <= |rows|
  {
    var st := Fed(rows, LowerBound(rows, p.start), p.hi);
    st.partials != map[] && p.next == AfterLast(st, p.start)
  }

  /** No run is complete only with rows on both sides of `at`, among those that start from `lo` on. */
  ghost predicate NoRunAcross(rows: seq<Row>, lo: nat, at: nat) {
    forall j :: at <= j < |rows| && IsCompleteAt(rows, lo, j) ==> at <= RunAt(rows, j).value.first
  }

  /** A run with rows on both sides of a position is pending there. */
  lemma {:induction false} RunSpans(rows: seq<Row>, lo: nat, hi: nat, j: nat)
    requires hi <= j < |rows| && RunAt(rows, j).Some? && lo <= RunAt(rows, j).value.first < hi
    ensures PendingOf(rows, lo, hi, IdOf(rows, j)).Some?
    ensures PendingOf(rows, lo, hi, IdOf(rows, j)).value.firstKey == rows[RunAt(rows, j).value.first].key
    decreases j
  {
    hide ParseChunkKey, LastOwn, CmpBytes;
    var id := IdOf(rows, j);
    var i := LastOwn(rows, j, id).value;
    LastOwnIsPrevious(rows, j, id, i);
    if i >= hi {
      RunSpans(rows, lo, hi, i);
    } else {
      LastOwnIsPrevious(rows, hi, id, i);
    }
  }

  lemma {:induction false} CompletesAreOutputs(outputs: seq<Output>, o: Output)
    requires o in CompletesOf(outputs)
    ensures o in outputs
  {
    var n := |outputs| - 1;
    if o in CompletesOf(outputs[..n]) {
      CompletesAreOutputs(outputs[..n], o);
    }
  }

  lemma {:induction false} ReportsAreNotComplete(pending: seq<Partial>)
    ensures CompletesOf(BrokenReports(pending)) == []
  {
    if pending != [] {
      var n := |pending| - 1;
      ReportsAreNotComplete(pending[..n]);
      var last := pending[n];
      CompletesOfNext(BrokenReports(pending[..n]),
                      Output(last.firstKey, last.firstKey, Broken(last.versionstamp, last.id)));
    }
  }

  lemma {:induction false} CompletesEndingBefore(outputs: seq<Output>, position: bytes)
    ensures CompletesOf(EndingBefore(outputs, position)) == EndingBefore(CompletesOf(outputs), position)
  {
    hide CmpBytes;
    if outputs != [] {
      var n := |outputs| - 1;
      CompletesEndingBefore(outputs[..n], position);
      CompletesOfNext(EndingBefore(outputs[..n], position), outputs[n]);
      EndingBeforeNext(CompletesOf(outputs[..n]), outputs[n], position);
    }
  }

  lemma EndingBeforeNext(outputs: seq<Output>, o: Output, position: bytes)
    ensures EndingBefore(outputs + [o], position)
         == if Lt(o.lastKey, position) then EndingBefore(outputs, position) + [o] else EndingBefore(outputs, position)
  {
    assert (outputs + [o])[..|outputs|] == outputs;
  }

  lemma {:induction false} RunsEndingBefore(rows: seq<Row>, lo: nat, hi: nat, position: bytes)
    requires Sorted(rows) && lo <= hi <= |rows|
    ensures var to := LowerBound(rows, position);
            EndingBefore(CompletesIn(rows, lo, hi), position)
            == if hi <= to then CompletesIn(rows, lo, hi) else if lo <= to then CompletesIn(rows, lo, to) else []
  {
    hide CmpBytes, LowerBound, IsCompleteAt, RunAt, ParseChunkKey, Sorted;
    if lo < hi {
      RunsEndingBefore(rows, lo, hi - 1, position);
      RowsBefore(rows, position, hi - 1);
      if IsCompleteAt(rows, lo, hi - 1) {
        LastKeyOfComplete(rows, hi - 1, lo);
        EndingBeforeNext(CompletesIn(rows, lo, hi - 1), CompleteOutput(rows, hi - 1), position);
      }
    }
  }

  lemma LastKeyOfComplete(rows: seq<Row>, j: nat, lo: nat)
    requires j < |rows| && IsCompleteAt(rows, lo, j)
    ensures RunAt(rows, j).Some? && CompleteOutput(rows, j).lastKey == rows[j].key
    ensures CompleteOutput(rows, j).firstKey == rows[RunAt(rows, j).value.first].key
  {
  }

  /** What a page that breaks nothing before its end leaves to the next one, and what it keeps. */
  ghost predicate KeepsRuns(rows: seq<Row>, p: PageRun, at: nat)
    requires LowerBound(rows, p.start) <= at <= |rows|
  {
    var lo := LowerBound(rows, p.start);
    && LowerBound(rows, p.next) == at && Le(p.start, p.next)
    && CompletesOf(p.kept) == CompletesIn(rows, lo, at)
  }

  lemma AfterLastIsAfterAll(rows: seq<Row>, lo: nat, hi: nat, start: bytes, next: bytes)
    requires Sorted(rows) && lo == LowerBound(rows, start) <= hi <= |rows|
    requires next == AfterLast(Fed(rows, lo, hi), start)
    ensures LowerBound(rows, next) == hi && Le(start, next)
    ensures lo < hi ==> Lt(start, next) && next == KeyAfter(rows[hi - 1].key)
  {
    hide CmpBytes, LowerBound, Fed, PendingOf, CompletesIn, ParseChunkKey;
    AssemblerComputesRuns(rows, lo, hi);
    LtTotal(start, next);
    if lo < hi {
      var last := rows[hi - 1].key;
      LowerBoundAfterRow(rows, hi - 1);
      RowsBefore(rows, start, hi - 1);
      LtTotal(last, start);
      LtTotal(start, last);
      LtTotal(KeyAfter(last), KeyAfter(last));
      KeyAfterIsNext(last, KeyAfter(last));
      LtTransitive(start, last, KeyAfter(last));
    }
  }

  /** A page with nothing pending, or one that breaks what is pending: it keeps everything it read. */
  lemma WholePage(rows: seq<Row>, p: PageRun, reports: seq<Partial>)
    requires Sorted(rows) && IsPageRun(rows, p)
    requires var st := Fed(rows, LowerBound(rows, p.start), p.hi);
             p.kept == st.outputs + BrokenReports(reports) && p.next == AfterLast(st, p.start)
    ensures KeepsRuns(rows, p, p.hi)
    ensures p.stopped ==> Lt(p.start, p.next)
  {
    hide CmpBytes, LowerBound, Fed, Finishes, CompletesIn, CompletesOf, AfterLast, BrokenReports, PendingOf;
    var lo := LowerBound(rows, p.start);
    AssemblerComputesRuns(rows, lo, p.hi);
    ReportsAreNotComplete(reports);
    CompletesOfConcat(Fed(rows, lo, p.hi).outputs, BrokenReports(reports));
    Empty(CompletesIn(rows, lo, p.hi));
    AfterLastIsAfterAll(rows, lo, p.hi, p.start, p.next);
  }

  lemma NothingPendingAcross(rows: seq<Row>, lo: nat, hi: nat)
    requires lo <= hi <= |rows| && Fed(rows, lo, hi).partials == map[]
    ensures NoRunAcross(rows, lo, hi)
  {
    hide Fed, CompletesIn, CompletesOf, PendingOf, RunAt, ParseChunkKey;
    AssemblerComputesRuns(rows, lo, hi);
    forall j | hi <= j < |rows| && IsCompleteAt(rows, lo, j)
      ensures hi <= RunAt(rows, j).value.first
    {
      if RunAt(rows, j).value.first < hi {
        RunSpans(rows, lo, hi, j);
      }
    }
  }

  /** The row a cut is at. */
  lemma CutIsAtRow(rows: seq<Row>, lo: nat, hi: nat, pending: seq<Partial>, cut: bytes) returns (m: nat)
    requires lo <= hi <= |rows| && pending != [] && IsPending(pending, Fed(rows, lo, hi).partials)
    requires IsFirstKeyOr(Fed(rows, lo, hi).outputs, pending[0].firstKey, cut)
    ensures lo <= m < hi && rows[m].key == cut
  {
    hide Fed, CompletesIn, CompletesOf, PendingOf, RunAt, ParseChunkKey, BrokenAreReported;
    AssemblerComputesRuns(rows, lo, hi);
    var id := pending[0].id;
    FirstKeyOfPending(rows, lo, hi, id);
    m :| lo <= m < hi && rows[m].key == cut;
  }

  /** No complete run has rows on both sides of a cut. */
  lemma NoRunAcrossCut(rows: seq<Row>, lo: nat, hi: nat, pending: seq<Partial>, m: nat, j: nat)
    requires Sorted(rows) && lo <= m < hi <= |rows|
    requires pending != [] && IsPending(pending, Fed(rows, lo, hi).partials)
    requires IsCut(Fed(rows, lo, hi).outputs, pending[0].firstKey, rows[m].key)
    requires m <= j < |rows| && IsCompleteAt(rows, lo, j)
    ensures m <= RunAt(rows, j).value.first
  {
    hide Fed, CmpBytes, CompletesIn, CompletesOf, PendingOf, RunAt, ParseChunkKey, BrokenAreReported, IsCut, IsPending;
    var first := RunAt(rows, j).value.first;
    if first < m {
      AssemblerComputesRuns(rows, lo, hi);
      if j < hi {
        NotCutThrough(rows, lo, hi, pending[0].firstKey, m, j);
      } else {
        RunSpans(rows, lo, hi, j);
        var id := IdOf(rows, j);
        OldestIsFirst(pending, Fed(rows, lo, hi).partials, id);
        CutIsBelow(Fed(rows, lo, hi).outputs, pending[0].firstKey, rows[m].key);
        LtTransitive(rows[m].key, pending[0].firstKey, rows[first].key);
        LtTotal(rows[m].key, rows[first].key);
      }
    }
  }

  lemma CutIsBelow(outputs: seq<Output>, from: bytes, cut: bytes)
    requires IsCut(outputs, from, cut)
    ensures Le(cut, from)
  {
  }

  lemma OldestIsFirst(pending: seq<Partial>, partials: map<Id, Partial>, id: Id)
    requires IsPending(pending, partials) && id in partials
    ensures pending != [] && Le(pending[0].firstKey, partials[id].firstKey)
  {
    hide CmpBytes;
    LtTotal(partials[id].firstKey, partials[id].firstKey);
  }

  lemma NotCutThrough(rows: seq<Row>, lo: nat, hi: nat, from: bytes, m: nat, j: nat)
    requires Sorted(rows) && lo <= m <= j < hi <= |rows| && IsCompleteAt(rows, lo, j)
    requires IsCut(Fed(rows, lo, hi).outputs, from, rows[m].key)
    ensures m <= RunAt(rows, j).value.first
  {
    hide Fed, CmpBytes, CompletesIn, CompletesOf, PendingOf, RunAt, ParseChunkKey, BrokenAreReported;
    AssemblerComputesRuns(rows, lo, hi);
    var o := CompleteOutput(rows, j);
    InCompletes(rows, lo, hi, o);
    CompletesAreOutputs(Fed(rows, lo, hi).outputs, o);
    LastKeyOfComplete(rows, j, lo);
    LtTotal(rows[m].key, rows[j].key);
  }

  /** A page that resumes at a cut keeps the runs before it and leaves the others whole. */
  lemma CutPage(rows: seq<Row>, p: PageRun, pending: seq<Partial>, m: nat)
    requires Sorted(rows) && IsPageRun(rows, p) && LowerBound(rows, p.start) <= m < p.hi && rows[m].key == p.next
    requires var st := Fed(rows, LowerBound(rows, p.start), p.hi);
             && pending != [] && IsPending(pending, st.partials) && IsCut(st.outputs, pending[0].firstKey, p.next)
             && p.kept == EndingBefore(st.outputs, p.next)
    ensures KeepsRuns(rows, p, m) && NoRunAcross(rows, LowerBound(rows, p.start), m)
  {
    hide Fed, CmpBytes, CompletesIn, CompletesOf, PendingOf, RunAt, ParseChunkKey, BrokenAreReported, IsCut, IsPending,
      Finishes, LowerBound, EndingBefore, Sorted;
    var lo := LowerBound(rows, p.start);
    var st := Fed(rows, lo, p.hi);
    LowerBoundAtRow(rows, m);
    RowsBefore(rows, p.start, m);
    LtTotal(p.start, p.next);
    LtTotal(p.next, p.start);
    CompletesEndingBefore(st.outputs, p.next);
    RunsEndingBefore(rows, lo, p.hi, p.next);
    AssemblerComputesRuns(rows, lo, p.hi);
    forall j | m <= j < |rows| && IsCompleteAt(rows, lo, j)
      ensures m <= RunAt(rows, j).value.first
    {
      NoRunAcrossCut(rows, lo, p.hi, pending, m, j);
    }
  }

  /**
   A page keeps exactly the runs between its cursor and the next one. It leaves every run after that whole, unless it
   breaks its pending transactions.
   */
  lemma PageKeepsRuns(rows: seq<Row>, p: PageRun)
    requires Sorted(rows) && IsPageRun(rows, p)
    ensures var lo, at := LowerBound(rows, p.start), LowerBound(rows, p.next);
            && lo <= at <= p.hi && KeepsRuns(rows, p, at)
            && (!BreaksPending(rows, p) ==> NoRunAcross(rows, lo, at))
    ensures p.stopped ==> Lt(p.start, p.next)
    ensures IsRowKey(rows, p.next) || LowerBound(rows, p.next) == p.hi
  {
    hide Fed, CmpBytes, KeepsRuns, NoRunAcross, Sorted, LowerBound, IsPending, IsCut, IsFirstKeyOr, CompletesOf,
      CompletesIn, PendingOf, ParseChunkKey, EndingBefore, AfterLast, BrokenReports, IsCompleteAt;
    var lo := LowerBound(rows, p.start);
    var st := Fed(rows, lo, p.hi);
    var pending: seq<Partial> :| FinishesWith(st, p.start, p.stopped, pending, p.kept, p.next);
    if pending == [] {
      Empty(st.outputs);
      NoReports();
      WholePage(rows, p, []);
      NoPartials(st.partials);
      NothingPendingAcross(rows, lo, p.hi);
      KeepsAt(rows, p, p.hi);
    } else {
      var cut: bytes :|
        && IsCut(st.outputs, pending[0].firstKey, cut)
        && IsFirstKeyOr(st.outputs, pending[0].firstKey, cut)
        && if Breaks(st, p.start, p.stopped, cut) then
             p.kept == st.outputs + BrokenReports(pending) && p.next == AfterLast(st, p.start)
           else
             p.kept == EndingBefore(st.outputs, cut) && p.next == cut;
      if Breaks(st, p.start, p.stopped, cut) {
        WholePage(rows, p, pending);
        SomePartials(pending, st.partials);
        KeepsAt(rows, p, p.hi);
      } else {
        var m := CutIsAtRow(rows, lo, p.hi, pending, cut);
        CutPage(rows, p, pending, m);
        KeepsAt(rows, p, m);
        LtTotal(p.start, p.next);
        LtTotal(cut, p.start);
      }
    }
  }

  /** Where a page says to resume: where it began, at a row it read, or right after one. */
  lemma NextIsStartOrRow(rows: seq<Row>, p: PageRun)
    requires Sorted(rows) && IsPageRun(rows, p)
    ensures p.next == p.start
         || exists m :: 0 <= m < |rows| && (p.next == rows[m].key || p.next == KeyAfter(rows[m].key))
  {
    hide Fed, CmpBytes, Sorted, LowerBound, IsPending, IsCut, IsFirstKeyOr, ParseChunkKey, EndingBefore, BrokenReports,
      CompletesOf, CompletesIn, PendingOf, BrokenAreReported;
    var lo := LowerBound(rows, p.start);
    var st := Fed(rows, lo, p.hi);
    AfterLastIsAfterAll(rows, lo, p.hi, p.start, AfterLast(st, p.start));
    AssemblerComputesRuns(rows, lo, p.hi);
    var pending: seq<Partial> :| FinishesWith(st, p.start, p.stopped, pending, p.kept, p.next);
    if p.next != AfterLast(st, p.start) {
      var m := CutIsAtRow(rows, lo, p.hi, pending, p.next);
    }
  }

  /** A page that reads the keyspace from a cursor that can be restored gives one that can be. */
  lemma NextCursorRestores(rows: seq<Row>, p: PageRun)
    requires Sorted(rows) && IsPageRun(rows, p) && Cursor.FromBytes(p.start).Some?
    requires forall m :: 0 <= m < |rows| ==> Le(PROFILE_PREFIX, rows[m].key) && Lt(rows[m].key, PROFILE_END)
    ensures Cursor.FromBytes(p.next) == Some(Cursor(p.next))
  {
    hide IsPageRun, CmpBytes, Sorted;
    NextIsStartOrRow(rows, p);
    if p.next != p.start {
      var m :| 0 <= m < |rows| && (p.next == rows[m].key || p.next == KeyAfter(rows[m].key));
      KeysRestore(rows[m].key);
    }
  }

  predicate IsRowKey(rows: seq<Row>, key: bytes) {
    exists m :: 0 <= m < |rows| && rows[m].key == key
  }

  lemma NoReports()
    ensures BrokenReports([]) == []
  {
  }

  lemma NoPartials(partials: map<Id, Partial>)
    requires IsPending([], partials)
    ensures partials == map[]
  {
  }

  lemma SomePartials(pending: seq<Partial>, partials: map<Id, Partial>)
    requires IsPending(pending, partials) && pending != []
    ensures partials != map[]
  {
    assert pending[0].id in partials;
  }

  lemma KeepsAt(rows: seq<Row>, p: PageRun, at: nat)
    requires LowerBound(rows, p.start) <= at <= |rows| && KeepsRuns(rows, p, at)
    ensures LowerBound(rows, p.next) == at
  {
  }

  // ---------- many pages ----------

  /** Pages that each resume where the one before it said, the first one at `start`. */
  ghost predicate AreChained(rows: seq<Row>, start: bytes, pages: seq<PageRun>) {
    forall k :: 0 <= k < |pages| ==> IsPageRun(rows, pages[k]) && pages[k].start == FinalCursor(start, pages[..k])
  }

  /** Where the last of the pages said to resume. */
  function FinalCursor(start: bytes, pages: seq<PageRun>): bytes {
    if pages == [] then start else pages[|pages| - 1].next
  }

  lemma FirstAreChained(rows: seq<Row>, start: bytes, pages: seq<PageRun>)
    requires AreChained(rows, start, pages) && pages != []
    ensures AreChained(rows, start, pages[..|pages| - 1])
  {
    hide IsPageRun, FinalCursor;
    var before := pages[..|pages| - 1];
    forall k | 0 <= k < |before|
      ensures IsPageRun(rows, before[k]) && before[k].start == FinalCursor(start, before[..k])
    {
      assert before[k] == pages[k] && before[..k] == pages[..k];
    }
  }

  /** Everything the pages kept, page after page. */
  function KeptBy(pages: seq<PageRun>): seq<Output> {
    if pages == [] then [] else KeptBy(pages[..|pages| - 1]) + pages[|pages| - 1].kept
  }

  /** An outcome has rows on both sides of a boundary where a page broke its pending transactions. */
  ghost predicate IsBroken(rows: seq<Row>, pages: seq<PageRun>, o: Output) {
    exists k :: 0 <= k < |pages| && IsBrokenBy(rows, pages[k], o)
  }

  ghost predicate IsBrokenBy(rows: seq<Row>, p: PageRun, o: Output) {
    IsPageRun(rows, p) && BreaksPending(rows, p) && Straddles(o, p.next)
  }

  ghost function Unbroken(rows: seq<Row>, pages: seq<PageRun>, outputs: seq<Output>): seq<Output> {
    if outputs == [] then []
    else
      var n := |outputs| - 1;
      var init := Unbroken(rows, pages, outputs[..n]);
      if IsBroken(rows, pages, outputs[n]) then init else init + [outputs[n]]
  }

  lemma UnbrokenNext(rows: seq<Row>, pages: seq<PageRun>, outputs: seq<Output>, o: Output)
    ensures Unbroken(rows, pages, outputs + [o])
         == if IsBroken(rows, pages, o) then Unbroken(rows, pages, outputs) else Unbroken(rows, pages, outputs) + [o]
  {
    assert (outputs + [o])[..|outputs|] == outputs;
  }

  lemma NothingUnbroken(rows: seq<Row>, pages: seq<PageRun>)
    ensures Unbroken(rows, pages, []) == []
  {
  }

  /** A boundary cuts a complete run between its first row and its last. */
  lemma StraddlesAt(rows: seq<Row>, lo: nat, j: nat, position: bytes)
    requires Sorted(rows) && j < |rows| && IsCompleteAt(rows, lo, j)
    ensures Straddles(CompleteOutput(rows, j), position)
       <==> RunAt(rows, j).value.first < LowerBound(rows, position) <= j
  {
    hide CmpBytes, LowerBound, RunAt, ParseChunkKey, Sorted;
    LastKeyOfComplete(rows, j, lo);
    RowsBefore(rows, position, RunAt(rows, j).value.first);
    RowsBefore(rows, position, j);
    LtTotal(position, rows[j].key);
  }

  /** After some pages: what they kept, and why the runs they do not leave whole are lost. */
  ghost predicate Scanned(rows: seq<Row>, start: bytes, pages: seq<PageRun>) {
    var lo, at := LowerBound(rows, start), LowerBound(rows, FinalCursor(start, pages));
    && lo <= at
    && CompletesOf(KeptBy(pages)) == Unbroken(rows, pages, CompletesIn(rows, lo, at))
    && (forall j :: at <= j < |rows| && IsCompleteAt(rows, lo, j) && RunAt(rows, j).value.first < at ==>
          IsBroken(rows, pages, CompleteOutput(rows, j)))
    && (forall k :: 0 <= k < |pages| ==> LowerBound(rows, pages[k].next) <= at)
  }

  /** One page more matters to no run that ends before its boundary. */
  lemma BrokenBefore(rows: seq<Row>, lo: nat, pages: seq<PageRun>, p: PageRun, j: nat)
    requires Sorted(rows) && j < |rows| && IsCompleteAt(rows, lo, j) && j < LowerBound(rows, p.next)
    ensures IsBroken(rows, pages + [p], CompleteOutput(rows, j)) <==> IsBroken(rows, pages, CompleteOutput(rows, j))
  {
    hide CmpBytes, LowerBound, RunAt, ParseChunkKey, Sorted, IsPageRun, BreaksPending, Straddles;
    var o := CompleteOutput(rows, j);
    StraddlesAt(rows, lo, j, p.next);
    MorePages(rows, pages, p, o);
  }

  lemma MorePages(rows: seq<Row>, pages: seq<PageRun>, p: PageRun, o: Output)
    ensures IsBroken(rows, pages + [p], o)
       <==> IsBroken(rows, pages, o) || IsBrokenBy(rows, p, o)
  {
    hide IsBrokenBy;
    var all := pages + [p];
    assert all[|pages|] == p;
    if IsBroken(rows, pages, o) {
      var k :| 0 <= k < |pages| && IsBrokenBy(rows, pages[k], o);
      assert all[k] == pages[k];
    }
  }

  /** The runs before the last page's cursor are lost to the same boundaries as before that page. */
  lemma {:induction false} EarlierRuns(rows: seq<Row>, lo: nat, hi: nat, pages: seq<PageRun>, p: PageRun)
    requires Sorted(rows) && lo <= hi <= LowerBound(rows, p.next)
    ensures Unbroken(rows, pages + [p], CompletesIn(rows, lo, hi)) == Unbroken(rows, pages, CompletesIn(rows, lo, hi))
  {
    hide CmpBytes, LowerBound, RunAt, ParseChunkKey, Sorted, IsBroken, IsCompleteAt, Unbroken, CompleteOutput;
    if lo == hi {
      NothingUnbroken(rows, pages);
      NothingUnbroken(rows, pages + [p]);
    } else {
      EarlierRuns(rows, lo, hi - 1, pages, p);
      if IsCompleteAt(rows, lo, hi - 1) {
        BrokenBefore(rows, lo, pages, p, hi - 1);
        LastKeyOfComplete(rows, hi - 1, lo);
        UnbrokenNext(rows, pages, CompletesIn(rows, lo, hi - 1), CompleteOutput(rows, hi - 1));
        UnbrokenNext(rows, pages + [p], CompletesIn(rows, lo, hi - 1), CompleteOutput(rows, hi - 1));
      }
    }
  }

  /** Of the runs the last page reads, those that began before it are lost, and the others survive. */
  lemma {:induction false} LaterRuns(rows: seq<Row>, start: bytes, hi: nat, pages: seq<PageRun>, p: PageRun)
    requires Sorted(rows) && Scanned(rows, start, pages) && p.start == FinalCursor(start, pages)
    requires LowerBound(rows, p.start) <= hi <= LowerBound(rows, p.next)
    ensures var lo, from := LowerBound(rows, start), LowerBound(rows, p.start);
            Unbroken(rows, pages + [p], CompletesIn(rows, lo, hi))
            == Unbroken(rows, pages, CompletesIn(rows, lo, from)) + CompletesIn(rows, from, hi)
  {
    hide CmpBytes, LowerBound, RunAt, ParseChunkKey, Sorted, IsBroken, IsCompleteAt, Unbroken;
    var lo, from := LowerBound(rows, start), LowerBound(rows, p.start);
    if hi == from {
      EarlierRuns(rows, lo, from, pages, p);
      Empty(Unbroken(rows, pages, CompletesIn(rows, lo, from)));
    } else {
      var j := hi - 1;
      LaterRuns(rows, start, j, pages, p);
      SurvivesIff(rows, start, pages, p, j);
      if IsCompleteAt(rows, lo, j) {
        LastKeyOfComplete(rows, j, lo);
        UnbrokenNext(rows, pages + [p], CompletesIn(rows, lo, j), CompleteOutput(rows, j));
        Assoc(Unbroken(rows, pages, CompletesIn(rows, lo, from)), CompletesIn(rows, from, j),
              [CompleteOutput(rows, j)]);
      }
    }
  }

  lemma SurvivesIff(rows: seq<Row>, start: bytes, pages: seq<PageRun>, p: PageRun, j: nat)
    requires Sorted(rows) && Scanned(rows, start, pages) && p.start == FinalCursor(start, pages)
    requires LowerBound(rows, p.start) <= j < LowerBound(rows, p.next)
    ensures var lo, from := LowerBound(rows, start), LowerBound(rows, p.start);
            && (IsCompleteAt(rows, from, j) ==> IsCompleteAt(rows, lo, j))
            && (IsCompleteAt(rows, lo, j) ==>
                  (IsCompleteAt(rows, from, j) <==> !IsBroken(rows, pages + [p], CompleteOutput(rows, j))))
  {
    hide CmpBytes, LowerBound, RunAt, ParseChunkKey, Sorted, IsPageRun, BreaksPending, Straddles, Unbroken, CompletesIn;
    var lo := LowerBound(rows, start);
    if IsCompleteAt(rows, lo, j) {
      BrokenBefore(rows, lo, pages, p, j);
      forall k | 0 <= k < |pages|
        ensures RunAt(rows, j).value.first >= LowerBound(rows, p.start) ==>
                  !Straddles(CompleteOutput(rows, j), pages[k].next)
      {
        StraddlesAt(rows, lo, j, pages[k].next);
      }
    }
  }

  lemma {:induction false} PagesScan(rows: seq<Row>, start: bytes, pages: seq<PageRun>)
    requires Sorted(rows) && AreChained(rows, start, pages)
    ensures Scanned(rows, start, pages)
  {
    hide CmpBytes, LowerBound, RunAt, ParseChunkKey, Sorted, IsPageRun, IsBroken, Unbroken, CompletesIn, CompletesOf,
      Scanned, IsCompleteAt;
    if pages == [] {
      NothingScanned(rows, start);
    } else {
      var n := |pages| - 1;
      var before, p := pages[..n], pages[n];
      Unsnoc(pages);
      FirstAreChained(rows, start, pages);
      PagesScan(rows, start, before);
      PageScans(rows, start, before, p);
    }
  }

  lemma NothingScanned(rows: seq<Row>, start: bytes)
    ensures Scanned(rows, start, [])
  {
    hide CmpBytes, LowerBound, RunAt, ParseChunkKey;
  }

  lemma PageScans(rows: seq<Row>, start: bytes, before: seq<PageRun>, p: PageRun)
    requires Sorted(rows) && Scanned(rows, start, before) && IsPageRun(rows, p) && p.start == FinalCursor(start, before)
    ensures Scanned(rows, start, before + [p])
  {
    hide CmpBytes, LowerBound, RunAt, ParseChunkKey, Sorted, IsPageRun, IsBroken, Unbroken, CompletesIn, CompletesOf,
      BreaksPending, CompleteOutput;
    var pages := before + [p];
    var lo, from, at := LowerBound(rows, start), LowerBound(rows, p.start), LowerBound(rows, p.next);
    assert pages[..|before|] == before;
    PageKeepsRuns(rows, p);
    LaterRuns(rows, start, at, before, p);
    CompletesOfConcat(KeptBy(before), p.kept);
    forall j | at <= j < |rows| && IsCompleteAt(rows, lo, j) && RunAt(rows, j).value.first < at
      ensures IsBroken(rows, pages, CompleteOutput(rows, j))
    {
      LosesOnlyBroken(rows, start, before, p, j);
    }
  }

  /** A run that began before the next cursor and ends after it is lost to a page that broke what was pending. */
  lemma LosesOnlyBroken(rows: seq<Row>, start: bytes, before: seq<PageRun>, p: PageRun, j: nat)
    requires Sorted(rows) && Scanned(rows, start, before) && IsPageRun(rows, p) && p.start == FinalCursor(start, before)
    requires LowerBound(rows, p.next) <= j < |rows| && IsCompleteAt(rows, LowerBound(rows, start), j)
    requires RunAt(rows, j).value.first < LowerBound(rows, p.next)
    ensures IsBroken(rows, before + [p], CompleteOutput(rows, j))
  {
    hide CmpBytes, LowerBound, RunAt, ParseChunkKey, Sorted, IsPageRun, IsBroken, Unbroken, CompletesIn, CompletesOf,
      BreaksPending, CompleteOutput, KeepsRuns, Straddles;
    PageKeepsRuns(rows, p);
    MorePages(rows, before, p, CompleteOutput(rows, j));
    StraddlesAt(rows, LowerBound(rows, start), j, p.next);
  }

  /**
   For rows in key order and any decisions to stop, the complete transactions of a chain of pages are those of one
   pass over all the rows that end before the final cursor, in the same order and once each, without those that have
   rows on both sides of a boundary where a page broke its pending transactions. A page that was not stopped may have
   ended anywhere: a chain that tails the rows, reading what has come since the page before, is one too.
   */
  lemma PagingRefinesOnePass(rows: seq<Row>, start: bytes, pages: seq<PageRun>)
    requires Sorted(rows) && AreChained(rows, start, pages)
    ensures var onePass := Fed(rows, LowerBound(rows, start), |rows|);
            CompletesOf(KeptBy(pages))
            == Unbroken(rows, pages, EndingBefore(CompletesOf(onePass.outputs), FinalCursor(start, pages)))
  {
    hide CmpBytes, LowerBound, RunAt, ParseChunkKey, Sorted, IsBroken, Unbroken, CompletesIn, CompletesOf, Fed,
      EndingBefore, AreChained;
    var lo := LowerBound(rows, start);
    PagesScan(rows, start, pages);
    AssemblerComputesRuns(rows, lo, |rows|);
    RunsEndingBefore(rows, lo, |rows|, FinalCursor(start, pages));
  }

  lemma {:induction false} UnbrokenAll(rows: seq<Row>, pages: seq<PageRun>, outputs: seq<Output>)
    requires forall k :: 0 <= k < |pages| && IsPageRun(rows, pages[k]) ==> !BreaksPending(rows, pages[k])
    ensures Unbroken(rows, pages, outputs) == outputs
  {
    hide IsPageRun, BreaksPending;
    if outputs != [] {
      UnbrokenAll(rows, pages, outputs[..|outputs| - 1]);
      Unsnoc(outputs);
    }
  }

  /** When no page had to break anything, the pages lose nothing. */
  lemma PagingLosesNothing(rows: seq<Row>, start: bytes, pages: seq<PageRun>)
    requires Sorted(rows) && AreChained(rows, start, pages)
    requires forall k :: 0 <= k < |pages| && IsPageRun(rows, pages[k]) ==> !BreaksPending(rows, pages[k])
    ensures CompletesOf(KeptBy(pages))
         == EndingBefore(CompletesOf(Fed(rows, LowerBound(rows, start), |rows|).outputs), FinalCursor(start, pages))
  {
    hide IsPageRun, BreaksPending, CmpBytes, LowerBound, EndingBefore, CompletesOf, Fed, Sorted, Unbroken;
    PagingRefinesOnePass(rows, start, pages);
    var onePass := Fed(rows, LowerBound(rows, start), |rows|);
    UnbrokenAll(rows, pages, EndingBefore(CompletesOf(onePass.outputs), FinalCursor(start, pages)));
  }

  // ---------- progress ----------

  /** What is left to read: two for each row from the cursor on, and one when the cursor is not itself a row. */
  function Measure(rows: seq<Row>, cursor: bytes): nat {
    2 * (|rows| - LowerBound(rows, cursor)) + if IsRowKey(rows, cursor) then 0 else 1
  }

  lemma MeasureIsPositive(rows: seq<Row>, cursor: bytes)
    requires Sorted(rows)
    ensures 1 <= Measure(rows, cursor) <= 2 * |rows| + 1
  {
    hide CmpBytes, LowerBound, Sorted;
    if IsRowKey(rows, cursor) {
      var m :| 0 <= m < |rows| && rows[m].key == cursor;
      LowerBoundAtRow(rows, m);
    }
  }

  /** No page moves the cursor back, and a page that was stopped moves it forward. */
  lemma PageAdvances(rows: seq<Row>, p: PageRun)
    requires Sorted(rows) && IsPageRun(rows, p)
    ensures Le(p.start, p.next) && (p.stopped ==> Lt(p.start, p.next))
    ensures Measure(rows, p.next) + (if p.stopped then 1 else 0) <= Measure(rows, p.start)
  {
    hide CmpBytes, LowerBound, Sorted, NoRunAcross, CompletesOf, CompletesIn, Fed;
    PageKeepsRuns(rows, p);
    var lo, at := LowerBound(rows, p.start), LowerBound(rows, p.next);
    LtTotal(p.start, p.next);
    if lo == at && p.start != p.next {
      if IsRowKey(rows, p.start) {
        var m :| 0 <= m < |rows| && rows[m].key == p.start;
        LowerBoundAtRow(rows, m);
        RowsBefore(rows, p.next, m);
      }
    }
  }

  function StoppedCount(pages: seq<PageRun>): nat {
    if pages == [] then 0
    else StoppedCount(pages[..|pages| - 1]) + if pages[|pages| - 1].stopped then 1 else 0
  }

  lemma {:induction false} PagesAdvance(rows: seq<Row>, start: bytes, pages: seq<PageRun>)
    requires Sorted(rows) && AreChained(rows, start, pages)
    ensures Le(start, FinalCursor(start, pages))
    ensures StoppedCount(pages) + Measure(rows, FinalCursor(start, pages)) <= Measure(rows, start)
  {
    hide CmpBytes, LowerBound, Sorted, Measure, IsPageRun;
    LtTotal(start, start);
    if pages != [] {
      var n := |pages| - 1;
      FirstAreChained(rows, start, pages);
      PagesAdvance(rows, start, pages[..n]);
      PageAdvances(rows, pages[n]);
      LtTransitive(start, pages[n].start, pages[n].next);
    }
  }

  /** Over a fixed set of rows, only so many pages can be stopped, whatever the decisions to stop. */
  lemma StopsAreBounded(rows: seq<Row>, start: bytes, pages: seq<PageRun>)
    requires Sorted(rows) && AreChained(rows, start, pages)
    ensures StoppedCount(pages) <= 2 * |rows|
  {
    hide Measure, Sorted, IsPageRun;
    PagesAdvance(rows, start, pages);
    MeasureIsPositive(rows, start);
    MeasureIsPositive(rows, FinalCursor(start, pages));
  }

  // ---------- the pages are what the scanner reads ----------

  /** Of rows before the end of a scan, the range of a cursor holds exactly those from the cursor on. */
  lemma RangeHoldsRest(scanner: ProfileScanner, rows: seq<Row>, cursor: Cursor, i: nat)
    requires Sorted(rows) && i < |rows| && Lt(rows[i].key, scanner.End())
    ensures scanner.Range(cursor).Contains(rows[i].key) <==> LowerBound(rows, cursor.key) <= i
  {
    hide CmpBytes, LowerBound, Sorted, VersionKey;
    var key, end := rows[i].key, scanner.End();
    RowsBefore(rows, cursor.key, i);
    LtTotal(cursor.key, key);
    if Lt(end, cursor.key) && Le(cursor.key, key) {
      LtTransitive(end, cursor.key, key);
      LtTotal(end, key);
    }
  }

  /**
   A page read from the rows of its cursor's range is a page over all the rows: those it was given may be the first
   ones only, when later ones were not written yet.
   */
  lemma ReadPageIsPageRun(rows: seq<Row>, seen: nat, cursor: Cursor, read: nat, kept: seq<Output>, page: Page)
    requires Sorted(rows) && LowerBound(rows, cursor.key) + read <= seen <= |rows|
    requires IsPage(cursor, rows[LowerBound(rows, cursor.key)..seen], read, kept, page)
    requires !page.exhausted ==> read > 0
    ensures var hi := LowerBound(rows, cursor.key) + read;
            IsPageRun(rows, PageRun(cursor.key, hi, !page.exhausted, kept, page.next.key))
  {
    hide LowerBound, Finishes, Fed, PageOf, Sorted;
    var lo := LowerBound(rows, cursor.key);
    SameRows(rows, lo, lo + read, rows[lo..seen], 0);
  }

  /** The transactions of a page are those of its complete outcomes, so a lost or repeated one shows in them. */
  lemma {:induction false} TransactionsAreOfCompletes(kept: seq<Output>, next: bytes, exhausted: bool)
    ensures PageOf(kept, next, exhausted).transactions == PageOf(CompletesOf(kept), next, exhausted).transactions
  {
    hide Decoded;
    if kept != [] {
      var n := |kept| - 1;
      TransactionsAreOfCompletes(kept[..n], next, exhausted);
      if kept[n].assembled.Complete? {
        PageOfNext(CompletesOf(kept[..n]), kept[n], next, exhausted);
      } else {
        Empty(PageOf(kept[..n], next, exhausted).transactions);
      }
    }
  }
}
