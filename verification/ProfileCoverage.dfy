/** No row of a transaction is passed over in silence: an outcome of its id spans it, or it is still pending. */
module ProfileCoverage {
  import opened ByteStrings
  import opened ProfileAssembly
  import opened ProfileKeys
  import opened ProfilePaging
  import opened ProfileRuns
  import opened Sequences
  import opened Wrappers

  predicate Spans(o: Output, id: Id, key: bytes) {
    o.assembled.id == id && Le(o.firstKey, key) && Le(key, o.lastKey)
  }

  predicate IsSpanned(outputs: seq<Output>, id: Id, key: bytes) {
    exists i :: 0 <= i < |outputs| && Spans(outputs[i], id, key)
  }

  predicate IsAwaited(st: State, id: Id, key: bytes) {
    id in st.partials && Le(st.partials[id].firstKey, key)
  }

  predicate IsAccounted(st: State, id: Id, key: bytes) {
    IsAwaited(st, id, key) || IsSpanned(st.outputs, id, key)
  }

  /** Everything in a state is at or before a key, and no outcome ends before it begins. */
  ghost predicate IsUpTo(st: State, key: bytes) {
    && (forall i :: 0 <= i < |st.outputs| ==>
          Le(st.outputs[i].firstKey, st.outputs[i].lastKey) && Le(st.outputs[i].lastKey, key)
          && Le(st.outputs[i].firstKey, key))
    && (forall id :: id in st.partials ==> Le(st.partials[id].firstKey, key))
  }

  /** Reporting a key ends no account, and spans the key. */
  lemma ReportedAccounts(st: State, firstKey: bytes, stamp: Versionstamp, of: Id, key: bytes, id: Id, k: bytes)
    requires BrokenAreReported(st) && IsUpTo(st, key) && Le(firstKey, key)
    ensures var r := Reported(st, firstKey, stamp, of, key);
            && IsUpTo(r, key) && IsSpanned(r.outputs, of, key)
            && (IsSpanned(st.outputs, id, k) ==> IsSpanned(r.outputs, id, k))
            && (of !in st.broken && Le(firstKey, k) && Le(k, key) ==> IsSpanned(r.outputs, of, k))
  {
    hide CmpBytes;
    var r := Reported(st, firstKey, stamp, of, key);
    LtTotal(key, key);
    var at := if of in st.broken then st.broken[of] else |st.outputs|;
    assert Spans(r.outputs[at], of, key);
    if i :| 0 <= i < |st.outputs| && Spans(st.outputs[i], id, k) {
      LtTransitive(k, st.outputs[i].lastKey, key);
      assert Spans(r.outputs[i], id, k);
    }
    if of !in st.broken && Le(firstKey, k) && Le(k, key) {
      assert Spans(r.outputs[at], of, k);
    }
  }

  lemma AppendedAccounts(outputs: seq<Output>, o: Output, id: Id, k: bytes)
    requires IsSpanned(outputs, id, k) || Spans(o, id, k)
    ensures IsSpanned(outputs + [o], id, k)
  {
    if i :| 0 <= i < |outputs| && Spans(outputs[i], id, k) {
      assert Spans((outputs + [o])[i], id, k);
    } else {
      assert Spans((outputs + [o])[|outputs|], id, k);
    }
  }

  /** A row that starts something or is reported ends no account, and is accounted for. */
  lemma StartedAccounts(st: State, c: ChunkKey, key: bytes, value: bytes, id: Id, k: bytes)
    requires BrokenAreReported(st) && IsUpTo(st, key) && c.id !in st.partials
    ensures var r := Started(st, c, key, value);
            && IsUpTo(r, key) && IsAccounted(r, c.id, key)
            && (IsAccounted(st, id, k) ==> IsAccounted(r, id, k))
  {
    hide CmpBytes, IsSpanned, Reported;
    LtTotal(key, key);
    var st' := if c.chunk == 1 && c.total >= 1 then st.(broken := st.broken - {c.id}) else st;
    if c.chunk == 1 && c.total == 1 {
      var whole := Output(key, key, Complete(c.versionstamp, c.id, value));
      AppendedAccounts(st.outputs, whole, c.id, key);
      if IsSpanned(st.outputs, id, k) {
        AppendedAccounts(st.outputs, whole, id, k);
      }
    } else if !(c.chunk == 1 && c.total > 1) {
      ReportedAccounts(st', key, c.versionstamp, c.id, key, id, k);
      ReportedKeeps(st', key, c.versionstamp, c.id, key);
    }
  }

  lemma ContinuedAccounts(st: State, c: ChunkKey, key: bytes, value: bytes, id: Id, k: bytes)
    requires BrokenAreReported(st) && IsUpTo(st, key) && c.id in st.partials && Continues(st.partials[c.id], c)
    ensures var r := Processed(st, c, key, value);
            && IsUpTo(r, key) && IsAccounted(r, c.id, key)
            && (IsAccounted(st, id, k) && Le(k, key) ==> IsAccounted(r, id, k))
  {
    hide CmpBytes, IsSpanned, Continues;
    LtTotal(key, key);
    var p := st.partials[c.id];
    var whole := Output(p.firstKey, key, Complete(p.versionstamp, c.id, p.blob + value));
    if c.chunk == p.total {
      AppendedAccounts(st.outputs, whole, c.id, key);
      if IsSpanned(st.outputs, id, k) || Spans(whole, id, k) {
        AppendedAccounts(st.outputs, whole, id, k);
      }
    }
  }

  /** A row that interrupts a pending transaction turns it into a report that spans all of its rows. */
  lemma InterruptedAccounts(st: State, c: ChunkKey, key: bytes, value: bytes, id: Id, k: bytes)
    requires BrokenAreReported(st) && IsUpTo(st, key) && c.id in st.partials && !Continues(st.partials[c.id], c)
    ensures var r := Processed(st, c, key, value);
            && IsUpTo(r, key) && IsAccounted(r, c.id, key)
            && (IsAccounted(st, id, k) && Le(k, key) ==> IsAccounted(r, id, k))
  {
    hide CmpBytes, IsSpanned, Continues, Reported, Started;
    var p := st.partials[c.id];
    var removed := st.(partials := st.partials - {c.id});
    ReportedAccounts(removed, p.firstKey, p.versionstamp, c.id, key, id, k);
    ReportedKeeps(removed, p.firstKey, p.versionstamp, c.id, key);
    StartedAccounts(Reported(removed, p.firstKey, p.versionstamp, c.id, key), c, key, value, id, k);
  }

  lemma PushedAccounts(st: State, row: Row, id: Id, k: bytes)
    requires BrokenAreReported(st) && IsUpTo(st, row.key)
    ensures IsUpTo(Pushed(st, row), row.key)
    ensures IsAccounted(st, id, k) && Le(k, row.key) ==> IsAccounted(Pushed(st, row), id, k)
    ensures Own([row], 0, id) ==> IsAccounted(Pushed(st, row), id, row.key)
  {
    hide CmpBytes, IsSpanned, Continues, Processed, ParseChunkKey;
    var st' := st.(lastKey := Some(row.key));
    match ParseChunkKey(row.key)
    case None =>
    case Some(c) =>
      if c.id in st.partials {
        if Continues(st.partials[c.id], c) {
          ContinuedAccounts(st', c, row.key, row.value, id, k);
        } else {
          InterruptedAccounts(st', c, row.key, row.value, id, k);
        }
      } else {
        StartsAfresh(st', c, row);
        StartedAccounts(st', c, row.key, row.value, id, k);
      }
  }

  lemma StartsAfresh(st: State, c: ChunkKey, row: Row)
    requires c.id !in st.partials
    ensures Processed(st, c, row.key, row.value) == Started(st, c, row.key, row.value)
  {
  }

  /** After any rows, every row of a transaction lies in an outcome of its id or in its pending part. */
  ghost predicate AllAccounted(rows: seq<Row>, lo: nat, hi: nat, st: State)
    requires lo <= hi <= |rows|
  {
    && (lo < hi ==> IsUpTo(st, rows[hi - 1].key))
    && (forall j :: lo <= j < hi && ParseChunkKey(rows[j].key).Some? ==> IsAccounted(st, IdOf(rows, j), rows[j].key))
  }

  lemma {:induction false} RowsAreAccounted(rows: seq<Row>, lo: nat, hi: nat)
    requires Sorted(rows) && lo <= hi <= |rows|
    ensures AllAccounted(rows, lo, hi, Fed(rows, lo, hi))
  {
    hide CmpBytes, IsAccounted, Pushed, ParseChunkKey, BrokenAreReported, CompletesOf, CompletesIn, PendingOf;
    if lo < hi {
      RowsAreAccounted(rows, lo, hi - 1);
      AssemblerComputesRuns(rows, lo, hi - 1);
      var st, row := Fed(rows, lo, hi - 1), rows[hi - 1];
      assert IsUpTo(st, row.key) by {
        UpToNext(rows, lo, hi, st);
      }
      PushedAccounts(st, row, seq(16, _ => 0), []);
      forall j | lo <= j < hi && ParseChunkKey(rows[j].key).Some?
        ensures IsAccounted(Pushed(st, row), IdOf(rows, j), rows[j].key)
      {
        PushedAccounts(st, row, IdOf(rows, j), rows[j].key);
        LtTotal(rows[j].key, row.key);
      }
    }
  }

  lemma UpToNext(rows: seq<Row>, lo: nat, hi: nat, st: State)
    requires Sorted(rows) && lo < hi <= |rows| && AllAccounted(rows, lo, hi - 1, st)
    requires lo == hi - 1 ==> st == EMPTY
    ensures IsUpTo(st, rows[hi - 1].key)
  {
    hide CmpBytes, IsAccounted, ParseChunkKey;
    if lo < hi - 1 {
      var before, key := rows[hi - 2].key, rows[hi - 1].key;
      LtTotal(before, key);
      forall i | 0 <= i < |st.outputs|
        ensures Le(st.outputs[i].firstKey, st.outputs[i].lastKey) && Le(st.outputs[i].lastKey, key)
        ensures Le(st.outputs[i].firstKey, key)
      {
        LtTransitive(st.outputs[i].firstKey, before, key);
        LtTransitive(st.outputs[i].lastKey, before, key);
      }
      forall id | id in st.partials ensures Le(st.partials[id].firstKey, key) {
        LtTransitive(st.partials[id].firstKey, before, key);
      }
    }
  }

  // ---------- what a page keeps ----------

  /** What a row does to the outcomes: it ends some of those there were, and any that it adds. */
  ghost predicate IsNextAt(outputs: seq<Output>, more: seq<Output>, key: bytes) {
    && |outputs| <= |more|
    && (forall i :: 0 <= i < |outputs| ==>
          more[i] == outputs[i] || (more[i].firstKey == outputs[i].firstKey && more[i].lastKey == key))
    && (forall i :: |outputs| <= i < |more| ==> more[i].lastKey == key)
  }

  lemma ReportedIsNext(st: State, firstKey: bytes, stamp: Versionstamp, of: Id, key: bytes)
    ensures IsNextAt(st.outputs, Reported(st, firstKey, stamp, of, key).outputs, key)
  {
  }

  lemma StartedIsNext(st: State, c: ChunkKey, key: bytes, value: bytes)
    ensures IsNextAt(st.outputs, Started(st, c, key, value).outputs, key)
  {
    hide Reported;
    if !(c.chunk == 1 && c.total >= 1) {
      ReportedIsNext(st, key, c.versionstamp, c.id, key);
    }
  }

  lemma PushedIsNext(st: State, row: Row)
    ensures IsNextAt(st.outputs, Pushed(st, row).outputs, row.key)
  {
    hide Reported, Started, ParseChunkKey, Continues;
    var parsed := ParseChunkKey(row.key);
    if parsed.Some? {
      var c := parsed.value;
      var st' := st.(lastKey := Some(row.key));
      if c.id in st.partials {
        var p := st.partials[c.id];
        if !Continues(p, c) {
          var removed := st'.(partials := st.partials - {c.id});
          ReportedIsNext(removed, p.firstKey, p.versionstamp, c.id, row.key);
          StartedIsNext(Reported(removed, p.firstKey, p.versionstamp, c.id, row.key), c, row.key, row.value);
        }
      } else {
        StartedIsNext(st', c, row.key, row.value);
      }
    }
  }

  ghost predicate NoneAcross(outputs: seq<Output>, cut: bytes) {
    forall i :: 0 <= i < |outputs| ==> !Straddles(outputs[i], cut)
  }

  /** A row at or after a position that no outcome straddles ends none of the outcomes that end before it. */
  lemma {:induction false} NextKeepsBefore(outputs: seq<Output>, more: seq<Output>, key: bytes, cut: bytes)
    requires IsNextAt(outputs, more, key) && NoneAcross(more, cut) && Le(cut, key)
    requires forall i :: 0 <= i < |outputs| ==> Le(outputs[i].firstKey, outputs[i].lastKey)
    ensures NoneAcross(outputs, cut) && EndingBefore(more, cut) == EndingBefore(outputs, cut)
    decreases |more|
  {
    hide CmpBytes;
    if more != [] {
      var n := |more| - 1;
      var last := more[n];
      LtTotal(cut, last.lastKey);
      if n >= |outputs| {
        NextKeepsBefore(outputs, more[..n], key, cut);
      } else {
        var was := outputs[n];
        LtTotal(cut, was.lastKey);
        if Lt(was.lastKey, cut) {
          LtTransitive(was.firstKey, was.lastKey, cut);
        }
        assert !Straddles(last, cut);
        NextKeepsBefore(outputs[..n], more[..n], key, cut);
        forall i | 0 <= i < |outputs| ensures !Straddles(outputs[i], cut) {
          assert i < n ==> outputs[..n][i] == outputs[i];
        }
      }
    }
  }

  lemma {:induction false} AllEndBefore(outputs: seq<Output>, cut: bytes)
    requires forall i :: 0 <= i < |outputs| ==> Lt(outputs[i].lastKey, cut)
    ensures EndingBefore(outputs, cut) == outputs
  {
    if outputs != [] {
      AllEndBefore(outputs[..|outputs| - 1], cut);
      Unsnoc(outputs);
    }
  }

  /** The outcomes that end before a row which none straddles are all the outcomes of the rows before it. */
  lemma {:induction false} CutIsEarlierPass(rows: seq<Row>, lo: nat, m: nat, hi: nat)
    requires Sorted(rows) && lo <= m <= hi <= |rows| && m < |rows|
    requires NoneAcross(Fed(rows, lo, hi).outputs, rows[m].key)
    ensures EndingBefore(Fed(rows, lo, hi).outputs, rows[m].key) == Fed(rows, lo, m).outputs
    decreases hi - m
  {
    hide CmpBytes, Pushed, IsAccounted, EndingBefore, NoneAcross, IsNextAt, ParseChunkKey;
    var cut := rows[m].key;
    if hi == m {
      var st := Fed(rows, lo, m);
      RowsAreAccounted(rows, lo, m);
      if lo < m {
        var before := rows[m - 1].key;
        forall i | 0 <= i < |st.outputs| ensures Lt(st.outputs[i].lastKey, cut) {
          LtTransitive(st.outputs[i].lastKey, before, cut);
        }
      }
      AllEndBefore(st.outputs, cut);
    } else {
      var st := Fed(rows, lo, hi - 1);
      RowsAreAccounted(rows, lo, hi - 1);
      PushedIsNext(st, rows[hi - 1]);
      LtTotal(cut, rows[hi - 1].key);
      NextKeepsBefore(st.outputs, Fed(rows, lo, hi).outputs, rows[hi - 1].key, cut);
      CutIsEarlierPass(rows, lo, m, hi - 1);
    }
  }

  /** The reports a page adds when it breaks what is pending. */
  ghost predicate KeepsReportsOf(rows: seq<Row>, p: PageRun, pending: seq<Partial>)
    requires LowerBound(rows, p.start) <= p.hi <= |rows|
  {
    var st := Fed(rows, LowerBound(rows, p.start), p.hi);
    IsPending(pending, st.partials) && p.kept == st.outputs + BrokenReports(pending)
  }

  /**
   A page keeps exactly the outcomes of one pass over the rows from its cursor to the next one, in order; a page that
   breaks its pending transactions adds a report of each.
   */
  lemma PageKeepsOnePass(rows: seq<Row>, p: PageRun)
    requires Sorted(rows) && IsPageRun(rows, p)
    ensures LowerBound(rows, p.start) <= LowerBound(rows, p.next) <= p.hi
    ensures !BreaksPending(rows, p) ==>
              p.kept == Fed(rows, LowerBound(rows, p.start), LowerBound(rows, p.next)).outputs
    ensures BreaksPending(rows, p) ==>
              LowerBound(rows, p.next) == p.hi && exists pending :: KeepsReportsOf(rows, p, pending)
  {
    hide Fed, CmpBytes, Sorted, LowerBound, IsPending, IsFirstKeyOr, ParseChunkKey, EndingBefore, AfterLast,
      BrokenReports, KeepsRuns, NoRunAcross;
    var lo := LowerBound(rows, p.start);
    var st := Fed(rows, lo, p.hi);
    PageKeepsRuns(rows, p);
    var pending: seq<Partial> :| FinishesWith(st, p.start, p.stopped, pending, p.kept, p.next);
    AfterLastIsAfterAll(rows, lo, p.hi, p.start, AfterLast(st, p.start));
    if pending == [] {
      NoPartials(st.partials);
    } else {
      SomePartials(pending, st.partials);
      var cut: bytes :|
        && IsCut(st.outputs, pending[0].firstKey, cut)
        && IsFirstKeyOr(st.outputs, pending[0].firstKey, cut)
        && if Breaks(st, p.start, p.stopped, cut) then
             p.kept == st.outputs + BrokenReports(pending) && p.next == AfterLast(st, p.start)
           else
             p.kept == EndingBefore(st.outputs, cut) && p.next == cut;
      if Breaks(st, p.start, p.stopped, cut) {
        assert KeepsReportsOf(rows, p, pending);
      } else {
        var m := CutIsAtRow(rows, lo, p.hi, pending, cut);
        LowerBoundAtRow(rows, m);
        CutIsEarlierPass(rows, lo, m, p.hi);
      }
    }
  }

  /**
   Every row of a transaction that a page passes, from its cursor to the next one, has an outcome of its id that the
   page keeps and that begins at the row or before. It spans the row, unless the page breaks its pending transactions.
   */
  lemma PagesReportEveryRow(rows: seq<Row>, p: PageRun, j: nat)
    requires Sorted(rows) && IsPageRun(rows, p)
    requires LowerBound(rows, p.start) <= j < |rows| && Lt(rows[j].key, p.next) && ParseChunkKey(rows[j].key).Some?
    ensures exists i :: 0 <= i < |p.kept| && IsReportedBy(p.kept[i], IdOf(rows, j), rows[j].key)
    ensures !BreaksPending(rows, p) ==> IsSpanned(p.kept, IdOf(rows, j), rows[j].key)
  {
    hide Fed, CmpBytes, Sorted, LowerBound, ParseChunkKey, Finishes, BreaksPending;
    var id, key := IdOf(rows, j), rows[j].key;
    if !BreaksPending(rows, p) {
      PagesPassOverNothing(rows, p, j);
      var i :| 0 <= i < |p.kept| && Spans(p.kept[i], id, key);
      assert IsReportedBy(p.kept[i], id, key);
    } else {
      PageKeepsOnePass(rows, p);
      RowsBefore(rows, p.next, j);
      var pending :| KeepsReportsOf(rows, p, pending);
      BrokenPageReports(rows, p, pending, j);
    }
  }

  lemma BrokenPageReports(rows: seq<Row>, p: PageRun, pending: seq<Partial>, j: nat)
    requires Sorted(rows) && LowerBound(rows, p.start) <= j < p.hi <= |rows| && ParseChunkKey(rows[j].key).Some?
    requires KeepsReportsOf(rows, p, pending)
    ensures exists i :: 0 <= i < |p.kept| && IsReportedBy(p.kept[i], IdOf(rows, j), rows[j].key)
  {
    hide Fed, CmpBytes, Sorted, LowerBound, IsPending, ParseChunkKey, BrokenReports, IsUpTo;
    var id, key, lo := IdOf(rows, j), rows[j].key, LowerBound(rows, p.start);
    var st := Fed(rows, lo, p.hi);
    RowsAreAccounted(rows, lo, p.hi);
    assert IsAccounted(st, id, key);
    if IsAwaited(st, id, key) {
      AwaitedById(rows, lo, p.hi, id);
      var at := ReportOf(pending, st.partials, id);
      assert p.kept[|st.outputs| + at] == BrokenReports(pending)[at];
      assert IsReportedBy(p.kept[|st.outputs| + at], id, key);
    } else {
      var i :| 0 <= i < |st.outputs| && Spans(st.outputs[i], id, key);
      assert p.kept[i] == st.outputs[i] && IsReportedBy(p.kept[i], id, key);
    }
  }

  lemma AwaitedById(rows: seq<Row>, lo: nat, hi: nat, id: Id)
    requires lo <= hi <= |rows| && id in Fed(rows, lo, hi).partials
    ensures Fed(rows, lo, hi).partials[id].id == id
  {
    hide Fed, RunAt, ParseChunkKey, CompletesIn, CompletesOf, BrokenAreReported;
    AssemblerComputesRuns(rows, lo, hi);
  }

  predicate IsReportedBy(o: Output, id: Id, key: bytes) {
    o.assembled.id == id && Le(o.firstKey, key)
  }

  lemma {:induction false} ReportAt(pending: seq<Partial>, at: nat)
    requires at < |pending|
    ensures |BrokenReports(pending)| == |pending|
    ensures BrokenReports(pending)[at]
         == Output(pending[at].firstKey, pending[at].firstKey, Broken(pending[at].versionstamp, pending[at].id))
  {
    var n := |pending| - 1;
    if at < n {
      ReportAt(pending[..n], at);
    } else if n > 0 {
      ReportAt(pending[..n], 0);
    }
  }

  lemma ReportOf(pending: seq<Partial>, partials: map<Id, Partial>, id: Id) returns (at: nat)
    requires IsPending(pending, partials) && id in partials && partials[id].id == id
    ensures at < |BrokenReports(pending)|
    ensures var o := BrokenReports(pending)[at];
            o.assembled.Broken? && o.assembled.id == id && o.firstKey == partials[id].firstKey
  {
    hide CmpBytes, BrokenReports;
    at := IndexOf(pending, partials[id]);
    ReportAt(pending, at);
  }

  /** A page that breaks nothing passes over no row. */
  lemma PagesPassOverNothing(rows: seq<Row>, p: PageRun, j: nat)
    requires Sorted(rows) && IsPageRun(rows, p) && !BreaksPending(rows, p)
    requires LowerBound(rows, p.start) <= j < |rows| && Lt(rows[j].key, p.next) && ParseChunkKey(rows[j].key).Some?
    ensures IsSpanned(p.kept, IdOf(rows, j), rows[j].key)
  {
    hide Fed, CmpBytes, Sorted, LowerBound, IsPending, IsCut, IsFirstKeyOr, ParseChunkKey, EndingBefore, AfterLast,
      BrokenReports, IsSpanned, KeepsRuns, NoRunAcross;
    var lo := LowerBound(rows, p.start);
    var st := Fed(rows, lo, p.hi);
    PageKeepsRuns(rows, p);
    RowsBefore(rows, p.next, j);
    RowsAreAccounted(rows, lo, p.hi);
    var pending: seq<Partial> :| FinishesWith(st, p.start, p.stopped, pending, p.kept, p.next);
    if pending == [] {
      NoPartials(st.partials);
    } else {
      SomePartials(pending, st.partials);
      var cut: bytes :|
        && IsCut(st.outputs, pending[0].firstKey, cut)
        && IsFirstKeyOr(st.outputs, pending[0].firstKey, cut)
        && if Breaks(st, p.start, p.stopped, cut) then
             p.kept == st.outputs + BrokenReports(pending) && p.next == AfterLast(st, p.start)
           else
             p.kept == EndingBefore(st.outputs, cut) && p.next == cut;
      KeptBeforeCut(st, pending, cut, IdOf(rows, j), rows[j].key);
    }
  }

  lemma KeptBeforeCut(st: State, pending: seq<Partial>, cut: bytes, id: Id, key: bytes)
    requires pending != [] && IsPending(pending, st.partials) && IsCut(st.outputs, pending[0].firstKey, cut)
    requires Lt(key, cut) && IsAccounted(st, id, key)
    ensures IsSpanned(EndingBefore(st.outputs, cut), id, key)
  {
    hide CmpBytes, IsPending, EndingBefore;
    if IsAwaited(st, id, key) {
      OldestIsFirst(pending, st.partials, id);
      var first := st.partials[id].firstKey;
      LtTransitive(cut, pending[0].firstKey, first);
      LtTransitive(cut, first, key);
      LtTotal(key, cut);
      LtTotal(cut, key);
    } else {
      var i :| 0 <= i < |st.outputs| && Spans(st.outputs[i], id, key);
      var o := st.outputs[i];
      assert !Straddles(o, cut);
      LtTransitive(o.firstKey, key, cut);
      LtTotal(cut, o.lastKey);
      var at := KeptAt(st.outputs, cut, i);
      assert Spans(EndingBefore(st.outputs, cut)[at], id, key);
    }
  }

  lemma {:induction false} KeptAt(outputs: seq<Output>, cut: bytes, i: nat) returns (at: nat)
    requires i < |outputs| && Lt(outputs[i].lastKey, cut)
    ensures at < |EndingBefore(outputs, cut)| && EndingBefore(outputs, cut)[at] == outputs[i]
  {
    hide CmpBytes;
    var n := |outputs| - 1;
    if i < n {
      at := KeptAt(outputs[..n], cut, i);
    } else {
      at := |EndingBefore(outputs[..n], cut)|;
    }
  }

  // ---------- chains of pages ----------

  /** A page keeps an outcome of an id from a key or before, which spans the key unless the page breaks its pending. */
  ghost predicate IsReportedIn(rows: seq<Row>, p: PageRun, id: Id, key: bytes) {
    && IsPageRun(rows, p)
    && (exists i :: 0 <= i < |p.kept| && IsReportedBy(p.kept[i], id, key))
    && (!BreaksPending(rows, p) ==> IsSpanned(p.kept, id, key))
  }

  /** Every row of a transaction, from where the first page starts to where the last one resumes, is reported. */
  lemma {:induction false} ChainsReportEveryRow(rows: seq<Row>, start: bytes, pages: seq<PageRun>, j: nat)
    requires Sorted(rows) && AreChained(rows, start, pages)
    requires LowerBound(rows, start) <= j < LowerBound(rows, FinalCursor(start, pages))
    requires ParseChunkKey(rows[j].key).Some?
    ensures exists k :: 0 <= k < |pages| && IsReportedIn(rows, pages[k], IdOf(rows, j), rows[j].key)
  {
    hide CmpBytes, Sorted, LowerBound, ParseChunkKey, IsPageRun, BreaksPending, IsReportedBy, IsSpanned;
    var n := |pages| - 1;
    var p := pages[n];
    if j < LowerBound(rows, p.start) {
      FirstAreChained(rows, start, pages);
      ChainsReportEveryRow(rows, start, pages[..n], j);
      var k :| 0 <= k < n && IsReportedIn(rows, pages[..n][k], IdOf(rows, j), rows[j].key);
      assert pages[..n][k] == pages[k];
    } else {
      RowsBefore(rows, p.next, j);
      PagesReportEveryRow(rows, p, j);
      assert IsReportedIn(rows, p, IdOf(rows, j), rows[j].key);
    }
  }
}
