/** How often an id is reported as broken: once until a new first chunk of it, which need not be once a page. */
module ProfileBrokenReports {
  import opened ByteStrings
  import opened Digits
  import opened ProfileAssembly
  import opened ProfileCoverage
  import opened ProfileDecoding
  import opened ProfileKeys
  import opened ProfilePages
  import opened ProfilePaging
  import opened ProfileResuming
  import opened ProfileRuns
  import opened Sequences
  import opened Wrappers

  /** A first chunk of an id. */
  predicate IsRestart(rows: seq<Row>, m: nat, id: Id)
    requires m < |rows|
  {
    var c := ParseChunkKey(rows[m].key);
    c.Some? && c.value.id == id && c.value.chunk == 1 && c.value.total >= 1
  }

  /** A first chunk of an id at or after one key, and at or before another one if there is one. */
  ghost predicate RestartsWithin(rows: seq<Row>, lo: nat, hi: nat, id: Id, from: bytes, to: Option<bytes>)
    requires hi <= |rows|
  {
    exists m: nat ::
      lo <= m < hi && IsRestart(rows, m, id) && Le(from, rows[m].key) && (to.Some? ==> Le(rows[m].key, to.value))
  }

  /** Where the pending part of an id begins. */
  function PendingStart(st: State, id: Id): Option<bytes> {
    if id in st.partials then Some(st.partials[id].firstKey) else None
  }

  /** Between two reports of an id there is a first chunk of it. */
  ghost predicate AreSeparated(rows: seq<Row>, lo: nat, hi: nat, outputs: seq<Output>)
    requires hi <= |rows|
  {
    forall i, k :: 0 <= i < k < |outputs| ==> IsSeparated(rows, lo, hi, outputs[i], outputs[k])
  }

  ghost predicate IsSeparated(rows: seq<Row>, lo: nat, hi: nat, o: Output, p: Output)
    requires hi <= |rows|
  {
    o.assembled.Broken? && p.assembled.Broken? && o.assembled.id == p.assembled.id ==>
      RestartsWithin(rows, lo, hi, o.assembled.id, o.lastKey, Some(p.firstKey))
  }

  /** A report is the latest one while its id is broken; after that, a first chunk came, before anything pending. */
  ghost predicate IsLatestOrPast(rows: seq<Row>, lo: nat, hi: nat, st: State, i: nat)
    requires hi <= |rows| && i < |st.outputs|
  {
    var o := st.outputs[i];
    var id := o.assembled.id;
    o.assembled.Broken? ==>
      if id in st.broken then i <= st.broken[id]
      else RestartsWithin(rows, lo, hi, id, o.lastKey, PendingStart(st, id))
  }

  ghost predicate ReportsOnce(rows: seq<Row>, lo: nat, hi: nat, st: State)
    requires hi <= |rows|
  {
    && AreSeparated(rows, lo, hi, st.outputs)
    && forall i :: 0 <= i < |st.outputs| ==> IsLatestOrPast(rows, lo, hi, st, i)
  }

  lemma ReportedOnce(
    rows: seq<Row>, lo: nat, hi: nat, st: State, firstKey: bytes, stamp: Versionstamp, of: Id, key: bytes
  )
    requires hi <= |rows| && BrokenAreReported(st) && ReportsOnce(rows, lo, hi, st) && of !in st.partials
    requires of !in st.broken ==>
               forall i ::
                 0 <= i < |st.outputs| && st.outputs[i].assembled.Broken? && st.outputs[i].assembled.id == of ==>
                   RestartsWithin(rows, lo, hi, of, st.outputs[i].lastKey, Some(firstKey))
    ensures ReportsOnce(rows, lo, hi, Reported(st, firstKey, stamp, of, key))
  {
    hide RestartsWithin;
    var r := Reported(st, firstKey, stamp, of, key);
    forall i, k | 0 <= i < k < |r.outputs|
      ensures IsSeparated(rows, lo, hi, r.outputs[i], r.outputs[k])
    {
      if k < |st.outputs| {
        assert IsSeparated(rows, lo, hi, st.outputs[i], st.outputs[k]);
        assert IsLatestOrPast(rows, lo, hi, st, k);
      }
    }
    forall i | 0 <= i < |r.outputs|
      ensures IsLatestOrPast(rows, lo, hi, r, i)
    {
      if i < |st.outputs| {
        assert IsLatestOrPast(rows, lo, hi, st, i);
      }
    }
  }

  /** What was said of some rows is so when there is one more. */
  lemma MoreRows(rows: seq<Row>, lo: nat, hi: nat, st: State)
    requires hi < |rows| && ReportsOnce(rows, lo, hi, st)
    ensures ReportsOnce(rows, lo, hi + 1, st)
  {
    var more := hi + 1;
    forall i, k | 0 <= i < k < |st.outputs|
      ensures IsSeparated(rows, lo, more, st.outputs[i], st.outputs[k])
    {
      assert IsSeparated(rows, lo, hi, st.outputs[i], st.outputs[k]);
    }
    forall i | 0 <= i < |st.outputs|
      ensures IsLatestOrPast(rows, lo, more, st, i)
    {
      assert IsLatestOrPast(rows, lo, hi, st, i);
    }
  }

  /** A first chunk closes the report of its id, if there is an open one, and nothing is pending before it. */
  lemma RestartedOnce(rows: seq<Row>, lo: nat, hi: nat, st: State, c: ChunkKey)
    requires Sorted(rows) && lo <= hi < |rows| && ParseChunkKey(rows[hi].key) == Some(c)
    requires c.chunk == 1 && c.total >= 1 && c.id !in st.partials
    requires BrokenAreReported(st) && IsUpTo(st, rows[hi].key) && ReportsOnce(rows, lo, hi, st)
    ensures ReportsOnce(rows, lo, hi + 1, Started(st, c, rows[hi].key, rows[hi].value))
  {
    hide CmpBytes, ParseChunkKey, Sorted;
    var key := rows[hi].key;
    var r := Started(st, c, key, rows[hi].value);
    var more := hi + 1;
    MoreRows(rows, lo, hi, st);
    LtTotal(key, key);
    assert IsRestart(rows, hi, c.id);
    forall i, k | 0 <= i < k < |r.outputs|
      ensures IsSeparated(rows, lo, more, r.outputs[i], r.outputs[k])
    {
      if k < |st.outputs| {
        assert IsSeparated(rows, lo, more, st.outputs[i], st.outputs[k]);
      }
    }
    forall i | 0 <= i < |r.outputs|
      ensures IsLatestOrPast(rows, lo, more, r, i)
    {
      if i < |st.outputs| {
        assert IsLatestOrPast(rows, lo, more, st, i);
      }
    }
  }

  /** A row that starts nothing is reported after the first chunk that closed the report before it. */
  lemma StartedOnce(rows: seq<Row>, lo: nat, hi: nat, st: State, c: ChunkKey)
    requires Sorted(rows) && lo <= hi < |rows| && ParseChunkKey(rows[hi].key) == Some(c) && c.id !in st.partials
    requires BrokenAreReported(st) && IsUpTo(st, rows[hi].key) && ReportsOnce(rows, lo, hi, st)
    ensures ReportsOnce(rows, lo, hi + 1, Started(st, c, rows[hi].key, rows[hi].value))
  {
    hide CmpBytes, ParseChunkKey, Reported, BrokenAreReported;
    var key := rows[hi].key;
    if c.chunk == 1 && c.total >= 1 {
      RestartedOnce(rows, lo, hi, st, c);
    } else {
      forall i | 0 <= i < |st.outputs| && st.outputs[i].assembled.Broken? && st.outputs[i].assembled.id == c.id
        && c.id !in st.broken
        ensures RestartsWithin(rows, lo, hi, c.id, st.outputs[i].lastKey, Some(key))
      {
        assert IsLatestOrPast(rows, lo, hi, st, i);
        BeforeRow(rows, lo, hi, c.id, st.outputs[i].lastKey);
      }
      ReportedOnce(rows, lo, hi, st, key, c.versionstamp, c.id, key);
      MoreRows(rows, lo, hi, Reported(st, key, c.versionstamp, c.id, key));
    }
  }

  lemma BeforeRow(rows: seq<Row>, lo: nat, hi: nat, id: Id, from: bytes)
    requires Sorted(rows) && hi < |rows| && RestartsWithin(rows, lo, hi, id, from, None)
    ensures RestartsWithin(rows, lo, hi, id, from, Some(rows[hi].key))
  {
    hide CmpBytes, IsRestart;
    var m: nat :| lo <= m < hi && IsRestart(rows, m, id) && Le(from, rows[m].key);
    LtTotal(rows[m].key, rows[hi].key);
  }

  lemma ContinuedOnce(rows: seq<Row>, lo: nat, hi: nat, st: State, c: ChunkKey)
    requires lo <= hi < |rows| && ParseChunkKey(rows[hi].key) == Some(c)
    requires c.id in st.partials && Continues(st.partials[c.id], c)
    requires BrokenAreReported(st) && ReportsOnce(rows, lo, hi, st)
    ensures ReportsOnce(rows, lo, hi + 1, Processed(st, c, rows[hi].key, rows[hi].value))
  {
    hide CmpBytes, ParseChunkKey, Continues, IsRestart;
    var r := Processed(st, c, rows[hi].key, rows[hi].value);
    var more := hi + 1;
    MoreRows(rows, lo, hi, st);
    forall i, k | 0 <= i < k < |r.outputs|
      ensures IsSeparated(rows, lo, more, r.outputs[i], r.outputs[k])
    {
      if k < |st.outputs| {
        assert IsSeparated(rows, lo, more, st.outputs[i], st.outputs[k]);
      }
    }
    forall i | 0 <= i < |r.outputs|
      ensures IsLatestOrPast(rows, lo, more, r, i)
    {
      if i < |st.outputs| {
        assert IsLatestOrPast(rows, lo, more, st, i);
      }
    }
  }

  lemma InterruptedOnce(rows: seq<Row>, lo: nat, hi: nat, st: State, c: ChunkKey)
    requires Sorted(rows) && lo <= hi < |rows| && ParseChunkKey(rows[hi].key) == Some(c)
    requires c.id in st.partials && !Continues(st.partials[c.id], c)
    requires BrokenAreReported(st) && IsUpTo(st, rows[hi].key) && ReportsOnce(rows, lo, hi, st)
    ensures ReportsOnce(rows, lo, hi + 1, Processed(st, c, rows[hi].key, rows[hi].value))
  {
    hide CmpBytes, ParseChunkKey, Continues, IsRestart, Reported, Started, Sorted, IsUpTo;
    var p, key := st.partials[c.id], rows[hi].key;
    var removed := st.(partials := st.partials - {c.id});
    RemovedKeeps(st, c.id, removed);
    RemovedOnce(rows, lo, hi, st, c.id);
    assert c.id !in st.broken;
    forall i | 0 <= i < |st.outputs| && st.outputs[i].assembled.Broken? && st.outputs[i].assembled.id == c.id
      ensures RestartsWithin(rows, lo, hi, c.id, st.outputs[i].lastKey, Some(p.firstKey))
    {
      assert IsLatestOrPast(rows, lo, hi, st, i);
    }
    ReportedOnce(rows, lo, hi, removed, p.firstKey, p.versionstamp, c.id, key);
    ReportedKeeps(removed, p.firstKey, p.versionstamp, c.id, key);
    assert IsUpTo(removed, key) && Le(p.firstKey, key) by { RemovedUpTo(st, c.id, key); }
    ReportedAccounts(removed, p.firstKey, p.versionstamp, c.id, key, c.id, key);
    StartedOnce(rows, lo, hi, Reported(removed, p.firstKey, p.versionstamp, c.id, key), c);
  }

  lemma RemovedUpTo(st: State, id: Id, key: bytes)
    requires IsUpTo(st, key) && id in st.partials
    ensures IsUpTo(st.(partials := st.partials - {id}), key) && Le(st.partials[id].firstKey, key)
  {
  }

  lemma RemovedOnce(rows: seq<Row>, lo: nat, hi: nat, st: State, id: Id)
    requires hi <= |rows| && ReportsOnce(rows, lo, hi, st)
    ensures ReportsOnce(rows, lo, hi, st.(partials := st.partials - {id}))
  {
    hide CmpBytes, IsRestart;
    var removed := st.(partials := st.partials - {id});
    forall i | 0 <= i < |st.outputs|
      ensures IsLatestOrPast(rows, lo, hi, removed, i)
    {
      assert IsLatestOrPast(rows, lo, hi, st, i);
    }
  }

  lemma PushedOnce(rows: seq<Row>, lo: nat, hi: nat, st: State)
    requires Sorted(rows) && lo <= hi < |rows|
    requires BrokenAreReported(st) && IsUpTo(st, rows[hi].key) && ReportsOnce(rows, lo, hi, st)
    ensures ReportsOnce(rows, lo, hi + 1, Pushed(st, rows[hi]))
  {
    hide CmpBytes, ParseChunkKey, Continues, Processed, Sorted, AreSeparated, RestartsWithin;
    var row := rows[hi];
    var st' := st.(lastKey := Some(row.key));
    SameButLast(rows, lo, hi, st, st');
    match ParseChunkKey(row.key)
    case None =>
      MoreRows(rows, lo, hi, st');
    case Some(c) =>
      if c.id in st.partials {
        if Continues(st.partials[c.id], c) {
          ContinuedOnce(rows, lo, hi, st', c);
        } else {
          InterruptedOnce(rows, lo, hi, st', c);
        }
      } else {
        StartsAfresh(st', c, row);
        StartedOnce(rows, lo, hi, st', c);
      }
  }

  lemma SameButLast(rows: seq<Row>, lo: nat, hi: nat, st: State, st': State)
    requires hi <= |rows| && ReportsOnce(rows, lo, hi, st) && st' == st.(lastKey := st'.lastKey)
    ensures ReportsOnce(rows, lo, hi, st')
  {
    hide RestartsWithin;
    forall i | 0 <= i < |st.outputs|
      ensures IsLatestOrPast(rows, lo, hi, st', i)
    {
      assert IsLatestOrPast(rows, lo, hi, st, i);
    }
  }

  /** Over rows in key order, an id is reported as broken at most once between two of its first chunks. */
  lemma {:induction false} BrokenOncePerRestart(rows: seq<Row>, lo: nat, hi: nat)
    requires Sorted(rows) && lo <= hi <= |rows|
    ensures ReportsOnce(rows, lo, hi, Fed(rows, lo, hi))
  {
    hide CmpBytes, ParseChunkKey, Pushed, ReportsOnce, BrokenAreReported, CompletesOf, CompletesIn, PendingOf,
      IsAccounted, IsUpTo;
    if lo == hi {
      NothingReported(rows, lo);
    } else {
      BrokenOncePerRestart(rows, lo, hi - 1);
      AssemblerComputesRuns(rows, lo, hi - 1);
      RowsAreAccounted(rows, lo, hi - 1);
      UpToNext(rows, lo, hi, Fed(rows, lo, hi - 1));
      PushedOnce(rows, lo, hi - 1, Fed(rows, lo, hi - 1));
    }
  }

  lemma NothingReported(rows: seq<Row>, lo: nat)
    requires lo <= |rows|
    ensures ReportsOnce(rows, lo, lo, EMPTY)
  {
  }

  // ---------- how many reports there are ----------

  /** A row that its id cannot use: it does not continue what is pending, or begins nothing when nothing is. */
  predicate Fails(rows: seq<Row>, lo: nat, j: nat, id: Id)
    requires j < |rows|
  {
    && Own(rows, j, id)
    && var pending := PendingOf(rows, lo, j, id);
       if pending.Some? then !Continues(pending.value, ParseChunkKey(rows[j].key).value) else !IsRestart(rows, j, id)
  }

  function BrokenCount(outputs: seq<Output>, id: Id): nat {
    if outputs == [] then 0
    else
      var last := outputs[|outputs| - 1];
      BrokenCount(outputs[..|outputs| - 1], id) + if last.assembled.Broken? && last.assembled.id == id then 1 else 0
  }

  lemma BrokenCountNext(outputs: seq<Output>, o: Output, id: Id)
    ensures BrokenCount(outputs + [o], id)
         == BrokenCount(outputs, id) + if o.assembled.Broken? && o.assembled.id == id then 1 else 0
  {
    assert (outputs + [o])[..|outputs|] == outputs;
  }

  lemma {:induction false} BrokenCountConcat(a: seq<Output>, b: seq<Output>, id: Id)
    ensures BrokenCount(a + b, id) == BrokenCount(a, id) + BrokenCount(b, id)
  {
    if b == [] {
      Empty(a);
    } else {
      var n := |b| - 1;
      Unsnoc(b);
      Assoc(a, b[..n], [b[n]]);
      BrokenCountConcat(a, b[..n], id);
      BrokenCountNext(a + b[..n], b[n], id);
    }
  }

  lemma {:induction false} BrokenCountReplaced(outputs: seq<Output>, i: nat, o: Output, id: Id)
    requires i < |outputs| && o.assembled == outputs[i].assembled
    ensures BrokenCount(outputs[i := o], id) == BrokenCount(outputs, id)
  {
    var n := |outputs| - 1;
    if i < n {
      assert outputs[i := o][..n] == outputs[..n][i := o];
      BrokenCountReplaced(outputs[..n], i, o, id);
    } else {
      assert outputs[i := o][..n] == outputs[..n];
    }
  }

  lemma ReportedCounts(st: State, firstKey: bytes, stamp: Versionstamp, of: Id, key: bytes, id: Id)
    requires BrokenAreReported(st)
    ensures var r := Reported(st, firstKey, stamp, of, key);
            && (id in r.broken <==> id in st.broken || id == of)
            && BrokenCount(r.outputs, id) == BrokenCount(st.outputs, id) + if id == of && id !in st.broken then 1 else 0
  {
    hide BrokenCount;
    if of in st.broken {
      var i := st.broken[of];
      BrokenCountReplaced(st.outputs, i, st.outputs[i].(lastKey := key), id);
    } else {
      BrokenCountNext(st.outputs, Output(firstKey, key, Broken(stamp, of)), id);
    }
  }

  lemma StartedCounts(st: State, c: ChunkKey, key: bytes, value: bytes, id: Id)
    requires BrokenAreReported(st)
    ensures var r := Started(st, c, key, value);
            var restarts := c.chunk == 1 && c.total >= 1;
            && (id in r.broken <==> if id == c.id then !restarts else id in st.broken)
            && BrokenCount(r.outputs, id)
            == BrokenCount(st.outputs, id) + if id == c.id && !restarts && id !in st.broken then 1 else 0
  {
    hide BrokenCount, Reported;
    if c.chunk == 1 && c.total >= 1 {
      BrokenCountNext(st.outputs, Output(key, key, Complete(c.versionstamp, c.id, value)), id);
    } else {
      ReportedCounts(st, key, c.versionstamp, c.id, key, id);
    }
  }

  lemma ContinuedCounts(st: State, c: ChunkKey, key: bytes, value: bytes, id: Id)
    requires c.id in st.partials && Continues(st.partials[c.id], c)
    ensures var r := Processed(st, c, key, value);
            r.broken == st.broken && BrokenCount(r.outputs, id) == BrokenCount(st.outputs, id)
  {
    hide BrokenCount, Continues;
    var p := st.partials[c.id];
    BrokenCountNext(st.outputs, Output(p.firstKey, key, Complete(p.versionstamp, c.id, p.blob + value)), id);
  }

  lemma InterruptedCounts(st: State, c: ChunkKey, key: bytes, value: bytes, id: Id)
    requires BrokenAreReported(st) && c.id in st.partials && !Continues(st.partials[c.id], c)
    ensures var r := Processed(st, c, key, value);
            && (id in r.broken <==> if id == c.id then !(c.chunk == 1 && c.total >= 1) else id in st.broken)
            && BrokenCount(r.outputs, id) == BrokenCount(st.outputs, id) + if id == c.id then 1 else 0
  {
    hide BrokenCount, Continues, Reported, Started, BrokenAreReported;
    var p := st.partials[c.id];
    var removed := st.(partials := st.partials - {c.id});
    RemovedKeeps(st, c.id, removed);
    assert c.id !in st.broken by { PendingIsNotBroken(st, c.id); }
    ReportedCounts(removed, p.firstKey, p.versionstamp, c.id, key, id);
    ReportedKeeps(removed, p.firstKey, p.versionstamp, c.id, key);
    StartedCounts(Reported(removed, p.firstKey, p.versionstamp, c.id, key), c, key, value, id);
  }

  lemma PendingIsNotBroken(st: State, id: Id)
    requires BrokenAreReported(st) && id in st.partials
    ensures id !in st.broken
  {
  }

  /** What one row does to the reports of an id. */
  lemma PushedCounts(rows: seq<Row>, lo: nat, hi: nat, st: State, id: Id)
    requires lo <= hi < |rows| && Describes(rows, lo, hi, st)
    ensures var r := Pushed(st, rows[hi]);
            && (id in r.broken <==> (id in st.broken || Fails(rows, lo, hi, id)) && !IsRestart(rows, hi, id))
            && BrokenCount(r.outputs, id)
            == BrokenCount(st.outputs, id) + if Fails(rows, lo, hi, id) && id !in st.broken then 1 else 0
  {
    hide BrokenCount, Continues, Processed, ParseChunkKey, PendingOf, CompletesIn, CompletesOf, BrokenAreReported;
    var row := rows[hi];
    var parsed := ParseChunkKey(row.key);
    if parsed.Some? {
      var c := parsed.value;
      var st' := st.(lastKey := Some(row.key));
      SameButLastKey(st, st');
      if c.id in st.partials {
        PendingIsNotBroken(st, c.id);
        if Continues(st.partials[c.id], c) {
          ContinuedCounts(st', c, row.key, row.value, id);
          ContinuesNothingFirst(rows, lo, hi, c);
        } else {
          InterruptedCounts(st', c, row.key, row.value, id);
        }
      } else {
        StartsAfresh(st', c, row);
        StartedCounts(st', c, row.key, row.value, id);
      }
    }
  }

  lemma SameButLastKey(st: State, st': State)
    requires BrokenAreReported(st) && st' == st.(lastKey := st'.lastKey)
    ensures BrokenAreReported(st')
  {
  }

  lemma ContinuesNothingFirst(rows: seq<Row>, lo: nat, hi: nat, c: ChunkKey)
    requires hi <= |rows| && PendingOf(rows, lo, hi, c.id).Some? && Continues(PendingOf(rows, lo, hi, c.id).value, c)
    ensures c.chunk != 1
  {
    hide CmpBytes, ParseChunkKey;
  }

  ghost predicate SomeFails(rows: seq<Row>, lo: nat, hi: nat, id: Id)
    requires hi <= |rows|
  {
    exists a: nat :: lo <= a < hi && Fails(rows, lo, a, id)
  }

  /** A row fails after a first chunk that came after, or with, a row that fails. */
  ghost predicate FailsAgain(rows: seq<Row>, lo: nat, hi: nat, id: Id)
    requires hi <= |rows|
  {
    exists a: nat, m: nat, b: nat ::
      lo <= a <= m < b < hi && Fails(rows, lo, a, id) && IsRestart(rows, m, id) && Fails(rows, lo, b, id)
  }

  /** A row failed and no first chunk came with it or after it. */
  ghost predicate IsOpen(rows: seq<Row>, lo: nat, hi: nat, id: Id)
    requires hi <= |rows|
  {
    exists a: nat :: lo <= a < hi && Fails(rows, lo, a, id) && NoRestart(rows, a, hi, id)
  }

  ghost predicate NoRestart(rows: seq<Row>, a: nat, hi: nat, id: Id)
    requires hi <= |rows|
  {
    forall m: nat :: a <= m < hi ==> !IsRestart(rows, m, id)
  }

  /** An id is reported at most once exactly when no row of it fails again. */
  lemma {:induction false} ReportsCounted(rows: seq<Row>, lo: nat, hi: nat, id: Id)
    requires lo <= hi <= |rows|
    ensures var st := Fed(rows, lo, hi);
            && (id in st.broken <==> IsOpen(rows, lo, hi, id))
            && (BrokenCount(st.outputs, id) == 0 <==> !SomeFails(rows, lo, hi, id))
            && (BrokenCount(st.outputs, id) <= 1 <==> !FailsAgain(rows, lo, hi, id))
  {
    hide BrokenCount, Fails, IsRestart, Pushed, Describes;
    if lo == hi {
      NothingBroken(id);
    } else {
      ReportsCounted(rows, lo, hi - 1, id);
      AssemblerComputesRuns(rows, lo, hi - 1);
      PushedCounts(rows, lo, hi - 1, Fed(rows, lo, hi - 1), id);
      OpenNext(rows, lo, hi - 1, id);
      FailsNext(rows, lo, hi - 1, id);
    }
  }

  lemma OpenNext(rows: seq<Row>, lo: nat, hi: nat, id: Id)
    requires lo <= hi < |rows|
    ensures IsOpen(rows, lo, hi + 1, id)
       <==> (IsOpen(rows, lo, hi, id) || Fails(rows, lo, hi, id)) && !IsRestart(rows, hi, id)
  {
    hide Fails, IsRestart;
    if a: nat :| lo <= a < hi + 1 && Fails(rows, lo, a, id) && NoRestart(rows, a, hi + 1, id) {
      assert NoRestart(rows, a, hi, id);
    }
    if !IsRestart(rows, hi, id) {
      if a: nat :| lo <= a < hi && Fails(rows, lo, a, id) && NoRestart(rows, a, hi, id) {
        assert NoRestart(rows, a, hi + 1, id);
      }
      if Fails(rows, lo, hi, id) {
        assert NoRestart(rows, hi, hi + 1, id);
      }
    }
  }

  lemma FailsNext(rows: seq<Row>, lo: nat, hi: nat, id: Id)
    requires lo <= hi < |rows|
    ensures SomeFails(rows, lo, hi + 1, id) <==> SomeFails(rows, lo, hi, id) || Fails(rows, lo, hi, id)
    ensures FailsAgain(rows, lo, hi + 1, id)
       <==> FailsAgain(rows, lo, hi, id)
            || (Fails(rows, lo, hi, id) && SomeFails(rows, lo, hi, id) && !IsOpen(rows, lo, hi, id))
  {
    hide Fails, IsRestart;
    if a: nat, m: nat, b: nat :|
      lo <= a <= m < b < hi + 1 && Fails(rows, lo, a, id) && IsRestart(rows, m, id) && Fails(rows, lo, b, id)
    {
      if b == hi && IsOpen(rows, lo, hi, id) {
        var o: nat :| lo <= o < hi && Fails(rows, lo, o, id) && NoRestart(rows, o, hi, id);
        assert o > m;
        assert FailsAgain(rows, lo, hi, id);
      }
    }
    if Fails(rows, lo, hi, id) && SomeFails(rows, lo, hi, id) && !IsOpen(rows, lo, hi, id) {
      var a: nat :| lo <= a < hi && Fails(rows, lo, a, id);
      assert !NoRestart(rows, a, hi, id);
      var m: nat :| a <= m < hi && IsRestart(rows, m, id);
      assert FailsAgain(rows, lo, hi + 1, id);
    }
  }

  // ---------- the reports of a page ----------

  lemma {:induction false} BrokenCountOfReports(pending: seq<Partial>, id: Id)
    requires forall i, j :: 0 <= i < j < |pending| ==> pending[i].id != pending[j].id
    ensures BrokenCount(BrokenReports(pending), id)
         == if exists i :: 0 <= i < |pending| && pending[i].id == id then 1 else 0
  {
    hide BrokenCount;
    if pending == [] {
      NothingBroken(id);
    } else {
      var n := |pending| - 1;
      var last := pending[n];
      BrokenCountOfReports(pending[..n], id);
      BrokenCountNext(BrokenReports(pending[..n]),
                      Output(last.firstKey, last.firstKey, Broken(last.versionstamp, last.id)), id);
      if i :| 0 <= i < |pending| && pending[i].id == id {
        assert i < n ==> pending[..n][i].id == id;
      }
    }
  }

  lemma NothingBroken(id: Id)
    ensures BrokenCount([], id) == 0
  {
  }

  /** The skips of a page that say an id was broken. */
  function BrokenSkips(skipped: seq<Skipped>, id: Id): nat {
    if skipped == [] then 0
    else
      var last := skipped[|skipped| - 1];
      BrokenSkips(skipped[..|skipped| - 1], id) + if last.id == id && last.reason.BrokenChunks? then 1 else 0
  }

  lemma SkipsOfOne(before: seq<Skipped>, o: Output, id: Id)
    ensures BrokenSkips(before + SkipsOf(o), id)
         == BrokenSkips(before, id) + if o.assembled.Broken? && o.assembled.id == id then 1 else 0
  {
    hide Decoded;
    var more := SkipsOf(o);
    if more == [] {
      Empty(before);
    } else {
      assert (before + more)[..|before|] == before;
    }
  }

  lemma {:induction false} SkipsAreBrokenOutcomes(kept: seq<Output>, next: bytes, exhausted: bool, id: Id)
    ensures BrokenSkips(PageOf(kept, next, exhausted).skipped, id) == BrokenCount(kept, id)
  {
    hide BrokenSkips, SkipsOf, TransactionsOf;
    if kept == [] {
      NoSkips(id);
    } else {
      var n := |kept| - 1;
      SkipsAreBrokenOutcomes(kept[..n], next, exhausted, id);
      SkipsOfOne(PageOf(kept[..n], next, exhausted).skipped, kept[n], id);
    }
  }

  lemma NoSkips(id: Id)
    ensures BrokenSkips([], id) == 0
  {
  }

  lemma PendingHasId(rows: seq<Row>, lo: nat, hi: nat, pending: seq<Partial>, id: Id)
    requires lo <= hi <= |rows| && IsPending(pending, Fed(rows, lo, hi).partials)
    ensures PendingOf(rows, lo, hi, id).Some? <==> exists i :: 0 <= i < |pending| && pending[i].id == id
  {
    hide Fed, CmpBytes, RunAt, ParseChunkKey, CompletesIn, CompletesOf, BrokenAreReported;
    AssemblerComputesRuns(rows, lo, hi);
    if PendingOf(rows, lo, hi, id).Some? {
      var i := IndexOf(pending, Fed(rows, lo, hi).partials[id]);
      assert pending[i].id == id;
    }
  }

  /**
   A page reports an id as broken at most once exactly when no row of the id that it leaves behind fails again, and it
   is not stuck with something pending of the id after a row of it failed. The rows, the start of the page and the
   decision to stop say where it resumes and whether it is stuck.
   */
  lemma ReportedOncePerPageWhen(rows: seq<Row>, p: PageRun, id: Id)
    requires Sorted(rows) && IsPageRun(rows, p)
    ensures var lo, at := LowerBound(rows, p.start), ResumeRow(rows, p.start, p.hi, p.stopped);
            && lo <= at <= p.hi
            && (BrokenSkips(PageOf(p.kept, p.next, !p.stopped).skipped, id) <= 1
                <==> && !FailsAgain(rows, lo, at, id)
                     && (IsStuck(rows, p.start, p.hi, p.stopped) && PendingOf(rows, lo, p.hi, id).Some? ==>
                           !SomeFails(rows, lo, at, id)))
  {
    hide Fed, CmpBytes, Sorted, LowerBound, FailsAgain, SomeFails, PageOf, BrokenSkips, BrokenCount, BreaksPending,
      BrokenReports, PendingOf, Finishes, IsOpen, ResumeRow, IsStuck;
    var lo, at := LowerBound(rows, p.start), LowerBound(rows, p.next);
    PageResumes(rows, p);
    SkipsAreBrokenOutcomes(p.kept, p.next, !p.stopped, id);
    PageKeepsOnePass(rows, p);
    ReportsCounted(rows, lo, at, id);
    if BreaksPending(rows, p) {
      var pending :| KeepsReportsOf(rows, p, pending);
      BrokenCountConcat(Fed(rows, lo, p.hi).outputs, BrokenReports(pending), id);
      BrokenCountOfReports(pending, id);
      PendingHasId(rows, lo, p.hi, pending, id);
    }
  }

  // ---------- not once a page ----------

  lemma KeysInOrder(a: ChunkKey, b: ChunkKey)
    requires IsWritable(a) && IsWritable(b) && Lt(a.versionstamp, b.versionstamp)
    ensures Lt(ChunkKeyOf(a), ChunkKeyOf(b))
  {
    hide CmpBytes, BigEndian;
    CmpPrepend(PROFILE_PREFIX, a.versionstamp + AfterStamp(a), b.versionstamp + AfterStamp(b));
    CmpSameLength(a.versionstamp, b.versionstamp, AfterStamp(a), AfterStamp(b));
  }

  /** A chunk without its first one, a first chunk, and a chunk that does not follow it. */
  function ThreeRows(s: Versionstamp, t: Versionstamp, u: Versionstamp, id: Id, value: bytes): seq<Row> {
    [Row(ChunkKeyOf(ChunkKey(s, id, 2, 2)), value),
     Row(ChunkKeyOf(ChunkKey(t, id, 1, 2)), value),
     Row(ChunkKeyOf(ChunkKey(u, id, 3, 3)), value)]
  }

  lemma ThreeRowsFed(s: Versionstamp, t: Versionstamp, u: Versionstamp, id: Id, value: bytes)
    requires Lt(s, t) && Lt(t, u)
    ensures var rows := ThreeRows(s, t, u, id, value);
            && Sorted(rows) && Fed(rows, 0, 3).partials == map[]
            && Fed(rows, 0, 3).outputs == [Output(rows[0].key, rows[0].key, Broken(s, id)),
                                           Output(rows[1].key, rows[2].key, Broken(t, id))]
  {
    hide CmpBytes, ParseChunkKey, ChunkKeyOf, Continues, Fed;
    var a, b, c := ChunkKey(s, id, 2, 2), ChunkKey(t, id, 1, 2), ChunkKey(u, id, 3, 3);
    var rows := ThreeRows(s, t, u, id, value);
    ParseInverts(a);
    ParseInverts(b);
    ParseInverts(c);
    KeysInOrder(a, b);
    KeysInOrder(b, c);
    LtTransitive(s, t, u);
    KeysInOrder(a, c);
    var p := Partial(rows[1].key, id, t, t, 2, 2, value);
    var first, second := Fed(rows, 0, 1), Fed(rows, 0, 2);
    FedOnce(rows, 0);
    assert first.outputs == [Output(rows[0].key, rows[0].key, Broken(s, id))] && first.partials == map[];
    FedOnce(rows, 1);
    assert second.partials == map[][id := p] && id !in second.broken && second.outputs == first.outputs;
    assert !Continues(p, c) by { TotalsDiffer(p, c); }
    FedOnce(rows, 2);
    assert forall x :: x !in Fed(rows, 0, 3).partials;
  }

  /** Any page that reads these three rows, and no others, skips the id twice. */
  lemma ReportedTwice(s: Versionstamp, t: Versionstamp, u: Versionstamp, id: Id, value: bytes, p: PageRun)
    requires Lt(s, t) && Lt(t, u)
    requires var rows := ThreeRows(s, t, u, id, value);
             IsPageRun(rows, p) && LowerBound(rows, p.start) == 0 && p.hi == 3
    ensures PageOf(p.kept, p.next, !p.stopped).skipped
         == [Skipped(s, id, BrokenChunks), Skipped(t, id, BrokenChunks)]
  {
    hide CmpBytes, ThreeRows, LowerBound, Fed, Sorted, PageOf;
    var rows := ThreeRows(s, t, u, id, value);
    ThreeRowsFed(s, t, u, id, value);
    NothingToBreak(rows, p);
    SkipsOfTwo(p.kept[0], p.kept[1], p.next, !p.stopped);
  }

  lemma SkipsOfTwo(o: Output, q: Output, next: bytes, exhausted: bool)
    requires o.assembled.Broken? && q.assembled.Broken?
    ensures PageOf([o, q], next, exhausted).skipped == SkipsOf(o) + SkipsOf(q)
  {
    PageOfNext([], o, next, exhausted);
    PageOfNext([o], q, next, exhausted);
    assert [] + [o] == [o] && [o] + [q] == [o, q];
    Empty(SkipsOf(o));
  }

  lemma NothingToBreak(rows: seq<Row>, p: PageRun)
    requires IsPageRun(rows, p) && Fed(rows, LowerBound(rows, p.start), p.hi).partials == map[]
    ensures p.kept == Fed(rows, LowerBound(rows, p.start), p.hi).outputs
  {
    hide CmpBytes, LowerBound, Fed, IsCut, IsFirstKeyOr, EndingBefore, BrokenReports;
    var st := Fed(rows, LowerBound(rows, p.start), p.hi);
    var pending: seq<Partial> :| FinishesWith(st, p.start, p.stopped, pending, p.kept, p.next);
    if pending != [] {
      SomePartials(pending, st.partials);
    }
  }

  lemma FedOnce(rows: seq<Row>, i: nat)
    requires i < |rows|
    ensures Fed(rows, 0, i + 1) == Pushed(if i == 0 then EMPTY else Fed(rows, 0, i), rows[i])
  {
    hide Pushed;
  }

  lemma TotalsDiffer(p: Partial, c: ChunkKey)
    requires p.total != c.total
    ensures !Continues(p, c)
  {
  }
}
