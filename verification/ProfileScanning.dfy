/** One page: the rows a caller read from the range of a cursor, checked and fed to an assembler until it says stop. */
module ProfileScanning {
  import opened ByteStrings
  import opened ProfileAssembly
  import opened ProfileKeys
  import opened ProfilePages
  import opened ProfileRuns
  import opened Wrappers

  datatype ScanError<+E> = Source(error: E) | InvalidRows(key: bytes)

  /** A row inside the range and after the one before it. */
  predicate IsAcceptable(range: ScanRange, rows: seq<Row>, i: nat)
    requires i < |rows|
  {
    range.Contains(rows[i].key) && (i > 0 ==> Lt(rows[i - 1].key, rows[i].key))
  }

  /** What a page is, given how many rows it read and the outcomes it kept. */
  ghost predicate IsPage(cursor: Cursor, rows: seq<Row>, read: nat, kept: seq<Output>, page: Page)
    requires read <= |rows|
  {
    && Finishes(Fed(rows, 0, read), cursor.key, !page.exhausted, kept, page.next.key)
    && page == PageOf(kept, page.next.key, page.exhausted)
  }

  /**
   The stream of rows is `rows`, then its error if `failure` has one, else its end. `stops(n)` is what the caller's
   check answers after the row number `n`, from 1. Besides the page, the number of rows that were read.
   */
  method ReadPage<E>(scanner: ProfileScanner, cursor: Cursor, rows: seq<Row>, failure: Option<E>, stops: nat -> bool)
    returns (r: Result<Page, ScanError<E>>, read: nat)
    ensures read <= |rows| && (forall i :: 0 <= i < read ==> IsAcceptable(scanner.Range(cursor), rows, i))
    ensures forall n :: 1 <= n < read ==> !stops(n)
    ensures read > 0 ==> (stops(read) <==> r.Ok? && !r.value.exhausted)
    ensures r.Ok? ==>
              && (exists kept :: IsPage(cursor, rows, read, kept, r.value))
              && (if r.value.exhausted then read == |rows| && failure.None? else read > 0)
    ensures r.Err? && r.error.Source? ==> read == |rows| && failure == Some(r.error.error)
    ensures r.Err? && r.error.InvalidRows? ==>
              && read < |rows| && rows[read].key == r.error.key
              && !IsAcceptable(scanner.Range(cursor), rows, read)
  {
    hide Finishes, PageOf, Pushed, Le, Lt, Fed, IsAcceptable, ProfileScanner.Range;
    var range := scanner.Range(cursor);
    var assembler := new Assembler(cursor);
    assert assembler.Snapshot() == Fed(rows, 0, 0) by {
      NothingFed(rows);
    }
    var i := 0;
    while i < |rows|
      invariant i <= |rows| && assembler.start == cursor && assembler.Snapshot() == Fed(rows, 0, i)
      invariant forall k :: 0 <= k < i ==> IsAcceptable(range, rows, k)
      invariant forall n :: 1 <= n <= i ==> !stops(n)
    {
      var key := rows[i].key;
      var inOrder := assembler.lastKey.None? || Lt(assembler.lastKey.value, key);
      Checked(range, rows, i, inOrder);
      if Lt(key, range.begin) || Le(range.end, key) || !inOrder {
        return Err(InvalidRows(key)), i;
      }
      FedNext(rows, i);
      assembler.Push(rows[i]);
      i := i + 1;
      if stops(i) {
        PendingAreOwn(rows, i);
        var page, kept := assembler.Finish(true);
        assert page.exhausted == false by { Exhausted(kept, page.next.key, false); }
        assert IsPage(cursor, rows, i, kept, page);
        return Ok(page), i;
      }
    }
    if failure.Some? {
      return Err(Source(failure.value)), |rows|;
    }
    PendingAreOwn(rows, |rows|);
    var page, kept := assembler.Finish(false);
    assert page.exhausted by { Exhausted(kept, page.next.key, true); }
    assert IsPage(cursor, rows, |rows|, kept, page);
    return Ok(page), |rows|;
  }

  lemma Checked(range: ScanRange, rows: seq<Row>, i: nat, inOrder: bool)
    requires i < |rows|
    requires var last := Fed(rows, 0, i).lastKey; inOrder <==> last.None? || Lt(last.value, rows[i].key)
    ensures IsAcceptable(range, rows, i)
       <==> !(Lt(rows[i].key, range.begin) || Le(range.end, rows[i].key) || !inOrder)
  {
    hide CmpBytes, Fed;
    PendingAreOwn(rows, i);
    LtTotal(range.begin, rows[i].key);
    LtTotal(range.end, rows[i].key);
  }

  lemma NothingFed(rows: seq<Row>)
    ensures Fed(rows, 0, 0) == EMPTY
  {
  }

  lemma FedNext(rows: seq<Row>, i: nat)
    requires i < |rows|
    ensures Fed(rows, 0, i + 1) == Pushed(Fed(rows, 0, i), rows[i])
  {
    hide Pushed;
  }

  lemma PendingAreOwn(rows: seq<Row>, n: nat)
    requires n <= |rows|
    ensures var st := Fed(rows, 0, n);
            && (forall id :: id in st.partials ==> st.partials[id].id == id)
            && st.lastKey == if n == 0 then None else Some(rows[n - 1].key)
  {
    hide Fed, ParseChunkKey, RunAt;
    AssemblerComputesRuns(rows, 0, n);
  }

  lemma {:induction false} Exhausted(kept: seq<Output>, next: bytes, exhausted: bool)
    ensures PageOf(kept, next, exhausted).exhausted == exhausted
  {
    if kept != [] {
      Exhausted(kept[..|kept| - 1], next, exhausted);
    }
  }
}
