/** What a page and a scan hand to their caller, said of the rows: the records they held, decoded, and the skips. */
module ProfileReturns {
  import opened ByteStrings
  import opened Digits
  import opened ProfileAssembly
  import opened ProfileDecoding
  import opened ProfileKeys
  import opened ProfilePages
  import opened ProfilePaging
  import opened ProfileResuming
  import opened ProfileRoundTrip
  import opened ProfileRuns
  import opened ProfileScans
  import opened ProfileWire
  import opened Sequences
  import opened Wrappers

  /** The commit version of a stamp: its first eight bytes, big-endian and in two's complement. */
  ghost predicate IsCommitVersion(version: int, stamp: Versionstamp) {
    && -0x8000_0000_0000_0000 <= version < 0x8000_0000_0000_0000
    && stamp[..8] == BigEndian(if version < 0 then version + 0x1_0000_0000_0000_0000 else version, 8)
  }

  predicate Decodes(o: Output) {
    o.assembled.Complete? && Decoded(o.assembled.blob).Ok?
  }

  /** A transaction is that of an outcome whose blob decodes. */
  ghost predicate Returns(o: Output, t: ProfiledTransaction) {
    && o.assembled.Complete? && Decoded(o.assembled.blob) == Ok((t.protocolVersion, t.events))
    && t.versionstamp == o.assembled.versionstamp && t.id == o.assembled.id
    && IsCommitVersion(t.version, o.assembled.versionstamp)
  }

  /** A skip is that of any other outcome, with the reason. */
  ghost predicate Reports(o: Output, s: Skipped) {
    && s.versionstamp == o.assembled.versionstamp && s.id == o.assembled.id
    && match o.assembled
       case Complete(_, _, blob) => s.reason.DecodeFailed? && Decoded(blob) == Err(s.reason.error)
       case Broken(_, _) => s.reason == BrokenChunks
  }

  ghost predicate AreInOrder(at: seq<nat>, n: nat) {
    && (forall k :: 0 <= k < |at| ==> at[k] < n)
    && (forall k, l :: 0 <= k < l < |at| ==> at[k] < at[l])
  }

  /** There is one transaction for each outcome that decodes, in their order; `at` says which outcome. */
  ghost predicate AreReturned(outputs: seq<Output>, transactions: seq<ProfiledTransaction>, at: seq<nat>) {
    && |at| == |transactions| && AreInOrder(at, |outputs|)
    && (forall i: nat :: i in at <==> i < |outputs| && Decodes(outputs[i]))
    && (forall k :: 0 <= k < |at| ==> Returns(outputs[at[k]], transactions[k]))
  }

  /** And one skip for each of the others. */
  ghost predicate AreReported(outputs: seq<Output>, skipped: seq<Skipped>, at: seq<nat>) {
    && |at| == |skipped| && AreInOrder(at, |outputs|)
    && (forall i: nat :: i in at <==> i < |outputs| && !Decodes(outputs[i]))
    && (forall k :: 0 <= k < |at| ==> Reports(outputs[at[k]], skipped[k]))
  }

  lemma VersionIsCommitVersion(stamp: Versionstamp)
    ensures IsCommitVersion(AsSigned(VersionOf(stamp), 8), stamp)
  {
    hide BigEndian, Value;
    PowersOfWidths();
    ValueBound(stamp[..8]);
    BigEndianOfValue(stamp[..8]);
  }

  lemma InOrderNext(at: seq<nat>, n: nat)
    requires AreInOrder(at, n)
    ensures AreInOrder(at, n + 1) && AreInOrder(at + [n], n + 1)
  {
  }

  /** One outcome more is one transaction more if it decodes. */
  lemma ReturnedNext(
    outputs: seq<Output>, o: Output, transactions: seq<ProfiledTransaction>, at: seq<nat>
  )
    requires AreReturned(outputs, transactions, at)
    ensures if Decodes(o) then
              forall t :: Returns(o, t) ==> AreReturned(outputs + [o], transactions + [t], at + [|outputs|])
            else
              AreReturned(outputs + [o], transactions, at)
  {
    hide Decodes, Returns;
    InOrderNext(at, |outputs|);
  }

  lemma ReportedNext(outputs: seq<Output>, o: Output, skipped: seq<Skipped>, at: seq<nat>)
    requires AreReported(outputs, skipped, at)
    ensures if !Decodes(o) then
              forall s :: Reports(o, s) ==> AreReported(outputs + [o], skipped + [s], at + [|outputs|])
            else
              AreReported(outputs + [o], skipped, at)
  {
    hide Decodes, Reports;
    InOrderNext(at, |outputs|);
  }

  /** A page has one transaction or one skip for each outcome that it keeps, in their order. */
  lemma {:induction false} PageReturnsKept(kept: seq<Output>, next: bytes, exhausted: bool)
    returns (returned: seq<nat>, reported: seq<nat>)
    ensures var page := PageOf(kept, next, exhausted);
            && AreReturned(kept, page.transactions, returned) && AreReported(kept, page.skipped, reported)
            && page.next == Cursor(next) && page.exhausted == exhausted
  {
    hide AreReturned, AreReported, Decoded, AsSigned;
    if kept == [] {
      returned, reported := [], [];
      NothingReturned();
    } else {
      var n := |kept| - 1;
      var o := kept[n];
      returned, reported := PageReturnsKept(kept[..n], next, exhausted);
      var page := PageOf(kept[..n], next, exhausted);
      ReturnedNext(kept[..n], o, page.transactions, returned);
      ReportedNext(kept[..n], o, page.skipped, reported);
      VersionIsCommitVersion(o.assembled.versionstamp);
      Unsnoc(kept);
      Empty(page.transactions);
      Empty(page.skipped);
      if Decodes(o) {
        returned := returned + [n];
      } else {
        reported := reported + [n];
      }
    }
  }

  lemma NothingReturned()
    ensures AreReturned([], [], []) && AreReported([], [], [])
  {
  }

  // ---------- records ----------

  /** Rows of an id, numbered to their total, which hold the blob of some events. */
  ghost predicate IsRecord(rows: seq<Row>, numbered: seq<nat>, version: u64, ws: seq<WireEvent>) {
    && IsNumbered(rows, numbered) && |numbered| == ChunkOf(rows, numbered[0]).value.total
    && IsVersion(version) && (forall i :: 0 <= i < |ws| ==> ValidEvent(ws[i], version))
    && Joined(rows, numbered) == EncodeBlob(version, ws)
  }

  /** The transaction that a record is returned as. */
  ghost predicate IsTransactionOf(
    rows: seq<Row>, numbered: seq<nat>, version: u64, ws: seq<WireEvent>, t: ProfiledTransaction
  )
    requires IsNumbered(rows, numbered)
  {
    var first := ChunkOf(rows, numbered[0]).value;
    && t.versionstamp == first.versionstamp && t.id == first.id && IsCommitVersion(t.version, first.versionstamp)
    && t.protocolVersion == version && t.events == EventsOf(ws)
  }

  lemma RecordDecodes(rows: seq<Row>, numbered: seq<nat>, version: u64, ws: seq<WireEvent>)
    requires IsRecord(rows, numbered, version, ws)
    ensures var o := OutcomeOver(rows, numbered);
            Decodes(o) && Decoded(o.assembled.blob) == Ok((version, EventsOf(ws)))
  {
    hide Decoded, EncodeBlob, EventsOf, ValidEvent, Joined, ParseChunkKey, IsPrevious;
    BlobRoundTrip(version, ws);
  }

  /** The transaction at the place of a record's outcome is that of the record. */
  lemma RecordIsReturned(
    rows: seq<Row>, numbered: seq<nat>, version: u64, ws: seq<WireEvent>, outputs: seq<Output>,
    transactions: seq<ProfiledTransaction>, at: seq<nat>, i: nat
  )
    returns (k: nat)
    requires IsRecord(rows, numbered, version, ws) && AreReturned(outputs, transactions, at)
    requires i < |outputs| && outputs[i] == OutcomeOver(rows, numbered)
    ensures k < |transactions| && at[k] == i && IsTransactionOf(rows, numbered, version, ws, transactions[k])
    ensures forall l :: 0 <= l < |at| && at[l] == i ==> l == k
  {
    hide Decoded, Decodes, EventsOf, IsRecord, IsNumbered, Joined, ParseChunkKey, IsCommitVersion;
    RecordDecodes(rows, numbered, version, ws);
    RecordIsNumbered(rows, numbered, version, ws);
    assert i in at;
    k := IndexOf(at, i);
    assert Returns(outputs[at[k]], transactions[k]);
  }

  lemma RecordIsNumbered(rows: seq<Row>, numbered: seq<nat>, version: u64, ws: seq<WireEvent>)
    requires IsRecord(rows, numbered, version, ws)
    ensures IsNumbered(rows, numbered) && numbered != [] && AreChunks(rows, numbered)
  {
    hide Joined, ParseChunkKey, EncodeBlob;
  }

  lemma {:induction false} OutputsOfCompletes(outputs: seq<Output>, o: Output)
    requires o in outputs && o.assembled.Complete?
    ensures o in CompletesOf(outputs)
  {
    var n := |outputs| - 1;
    if o != outputs[n] {
      Unsnoc(outputs);
      OutputsOfCompletes(outputs[..n], o);
    }
  }

  /** A whole record inside some rows is a complete outcome of them. */
  lemma RecordIsComplete(rows: seq<Row>, lo: nat, hi: nat, numbered: seq<nat>, version: u64, ws: seq<WireEvent>)
    requires Sorted(rows) && lo <= hi <= |rows| && IsRecord(rows, numbered, version, ws)
    requires lo <= numbered[0] && numbered[|numbered| - 1] < hi
    ensures OutcomeOver(rows, numbered) in CompletesIn(rows, lo, hi)
  {
    hide Fed, CompletesOf, CompletesIn, IsNumbered, Joined, ParseChunkKey, EncodeBlob, ValidEvent, OutcomeOver;
    RecordIsNumbered(rows, numbered, version, ws);
    assert IsWhole(rows, lo, hi, numbered, OutcomeOver(rows, numbered));
    CompleteExactlyForNumberedRows(rows, lo, hi, OutcomeOver(rows, numbered));
    AssemblerIsComplete(rows, lo, hi);
  }

  lemma AssemblerIsComplete(rows: seq<Row>, lo: nat, hi: nat)
    requires lo <= hi <= |rows|
    ensures CompletesOf(Fed(rows, lo, hi).outputs) == CompletesIn(rows, lo, hi)
  {
    hide Fed, CompletesOf, CompletesIn, PendingOf, ParseChunkKey;
    AssemblerComputesRuns(rows, lo, hi);
  }

  lemma {:induction false} TwiceInCompletes(outputs: seq<Output>, i: nat, j: nat)
    requires i < j < |outputs| && outputs[i] == outputs[j] && outputs[i].assembled.Complete?
    ensures !ByLastKeys(CompletesOf(outputs))
  {
    hide CmpBytes;
    var n := |outputs| - 1;
    var init := CompletesOf(outputs[..n]);
    if j < n {
      TwiceInCompletes(outputs[..n], i, j);
      assert init <= CompletesOf(outputs);
      FewerByLastKeys(init, CompletesOf(outputs));
    } else {
      OutputsOfCompletes(outputs[..n], outputs[i]);
      var at := IndexOf(init, outputs[i]);
      LtTotal(outputs[i].lastKey, outputs[n].lastKey);
      assert CompletesOf(outputs)[at] == CompletesOf(outputs)[|init|];
    }
  }

  lemma FewerByLastKeys(a: seq<Output>, b: seq<Output>)
    requires a <= b && !ByLastKeys(a)
    ensures !ByLastKeys(b)
  {
    hide CmpBytes;
  }

  /** Outcomes that are those of runs are kept once each. */
  lemma OnceEach(rows: seq<Row>, lo: nat, hi: nat, kept: seq<Output>, i: nat)
    requires Sorted(rows) && lo <= hi <= |rows| && CompletesOf(kept) == CompletesIn(rows, lo, hi)
    requires i < |kept| && kept[i].assembled.Complete?
    ensures forall j :: 0 <= j < |kept| && kept[j] == kept[i] ==> j == i
  {
    hide CompletesOf, CompletesIn, ByLastKeys;
    CompletesIncrease(rows, lo, hi);
    forall j | 0 <= j < |kept| && kept[j] == kept[i] ensures j == i {
      if j < i {
        TwiceInCompletes(kept, j, i);
      } else if i < j {
        TwiceInCompletes(kept, i, j);
      }
    }
  }

  /** A page keeps the outcome of every record that it passes, once. */
  lemma PageKeepsRecord(
    rows: seq<Row>, p: PageRun, numbered: seq<nat>, version: u64, ws: seq<WireEvent>
  )
    returns (i: nat)
    requires Sorted(rows) && IsPageRun(rows, p) && IsRecord(rows, numbered, version, ws)
    requires LowerBound(rows, p.start) <= numbered[0] && Lt(rows[numbered[|numbered| - 1]].key, p.next)
    ensures i < |p.kept| && p.kept[i] == OutcomeOver(rows, numbered)
    ensures forall j :: 0 <= j < |p.kept| && p.kept[j] == p.kept[i] ==> j == i
  {
    hide Finishes, LowerBound, IsRecord, IsNumbered, CompletesIn, CompletesOf, CmpBytes, ParseChunkKey, Joined,
      NoRunAcross, BreaksPending;
    var lo, hi := LowerBound(rows, p.start), LowerBound(rows, p.next);
    RecordIsNumbered(rows, numbered, version, ws);
    PageKeepsRuns(rows, p);
    RowsBefore(rows, p.next, numbered[|numbered| - 1]);
    RecordIsComplete(rows, lo, hi, numbered, version, ws);
    CompletesAreOutputs(p.kept, OutcomeOver(rows, numbered));
    i := IndexOf(p.kept, OutcomeOver(rows, numbered));
    OnceEach(rows, lo, hi, p.kept, i);
  }

  /**
   Every record that a reading passes, from its cursor to the next one, is returned: the page keeps its outcome once,
   and one transaction of the page is that outcome's, with the stamp, id, versions and events of the record.
   */
  lemma ReadingReturnsRecords(
    rows: seq<Row>, r: Reading, kept: seq<Output>, numbered: seq<nat>, version: u64, ws: seq<WireEvent>
  )
    returns (at: seq<nat>, i: nat, k: nat)
    requires Sorted(rows) && IsReadingOf(rows, r, kept) && IsRecord(rows, numbered, version, ws)
    requires LowerBound(rows, r.cursor.key) <= numbered[0] && Lt(rows[numbered[|numbered| - 1]].key, r.page.next.key)
    ensures AreReturned(kept, r.page.transactions, at)
    ensures i < |kept| && kept[i] == OutcomeOver(rows, numbered)
    ensures forall j :: 0 <= j < |kept| && kept[j] == kept[i] ==> j == i
    ensures k < |at| && at[k] == i && IsTransactionOf(rows, numbered, version, ws, r.page.transactions[k])
    ensures forall l :: 0 <= l < |at| && at[l] == i ==> l == k
  {
    hide Finishes, PageOf, LowerBound, IsRecord, IsNumbered, AreReturned, AreReported, CmpBytes, ParseChunkKey, Joined,
      Decodes, IsTransactionOf, IsPageRun;
    RecordIsNumbered(rows, numbered, version, ws);
    var p := PageRun(r.cursor.key, LowerBound(rows, r.cursor.key) + r.read, !r.page.exhausted, kept, r.page.next.key);
    var reported;
    at, reported := PageReturnsKept(kept, r.page.next.key, r.page.exhausted);
    ReadPageIsPageRun(rows, r.seen, r.cursor, r.read, kept, r.page);
    i := PageKeepsRecord(rows, p, numbered, version, ws);
    k := RecordIsReturned(rows, numbered, version, ws, kept, r.page.transactions, at, i);
    ReturnedAt(kept, r.page.transactions, at);
  }

  lemma ReturnedAt(outputs: seq<Output>, transactions: seq<ProfiledTransaction>, at: seq<nat>)
    requires AreReturned(outputs, transactions, at)
    ensures |at| == |transactions|
  {
  }

  // ---------- skips ----------

  /** A key, stamp and id are those of one of some rows. */
  ghost predicate IsNamed(rows: seq<Row>, lo: nat, hi: nat, key: bytes, stamp: Versionstamp, id: Id)
    requires hi <= |rows|
  {
    exists m :: lo <= m < hi && rows[m].key == key && Own(rows, m, id) && StampOf(rows, m) == stamp
  }

  ghost predicate NamesFirstRow(rows: seq<Row>, lo: nat, hi: nat, o: Output)
    requires hi <= |rows|
  {
    IsNamed(rows, lo, hi, o.firstKey, o.assembled.versionstamp, o.assembled.id)
  }

  ghost predicate AllNamed(rows: seq<Row>, lo: nat, hi: nat, st: State)
    requires hi <= |rows|
  {
    && (forall i :: 0 <= i < |st.outputs| ==> NamesFirstRow(rows, lo, hi, st.outputs[i]))
    && (forall id :: id in st.partials ==>
          IsNamed(rows, lo, hi, st.partials[id].firstKey, st.partials[id].versionstamp, id))
  }

  lemma ReportedNames(
    rows: seq<Row>, lo: nat, hi: nat, st: State, firstKey: bytes, stamp: Versionstamp, id: Id, key: bytes
  )
    requires hi <= |rows| && AllNamed(rows, lo, hi, st) && IsNamed(rows, lo, hi, firstKey, stamp, id)
    ensures AllNamed(rows, lo, hi, Reported(st, firstKey, stamp, id, key))
  {
    hide IsNamed;
  }

  lemma StartedNames(rows: seq<Row>, lo: nat, hi: nat, st: State, c: ChunkKey, key: bytes, value: bytes)
    requires hi <= |rows| && AllNamed(rows, lo, hi, st) && IsNamed(rows, lo, hi, key, c.versionstamp, c.id)
    ensures AllNamed(rows, lo, hi, Started(st, c, key, value))
  {
    hide IsNamed, Reported;
    var st' := if c.chunk == 1 && c.total >= 1 then st.(broken := st.broken - {c.id}) else st;
    ReportedNames(rows, lo, hi, st', key, c.versionstamp, c.id, key);
  }

  lemma ProcessedNames(rows: seq<Row>, lo: nat, hi: nat, st: State, c: ChunkKey, key: bytes, value: bytes)
    requires hi <= |rows| && AllNamed(rows, lo, hi, st) && IsNamed(rows, lo, hi, key, c.versionstamp, c.id)
    ensures AllNamed(rows, lo, hi, Processed(st, c, key, value))
  {
    hide IsNamed, Reported, Started, Continues;
    StartedNames(rows, lo, hi, st, c, key, value);
    if c.id in st.partials {
      var partial := st.partials[c.id];
      var st' := st.(partials := st.partials - {c.id});
      ReportedNames(rows, lo, hi, st', partial.firstKey, partial.versionstamp, c.id, key);
      StartedNames(rows, lo, hi, Reported(st', partial.firstKey, partial.versionstamp, c.id, key), c, key, value);
    }
  }

  /** After any rows, every outcome and every pending transaction has the key, stamp and id of its first row. */
  lemma {:induction false} FirstRowsAreNamed(rows: seq<Row>, lo: nat, hi: nat)
    requires lo <= hi <= |rows|
    ensures AllNamed(rows, lo, hi, Fed(rows, lo, hi))
  {
    hide IsNamed, Processed, ParseChunkKey;
    if lo < hi {
      var st := Fed(rows, lo, hi - 1);
      FirstRowsAreNamed(rows, lo, hi - 1);
      StillNamed(rows, lo, hi - 1, st);
      var c := ParseChunkKey(rows[hi - 1].key);
      if c.Some? {
        LastIsNamed(rows, lo, hi);
        ProcessedNames(rows, lo, hi, st.(lastKey := Some(rows[hi - 1].key)), c.value, rows[hi - 1].key,
                       rows[hi - 1].value);
      }
    }
  }

  lemma StillNamed(rows: seq<Row>, lo: nat, hi: nat, st: State)
    requires hi < |rows| && AllNamed(rows, lo, hi, st)
    ensures AllNamed(rows, lo, hi + 1, st)
  {
    hide ParseChunkKey;
    forall i | 0 <= i < |st.outputs| ensures NamesFirstRow(rows, lo, hi + 1, st.outputs[i]) {
      assert NamesFirstRow(rows, lo, hi, st.outputs[i]);
    }
  }

  lemma LastIsNamed(rows: seq<Row>, lo: nat, hi: nat)
    requires lo < hi <= |rows| && ParseChunkKey(rows[hi - 1].key).Some?
    ensures var c := ParseChunkKey(rows[hi - 1].key).value;
            IsNamed(rows, lo, hi, rows[hi - 1].key, c.versionstamp, c.id)
  {
    hide ParseChunkKey;
  }

  lemma {:induction false} ReportsAreOfPending(pending: seq<Partial>, o: Output)
    requires o in BrokenReports(pending)
    ensures exists i :: 0 <= i < |pending| && o == Output(pending[i].firstKey, pending[i].firstKey,
                                                        Broken(pending[i].versionstamp, pending[i].id))
  {
    var n := |pending| - 1;
    if o in BrokenReports(pending[..n]) {
      ReportsAreOfPending(pending[..n], o);
      var i :| 0 <= i < n && o == Output(pending[..n][i].firstKey, pending[..n][i].firstKey,
                                         Broken(pending[..n][i].versionstamp, pending[..n][i].id));
      assert pending[..n][i] == pending[i];
    }
  }

  lemma {:induction false} EndingAreOutputs(outputs: seq<Output>, cut: bytes, o: Output)
    requires o in EndingBefore(outputs, cut)
    ensures o in outputs
  {
    hide CmpBytes;
    var n := |outputs| - 1;
    if o in EndingBefore(outputs[..n], cut) {
      EndingAreOutputs(outputs[..n], cut, o);
    }
  }

  /** Every outcome that a page keeps, complete or broken, names the first of the rows it is of. */
  lemma KeptAreNamed(rows: seq<Row>, p: PageRun, i: nat)
    requires Sorted(rows) && IsPageRun(rows, p) && i < |p.kept|
    ensures NamesFirstRow(rows, LowerBound(rows, p.start), p.hi, p.kept[i])
  {
    hide Fed, CmpBytes, LowerBound, Sorted, EndingBefore, BrokenReports, IsNamed, CutOf, AfterLast, Finishes;
    var lo := LowerBound(rows, p.start);
    var st := Fed(rows, lo, p.hi);
    var pending := PageEnds(rows, p);
    FirstRowsAreNamed(rows, lo, p.hi);
    if p.kept[i] !in st.outputs {
      if HasPending(rows, p.start, p.hi) && !IsStuck(rows, p.start, p.hi, p.stopped) {
        EndingAreOutputs(st.outputs, rows[CutOf(rows, p.start, p.hi)].key, p.kept[i]);
      } else {
        assert p.kept[i] in BrokenReports(pending);
        ReportsAreOfPending(pending, p.kept[i]);
      }
    }
  }

  /**
   What a reading skips: one skip for each outcome it keeps that is broken or does not decode, in their order, with the
   reason, and with the stamp and id of the outcome's first row.
   */
  lemma ReadingReportsRest(rows: seq<Row>, r: Reading, kept: seq<Output>) returns (at: seq<nat>)
    requires Sorted(rows) && IsReadingOf(rows, r, kept)
    ensures AreReported(kept, r.page.skipped, at)
    ensures var lo := LowerBound(rows, r.cursor.key);
            forall k :: 0 <= k < |at| ==>
              IsNamed(rows, lo, lo + r.read, kept[at[k]].firstKey, r.page.skipped[k].versionstamp, r.page.skipped[k].id)
  {
    hide Finishes, PageOf, LowerBound, AreReturned, CmpBytes, IsNamed, IsPageRun, Decodes;
    var lo := LowerBound(rows, r.cursor.key);
    var p := PageRun(r.cursor.key, lo + r.read, !r.page.exhausted, kept, r.page.next.key);
    var returned;
    returned, at := PageReturnsKept(kept, r.page.next.key, r.page.exhausted);
    ReadPageIsPageRun(rows, r.seen, r.cursor, r.read, kept, r.page);
    forall k | 0 <= k < |at|
      ensures IsNamed(rows, lo, lo + r.read, kept[at[k]].firstKey, r.page.skipped[k].versionstamp,
                      r.page.skipped[k].id)
    {
      KeptAreNamed(rows, p, at[k]);
      assert Reports(kept[at[k]], r.page.skipped[k]);
    }
  }

  // ---------- scans ----------

  lemma {:induction false} TransactionsAreReturned(outputs: seq<Output>) returns (at: seq<nat>)
    ensures AreReturned(outputs, TransactionsIn(outputs), at)
  {
    hide AreReturned, Decoded, AsSigned;
    if outputs == [] {
      at := [];
      NothingReturned();
    } else {
      var n := |outputs| - 1;
      var o := outputs[n];
      at := TransactionsAreReturned(outputs[..n]);
      ReturnedNext(outputs[..n], o, TransactionsIn(outputs[..n]), at);
      VersionIsCommitVersion(o.assembled.versionstamp);
      Unsnoc(outputs);
      Empty(TransactionsIn(outputs[..n]));
      if Decodes(o) {
        at := at + [n];
      }
    }
  }

  /** The complete outcomes of one pass up to a cursor, but for those that a page broke. */
  ghost function OutcomesUpTo(rows: seq<Row>, start: Cursor, final: Cursor, pages: seq<PageRun>): seq<Output> {
    Unbroken(rows, pages,
             EndingBefore(CompletesOf(Fed(rows, LowerBound(rows, start.key), |rows|).outputs), final.key))
  }

  lemma {:induction false} UnbrokenAre(rows: seq<Row>, pages: seq<PageRun>, outputs: seq<Output>, o: Output)
    ensures o in Unbroken(rows, pages, outputs) <==> o in outputs && !IsBroken(rows, pages, o)
  {
    hide IsBroken;
    if outputs != [] {
      var n := |outputs| - 1;
      Unsnoc(outputs);
      UnbrokenAre(rows, pages, outputs[..n], o);
    }
  }

  lemma {:induction false} EndingBeforeAre(outputs: seq<Output>, cut: bytes, o: Output)
    ensures o in EndingBefore(outputs, cut) <==> o in outputs && Lt(o.lastKey, cut)
  {
    hide CmpBytes;
    if outputs != [] {
      var n := |outputs| - 1;
      Unsnoc(outputs);
      EndingBeforeAre(outputs[..n], cut, o);
    }
  }

  /** An outcome is that of numbered rows from `lo` on that reach their total. */
  ghost predicate IsOfNumbered(rows: seq<Row>, lo: nat, o: Output) {
    exists numbered :: IsWhole(rows, lo, |rows|, numbered, o)
  }

  /** The outcomes up to a cursor are those of numbered rows, before the cursor and not broken by a page. */
  lemma OutcomesAre(rows: seq<Row>, start: Cursor, final: Cursor, pages: seq<PageRun>, o: Output)
    requires Sorted(rows)
    ensures o in OutcomesUpTo(rows, start, final, pages)
       <==> IsOfNumbered(rows, LowerBound(rows, start.key), o) && Lt(o.lastKey, final.key) && !IsBroken(rows, pages, o)
  {
    hide Fed, CmpBytes, LowerBound, Sorted, EndingBefore, CompletesOf, Unbroken, IsBroken, IsOfNumbered;
    var lo := LowerBound(rows, start.key);
    var all := CompletesOf(Fed(rows, lo, |rows|).outputs);
    UnbrokenAre(rows, pages, EndingBefore(all, final.key), o);
    EndingBeforeAre(all, final.key, o);
    CompletesAreOfNumbered(rows, lo, o);
  }

  lemma CompletesAreOfNumbered(rows: seq<Row>, lo: nat, o: Output)
    requires Sorted(rows) && lo <= |rows|
    ensures o in CompletesOf(Fed(rows, lo, |rows|).outputs) <==> IsOfNumbered(rows, lo, o)
  {
    hide Fed, CompletesOf, IsWhole;
    CompleteExactlyForNumberedRows(rows, lo, |rows|, o);
  }

  /**
   What a scan returns: one transaction for each outcome up to the final cursor that decodes and that no page broke, in
   their order. Each of these outcomes is that of numbered rows which reach their total.
   */
  lemma ScanReturnsOutcomes(rows: seq<Row>, start: Cursor, readings: seq<Reading>)
    returns (pages: seq<PageRun>, at: seq<nat>)
    requires Sorted(rows) && AreReadings(rows, start, readings)
    ensures ArePagesOf(rows, readings, pages)
    ensures AreReturned(OutcomesUpTo(rows, start, FinalOf(start, readings), pages), TransactionsRead(readings), at)
  {
    hide Sorted, LowerBound, TransactionsIn, TransactionsRead, AreReadings, ArePagesOf, Fed, Unbroken, EndingBefore,
      CompletesOf, FinalOf, AreReturned;
    pages := ScanReturnsOnePass(rows, start, readings);
    at := TransactionsAreReturned(OutcomesUpTo(rows, start, FinalOf(start, readings), pages));
  }

  /**
   Every record from the start of a scan to its final cursor that no page broke is returned by the scan, as the
   transaction with its stamp, id, versions and events.
   */
  lemma ScanReturnsRecords(
    rows: seq<Row>, start: Cursor, readings: seq<Reading>, pages: seq<PageRun>, at: seq<nat>, numbered: seq<nat>,
    version: u64, ws: seq<WireEvent>
  )
    returns (k: nat)
    requires Sorted(rows) && AreReadings(rows, start, readings)
    requires AreReturned(OutcomesUpTo(rows, start, FinalOf(start, readings), pages), TransactionsRead(readings), at)
    requires IsRecord(rows, numbered, version, ws) && LowerBound(rows, start.key) <= numbered[0]
    requires Lt(rows[numbered[|numbered| - 1]].key, FinalOf(start, readings).key)
    requires !IsBroken(rows, pages, OutcomeOver(rows, numbered))
    ensures var outcomes := OutcomesUpTo(rows, start, FinalOf(start, readings), pages);
            && k < |TransactionsRead(readings)| == |at| && at[k] < |outcomes|
            && outcomes[at[k]] == OutcomeOver(rows, numbered)
            && IsTransactionOf(rows, numbered, version, ws, TransactionsRead(readings)[k])
  {
    hide Sorted, LowerBound, TransactionsRead, AreReadings, FinalOf, OutcomesUpTo, IsRecord, IsNumbered,
      IsTransactionOf, IsBroken, AreReturned, CmpBytes, ParseChunkKey, Joined;
    var final := FinalOf(start, readings);
    RecordIsNumbered(rows, numbered, version, ws);
    var outcomes, o := OutcomesUpTo(rows, start, final, pages), OutcomeOver(rows, numbered);
    RecordIsWhole(rows, LowerBound(rows, start.key), numbered, version, ws);
    assert IsOfNumbered(rows, LowerBound(rows, start.key), o);
    OutcomesAre(rows, start, final, pages, o);
    var i := IndexOf(outcomes, o);
    ReturnedAt(outcomes, TransactionsRead(readings), at);
    k := RecordIsReturned(rows, numbered, version, ws, outcomes, TransactionsRead(readings), at, i);
  }

  lemma RecordIsWhole(rows: seq<Row>, lo: nat, numbered: seq<nat>, version: u64, ws: seq<WireEvent>)
    requires IsRecord(rows, numbered, version, ws) && lo <= numbered[0]
    ensures numbered[|numbered| - 1] < |rows| && IsWhole(rows, lo, |rows|, numbered, OutcomeOver(rows, numbered))
  {
    hide ParseChunkKey, Joined, EncodeBlob, ValidEvent, IsPrevious;
  }
}
