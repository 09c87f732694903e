/** Pages of profiled transactions: the assembler that builds one from its rows, and the scanner that feeds it. */
module ProfilePages {
  import opened ByteStrings
  import opened Digits
  import opened ProfileAssembly
  import opened ProfileDecoding
  import opened ProfileEvents
  import opened ProfileKeys
  import opened ProfileReader
  import opened Sequences
  import opened Wrappers

  datatype ProfiledTransaction =
    ProfiledTransaction(version: int, versionstamp: Versionstamp, id: Id, protocolVersion: u64, events: seq<Event>)

  datatype SkipReason = DecodeFailed(error: DecodeError) | BrokenChunks

  datatype Skipped = Skipped(versionstamp: Versionstamp, id: Id, reason: SkipReason)

  datatype Page = Page(transactions: seq<ProfiledTransaction>, skipped: seq<Skipped>, next: Cursor, exhausted: bool)

  /** The transaction of a complete outcome whose blob decodes. */
  function TransactionsOf(o: Output): seq<ProfiledTransaction> {
    match o.assembled
    case Complete(versionstamp, id, blob) =>
      (match Decoded(blob)
       case Ok(v) => [ProfiledTransaction(AsSigned(VersionOf(versionstamp), 8), versionstamp, id, v.0, v.1)]
       case Err(_) => [])
    case Broken(_, _) => []
  }

  function SkipsOf(o: Output): seq<Skipped> {
    match o.assembled
    case Complete(versionstamp, id, blob) =>
      (match Decoded(blob)
       case Ok(_) => []
       case Err(error) => [Skipped(versionstamp, id, DecodeFailed(error))])
    case Broken(versionstamp, id) => [Skipped(versionstamp, id, BrokenChunks)]
  }

  /** The page of the outcomes that are kept: each is a transaction or a skip, in the order they were produced. */
  function PageOf(kept: seq<Output>, next: bytes, exhausted: bool): Page {
    if kept == [] then Page([], [], Cursor(next), exhausted)
    else
      var page := PageOf(kept[..|kept| - 1], next, exhausted);
      var last := kept[|kept| - 1];
      page.(transactions := page.transactions + TransactionsOf(last), skipped := page.skipped + SkipsOf(last))
  }

  /** The outputs whose flag is set. */
  function Selected(outputs: seq<Output>, flags: seq<bool>): seq<Output>
    requires |flags| == |outputs|
  {
    if outputs == [] then []
    else
      var n := |outputs| - 1;
      var init := Selected(outputs[..n], flags[..n]);
      if flags[n] then init + [outputs[n]] else init
  }

  lemma {:induction false} SelectedAll(outputs: seq<Output>, flags: seq<bool>)
    requires |flags| == |outputs| && forall i :: 0 <= i < |flags| ==> flags[i]
    ensures Selected(outputs, flags) == outputs
  {
    if outputs != [] {
      SelectedAll(outputs[..|outputs| - 1], flags[..|outputs| - 1]);
      Unsnoc(outputs);
    }
  }

  lemma {:induction false} SelectedBefore(outputs: seq<Output>, flags: seq<bool>, cut: bytes)
    requires |flags| == |outputs| && forall i :: 0 <= i < |flags| ==> flags[i] == Lt(outputs[i].lastKey, cut)
    ensures Selected(outputs, flags) == EndingBefore(outputs, cut)
  {
    if outputs != [] {
      SelectedBefore(outputs[..|outputs| - 1], flags[..|outputs| - 1], cut);
    }
  }

  // ---------- sorting ----------

  /** Each index once, the greatest last key first. */
  ghost predicate IsByLast(outputs: seq<Output>, byLast: seq<nat>, n: nat) {
    && |byLast| == n <= |outputs|
    && (forall i :: 0 <= i < n ==> byLast[i] < n)
    && (forall k: nat :: k < n ==> k in byLast)
    && (forall i, j :: 0 <= i < j < n ==>
          byLast[i] != byLast[j] && Le(outputs[byLast[j]].lastKey, outputs[byLast[i]].lastKey))
  }

  method SortByLast(outputs: seq<Output>) returns (byLast: seq<nat>)
    ensures IsByLast(outputs, byLast, |outputs|)
  {
    hide CmpBytes;
    byLast := [];
    for k := 0 to |outputs|
      invariant IsByLast(outputs, byLast, k)
    {
      var at := 0;
      while at < k && Le(outputs[k].lastKey, outputs[byLast[at]].lastKey)
        invariant at <= k
        invariant forall i :: 0 <= i < at ==> Le(outputs[k].lastKey, outputs[byLast[i]].lastKey)
      {
        at := at + 1;
      }
      InsertedByLast(outputs, byLast, k, at);
      byLast := InsertAt(byLast, at, k);
    }
  }

  lemma InsertedByLast(outputs: seq<Output>, byLast: seq<nat>, k: nat, at: nat)
    requires IsByLast(outputs, byLast, k) && at <= k < |outputs|
    requires forall i :: 0 <= i < at ==> Le(outputs[k].lastKey, outputs[byLast[i]].lastKey)
    requires at < k ==> !Le(outputs[k].lastKey, outputs[byLast[at]].lastKey)
    ensures IsByLast(outputs, InsertAt(byLast, at, k), k + 1)
  {
    hide CmpBytes, InsertAt;
    var r := InsertAt(byLast, at, k);
    forall i | at <= i < k
      ensures Le(outputs[byLast[i]].lastKey, outputs[k].lastKey)
    {
      LtTotal(outputs[k].lastKey, outputs[byLast[at]].lastKey);
      LtTotal(outputs[byLast[at]].lastKey, outputs[k].lastKey);
      if i > at {
        LtTransitive(outputs[byLast[i]].lastKey, outputs[byLast[at]].lastKey, outputs[k].lastKey);
      }
    }
    forall i, j | 0 <= i < j < k + 1
      ensures r[i] != r[j] && Le(outputs[r[j]].lastKey, outputs[r[i]].lastKey)
    {
      if i == at {
        assert r[j] == byLast[j - 1];
      } else if j == at {
        assert r[i] == byLast[i];
      }
    }
    InsertAtKeeps(byLast, at, k);
  }

  method SortPending(partials: map<Id, Partial>) returns (pending: seq<Partial>)
    requires forall id :: id in partials ==> partials[id].id == id
    ensures IsPending(pending, partials)
  {
    hide CmpBytes;
    pending := [];
    var done: set<Id> := {};
    while done != partials.Keys
      invariant done <= partials.Keys
      invariant forall i :: 0 <= i < |pending| ==> pending[i].id in done && partials[pending[i].id] == pending[i]
      invariant forall id :: id in done ==> partials[id] in pending
      invariant forall i, j :: 0 <= i < j < |pending| ==>
                  pending[i].id != pending[j].id && Le(pending[i].firstKey, pending[j].firstKey)
      decreases partials.Keys - done
    {
      assert exists id :: id in partials.Keys - done by {
        assert partials.Keys - done == {} ==> partials.Keys <= done;
      }
      var id :| id in partials.Keys - done;
      var at := 0;
      while at < |pending| && Le(pending[at].firstKey, partials[id].firstKey)
        invariant at <= |pending|
        invariant forall i :: 0 <= i < at ==> Le(pending[i].firstKey, partials[id].firstKey)
      {
        at := at + 1;
      }
      InsertedPending(pending, partials, done, id, at);
      pending := InsertAt(pending, at, partials[id]);
      done := done + {id};
    }
  }

  lemma InsertedPending(pending: seq<Partial>, partials: map<Id, Partial>, done: set<Id>, id: Id, at: nat)
    requires id in partials && id !in done && partials[id].id == id && at <= |pending|
    requires forall i :: 0 <= i < |pending| ==> pending[i].id in done
    requires forall i, j :: 0 <= i < j < |pending| ==>
               pending[i].id != pending[j].id && Le(pending[i].firstKey, pending[j].firstKey)
    requires forall i :: 0 <= i < at ==> Le(pending[i].firstKey, partials[id].firstKey)
    requires at < |pending| ==> !Le(pending[at].firstKey, partials[id].firstKey)
    ensures var r := InsertAt(pending, at, partials[id]);
            && (forall p :: p in r <==> p in pending || p == partials[id])
            && (forall i, j :: 0 <= i < j < |r| ==> r[i].id != r[j].id && Le(r[i].firstKey, r[j].firstKey))
  {
    hide CmpBytes, InsertAt;
    var r := InsertAt(pending, at, partials[id]);
    forall i | at <= i < |pending|
      ensures Le(partials[id].firstKey, pending[i].firstKey)
    {
      LtTotal(pending[at].firstKey, partials[id].firstKey);
      LtTotal(partials[id].firstKey, pending[at].firstKey);
      if i > at {
        LtTransitive(partials[id].firstKey, pending[at].firstKey, pending[i].firstKey);
      }
    }
    forall i, j | 0 <= i < j < |r|
      ensures r[i].id != r[j].id && Le(r[i].firstKey, r[j].firstKey)
    {
      if i == at {
        assert r[j] == pending[j - 1];
      } else if j == at {
        assert r[i] == pending[i];
      }
    }
    InsertAtKeeps(pending, at, partials[id]);
  }

  // ---------- cutting ----------

  /** An outcome that lies at or after the position, all of it. */
  predicate LiesAfter(o: Output, cut: bytes) {
    Le(cut, o.firstKey) && Le(cut, o.lastKey)
  }

  /** No position above the cut is left whole by every outcome. */
  ghost predicate NothingHigher(outputs: seq<Output>, from: bytes, cut: bytes) {
    forall c: bytes :: Le(c, from) && (forall i :: 0 <= i < |outputs| ==> !Straddles(outputs[i], c)) ==> Le(c, cut)
  }

  /** Lowering the cut to the first key of an outcome that straddles it. */
  lemma Lowered(outputs: seq<Output>, from: bytes, cut: bytes, i: nat)
    requires i < |outputs| && Straddles(outputs[i], cut)
    requires Le(cut, from) && NothingHigher(outputs, from, cut)
    ensures var lower := outputs[i].firstKey;
            && Le(lower, from) && NothingHigher(outputs, from, lower) && LiesAfter(outputs[i], lower)
            && (forall k :: 0 <= k < |outputs| && LiesAfter(outputs[k], cut) ==> LiesAfter(outputs[k], lower))
  {
    hide CmpBytes;
    var lower, last := outputs[i].firstKey, outputs[i].lastKey;
    LtTotal(lower, cut);
    LtTotal(lower, lower);
    LtTransitive(lower, cut, from);
    LtTransitive(lower, cut, last);
    forall c: bytes | Le(c, from) && forall i :: 0 <= i < |outputs| ==> !Straddles(outputs[i], c)
      ensures Le(c, lower)
    {
      LtTotal(c, lower);
      LtTotal(lower, c);
      LtTransitive(c, cut, last);
    }
    forall k | 0 <= k < |outputs| && LiesAfter(outputs[k], cut)
      ensures LiesAfter(outputs[k], lower)
    {
      LtTransitive(lower, cut, outputs[k].firstKey);
      LtTransitive(lower, cut, outputs[k].lastKey);
    }
  }

  /** When the outcomes up to `n` lie after the cut and the others end before it, nothing straddles it. */
  lemma CutFound(outputs: seq<Output>, from: bytes, cut: bytes, byLast: seq<nat>, n: nat)
    requires IsByLast(outputs, byLast, |outputs|) && n <= |byLast|
    requires Le(cut, from) && NothingHigher(outputs, from, cut)
    requires forall m :: 0 <= m < n ==> LiesAfter(outputs[byLast[m]], cut)
    requires n < |byLast| ==> Lt(outputs[byLast[n]].lastKey, cut)
    ensures IsCut(outputs, from, cut)
    ensures forall i: nat :: i in byLast[..n] <==> i < |outputs| && Le(cut, outputs[i].lastKey)
    ensures forall i: nat :: i in byLast[..n] ==> Le(cut, outputs[i].firstKey)
  {
    hide CmpBytes;
    forall m | 0 <= m < |byLast|
      ensures !Straddles(outputs[byLast[m]], cut)
      ensures m < n <==> Le(cut, outputs[byLast[m]].lastKey)
    {
      var o := outputs[byLast[m]];
      LtTotal(o.firstKey, cut);
      LtTotal(cut, o.firstKey);
      LtTotal(o.lastKey, cut);
      LtTotal(cut, o.lastKey);
      if m >= n {
        LtTotal(o.lastKey, outputs[byLast[n]].lastKey);
        LtTransitive(o.lastKey, outputs[byLast[n]].lastKey, cut);
      }
    }
    forall i: nat | i < |outputs|
      ensures !Straddles(outputs[i], cut)
      ensures i in byLast[..n] <==> Le(cut, outputs[i].lastKey)
    {
      var m := IndexOf(byLast, i);
      if m < n {
        assert byLast[..n][m] == i;
      }
    }
  }

  // ---------- finishing ----------

  lemma FinishedEmpty(st: State, start: bytes, stopped: bool)
    requires IsPending([], st.partials)
    ensures FinishesWith(st, start, stopped, [], st.outputs, AfterLast(st, start))
  {
  }

  lemma FinishedAtCut(st: State, start: bytes, stopped: bool, pending: seq<Partial>, cut: bytes)
    requires IsPending(pending, st.partials) && pending != []
    requires IsCut(st.outputs, pending[0].firstKey, cut) && IsFirstKeyOr(st.outputs, pending[0].firstKey, cut)
    requires !Breaks(st, start, stopped, cut)
    ensures FinishesWith(st, start, stopped, pending, EndingBefore(st.outputs, cut), cut)
  {
    hide IsCut, IsFirstKeyOr, IsPending, CmpBytes, EndingBefore;
  }

  lemma FinishedBroken(st: State, start: bytes, stopped: bool, pending: seq<Partial>, cut: bytes)
    requires IsPending(pending, st.partials) && pending != []
    requires IsCut(st.outputs, pending[0].firstKey, cut) && IsFirstKeyOr(st.outputs, pending[0].firstKey, cut)
    requires Breaks(st, start, stopped, cut)
    ensures FinishesWith(st, start, stopped, pending, st.outputs + BrokenReports(pending), AfterLast(st, start))
  {
    hide IsCut, IsFirstKeyOr, IsPending, CmpBytes;
  }

  // ---------- the assembler ----------

  class Assembler {
    const start: Cursor
    var partials: map<Id, Partial>
    var broken: map<Id, nat>
    var outputs: seq<Output>
    var lastKey: Option<bytes>

    function Snapshot(): State
      reads this
    {
      State(partials, broken, outputs, lastKey)
    }

    constructor (start: Cursor)
      ensures this.start == start && Snapshot() == EMPTY
    {
      this.start := start;
      partials, broken, outputs, lastKey := map[], map[], [], None;
    }

    method Push(row: Row)
      modifies this
      ensures Snapshot() == Pushed(old(Snapshot()), row)
    {
      lastKey := Some(row.key);
      var parsed := ParseChunkKey(row.key);
      if parsed.Some? {
        Process(parsed.value, row.key, row.value);
      }
    }

    method Process(c: ChunkKey, key: bytes, value: bytes)
      modifies this
      ensures Snapshot() == Processed(old(Snapshot()), c, key, value)
    {
      if c.id in partials {
        var partial := partials[c.id];
        partials := partials - {c.id};
        if Continues(partial, c) {
          var blob := partial.blob + value;
          if c.chunk == partial.total {
            outputs := outputs + [Output(partial.firstKey, key, Complete(partial.versionstamp, c.id, blob))];
            return;
          }
          partials := partials[c.id := partial.(nextChunk := partial.nextChunk + 1,
                                                lastVersionstamp := c.versionstamp, blob := blob)];
          return;
        }
        ReportBroken(partial.firstKey, partial.versionstamp, c.id, key);
      }
      if c.chunk == 1 && c.total >= 1 {
        broken := broken - {c.id};
      }
      if c.chunk == 1 && c.total == 1 {
        outputs := outputs + [Output(key, key, Complete(c.versionstamp, c.id, value))];
        return;
      }
      if c.chunk == 1 && c.total > 1 {
        partials := partials[c.id := Partial(key, c.id, c.versionstamp, c.versionstamp, c.total, 2, value)];
      } else {
        ReportBroken(key, c.versionstamp, c.id, key);
      }
    }

    method ReportBroken(firstKey: bytes, versionstamp: Versionstamp, id: Id, key: bytes)
      modifies this
      ensures Snapshot() == Reported(old(Snapshot()), firstKey, versionstamp, id, key)
    {
      if id in broken {
        var index := broken[id];
        if index < |outputs| {
          outputs := outputs[index := outputs[index].(lastKey := key)];
        }
        return;
      }
      broken := broken[id := |outputs|];
      outputs := outputs + [Output(firstKey, key, Broken(versionstamp, id))];
    }

    /** Lowers a position past every outcome that straddles it, latest outcomes first. */
    method Cut(from: bytes) returns (cut: bytes, dropped: seq<nat>)
      ensures IsCut(outputs, from, cut) && IsFirstKeyOr(outputs, from, cut)
      ensures forall i: nat :: i in dropped <==> i < |outputs| && Le(cut, outputs[i].lastKey)
      ensures forall i: nat :: i in dropped ==> Le(cut, outputs[i].firstKey)
      ensures forall i, j :: 0 <= i < j < |dropped| ==> dropped[i] != dropped[j]
    {
      hide CmpBytes;
      var byLast := SortByLast(outputs);
      cut, dropped := from, [];
      LtTotal(from, from);
      TakeEnds(byLast);
      for n := 0 to |byLast|
        invariant dropped == byLast[..n]
        invariant Le(cut, from) && IsFirstKeyOr(outputs, from, cut)
        invariant forall m :: 0 <= m < n ==> LiesAfter(outputs[byLast[m]], cut)
        invariant NothingHigher(outputs, from, cut)
      {
        var output := outputs[byLast[n]];
        LtTotal(output.lastKey, cut);
        LtTotal(cut, output.lastKey);
        if Lt(output.lastKey, cut) {
          CutFound(outputs, from, cut, byLast, n);
          return;
        }
        TakeNext(byLast, n);
        dropped := dropped + [byLast[n]];
        LtTotal(output.firstKey, cut);
        LtTotal(cut, output.firstKey);
        if Lt(output.firstKey, cut) {
          Lowered(outputs, from, cut, byLast[n]);
          cut := output.firstKey;
        }
      }
      CutFound(outputs, from, cut, byLast, |byLast|);
    }

    /** The page: what is pending is left to the next one, or broken at a stop that could not advance otherwise. */
    method Finish(stopped: bool) returns (page: Page, ghost kept: seq<Output>)
      requires forall id :: id in partials ==> partials[id].id == id
      modifies this
      ensures Finishes(old(Snapshot()), start.key, stopped, kept, page.next.key)
      ensures page == PageOf(kept, page.next.key, !stopped)
    {
      hide IsCut, IsFirstKeyOr, IsPending, CmpBytes, FinishesWith, EndingBefore, BrokenReports, Selected, PageOf;
      ghost var st := Snapshot();
      var pending := SortPending(partials);
      partials := map[];
      var next := if lastKey.Some? then KeyAfter(lastKey.value) else start.key;
      var flags := seq(|outputs|, _ => true);
      SelectedAll(outputs, flags);
      if pending == [] {
        FinishedEmpty(st, start.key, stopped);
      } else {
        var cut, dropped := Cut(pending[0].firstKey);
        if stopped && Le(cut, start.key) {
          FinishedBroken(st, start.key, stopped, pending, cut);
          BreakPending(pending);
          flags := seq(|outputs|, _ => true);
          SelectedAll(outputs, flags);
        } else {
          FinishedAtCut(st, start.key, stopped, pending, cut);
          flags := seq(|outputs|, i => i !in dropped);
          KeptFlags(outputs, flags, cut, dropped);
          next := cut;
        }
      }
      kept := Selected(outputs, flags);
      assert FinishesWith(st, start.key, stopped, pending, kept, next);
      page := BuildPage(outputs, flags, next, !stopped);
      assert page.next.key == next by {
        PageNext(kept, next, !stopped);
      }
    }

    /** Reports the transactions that a stop leaves incomplete. */
    method BreakPending(pending: seq<Partial>)
      modifies this`outputs
      ensures outputs == old(outputs) + BrokenReports(pending)
    {
      TakeEnds(pending);
      Empty(outputs);
      for i := 0 to |pending|
        invariant outputs == old(outputs) + BrokenReports(pending[..i])
      {
        var partial := pending[i];
        var report := Output(partial.firstKey, partial.firstKey, Broken(partial.versionstamp, partial.id));
        NextReport(pending, i, report);
        Assoc(old(outputs), BrokenReports(pending[..i]), [report]);
        outputs := outputs + [report];
      }
    }
  }

  lemma {:induction false} PageNext(kept: seq<Output>, next: bytes, exhausted: bool)
    ensures PageOf(kept, next, exhausted).next.key == next
  {
    if kept != [] {
      PageNext(kept[..|kept| - 1], next, exhausted);
    }
  }

  lemma NextReport(pending: seq<Partial>, i: nat, report: Output)
    requires i < |pending|
    requires report == Output(pending[i].firstKey, pending[i].firstKey, Broken(pending[i].versionstamp, pending[i].id))
    ensures BrokenReports(pending[..i + 1]) == BrokenReports(pending[..i]) + [report]
  {
    assert pending[..i + 1][..i] == pending[..i];
  }

  lemma KeptFlags(outputs: seq<Output>, flags: seq<bool>, cut: bytes, dropped: seq<nat>)
    requires |flags| == |outputs| && forall i :: 0 <= i < |flags| ==> flags[i] == (i !in dropped)
    requires forall i: nat :: i in dropped <==> i < |outputs| && Le(cut, outputs[i].lastKey)
    ensures Selected(outputs, flags) == EndingBefore(outputs, cut)
  {
    hide CmpBytes;
    forall i | 0 <= i < |flags|
      ensures flags[i] == Lt(outputs[i].lastKey, cut)
    {
      LtTotal(cut, outputs[i].lastKey);
    }
    SelectedBefore(outputs, flags, cut);
  }

  /** Decodes the outcomes that are kept. */
  method BuildPage(outputs: seq<Output>, flags: seq<bool>, next: bytes, exhausted: bool) returns (page: Page)
    requires |flags| == |outputs|
    ensures page == PageOf(Selected(outputs, flags), next, exhausted)
  {
    var transactions, skipped := [], [];
    for i := 0 to |outputs|
      invariant Page(transactions, skipped, Cursor(next), exhausted)
             == PageOf(Selected(outputs[..i], flags[..i]), next, exhausted)
    {
      SelectedNext(outputs, flags, i);
      if flags[i] {
        PageOfNext(Selected(outputs[..i], flags[..i]), outputs[i], next, exhausted);
        match outputs[i].assembled {
          case Complete(versionstamp, id, blob) =>
            var decoded := DecodeEvents(blob);
            match decoded {
              case Ok(v) =>
                transactions := transactions
                  + [ProfiledTransaction(AsSigned(VersionOf(versionstamp), 8), versionstamp, id, v.0, v.1)];
                Empty(skipped);
              case Err(error) =>
                skipped := skipped + [Skipped(versionstamp, id, DecodeFailed(error))];
                Empty(transactions);
            }
          case Broken(versionstamp, id) =>
            skipped := skipped + [Skipped(versionstamp, id, BrokenChunks)];
            Empty(transactions);
        }
      }
    }
    TakeEnds(outputs);
    TakeEnds(flags);
    page := Page(transactions, skipped, Cursor(next), exhausted);
  }

  lemma SelectedNext(outputs: seq<Output>, flags: seq<bool>, i: nat)
    requires |flags| == |outputs| && i < |outputs|
    ensures Selected(outputs[..i + 1], flags[..i + 1])
         == if flags[i] then Selected(outputs[..i], flags[..i]) + [outputs[i]] else Selected(outputs[..i], flags[..i])
  {
    assert outputs[..i + 1][..i] == outputs[..i] && flags[..i + 1][..i] == flags[..i];
  }

  lemma PageOfNext(kept: seq<Output>, o: Output, next: bytes, exhausted: bool)
    ensures var page := PageOf(kept, next, exhausted);
            PageOf(kept + [o], next, exhausted)
            == page.(transactions := page.transactions + TransactionsOf(o), skipped := page.skipped + SkipsOf(o))
  {
    assert (kept + [o])[..|kept|] == kept;
  }
}
