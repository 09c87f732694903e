/** Reassembly of interleaved multi-chunk records, as a state machine over rows and as the assembler that runs it. */
module ProfileAssembly {
  import opened ByteStrings
  import opened ProfileKeys
  import opened Wrappers

  datatype Assembled =
    | Complete(versionstamp: Versionstamp, id: Id, blob: bytes)
    | Broken(versionstamp: Versionstamp, id: Id)

  /** An outcome, with the keys of the first and last rows it was made of. */
  datatype Output = Output(firstKey: bytes, lastKey: bytes, assembled: Assembled)

  /** A transaction being reassembled: chunks up to `nextChunk`, of `total`. */
  datatype Partial = Partial(
    firstKey: bytes,
    id: Id,
    versionstamp: Versionstamp,
    lastVersionstamp: Versionstamp,
    total: nat,
    nextChunk: nat,
    blob: bytes)

  /** `broken` maps an id to the index of its report in `outputs`. */
  datatype State = State(partials: map<Id, Partial>, broken: map<Id, nat>, outputs: seq<Output>, lastKey: Option<bytes>)

  datatype Row = Row(key: bytes, value: bytes)

  const EMPTY: State := State(map[], map[], [], None)

  /** Whether a row is the next chunk of a pending transaction. */
  predicate Continues(partial: Partial, c: ChunkKey) {
    c.total == partial.total && c.chunk == partial.nextChunk && Le(partial.lastVersionstamp, c.versionstamp)
  }

  function Reported(st: State, firstKey: bytes, versionstamp: Versionstamp, id: Id, key: bytes): State {
    if id in st.broken then
      var i := st.broken[id];
      if i < |st.outputs| then st.(outputs := st.outputs[i := st.outputs[i].(lastKey := key)]) else st
    else
      st.(broken := st.broken[id := |st.outputs|],
          outputs := st.outputs + [Output(firstKey, key, Broken(versionstamp, id))])
  }

  /** A row that is not the next chunk of a pending transaction starts one, or is reported. */
  function Started(st: State, c: ChunkKey, key: bytes, value: bytes): State {
    var st := if c.chunk == 1 && c.total >= 1 then st.(broken := st.broken - {c.id}) else st;
    if c.chunk == 1 && c.total == 1 then
      st.(outputs := st.outputs + [Output(key, key, Complete(c.versionstamp, c.id, value))])
    else if c.chunk == 1 && c.total > 1 then
      st.(partials := st.partials[c.id := Partial(key, c.id, c.versionstamp, c.versionstamp, c.total, 2, value)])
    else
      Reported(st, key, c.versionstamp, c.id, key)
  }

  function Processed(st: State, c: ChunkKey, key: bytes, value: bytes): State {
    if c.id in st.partials then
      var partial := st.partials[c.id];
      var st := st.(partials := st.partials - {c.id});
      if Continues(partial, c) then
        var blob := partial.blob + value;
        if c.chunk == partial.total then
          st.(outputs := st.outputs + [Output(partial.firstKey, key, Complete(partial.versionstamp, c.id, blob))])
        else
          st.(partials := st.partials[c.id := partial.(nextChunk := partial.nextChunk + 1,
                                                       lastVersionstamp := c.versionstamp, blob := blob)])
      else
        Started(Reported(st, partial.firstKey, partial.versionstamp, c.id, key), c, key, value)
    else
      Started(st, c, key, value)
  }

  function Pushed(st: State, row: Row): State {
    var st := st.(lastKey := Some(row.key));
    match ParseChunkKey(row.key)
    case None => st
    case Some(c) => Processed(st, c, row.key, row.value)
  }

  /** The state after the rows from `lo` to `hi`, starting with none. */
  function Fed(rows: seq<Row>, lo: nat, hi: nat): State
    requires lo <= hi <= |rows|
  {
    if lo == hi then EMPTY else Pushed(Fed(rows, lo, hi - 1), rows[hi - 1])
  }

  /** The rows fed decide the state, wherever they lie. */
  lemma {:induction false} SameRows(a: seq<Row>, lo: nat, hi: nat, b: seq<Row>, from: nat)
    requires lo <= hi <= |a| && from + (hi - lo) <= |b|
    requires forall k :: lo <= k < hi ==> a[k] == b[from - lo + k]
    ensures Fed(a, lo, hi) == Fed(b, from, from + (hi - lo))
    decreases hi - lo
  {
    hide Pushed;
    if lo < hi {
      SameRows(a, lo, hi - 1, b, from);
    }
  }

  lemma FirstRows(first: seq<Row>, rows: seq<Row>)
    requires first <= rows
    ensures Fed(first, 0, |first|) == Fed(rows, 0, |first|)
  {
    SameRows(first, 0, |first|, rows, 0);
  }

  // ---------- where a page is cut ----------

  /** An outcome has rows on both sides of the position. */
  predicate Straddles(o: Output, position: bytes) {
    Lt(o.firstKey, position) && Le(position, o.lastKey)
  }

  /** The greatest position at or before `from` that no outcome straddles. */
  ghost predicate IsCut(outputs: seq<Output>, from: bytes, cut: bytes) {
    && Le(cut, from)
    && (forall i :: 0 <= i < |outputs| ==> !Straddles(outputs[i], cut))
    && (forall c: bytes :: Le(c, from) && (forall i :: 0 <= i < |outputs| ==> !Straddles(outputs[i], c)) ==> Le(c, cut))
  }

  /** A cut is a resume position that rows have, or the one it started from. */
  ghost predicate IsFirstKeyOr(outputs: seq<Output>, from: bytes, cut: bytes) {
    cut == from || exists i :: 0 <= i < |outputs| && outputs[i].firstKey == cut
  }

  /** The outcomes that end before a position. */
  function EndingBefore(outputs: seq<Output>, position: bytes): seq<Output> {
    if outputs == [] then []
    else
      var init := EndingBefore(outputs[..|outputs| - 1], position);
      var last := outputs[|outputs| - 1];
      if Lt(last.lastKey, position) then init + [last] else init
  }

  // ---------- how a page ends ----------

  /** The pending transactions by their first keys, each once. */
  ghost predicate IsPending(pending: seq<Partial>, partials: map<Id, Partial>) {
    && (forall i :: 0 <= i < |pending| ==> pending[i].id in partials && partials[pending[i].id] == pending[i])
    && (forall id :: id in partials ==> partials[id] in pending)
    && (forall i, j :: 0 <= i < j < |pending| ==>
          pending[i].id != pending[j].id && Le(pending[i].firstKey, pending[j].firstKey))
  }

  /** The reports of transactions broken by a stop. */
  function BrokenReports(pending: seq<Partial>): seq<Output> {
    if pending == [] then []
    else
      var last := pending[|pending| - 1];
      BrokenReports(pending[..|pending| - 1])
      + [Output(last.firstKey, last.firstKey, Broken(last.versionstamp, last.id))]
  }

  /** The position after every row read, or the start when there were none. */
  function AfterLast(st: State, start: bytes): bytes {
    if st.lastKey.Some? then KeyAfter(st.lastKey.value) else start
  }

  /** Whether a page that stops with these pending transactions breaks them: its cut would not advance it. */
  ghost predicate Breaks(st: State, start: bytes, stopped: bool, cut: bytes) {
    stopped && Le(cut, start)
  }

  /**
   The outcomes a page keeps and where the next one resumes. With nothing pending that is after the last row; else at
   the cut before the oldest pending transaction, leaving later outcomes to the next page; and after the last row
   again, breaking what is pending, when the page was stopped and the cut is not past its start.
   */
  ghost predicate Finishes(st: State, start: bytes, stopped: bool, kept: seq<Output>, next: bytes) {
    exists pending: seq<Partial> :: FinishesWith(st, start, stopped, pending, kept, next)
  }

  ghost predicate FinishesWith(
    st: State, start: bytes, stopped: bool, pending: seq<Partial>, kept: seq<Output>, next: bytes
  ) {
    && IsPending(pending, st.partials)
    && if pending == [] then
         kept == st.outputs && next == AfterLast(st, start)
       else
         exists cut: bytes ::
           && IsCut(st.outputs, pending[0].firstKey, cut)
           && IsFirstKeyOr(st.outputs, pending[0].firstKey, cut)
           && if Breaks(st, start, stopped, cut) then
                kept == st.outputs + BrokenReports(pending) && next == AfterLast(st, start)
              else
                kept == EndingBefore(st.outputs, cut) && next == cut
  }
}
