/**
 What the assembler computes, said without its state: a run is the chunks 1, 2, ... of one transaction id, which are
 consecutive among the rows of that id, and an outcome is complete when its run reaches the total.
 */
module ProfileRuns {
  import opened ByteStrings
  import opened ProfileAssembly
  import opened ProfileKeys
  import opened Sequences
  import opened Wrappers

  /** The row that starts a run, the number of its chunks, their total, and their values in order. */
  datatype Run = Run(first: nat, length: nat, total: nat, blob: bytes)

  predicate Own(rows: seq<Row>, j: nat, id: Id)
    requires j < |rows|
  {
    var c := ParseChunkKey(rows[j].key);
    c.Some? && c.value.id == id
  }

  /** The last row of an id before `hi`. */
  function LastOwn(rows: seq<Row>, hi: nat, id: Id): (r: Option<nat>)
    requires hi <= |rows|
    ensures r.Some? ==> r.value < hi && Own(rows, r.value, id)
  {
    if hi == 0 then None else if Own(rows, hi - 1, id) then Some(hi - 1) else LastOwn(rows, hi - 1, id)
  }

  function StampOf(rows: seq<Row>, j: nat): Versionstamp
    requires j < |rows| && ParseChunkKey(rows[j].key).Some?
  {
    ParseChunkKey(rows[j].key).value.versionstamp
  }

  function IdOf(rows: seq<Row>, j: nat): Id
    requires j < |rows| && ParseChunkKey(rows[j].key).Some?
  {
    ParseChunkKey(rows[j].key).value.id
  }

  predicate Extends(run: Run, last: Versionstamp, c: ChunkKey) {
    run.length < run.total && c.total == run.total && c.chunk == run.length + 1 && Le(last, c.versionstamp)
  }

  /** The run whose last chunk so far is row `j`, among all the rows before it. */
  function RunAt(rows: seq<Row>, j: nat): (r: Option<Run>)
    requires j < |rows|
    ensures r.Some? ==>
              && r.value.first <= j && 1 <= r.value.length <= r.value.total
              && ParseChunkKey(rows[j].key).Some? && Own(rows, r.value.first, IdOf(rows, j))
    decreases j
  {
    match ParseChunkKey(rows[j].key)
    case None => None
    case Some(c) =>
      if c.chunk == 1 && c.total >= 1 then
        Some(Run(j, 1, c.total, rows[j].value))
      else
        match LastOwn(rows, j, c.id)
        case None => None
        case Some(i) =>
          match RunAt(rows, i)
          case None => None
          case Some(run) =>
            if Extends(run, StampOf(rows, i), c) then
              Some(run.(length := c.chunk, blob := run.blob + rows[j].value))
            else
              None
  }

  /** What is pending of an id after the rows from `lo` to `hi`. */
  function PendingOf(rows: seq<Row>, lo: nat, hi: nat, id: Id): Option<Partial>
    requires hi <= |rows|
  {
    match LastOwn(rows, hi, id)
    case None => None
    case Some(i) =>
      match RunAt(rows, i)
      case None => None
      case Some(run) =>
        if lo <= run.first && run.length < run.total then
          Some(Partial(rows[run.first].key, id, StampOf(rows, run.first), StampOf(rows, i),
                       run.total, run.length + 1, run.blob))
        else
          None
  }

  /** A run that is complete at row `j` and that a reader which began at row `lo` has seen whole. */
  predicate IsCompleteAt(rows: seq<Row>, lo: nat, j: nat)
    requires j < |rows|
  {
    var r := RunAt(rows, j);
    r.Some? && lo <= r.value.first && r.value.length == r.value.total
  }

  function CompleteOutput(rows: seq<Row>, j: nat): Output
    requires j < |rows| && RunAt(rows, j).Some?
  {
    var run := RunAt(rows, j).value;
    Output(rows[run.first].key, rows[j].key, Complete(StampOf(rows, run.first), IdOf(rows, j), run.blob))
  }

  /** The complete runs inside the rows from `lo` to `hi`, by their last rows. */
  function CompletesIn(rows: seq<Row>, lo: nat, hi: nat): seq<Output>
    requires lo <= hi <= |rows|
  {
    if lo == hi then []
    else
      var init := CompletesIn(rows, lo, hi - 1);
      if IsCompleteAt(rows, lo, hi - 1) then init + [CompleteOutput(rows, hi - 1)] else init
  }

  /** The complete ones of some outcomes. */
  function CompletesOf(outputs: seq<Output>): seq<Output> {
    if outputs == [] then []
    else
      var init := CompletesOf(outputs[..|outputs| - 1]);
      var last := outputs[|outputs| - 1];
      if last.assembled.Complete? then init + [last] else init
  }

  lemma CompletesOfNext(outputs: seq<Output>, o: Output)
    ensures CompletesOf(outputs + [o])
         == if o.assembled.Complete? then CompletesOf(outputs) + [o] else CompletesOf(outputs)
  {
    assert (outputs + [o])[..|outputs|] == outputs;
  }

  lemma {:induction false} CompletesOfConcat(a: seq<Output>, b: seq<Output>)
    ensures CompletesOf(a + b) == CompletesOf(a) + CompletesOf(b)
  {
    if b == [] {
      Empty(a);
    } else {
      var n := |b| - 1;
      Unsnoc(b);
      Assoc(a, b[..n], [b[n]]);
      CompletesOfConcat(a, b[..n]);
      CompletesOfNext(a + b[..n], b[n]);
      Assoc(CompletesOf(a), CompletesOf(b[..n]), [b[n]]);
    }
  }

  /** Replacing a report of a broken transaction by another one changes no complete outcome. */
  lemma {:induction false} CompletesOfReplaced(outputs: seq<Output>, i: nat, o: Output)
    requires i < |outputs| && outputs[i].assembled.Broken? && o.assembled.Broken?
    ensures CompletesOf(outputs[i := o]) == CompletesOf(outputs)
  {
    var n := |outputs| - 1;
    if i < n {
      assert outputs[i := o][..n] == outputs[..n][i := o];
      CompletesOfReplaced(outputs[..n], i, o);
    } else {
      assert outputs[i := o][..n] == outputs[..n];
    }
  }

  // ---------- broken transactions ----------

  /** No id is both pending and broken, and the broken ones point at their reports. */
  ghost predicate BrokenAreReported(st: State) {
    && st.partials.Keys !! st.broken.Keys
    && (forall id :: id in st.broken ==>
          && st.broken[id] < |st.outputs|
          && st.outputs[st.broken[id]].assembled.Broken? && st.outputs[st.broken[id]].assembled.id == id)
  }

  lemma ReportedKeeps(st: State, firstKey: bytes, versionstamp: Versionstamp, id: Id, key: bytes)
    requires BrokenAreReported(st) && id !in st.partials
    ensures var r := Reported(st, firstKey, versionstamp, id, key);
            && BrokenAreReported(r) && r.partials == st.partials && r.lastKey == st.lastKey
            && CompletesOf(r.outputs) == CompletesOf(st.outputs)
            && (forall o :: o in r.outputs ==>
                  o.firstKey == firstKey || exists p :: p in st.outputs && p.firstKey == o.firstKey)
  {
    if id in st.broken {
      var i := st.broken[id];
      CompletesOfReplaced(st.outputs, i, st.outputs[i].(lastKey := key));
      assert st.outputs[i] in st.outputs;
    } else {
      CompletesOfNext(st.outputs, Output(firstKey, key, Broken(versionstamp, id)));
    }
  }

  /** What a row that continues nothing does to the pending transactions and the complete outcomes. */
  lemma StartedKeeps(st: State, c: ChunkKey, key: bytes, value: bytes)
    requires BrokenAreReported(st) && c.id !in st.partials
    ensures var r := Started(st, c, key, value);
            && BrokenAreReported(r) && r.lastKey == st.lastKey
            && r.partials == (
                 if c.chunk == 1 && c.total > 1 then
                   st.partials[c.id := Partial(key, c.id, c.versionstamp, c.versionstamp, c.total, 2, value)]
                 else
                   st.partials)
            && CompletesOf(r.outputs) == (
                 if c.chunk == 1 && c.total == 1 then
                   CompletesOf(st.outputs) + [Output(key, key, Complete(c.versionstamp, c.id, value))]
                 else
                   CompletesOf(st.outputs))
            && (forall o :: o in r.outputs ==>
                  o.firstKey == key || exists p :: p in st.outputs && p.firstKey == o.firstKey)
  {
    hide CompletesOf;
    var st' := if c.chunk == 1 && c.total >= 1 then st.(broken := st.broken - {c.id}) else st;
    if c.chunk == 1 && c.total == 1 {
      CompletesOfNext(st.outputs, Output(key, key, Complete(c.versionstamp, c.id, value)));
    } else if !(c.chunk == 1 && c.total > 1) {
      ReportedKeeps(st', key, c.versionstamp, c.id, key);
    }
  }

  // ---------- the assembler computes runs ----------

  /** The state after the rows from `lo` to `hi`, in terms of the runs among them. */
  ghost predicate Describes(rows: seq<Row>, lo: nat, hi: nat, st: State)
    requires lo <= hi <= |rows|
  {
    && BrokenAreReported(st)
    && (forall id :: id in st.partials <==> PendingOf(rows, lo, hi, id).Some?)
    && (forall id :: id in st.partials ==> st.partials[id] == PendingOf(rows, lo, hi, id).value)
    && CompletesOf(st.outputs) == CompletesIn(rows, lo, hi)
    && (forall o :: o in st.outputs ==> exists m :: lo <= m < hi && rows[m].key == o.firstKey)
    && st.lastKey == (if lo == hi then None else Some(rows[hi - 1].key))
  }

  lemma OthersUnmoved(rows: seq<Row>, lo: nat, hi: nat, id: Id)
    requires lo <= hi < |rows| && !Own(rows, hi, id)
    ensures PendingOf(rows, lo, hi + 1, id) == PendingOf(rows, lo, hi, id)
  {
  }

  /** A row that continues a pending transaction. */
  lemma ContinuingRun(rows: seq<Row>, lo: nat, hi: nat, c: ChunkKey, p: Partial)
    requires lo <= hi < |rows| && ParseChunkKey(rows[hi].key) == Some(c)
    requires PendingOf(rows, lo, hi, c.id) == Some(p) && Continues(p, c)
    ensures PendingOf(rows, lo, hi + 1, c.id)
         == if c.chunk == p.total then None
            else Some(p.(nextChunk := p.nextChunk + 1, lastVersionstamp := c.versionstamp,
                         blob := p.blob + rows[hi].value))
    ensures IsCompleteAt(rows, lo, hi) <==> c.chunk == p.total
    ensures c.chunk == p.total ==>
              CompleteOutput(rows, hi)
              == Output(p.firstKey, rows[hi].key, Complete(p.versionstamp, c.id, p.blob + rows[hi].value))
  {
    hide ParseChunkKey, CmpBytes;
  }

  /** A row that continues nothing. */
  lemma StartingRun(rows: seq<Row>, lo: nat, hi: nat, c: ChunkKey)
    requires lo <= hi < |rows| && ParseChunkKey(rows[hi].key) == Some(c)
    requires var p := PendingOf(rows, lo, hi, c.id); p.Some? ==> !Continues(p.value, c)
    ensures PendingOf(rows, lo, hi + 1, c.id)
         == if c.chunk == 1 && c.total > 1
            then Some(Partial(rows[hi].key, c.id, c.versionstamp, c.versionstamp, c.total, 2, rows[hi].value))
            else None
    ensures IsCompleteAt(rows, lo, hi) <==> c.chunk == 1 && c.total == 1
    ensures c.chunk == 1 && c.total == 1 ==>
              CompleteOutput(rows, hi)
              == Output(rows[hi].key, rows[hi].key, Complete(c.versionstamp, c.id, rows[hi].value))
  {
    hide ParseChunkKey, CmpBytes;
  }

  lemma NextContinuing(rows: seq<Row>, lo: nat, hi: nat, st: State, c: ChunkKey)
    requires lo <= hi < |rows| && ParseChunkKey(rows[hi].key) == Some(c)
    requires Describes(rows, lo, hi, st) && c.id in st.partials && Continues(st.partials[c.id], c)
    ensures Describes(rows, lo, hi + 1, Pushed(st, rows[hi]))
  {
    hide PendingOf, CompletesOf, IsCompleteAt, CompleteOutput, Continues, RunAt, LastOwn, Started, ParseChunkKey,
      CmpBytes;
    var p := st.partials[c.id];
    ContinuingRun(rows, lo, hi, c, p);
    FirstKeyOfPending(rows, lo, hi, c.id);
    var o := Output(p.firstKey, rows[hi].key, Complete(p.versionstamp, c.id, p.blob + rows[hi].value));
    CompletesOfNext(st.outputs, o);
    forall id | id != c.id ensures PendingOf(rows, lo, hi + 1, id) == PendingOf(rows, lo, hi, id) {
      OthersUnmoved(rows, lo, hi, id);
    }
  }

  lemma NextStarting(rows: seq<Row>, lo: nat, hi: nat, st: State, c: ChunkKey)
    requires lo <= hi < |rows| && ParseChunkKey(rows[hi].key) == Some(c)
    requires Describes(rows, lo, hi, st) && (c.id in st.partials ==> !Continues(st.partials[c.id], c))
    ensures Describes(rows, lo, hi + 1, Pushed(st, rows[hi]))
  {
    hide PendingOf, CompletesOf, IsCompleteAt, CompleteOutput, Continues, Started, Reported, RunAt, LastOwn,
      ParseChunkKey, CmpBytes, BrokenAreReported;
    StartingRun(rows, lo, hi, c);
    var key, value := rows[hi].key, rows[hi].value;
    var before := st.(lastKey := Some(key));
    if c.id in st.partials {
      var p := st.partials[c.id];
      FirstKeyOfPending(rows, lo, hi, c.id);
      var removed := before.(partials := st.partials - {c.id});
      RemovedKeeps(st, c.id, removed);
      ReportedKeeps(removed, p.firstKey, p.versionstamp, c.id, key);
      before := Reported(removed, p.firstKey, p.versionstamp, c.id, key);
    }
    assert BrokenAreReported(before) by {
      if c.id !in st.partials {
        RemovedKeeps(st, c.id, before);
      }
    }
    StartedKeeps(before, c, key, value);
    forall id | id != c.id ensures PendingOf(rows, lo, hi + 1, id) == PendingOf(rows, lo, hi, id) {
      OthersUnmoved(rows, lo, hi, id);
    }
  }

  lemma RemovedKeeps(st: State, id: Id, removed: State)
    requires BrokenAreReported(st) && removed.partials == st.partials - {id}
    requires removed.broken == st.broken && removed.outputs == st.outputs
    ensures BrokenAreReported(removed)
  {
  }

  lemma FirstKeyOfPending(rows: seq<Row>, lo: nat, hi: nat, id: Id)
    requires lo <= hi <= |rows| && PendingOf(rows, lo, hi, id).Some?
    ensures exists m :: lo <= m < hi && rows[m].key == PendingOf(rows, lo, hi, id).value.firstKey
  {
    var i := LastOwn(rows, hi, id).value;
    var run := RunAt(rows, i).value;
    assert rows[run.first].key == PendingOf(rows, lo, hi, id).value.firstKey;
  }

  lemma NextUnparsed(rows: seq<Row>, lo: nat, hi: nat, st: State)
    requires lo <= hi < |rows| && ParseChunkKey(rows[hi].key).None? && Describes(rows, lo, hi, st)
    ensures Describes(rows, lo, hi + 1, Pushed(st, rows[hi]))
  {
    hide PendingOf, CompletesOf;
    forall id ensures PendingOf(rows, lo, hi + 1, id) == PendingOf(rows, lo, hi, id) {
      OthersUnmoved(rows, lo, hi, id);
    }
  }

  lemma NextRow(rows: seq<Row>, lo: nat, hi: nat, st: State)
    requires lo <= hi < |rows| && Describes(rows, lo, hi, st)
    ensures Describes(rows, lo, hi + 1, Pushed(st, rows[hi]))
  {
    hide Describes, Continues, Pushed, ParseChunkKey;
    match ParseChunkKey(rows[hi].key)
    case None =>
      NextUnparsed(rows, lo, hi, st);
    case Some(c) =>
      if c.id in st.partials && Continues(st.partials[c.id], c) {
        NextContinuing(rows, lo, hi, st, c);
      } else {
        NextStarting(rows, lo, hi, st, c);
      }
  }

  lemma NothingRead(rows: seq<Row>, lo: nat)
    requires lo <= |rows|
    ensures Describes(rows, lo, lo, EMPTY)
  {
  }

  /** After any rows, the assembler holds exactly the runs that are incomplete and has output the complete ones. */
  lemma {:induction false} AssemblerComputesRuns(rows: seq<Row>, lo: nat, hi: nat)
    requires lo <= hi <= |rows|
    ensures Describes(rows, lo, hi, Fed(rows, lo, hi))
  {
    hide Describes, Pushed;
    if lo == hi {
      NothingRead(rows, lo);
    } else {
      AssemblerComputesRuns(rows, lo, hi - 1);
      NextRow(rows, lo, hi - 1, Fed(rows, lo, hi - 1));
    }
  }

  // ---------- runs, said row by row ----------

  predicate Sorted(rows: seq<Row>) {
    forall i, j :: 0 <= i < j < |rows| ==> Lt(rows[i].key, rows[j].key)
  }

  function ChunkOf(rows: seq<Row>, j: nat): Option<ChunkKey> {
    if j < |rows| then ParseChunkKey(rows[j].key) else None
  }

  predicate AreChunks(rows: seq<Row>, indexes: seq<nat>) {
    forall k :: 0 <= k < |indexes| ==> indexes[k] < |rows| && ParseChunkKey(rows[indexes[k]].key).Some?
  }

  /** Rows of one id, with no row of that id between them, numbered 1, 2, ... up to a total they agree on. */
  ghost predicate IsNumbered(rows: seq<Row>, numbered: seq<nat>) {
    && numbered != []
    && AreChunks(rows, numbered)
    && var c := ChunkOf(rows, numbered[0]).value;
    && |numbered| <= c.total
    && (forall k :: 0 <= k < |numbered| ==>
          var d := ChunkOf(rows, numbered[k]).value; d.id == c.id && d.total == c.total && d.chunk == k + 1)
    && (forall k :: 1 <= k < |numbered| ==> IsPrevious(rows, numbered[k - 1], numbered[k], c.id))
  }

  ghost predicate IsPrevious(rows: seq<Row>, i: nat, j: nat, id: Id) {
    i < j <= |rows| && forall m: nat :: i < m < j ==> !Own(rows, m, id)
  }

  /** The versionstamps do not decrease along the rows. */
  ghost predicate StampsInOrder(rows: seq<Row>, numbered: seq<nat>)
    requires IsNumbered(rows, numbered)
  {
    forall k :: 1 <= k < |numbered| ==> Le(StampOf(rows, numbered[k - 1]), StampOf(rows, numbered[k]))
  }

  function Joined(rows: seq<Row>, numbered: seq<nat>): bytes
    requires AreChunks(rows, numbered)
  {
    if numbered == [] then []
    else Joined(rows, numbered[..|numbered| - 1]) + rows[numbered[|numbered| - 1]].value
  }

  /** The run of numbered rows. */
  function RunOver(rows: seq<Row>, numbered: seq<nat>): Run
    requires numbered != [] && AreChunks(rows, numbered)
  {
    Run(numbered[0], |numbered|, ChunkOf(rows, numbered[0]).value.total, Joined(rows, numbered))
  }

  lemma {:induction false} LastOwnIsPrevious(rows: seq<Row>, hi: nat, id: Id, i: nat)
    requires hi <= |rows|
    ensures LastOwn(rows, hi, id) == Some(i) <==> i < hi && Own(rows, i, id) && IsPrevious(rows, i, hi, id)
  {
    hide Own;
    if hi > 0 && !Own(rows, hi - 1, id) {
      LastOwnIsPrevious(rows, hi - 1, id, i);
    }
  }

  lemma FewerNumbered(rows: seq<Row>, numbered: seq<nat>)
    requires IsNumbered(rows, numbered) && |numbered| > 1
    ensures IsNumbered(rows, numbered[..|numbered| - 1])
    ensures StampsInOrder(rows, numbered) ==> StampsInOrder(rows, numbered[..|numbered| - 1])
  {
    hide ParseChunkKey, CmpBytes, IsPrevious;
  }

  /** The rows of a numbered sequence form the run of its last row. */
  lemma {:induction false} NumberedIsRun(rows: seq<Row>, numbered: seq<nat>)
    requires IsNumbered(rows, numbered) && StampsInOrder(rows, numbered)
    ensures RunAt(rows, numbered[|numbered| - 1]) == Some(RunOver(rows, numbered))
    decreases |numbered|
  {
    hide ParseChunkKey, CmpBytes, LastOwn;
    var n := |numbered| - 1;
    var c := ChunkOf(rows, numbered[n]).value;
    if n == 0 {
      Empty(rows[numbered[0]].value);
      assert Joined(rows, numbered[..0]) == [];
    } else {
      var shorter := numbered[..n];
      FewerNumbered(rows, numbered);
      NumberedIsRun(rows, shorter);
      LastOwnIsPrevious(rows, numbered[n], c.id, numbered[n - 1]);
      assert Extends(RunOver(rows, shorter), StampOf(rows, numbered[n - 1]), c);
    }
  }

  /** Every run consists of numbered rows. */
  lemma {:induction false} RunIsNumbered(rows: seq<Row>, j: nat) returns (numbered: seq<nat>)
    requires j < |rows| && RunAt(rows, j).Some?
    ensures IsNumbered(rows, numbered) && StampsInOrder(rows, numbered)
    ensures numbered[|numbered| - 1] == j && RunOver(rows, numbered) == RunAt(rows, j).value
    decreases j
  {
    hide ParseChunkKey, CmpBytes, LastOwn, IsPrevious;
    var c := ParseChunkKey(rows[j].key).value;
    if c.chunk == 1 && c.total >= 1 {
      numbered := [j];
      Empty(rows[j].value);
      assert numbered[..0] == [];
      assert Joined(rows, numbered) == [] + rows[j].value;
    } else {
      var i := LastOwn(rows, j, c.id).value;
      LastOwnIsPrevious(rows, j, c.id, i);
      var shorter := RunIsNumbered(rows, i);
      numbered := shorter + [j];
      assert numbered[..|shorter|] == shorter;
    }
  }

  lemma SortedStamps(rows: seq<Row>, numbered: seq<nat>)
    requires Sorted(rows) && IsNumbered(rows, numbered)
    ensures StampsInOrder(rows, numbered)
  {
    hide ParseChunkKey, CmpBytes;
    forall k | 1 <= k < |numbered|
      ensures Le(StampOf(rows, numbered[k - 1]), StampOf(rows, numbered[k]))
    {
      var a, b := rows[numbered[k - 1]].key, rows[numbered[k]].key;
      assert IsPrevious(rows, numbered[k - 1], numbered[k], ChunkOf(rows, numbered[0]).value.id);
      LtTotal(a, b);
      KeyOrderIsStampOrder(a, b);
    }
  }

  /** The outcome of numbered rows that reach their total. */
  function OutcomeOver(rows: seq<Row>, numbered: seq<nat>): Output
    requires numbered != [] && AreChunks(rows, numbered)
  {
    var c := ChunkOf(rows, numbered[0]).value;
    Output(rows[numbered[0]].key, rows[numbered[|numbered| - 1]].key,
           Complete(c.versionstamp, c.id, Joined(rows, numbered)))
  }

  /** Numbered rows from `lo` to `hi` that reach their total, and their outcome. */
  ghost predicate IsWhole(rows: seq<Row>, lo: nat, hi: nat, numbered: seq<nat>, o: Output) {
    && IsNumbered(rows, numbered)
    && |numbered| == ChunkOf(rows, numbered[0]).value.total
    && lo <= numbered[0] && numbered[|numbered| - 1] < hi
    && o == OutcomeOver(rows, numbered)
  }

  lemma {:induction false} InCompletes(rows: seq<Row>, lo: nat, hi: nat, o: Output)
    requires lo <= hi <= |rows|
    ensures o in CompletesIn(rows, lo, hi) <==>
            exists j :: lo <= j < hi && IsCompleteAt(rows, lo, j) && o == CompleteOutput(rows, j)
  {
    hide IsCompleteAt, CompleteOutput;
    if lo < hi {
      InCompletes(rows, lo, hi - 1, o);
    }
  }

  /**
   Over rows in key order, the complete outcomes are exactly those of the rows of an id that are consecutive among its
   rows, number 1 to their total and agree on it; each joins the values of its rows.
   */
  lemma CompleteExactlyForNumberedRows(rows: seq<Row>, lo: nat, hi: nat, o: Output)
    requires Sorted(rows) && lo <= hi <= |rows|
    ensures o in CompletesOf(Fed(rows, lo, hi).outputs) <==> exists numbered :: IsWhole(rows, lo, hi, numbered, o)
  {
    hide CompletesOf, Fed, CompletesIn, IsNumbered, RunAt, ParseChunkKey, Joined, CmpBytes;
    assert CompletesOf(Fed(rows, lo, hi).outputs) == CompletesIn(rows, lo, hi) by {
      AssemblerComputesRuns(rows, lo, hi);
    }
    InCompletes(rows, lo, hi, o);
    if o in CompletesIn(rows, lo, hi) {
      var j :| lo <= j < hi && IsCompleteAt(rows, lo, j) && o == CompleteOutput(rows, j);
      var numbered := RunIsNumbered(rows, j);
      WholeOutcome(rows, numbered);
      assert IsWhole(rows, lo, hi, numbered, o);
    }
    if numbered :| IsWhole(rows, lo, hi, numbered, o) {
      SortedStamps(rows, numbered);
      NumberedIsRun(rows, numbered);
      WholeOutcome(rows, numbered);
    }
  }

  lemma WholeOutcome(rows: seq<Row>, numbered: seq<nat>)
    requires IsNumbered(rows, numbered)
    requires RunAt(rows, numbered[|numbered| - 1]) == Some(RunOver(rows, numbered))
    ensures CompleteOutput(rows, numbered[|numbered| - 1]) == OutcomeOver(rows, numbered)
    ensures forall k :: 0 <= k < |numbered| ==> numbered[0] <= numbered[k] <= numbered[|numbered| - 1] < |rows|
  {
    hide RunAt, ParseChunkKey, Joined, CmpBytes;
    Increasing(rows, numbered);
  }

  lemma {:induction false} Increasing(rows: seq<Row>, numbered: seq<nat>)
    requires IsNumbered(rows, numbered)
    ensures forall k :: 0 <= k < |numbered| ==> numbered[0] <= numbered[k] <= numbered[|numbered| - 1] < |rows|
    decreases |numbered|
  {
    hide ParseChunkKey, CmpBytes;
    var n := |numbered| - 1;
    if n > 0 {
      FewerNumbered(rows, numbered);
      Increasing(rows, numbered[..n]);
      assert numbered[..n][n - 1] == numbered[n - 1];
      assert forall k :: 0 <= k < n ==> numbered[..n][k] == numbered[k];
    }
  }

  predicate ByLastKeys(outputs: seq<Output>) {
    forall i, j :: 0 <= i < j < |outputs| ==> Lt(outputs[i].lastKey, outputs[j].lastKey)
  }

  /** Complete outcomes come in the order of their last rows, each once. */
  lemma CompletesInOrder(rows: seq<Row>, lo: nat, hi: nat)
    requires Sorted(rows) && lo <= hi <= |rows|
    ensures ByLastKeys(CompletesOf(Fed(rows, lo, hi).outputs))
  {
    hide CompletesOf, Fed, CompletesIn, ByLastKeys;
    assert CompletesOf(Fed(rows, lo, hi).outputs) == CompletesIn(rows, lo, hi) by {
      AssemblerComputesRuns(rows, lo, hi);
    }
    CompletesIncrease(rows, lo, hi);
  }

  lemma {:induction false} CompletesIncrease(rows: seq<Row>, lo: nat, hi: nat)
    requires Sorted(rows) && lo <= hi <= |rows|
    ensures ByLastKeys(CompletesIn(rows, lo, hi))
  {
    hide CmpBytes, IsCompleteAt, RunAt, ParseChunkKey;
    if lo < hi {
      CompletesIncrease(rows, lo, hi - 1);
      var init := CompletesIn(rows, lo, hi - 1);
      forall i | 0 <= i < |init|
        ensures Lt(init[i].lastKey, rows[hi - 1].key)
      {
        InCompletes(rows, lo, hi - 1, init[i]);
      }
    }
  }
}
