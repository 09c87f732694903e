/** What a transaction attempt used, and the budget that limits it. Times are milliseconds, `now` a clock reading. */
module Usage {
  import opened Sequences
  import opened Wrappers

  /** One operation, as it is recorded: reads when they resolve, writes when they are issued. */
  datatype Op =
    | Get(bytes: nat, keysValues: nat)
    | GetRange(bytes: nat, keysValues: nat)
    | Set(bytes: nat)
    | Clear(bytes: nat)
    | ClearRange(bytes: nat)
    | AtomicOp(bytes: nat)
  {
    predicate IsRead() {
      Get? || GetRange?
    }
  }

  datatype Counters = Counters(
    bytesRead: nat,
    bytesWritten: nat,
    keysValuesFetched: nat,
    callGet: nat,
    callGetRange: nat,
    callSet: nat,
    callClear: nat,
    callClearRange: nat,
    callAtomicOp: nat)
  {
    function Plus(c: Counters): Counters {
      Counters(bytesRead + c.bytesRead, bytesWritten + c.bytesWritten, keysValuesFetched + c.keysValuesFetched,
               callGet + c.callGet, callGetRange + c.callGetRange, callSet + c.callSet, callClear + c.callClear,
               callClearRange + c.callClearRange, callAtomicOp + c.callAtomicOp)
    }
  }

  const ZERO: Counters := Counters(0, 0, 0, 0, 0, 0, 0, 0, 0)

  // ---------- what recorded operations amount to ----------

  /** What one operation counts for: its bytes on the side it is on, the pairs it read, and one call of its kind. */
  function CountersOf(op: Op): Counters {
    Counters(
      if op.IsRead() then op.bytes else 0,
      if op.IsRead() then 0 else op.bytes,
      if op.IsRead() then op.keysValues else 0,
      if op.Get? then 1 else 0,
      if op.GetRange? then 1 else 0,
      if op.Set? then 1 else 0,
      if op.Clear? then 1 else 0,
      if op.ClearRange? then 1 else 0,
      if op.AtomicOp? then 1 else 0)
  }

  function Tally(ops: seq<Op>): Counters {
    if ops == [] then ZERO else Tally(ops[..|ops| - 1]).Plus(CountersOf(ops[|ops| - 1]))
  }

  lemma NothingTallied()
    ensures Tally([]) == ZERO
  {
  }

  lemma TallyNext(ops: seq<Op>, op: Op)
    ensures Tally(ops + [op]) == Tally(ops).Plus(CountersOf(op))
  {
    assert (ops + [op])[..|ops|] == ops;
  }

  /** The order in which operations resolve does not matter to the counters. */
  lemma TallyOfConcat(a: seq<Op>, b: seq<Op>)
    ensures Tally(a + b) == Tally(a).Plus(Tally(b)) == Tally(b + a)
  {
    TallyConcat(a, b);
    TallyConcat(b, a);
  }

  lemma {:induction false} TallyConcat(a: seq<Op>, b: seq<Op>)
    ensures Tally(a + b) == Tally(a).Plus(Tally(b))
  {
    hide CountersOf;
    if b == [] {
      Empty(a);
    } else {
      var n := |b| - 1;
      Unsnoc(b);
      Assoc(a, b[..n], [b[n]]);
      TallyConcat(a, b[..n]);
      TallyNext(a + b[..n], b[n]);
    }
  }

  /** Only which operations there were matters to the counters. */
  lemma {:induction false} TallyOfMultiset(a: seq<Op>, b: seq<Op>)
    requires multiset(a) == multiset(b)
    ensures Tally(a) == Tally(b)
    decreases |a|
  {
    hide Tally, CountersOf;
    if a == [] {
      NoOperations(b);
    } else {
      var n := |a| - 1;
      var x := a[n];
      Unsnoc(a);
      var front, rest := WithoutOne(a[..n], x, b);
      TallyOfMultiset(a[..n], front + rest);
      TallyConcat(front, [x] + rest);
      TallyConcat([x], rest);
      TallyConcat(front, rest);
      TallyConcat(a[..n], [x]);
    }
  }

  lemma WithoutOne<T>(a: seq<T>, x: T, b: seq<T>) returns (front: seq<T>, rest: seq<T>)
    requires multiset(a + [x]) == multiset(b)
    ensures b == front + ([x] + rest) && multiset(a) == multiset(front + rest)
  {
    assert x in multiset(b);
    var i :| 0 <= i < |b| && b[i] == x;
    front, rest := b[..i], b[i + 1..];
    assert b == front + ([x] + rest);
    assert multiset(b) == multiset(front) + (multiset([x]) + multiset(rest));
    assert multiset(a + [x]) == multiset(a) + multiset([x]);
    Cancel(multiset(a), multiset(front), multiset([x]), multiset(rest));
    assert multiset(front + rest) == multiset(front) + multiset(rest);
  }

  lemma Cancel<T>(a: multiset<T>, b: multiset<T>, x: multiset<T>, c: multiset<T>)
    requires a + x == b + (x + c)
    ensures a == b + c
  {
    forall y | y in a + (b + c) ensures a[y] == (b + c)[y] {
      assert (a + x)[y] == (b + (x + c))[y];
    }
  }

  lemma NoOperations(b: seq<Op>)
    requires multiset(b) == multiset{}
    ensures b == []
  {
    assert |multiset(b)| == |b|;
  }

  // ---------- counter by counter ----------

  /** The sum of an amount over operations. */
  function SumOver(ops: seq<Op>, amount: Op -> nat): nat {
    if ops == [] then 0 else SumOver(ops[..|ops| - 1], amount) + amount(ops[|ops| - 1])
  }

  /** The number of operations of a kind. */
  function CountOf(ops: seq<Op>, isOf: Op -> bool): nat {
    if ops == [] then 0 else CountOf(ops[..|ops| - 1], isOf) + if isOf(ops[|ops| - 1]) then 1 else 0
  }

  /** What each counter says of the operations that were recorded. */
  lemma {:induction false} CountersAre(ops: seq<Op>)
    ensures var c := Tally(ops);
            && c.bytesRead
            == SumOver(ops, (op: Op) => match op case Get(b, _) => b case GetRange(b, _) => b case _ => 0)
            && c.bytesWritten == SumOver(ops, (op: Op) =>
                 match op case Set(b) => b case Clear(b) => b case ClearRange(b) => b case AtomicOp(b) => b case _ => 0)
            && c.keysValuesFetched
            == SumOver(ops, (op: Op) => match op case Get(_, n) => n case GetRange(_, n) => n case _ => 0)
            && c.callGet == CountOf(ops, (op: Op) => op.Get?)
            && c.callGetRange == CountOf(ops, (op: Op) => op.GetRange?)
            && c.callSet == CountOf(ops, (op: Op) => op.Set?) && c.callClear == CountOf(ops, (op: Op) => op.Clear?)
            && c.callClearRange == CountOf(ops, (op: Op) => op.ClearRange?)
            && c.callAtomicOp == CountOf(ops, (op: Op) => op.AtomicOp?)
  {
    if ops != [] {
      CountersAre(ops[..|ops| - 1]);
    }
  }

  // ---------- a generation of usage ----------

  datatype MetricKey = MetricKey(name: string, labels: seq<(string, string)>)

  /** What is done to an application metric. */
  datatype Note = Replaced(key: MetricKey, value: nat) | Added(key: MetricKey, amount: nat)

  /** The value of a metric after some notes, none when nothing was noted of it. */
  function ValueOf(notes: seq<Note>, key: MetricKey): Option<nat> {
    if notes == [] then None
    else
      var before := ValueOf(notes[..|notes| - 1], key);
      match notes[|notes| - 1]
      case Replaced(k, value) => if k == key then Some(value) else before
      case Added(k, amount) => if k == key then Some(OrZero(before) + amount) else before
  }

  function OrZero(value: Option<nat>): nat {
    if value.Some? then value.value else 0
  }

  /** What the increments among some notes add to a metric. */
  function AmountsOf(notes: seq<Note>, key: MetricKey): nat {
    if notes == [] then 0
    else
      var last := notes[|notes| - 1];
      AmountsOf(notes[..|notes| - 1], key) + if last.Added? && last.key == key then last.amount else 0
  }

  lemma {:induction false} AmountsOfConcat(a: seq<Note>, b: seq<Note>, key: MetricKey)
    ensures AmountsOf(a + b, key) == AmountsOf(a, key) + AmountsOf(b, key)
  {
    if b == [] {
      Empty(a);
    } else {
      var n := |b| - 1;
      Unsnoc(b);
      assert (a + b)[..|a + b| - 1] == a + b[..n];
      AmountsOfConcat(a, b[..n], key);
    }
  }

  /**
   Increments of a metric add up, in whatever order, to the value it had before them, or to zero. What was noted of it
   before it was last replaced does not matter.
   */
  lemma {:induction false} IncrementsAddUp(before: seq<Note>, more: seq<Note>, key: MetricKey)
    requires forall i :: 0 <= i < |more| ==> !(more[i].Replaced? && more[i].key == key)
    ensures OrZero(ValueOf(before + more, key)) == OrZero(ValueOf(before, key)) + AmountsOf(more, key)
    ensures ValueOf(before + more, key).Some? <==>
            ValueOf(before, key).Some? || exists i :: 0 <= i < |more| && more[i].key == key
  {
    if more == [] {
      Empty(before);
    } else {
      var n := |more| - 1;
      assert (before + more)[..|before + more| - 1] == before + more[..n];
      IncrementsAddUp(before, more[..n], key);
      if i :| 0 <= i < |more| && more[i].key == key {
        assert i < n ==> more[..n][i].key == key;
      }
    }
  }

  lemma ValueSinceReplaced(before: seq<Note>, value: nat, more: seq<Note>, key: MetricKey)
    requires forall i :: 0 <= i < |more| ==> !(more[i].Replaced? && more[i].key == key)
    ensures ValueOf(before + [Replaced(key, value)] + more, key) == Some(value + AmountsOf(more, key))
  {
    hide ValueOf, AmountsOf;
    ReplacedNow(before, value, key);
    IncrementsAddUp(before + [Replaced(key, value)], more, key);
  }

  lemma ReplacedNow(before: seq<Note>, value: nat, key: MetricKey)
    ensures ValueOf(before + [Replaced(key, value)], key) == Some(value)
  {
  }

  /** The metrics of an attempt are the values of its notes. */
  ghost predicate AreValuesOf(custom: map<MetricKey, nat>, notes: seq<Note>) {
    && (forall key :: key in custom <==> ValueOf(notes, key).Some?)
    && (forall key :: key in custom ==> custom[key] == ValueOf(notes, key).value)
  }

  lemma NotedNext(custom: map<MetricKey, nat>, notes: seq<Note>, note: Note)
    requires AreValuesOf(custom, notes)
    ensures var value := match note
              case Replaced(_, value) => value
              case Added(key, amount) => (if key in custom then custom[key] else 0) + amount;
            AreValuesOf(custom[note.key := value], notes + [note])
  {
    assert (notes + [note])[..|notes|] == notes;
  }

  datatype UsageSnapshot = UsageSnapshot(elapsed: nat, counters: Counters)

  /** A clock that goes backwards yields zero. */
  function Since(start: nat, now: nat): nat {
    if now < start then 0 else now - start
  }

  class AttemptUsage {
    const startedAt: nat
    var bytesRead: nat
    var bytesWritten: nat
    var keysValuesFetched: nat
    var callGet: nat
    var callGetRange: nat
    var callSet: nat
    var callClear: nat
    var callClearRange: nat
    var callAtomicOp: nat
    var custom: map<MetricKey, nat>
    /** The operations recorded so far. */
    ghost var recorded: seq<Op>
    /** What was done to the application metrics so far. */
    ghost var notes: seq<Note>

    function Counts(): Counters
      reads this
    {
      Counters(bytesRead, bytesWritten, keysValuesFetched, callGet, callGetRange, callSet, callClear, callClearRange,
               callAtomicOp)
    }

    ghost predicate Valid()
      reads this
    {
      Counts() == Tally(recorded) && AreValuesOf(custom, notes)
    }

    constructor (now: nat)
      ensures Valid() && recorded == [] && notes == [] && startedAt == now
    {
      startedAt := now;
      bytesRead, bytesWritten, keysValuesFetched := 0, 0, 0;
      callGet, callGetRange, callSet, callClear, callClearRange, callAtomicOp := 0, 0, 0, 0, 0, 0;
      custom, recorded, notes := map[], [], [];
    }

    function Elapsed(now: nat): nat {
      Since(startedAt, now)
    }

    function Snapshot(now: nat): UsageSnapshot
      reads this
    {
      UsageSnapshot(Elapsed(now), Counts())
    }

    method RecordGet(bytes: nat, keysValues: nat)
      requires Valid()
      modifies this
      ensures Valid() && recorded == old(recorded) + [Get(bytes, keysValues)] && notes == old(notes)
    {
      hide Tally, AreValuesOf;
      TallyNext(recorded, Get(bytes, keysValues));
      bytesRead := bytesRead + bytes;
      keysValuesFetched := keysValuesFetched + keysValues;
      callGet := callGet + 1;
      recorded := recorded + [Get(bytes, keysValues)];
    }

    method RecordGetRange(bytes: nat, keysValues: nat)
      requires Valid()
      modifies this
      ensures Valid() && recorded == old(recorded) + [GetRange(bytes, keysValues)] && notes == old(notes)
    {
      hide Tally, AreValuesOf;
      TallyNext(recorded, GetRange(bytes, keysValues));
      bytesRead := bytesRead + bytes;
      keysValuesFetched := keysValuesFetched + keysValues;
      callGetRange := callGetRange + 1;
      recorded := recorded + [GetRange(bytes, keysValues)];
    }

    method RecordSet(bytes: nat)
      requires Valid()
      modifies this
      ensures Valid() && recorded == old(recorded) + [Set(bytes)] && notes == old(notes)
    {
      hide Tally, AreValuesOf;
      TallyNext(recorded, Set(bytes));
      bytesWritten := bytesWritten + bytes;
      callSet := callSet + 1;
      recorded := recorded + [Set(bytes)];
    }

    method RecordClear(bytes: nat)
      requires Valid()
      modifies this
      ensures Valid() && recorded == old(recorded) + [Clear(bytes)] && notes == old(notes)
    {
      hide Tally, AreValuesOf;
      TallyNext(recorded, Clear(bytes));
      bytesWritten := bytesWritten + bytes;
      callClear := callClear + 1;
      recorded := recorded + [Clear(bytes)];
    }

    method RecordClearRange(bytes: nat)
      requires Valid()
      modifies this
      ensures Valid() && recorded == old(recorded) + [ClearRange(bytes)] && notes == old(notes)
    {
      hide Tally, AreValuesOf;
      TallyNext(recorded, ClearRange(bytes));
      bytesWritten := bytesWritten + bytes;
      callClearRange := callClearRange + 1;
      recorded := recorded + [ClearRange(bytes)];
    }

    method RecordAtomicOp(bytes: nat)
      requires Valid()
      modifies this
      ensures Valid() && recorded == old(recorded) + [AtomicOp(bytes)] && notes == old(notes)
    {
      hide Tally, AreValuesOf;
      TallyNext(recorded, AtomicOp(bytes));
      bytesWritten := bytesWritten + bytes;
      callAtomicOp := callAtomicOp + 1;
      recorded := recorded + [AtomicOp(bytes)];
    }

    method SetCustom(key: MetricKey, value: nat)
      requires Valid()
      modifies this`custom, this`notes
      ensures Valid() && notes == old(notes) + [Replaced(key, value)]
    {
      hide Tally, AreValuesOf;
      NotedNext(custom, notes, Replaced(key, value));
      notes := notes + [Replaced(key, value)];
      custom := custom[key := value];
    }

    method IncrementCustom(key: MetricKey, amount: nat)
      requires Valid()
      modifies this`custom, this`notes
      ensures Valid() && notes == old(notes) + [Added(key, amount)]
    {
      hide Tally, AreValuesOf;
      NotedNext(custom, notes, Added(key, amount));
      notes := notes + [Added(key, amount)];
      custom := custom[key := (if key in custom then custom[key] else 0) + amount];
    }
  }

  /** The generation that operations issued now record into. */
  class UsageSlot {
    var usage: AttemptUsage

    constructor (now: nat)
      ensures fresh(usage) && usage.Valid() && usage.recorded == [] && usage.notes == [] && usage.startedAt == now
    {
      usage := new AttemptUsage(now);
    }

    method Current() returns (current: AttemptUsage)
      ensures current == usage
    {
      current := usage;
    }

    /** A fresh generation; the one before is left to the operations that hold it. */
    method Begin(now: nat)
      modifies this
      ensures fresh(usage) && usage.Valid() && usage.recorded == [] && usage.notes == [] && usage.startedAt == now
    {
      usage := new AttemptUsage(now);
    }
  }

  // ---------- the budget ----------

  datatype BudgetKind = Time | BytesRead | BytesWritten

  datatype BudgetExceeded = BudgetExceeded(kind: BudgetKind, used: nat, limit: nat)

  datatype ClientBudget =
    ClientBudget(timeLimit: Option<nat>, maxBytesRead: Option<nat>, maxBytesWritten: Option<nat>)
  {
    /** The first limit that is exceeded, if any, in the order time, bytes read, bytes written. */
    method Check(usage: AttemptUsage, now: nat) returns (r: Option<BudgetExceeded>)
      ensures var overTime := timeLimit.Some? && usage.Elapsed(now) > timeLimit.value;
              var overRead := maxBytesRead.Some? && usage.bytesRead > maxBytesRead.value;
              var overWritten := maxBytesWritten.Some? && usage.bytesWritten > maxBytesWritten.value;
              && (r.None? <==> !overTime && !overRead && !overWritten)
              && (overTime ==> r == Some(BudgetExceeded(Time, usage.Elapsed(now), timeLimit.value)))
              && (!overTime && overRead ==> r == Some(BudgetExceeded(BytesRead, usage.bytesRead, maxBytesRead.value)))
              && (!overTime && !overRead && overWritten ==>
                    r == Some(BudgetExceeded(BytesWritten, usage.bytesWritten, maxBytesWritten.value)))
    {
      if timeLimit.Some? {
        var used := usage.Elapsed(now);
        if used > timeLimit.value {
          return Some(BudgetExceeded(Time, used, timeLimit.value));
        }
      }
      if maxBytesRead.Some? {
        var used := usage.bytesRead;
        if used > maxBytesRead.value {
          return Some(BudgetExceeded(BytesRead, used, maxBytesRead.value));
        }
      }
      if maxBytesWritten.Some? {
        var used := usage.bytesWritten;
        if used > maxBytesWritten.value {
          return Some(BudgetExceeded(BytesWritten, used, maxBytesWritten.value));
        }
      }
      r := None;
    }
  }
}
