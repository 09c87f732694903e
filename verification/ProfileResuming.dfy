/** Where a page resumes and what it keeps, said by the rows it read: nothing about a page is left open. */
module ProfileResuming {
  import opened ByteStrings
  import opened ProfileAssembly
  import opened ProfileKeys
  import opened ProfilePaging
  import opened ProfileRuns
  import opened Sequences

  /** No transaction is pending from before a row, and no outcome has rows on both sides of it. */
  ghost predicate IsClear(rows: seq<Row>, m: nat, st: State)
    requires m < |rows|
  {
    && (forall id :: id in st.partials ==> Le(rows[m].key, st.partials[id].firstKey))
    && (forall i :: 0 <= i < |st.outputs| ==> !Straddles(st.outputs[i], rows[m].key))
  }

  /** The last row up to `m` that is clear, or else the first one. */
  ghost function CutRow(rows: seq<Row>, lo: nat, m: nat, st: State): (r: nat)
    requires lo <= m < |rows|
    ensures lo <= r <= m
  {
    if lo < m && !IsClear(rows, m, st) then CutRow(rows, lo, m - 1, st) else m
  }

  lemma {:induction false} CutRowIs(rows: seq<Row>, lo: nat, m: nat, st: State, at: nat)
    requires lo <= at <= m < |rows| && IsClear(rows, at, st)
    requires forall k :: at < k <= m ==> !IsClear(rows, k, st)
    ensures CutRow(rows, lo, m, st) == at
  {
    hide IsClear;
    if at < m {
      CutRowIs(rows, lo, m - 1, st, at);
    }
  }

  /** The row a page that reads the rows up to `hi` cuts at. */
  ghost function CutOf(rows: seq<Row>, start: bytes, hi: nat): (m: nat)
    requires LowerBound(rows, start) < hi <= |rows|
    ensures LowerBound(rows, start) <= m < hi
  {
    var lo := LowerBound(rows, start);
    CutRow(rows, lo, hi - 1, Fed(rows, lo, hi))
  }

  ghost predicate HasPending(rows: seq<Row>, start: bytes, hi: nat)
    requires hi <= |rows|
  {
    LowerBound(rows, start) < hi && Fed(rows, LowerBound(rows, start), hi).partials != map[]
  }

  /** A page that is stopped here would not advance by its cut, and breaks what is pending. */
  ghost predicate IsStuck(rows: seq<Row>, start: bytes, hi: nat, stopped: bool)
    requires hi <= |rows|
  {
    HasPending(rows, start, hi) && stopped && Le(rows[CutOf(rows, start, hi)].key, start)
  }

  /** The first row that is left to the next page. */
  ghost function ResumeRow(rows: seq<Row>, start: bytes, hi: nat, stopped: bool): nat
    requires hi <= |rows|
  {
    if HasPending(rows, start, hi) && !IsStuck(rows, start, hi, stopped) then CutOf(rows, start, hi) else hi
  }

  /** What a page keeps and where it resumes, by its pending transactions in order. */
  ghost predicate EndsWith(rows: seq<Row>, p: PageRun, pending: seq<Partial>)
    requires LowerBound(rows, p.start) <= p.hi <= |rows|
  {
    var st := Fed(rows, LowerBound(rows, p.start), p.hi);
    && IsPending(pending, st.partials)
    && if HasPending(rows, p.start, p.hi) && !IsStuck(rows, p.start, p.hi, p.stopped) then
         var position := rows[CutOf(rows, p.start, p.hi)].key;
         p.kept == EndingBefore(st.outputs, position) && p.next == position
       else
         p.kept == st.outputs + BrokenReports(pending) && p.next == AfterLast(st, p.start)
  }

  /** A cut is clear, and no position after it up to the oldest pending transaction is. */
  lemma CutIsClear(rows: seq<Row>, st: State, pending: seq<Partial>, at: nat)
    requires at < |rows| && pending != [] && IsPending(pending, st.partials)
    requires IsCut(st.outputs, pending[0].firstKey, rows[at].key)
    ensures IsClear(rows, at, st)
    ensures forall k :: 0 <= k < |rows| && IsClear(rows, k, st) ==> Le(rows[k].key, rows[at].key)
  {
    hide CmpBytes, IsPending, Straddles;
    var oldest := pending[0].firstKey;
    forall id | id in st.partials ensures Le(rows[at].key, st.partials[id].firstKey) {
      OldestIsFirst(pending, st.partials, id);
      LtTransitive(rows[at].key, oldest, st.partials[id].firstKey);
    }
    OldestIsPending(pending, st.partials);
  }

  lemma OldestIsPending(pending: seq<Partial>, partials: map<Id, Partial>)
    requires pending != [] && IsPending(pending, partials)
    ensures pending[0].id in partials && partials[pending[0].id] == pending[0]
  {
  }

  lemma CutIsCutRow(rows: seq<Row>, lo: nat, hi: nat, pending: seq<Partial>, at: nat)
    requires Sorted(rows) && lo <= at < hi <= |rows|
    requires pending != [] && IsPending(pending, Fed(rows, lo, hi).partials)
    requires IsCut(Fed(rows, lo, hi).outputs, pending[0].firstKey, rows[at].key)
    ensures CutRow(rows, lo, hi - 1, Fed(rows, lo, hi)) == at
  {
    hide Fed, CmpBytes, CutRow, IsPending, IsClear, IsCut;
    var st := Fed(rows, lo, hi);
    CutIsClear(rows, st, pending, at);
    forall k | at < k <= hi - 1 ensures !IsClear(rows, k, st) {
      LtTotal(rows[at].key, rows[k].key);
      LtTotal(rows[k].key, rows[at].key);
    }
    CutRowIs(rows, lo, hi - 1, st, at);
  }

  /** Every page ends as its start, the rows it read and the decision to stop say. */
  lemma PageEnds(rows: seq<Row>, p: PageRun) returns (pending: seq<Partial>)
    requires Sorted(rows) && IsPageRun(rows, p)
    ensures EndsWith(rows, p, pending)
  {
    hide Fed, CmpBytes, CutRow, IsPending, IsClear, IsCut, IsFirstKeyOr, Sorted, LowerBound, EndingBefore, AfterLast,
      BrokenReports;
    var lo := LowerBound(rows, p.start);
    var st := Fed(rows, lo, p.hi);
    NothingPendingYet(rows, lo);
    pending :| FinishesWith(st, p.start, p.stopped, pending, p.kept, p.next);
    if pending == [] {
      NoPartials(st.partials);
      NoReports();
      Empty(st.outputs);
    } else {
      SomePartials(pending, st.partials);
      var cut: bytes :|
        && IsCut(st.outputs, pending[0].firstKey, cut)
        && IsFirstKeyOr(st.outputs, pending[0].firstKey, cut)
        && if Breaks(st, p.start, p.stopped, cut) then
             p.kept == st.outputs + BrokenReports(pending) && p.next == AfterLast(st, p.start)
           else
             p.kept == EndingBefore(st.outputs, cut) && p.next == cut;
      var m := CutIsAtRow(rows, lo, p.hi, pending, cut);
      CutIsCutRow(rows, lo, p.hi, pending, m);
    }
  }

  lemma NothingPendingYet(rows: seq<Row>, lo: nat)
    requires lo <= |rows|
    ensures Fed(rows, lo, lo).partials == map[]
  {
  }

  /** A page resumes at the row that the rows say, and breaks what is pending exactly when it is stuck. */
  lemma PageResumes(rows: seq<Row>, p: PageRun)
    requires Sorted(rows) && IsPageRun(rows, p)
    ensures LowerBound(rows, p.next) == ResumeRow(rows, p.start, p.hi, p.stopped)
    ensures BreaksPending(rows, p) <==> IsStuck(rows, p.start, p.hi, p.stopped)
  {
    hide Fed, CmpBytes, CutOf, IsPending, Sorted, LowerBound, EndingBefore, AfterLast, BrokenReports, Finishes;
    var lo := LowerBound(rows, p.start);
    NothingPendingYet(rows, lo);
    var pending := PageEnds(rows, p);
    AfterLastIsAfterAll(rows, lo, p.hi, p.start, AfterLast(Fed(rows, lo, p.hi), p.start));
    if HasPending(rows, p.start, p.hi) {
      LowerBoundAtRow(rows, CutOf(rows, p.start, p.hi));
    }
  }

  // ---------- the order of what is pending ----------

  ghost predicate IsIncreasing(pending: seq<Partial>) {
    forall i, j :: 0 <= i < j < |pending| ==> Lt(pending[i].firstKey, pending[j].firstKey)
  }

  lemma {:induction false} SameOrder(a: seq<Partial>, b: seq<Partial>)
    requires IsIncreasing(a) && IsIncreasing(b) && forall x :: x in a <==> x in b
    ensures a == b
    decreases |a|
  {
    hide CmpBytes;
    if a == [] {
      FirstIsMember(b);
    } else {
      assert a[0] in b;
      var n, m := |a| - 1, |b| - 1;
      LastIsGreatest(a, b[m]);
      LastIsGreatest(b, a[n]);
      LtTotal(a[n].firstKey, b[m].firstKey);
      assert a[n] == b[m];
      WithoutLast(a);
      WithoutLast(b);
      forall x ensures x in a[..n] <==> x in b[..m] {
        assert x in a <==> x in b;
      }
      SameOrder(a[..n], b[..m]);
      Unsnoc(a);
      Unsnoc(b);
    }
  }

  lemma FirstIsMember<T>(s: seq<T>)
    ensures s == [] || s[0] in s
  {
  }

  lemma LastIsGreatest(a: seq<Partial>, x: Partial)
    requires IsIncreasing(a) && x in a
    ensures x == a[|a| - 1] || Lt(x.firstKey, a[|a| - 1].firstKey)
  {
    var i := IndexOf(a, x);
  }

  lemma WithoutLast(a: seq<Partial>)
    requires IsIncreasing(a) && a != []
    ensures IsIncreasing(a[..|a| - 1])
    ensures forall x :: x in a[..|a| - 1] <==> x in a && x != a[|a| - 1]
  {
    hide CmpBytes;
    var n := |a| - 1;
    forall i | 0 <= i < n ensures a[i] != a[n] {
      LtTotal(a[i].firstKey, a[n].firstKey);
    }
  }

  /** A pending transaction begins at a row of its id. */
  lemma PendingBegins(rows: seq<Row>, lo: nat, hi: nat, id: Id) returns (m: nat)
    requires lo <= hi <= |rows| && PendingOf(rows, lo, hi, id).Some?
    ensures m < |rows| && rows[m].key == PendingOf(rows, lo, hi, id).value.firstKey && Own(rows, m, id)
  {
    var i := LastOwn(rows, hi, id).value;
    m := RunAt(rows, i).value.first;
  }

  /** No two pending transactions begin at the same row. */
  lemma PendingIsIncreasing(rows: seq<Row>, lo: nat, hi: nat, pending: seq<Partial>)
    requires lo <= hi <= |rows| && IsPending(pending, Fed(rows, lo, hi).partials)
    ensures IsIncreasing(pending)
  {
    hide Fed, CmpBytes, PendingOf, RunAt, ParseChunkKey, CompletesIn, CompletesOf, BrokenAreReported;
    AssemblerComputesRuns(rows, lo, hi);
    forall i, j | 0 <= i < j < |pending| ensures Lt(pending[i].firstKey, pending[j].firstKey) {
      var k := PendingBegins(rows, lo, hi, pending[i].id);
      var l := PendingBegins(rows, lo, hi, pending[j].id);
      LtTotal(pending[i].firstKey, pending[j].firstKey);
      if rows[k].key == rows[l].key {
        OfOneId(rows, k, l, pending[i].id, pending[j].id);
      }
    }
  }

  lemma OfOneId(rows: seq<Row>, k: nat, l: nat, a: Id, b: Id)
    requires k < |rows| && l < |rows| && Own(rows, k, a) && Own(rows, l, b) && rows[k].key == rows[l].key
    ensures a == b
  {
    hide ParseChunkKey;
  }

  lemma SamePending(a: seq<Partial>, b: seq<Partial>, partials: map<Id, Partial>)
    requires IsPending(a, partials) && IsPending(b, partials) && IsIncreasing(a) && IsIncreasing(b)
    ensures a == b
  {
    hide IsIncreasing;
    forall x ensures x in a <==> x in b {
      if x in a {
        var i := IndexOf(a, x);
        assert partials[a[i].id] in b;
      }
      if x in b {
        var i := IndexOf(b, x);
        assert partials[b[i].id] in a;
      }
    }
    SameOrder(a, b);
  }

  /** The start of a page, the rows it read and the decision to stop say what it keeps and where it resumes. */
  lemma PageIsDetermined(rows: seq<Row>, p: PageRun, q: PageRun)
    requires Sorted(rows) && IsPageRun(rows, p) && IsPageRun(rows, q)
    requires p.start == q.start && p.hi == q.hi && p.stopped == q.stopped
    ensures p == q
  {
    hide Fed, CmpBytes, CutOf, IsPending, Sorted, LowerBound, EndingBefore, AfterLast, BrokenReports, Finishes;
    var lo := LowerBound(rows, p.start);
    NothingPendingYet(rows, lo);
    var a := PageEnds(rows, p);
    var b := PageEnds(rows, q);
    PendingIsIncreasing(rows, lo, p.hi, a);
    PendingIsIncreasing(rows, lo, p.hi, b);
    SamePending(a, b, Fed(rows, lo, p.hi).partials);
  }
}
