/** What happens to a transaction, and what its generations of usage have recorded after it. */
module AttemptHistories {
  import opened Sequences
  import opened Usage

  /** What happens to a transaction, as far as its usage goes. */
  datatype Event = Issued(op: Op) | Resolved(i: nat) | Restarted

  function IssuedCount(history: seq<Event>): nat {
    if history == [] then 0
    else IssuedCount(history[..|history| - 1]) + if history[|history| - 1].Issued? then 1 else 0
  }

  function RestartCount(history: seq<Event>): nat {
    if history == [] then 0
    else RestartCount(history[..|history| - 1]) + if history[|history| - 1].Restarted? then 1 else 0
  }

  /** The operation issued as number `i`, and how often the transaction had restarted by then. */
  function IssueOf(history: seq<Event>, i: nat): (Op, nat)
    requires i < IssuedCount(history)
  {
    var n := |history| - 1;
    if history[n].Issued? && IssuedCount(history[..n]) == i then (history[n].op, RestartCount(history[..n]))
    else IssueOf(history[..n], i)
  }

  predicate IsResolved(history: seq<Event>, i: nat) {
    history != [] && (history[|history| - 1] == Resolved(i) || IsResolved(history[..|history| - 1], i))
  }

  /** An operation that was issued and has not resolved. */
  predicate IsUnresolved(history: seq<Event>, i: nat) {
    i < IssuedCount(history) && !IsResolved(history, i)
  }

  /** An operation resolves once, after it was issued. */
  predicate IsHistory(history: seq<Event>) {
    history == [] ||
    var n := |history| - 1;
    IsHistory(history[..n]) && (history[n].Resolved? ==> IsUnresolved(history[..n], history[n].i))
  }

  /** The operations that were issued while a generation was the current one, in the order they resolved. */
  function RecordedIn(history: seq<Event>, generation: nat): seq<Op>
    requires IsHistory(history)
  {
    if history == [] then []
    else
      var n := |history| - 1;
      var init := RecordedIn(history[..n], generation);
      if history[n].Resolved? && IssueOf(history[..n], history[n].i).1 == generation then
        init + [IssueOf(history[..n], history[n].i).0]
      else
        init
  }

  lemma HistoryNext(history: seq<Event>, e: Event)
    requires IsHistory(history) && (e.Resolved? ==> IsUnresolved(history, e.i))
    ensures IsHistory(history + [e])
    ensures IssuedCount(history + [e]) == IssuedCount(history) + if e.Issued? then 1 else 0
    ensures RestartCount(history + [e]) == RestartCount(history) + if e.Restarted? then 1 else 0
    ensures forall i: nat :: i < IssuedCount(history) ==> IssueOf(history + [e], i) == IssueOf(history, i)
    ensures forall i: nat :: IsResolved(history + [e], i) <==> IsResolved(history, i) || e == Resolved(i)
    ensures e.Issued? ==> IssueOf(history + [e], IssuedCount(history)) == (e.op, RestartCount(history))
    ensures forall g: nat :: RecordedIn(history + [e], g)
              == if e.Resolved? && IssueOf(history, e.i).1 == g then RecordedIn(history, g) + [IssueOf(history, e.i).0]
                 else RecordedIn(history, g)
  {
    assert (history + [e])[..|history|] == history;
  }

  /** Resolving an operation adds it to the generation it was issued in, and to no other. */
  lemma ResolvedNext(history: seq<Event>, i: nat)
    requires IsHistory(history) && IsUnresolved(history, i)
    ensures IsHistory(history + [Resolved(i)]) && RestartCount(history + [Resolved(i)]) == RestartCount(history)
    ensures forall g: nat :: RecordedIn(history + [Resolved(i)], g)
              == if g == IssueOf(history, i).1 then RecordedIn(history, g) + [IssueOf(history, i).0]
                 else RecordedIn(history, g)
  {
    hide IssuedCount, IssueOf, RestartCount, IsHistory, RecordedIn;
    HistoryNext(history, Resolved(i));
  }

  lemma RestartedNext(history: seq<Event>)
    requires IsHistory(history)
    ensures IsHistory(history + [Restarted]) && RestartCount(history + [Restarted]) == RestartCount(history) + 1
    ensures forall g: nat :: RecordedIn(history + [Restarted], g) == RecordedIn(history, g)
  {
    hide IssuedCount, IssueOf, RestartCount, IsHistory, RecordedIn;
    HistoryNext(history, Restarted);
  }

  /** No operation was issued in a generation that has not begun. */
  lemma {:induction false} IssuedInBegun(history: seq<Event>, i: nat)
    requires i < IssuedCount(history)
    ensures IssueOf(history, i).1 <= RestartCount(history)
  {
    var n := |history| - 1;
    if !(history[n].Issued? && IssuedCount(history[..n]) == i) {
      IssuedInBegun(history[..n], i);
    }
  }

  lemma {:induction false} NothingRecordedYet(history: seq<Event>, generation: nat)
    requires IsHistory(history) && generation > RestartCount(history)
    ensures RecordedIn(history, generation) == []
  {
    if history != [] {
      var n := |history| - 1;
      NothingRecordedYet(history[..n], generation);
      if history[n].Resolved? {
        IssuedInBegun(history[..n], history[n].i);
      }
    }
  }

  lemma {:induction false} PrefixIsHistory(history: seq<Event>, n: nat)
    requires IsHistory(history) && n <= |history|
    ensures IsHistory(history[..n])
  {
    if n < |history| {
      PrefixIsHistory(history[..|history| - 1], n);
      assert history[..|history| - 1][..n] == history[..n];
    } else {
      TakeEnds(history);
    }
  }

  // ---------- nothing recorded twice, nothing lost ----------

  /** The operations that were issued while a generation was the current one. */
  function IssuedIn(history: seq<Event>, generation: nat): seq<Op> {
    if history == [] then []
    else
      var n := |history| - 1;
      var init := IssuedIn(history[..n], generation);
      if history[n].Issued? && RestartCount(history[..n]) == generation then init + [history[n].op] else init
  }

  /** Of the first `n` operations, those that were issued in a generation and have not resolved. */
  function UnresolvedIn(history: seq<Event>, generation: nat, n: nat): multiset<Op>
    requires n <= IssuedCount(history)
  {
    if n == 0 then multiset{} else UnresolvedIn(history, generation, n - 1) + UnresolvedAt(history, generation, n - 1)
  }

  function UnresolvedAt(history: seq<Event>, generation: nat, i: nat): multiset<Op>
    requires i < IssuedCount(history)
  {
    if IsResolved(history, i) then multiset{} else IssuedAt(history, generation, i)
  }

  function IssuedAt(history: seq<Event>, generation: nat, i: nat): multiset<Op>
    requires i < IssuedCount(history)
  {
    if IssueOf(history, i).1 == generation then multiset{IssueOf(history, i).0} else multiset{}
  }

  lemma Exchange<T>(a: multiset<T>, b: multiset<T>, c: multiset<T>)
    ensures a + b + c == a + c + b == a + (b + c)
  {
  }

  lemma OneMore<T>(s: seq<T>, x: T)
    ensures multiset(s + [x]) == multiset(s) + multiset{x}
  {
  }

  /** An event that resolves none of some operations leaves them as they were. */
  lemma {:induction false} UnresolvedStay(history: seq<Event>, e: Event, generation: nat, n: nat)
    requires IsHistory(history) && n <= IssuedCount(history)
    requires e.Resolved? ==> IsUnresolved(history, e.i) && n <= e.i
    ensures n <= IssuedCount(history + [e])
    ensures UnresolvedIn(history + [e], generation, n) == UnresolvedIn(history, generation, n)
  {
    hide IssuedCount, IssueOf, RestartCount, IsHistory, RecordedIn, IsResolved;
    HistoryNext(history, e);
    if n > 0 {
      UnresolvedStay(history, e, generation, n - 1);
    }
  }

  /** Resolving an operation takes it from the unresolved ones of its generation. */
  lemma {:induction false} OneFewerUnresolved(history: seq<Event>, i: nat, generation: nat, n: nat)
    requires IsHistory(history) && IsUnresolved(history, i) && i < n <= IssuedCount(history)
    ensures n <= IssuedCount(history + [Resolved(i)])
    ensures UnresolvedIn(history, generation, n)
         == UnresolvedIn(history + [Resolved(i)], generation, n) + IssuedAt(history, generation, i)
  {
    hide IssuedCount, IssueOf, RestartCount, IsHistory, RecordedIn, IsResolved, IssuedAt, UnresolvedAt;
    HistoryNext(history, Resolved(i));
    var later := history + [Resolved(i)];
    AtResolved(history, i, generation, n - 1);
    if i == n - 1 {
      UnresolvedStay(history, Resolved(i), generation, n - 1);
    } else {
      OneFewerUnresolved(history, i, generation, n - 1);
      Exchange(UnresolvedIn(later, generation, n - 1), IssuedAt(history, generation, i),
               UnresolvedAt(later, generation, n - 1));
    }
  }

  lemma AtResolved(history: seq<Event>, i: nat, generation: nat, j: nat)
    requires IsHistory(history) && IsUnresolved(history, i) && j < IssuedCount(history)
    ensures j < IssuedCount(history + [Resolved(i)])
    ensures j != i ==> UnresolvedAt(history + [Resolved(i)], generation, j) == UnresolvedAt(history, generation, j)
    ensures j == i ==> UnresolvedAt(history + [Resolved(i)], generation, j) == multiset{}
    ensures UnresolvedAt(history, generation, i) == IssuedAt(history, generation, i)
  {
    hide IssuedCount, IssueOf, RestartCount, IsHistory, RecordedIn, IsResolved;
    HistoryNext(history, Resolved(i));
  }

  lemma {:induction false} ResolvedWereIssued(history: seq<Event>, i: nat)
    requires IsHistory(history) && IsResolved(history, i)
    ensures i < IssuedCount(history)
  {
    var n := |history| - 1;
    if history[n] != Resolved(i) {
      ResolvedWereIssued(history[..n], i);
    }
  }

  lemma NextIsUnresolved(history: seq<Event>, op: Op)
    requires IsHistory(history)
    ensures IsUnresolved(history + [Issued(op)], IssuedCount(history))
  {
    hide IssuedCount, IssueOf, RestartCount, IsHistory, RecordedIn, IsResolved;
    HistoryNext(history, Issued(op));
    if IsResolved(history, IssuedCount(history)) {
      ResolvedWereIssued(history, IssuedCount(history));
    }
  }

  /** Every operation issued in a generation is recorded in it once, or has not resolved. */
  ghost predicate IsBalanced(history: seq<Event>, generation: nat)
    requires IsHistory(history)
  {
    multiset(IssuedIn(history, generation))
    == multiset(RecordedIn(history, generation)) + UnresolvedIn(history, generation, IssuedCount(history))
  }

  lemma UnresolvedNext(history: seq<Event>, generation: nat, n: nat)
    requires n < IssuedCount(history)
    ensures UnresolvedIn(history, generation, n + 1)
         == UnresolvedIn(history, generation, n) + UnresolvedAt(history, generation, n)
  {
  }

  lemma IssuedBalances(history: seq<Event>, op: Op, generation: nat)
    requires IsHistory(history) && IsBalanced(history, generation)
    ensures IsHistory(history + [Issued(op)]) && IsBalanced(history + [Issued(op)], generation)
  {
    hide IssuedCount, IssueOf, RestartCount, IsHistory, RecordedIn, IsResolved, IssuedIn, UnresolvedIn, UnresolvedAt;
    var n, later := IssuedCount(history), history + [Issued(op)];
    HistoryNext(history, Issued(op));
    IssuedNext(history, Issued(op), generation);
    UnresolvedStay(history, Issued(op), generation, n);
    LastIsUnresolved(history, op, generation);
    UnresolvedNext(later, generation, n);
    OneMore(IssuedIn(history, generation), op);
    Exchange(multiset(RecordedIn(history, generation)), UnresolvedIn(history, generation, n),
             UnresolvedAt(later, generation, n));
  }

  lemma ResolvedBalances(history: seq<Event>, i: nat, generation: nat)
    requires IsHistory(history) && IsUnresolved(history, i) && IsBalanced(history, generation)
    ensures IsHistory(history + [Resolved(i)]) && IsBalanced(history + [Resolved(i)], generation)
  {
    hide IssuedCount, IssueOf, RestartCount, IsHistory, RecordedIn, IsResolved, IssuedIn, UnresolvedIn, IssuedAt;
    var n, later := IssuedCount(history), history + [Resolved(i)];
    HistoryNext(history, Resolved(i));
    IssuedNext(history, Resolved(i), generation);
    OneFewerUnresolved(history, i, generation, n);
    RecordedNext(history, i, generation);
    Exchange(multiset(RecordedIn(history, generation)), UnresolvedIn(later, generation, n),
             IssuedAt(history, generation, i));
  }

  lemma RestartBalances(history: seq<Event>, generation: nat)
    requires IsHistory(history) && IsBalanced(history, generation)
    ensures IsHistory(history + [Restarted]) && IsBalanced(history + [Restarted], generation)
  {
    hide IssuedCount, IssueOf, RestartCount, IsHistory, RecordedIn, IsResolved, IssuedIn, UnresolvedIn;
    HistoryNext(history, Restarted);
    IssuedNext(history, Restarted, generation);
    UnresolvedStay(history, Restarted, generation, IssuedCount(history));
  }

  lemma LastIsUnresolved(history: seq<Event>, op: Op, generation: nat)
    requires IsHistory(history)
    ensures var n := IssuedCount(history);
            && IssuedCount(history + [Issued(op)]) == n + 1
            && UnresolvedAt(history + [Issued(op)], generation, n)
            == if RestartCount(history) == generation then multiset{op} else multiset{}
  {
    hide IssuedCount, IssueOf, RestartCount, IsHistory, RecordedIn, IsResolved;
    HistoryNext(history, Issued(op));
    NextIsUnresolved(history, op);
  }

  lemma RecordedNext(history: seq<Event>, i: nat, generation: nat)
    requires IsHistory(history) && IsUnresolved(history, i)
    ensures IsHistory(history + [Resolved(i)])
    ensures multiset(RecordedIn(history + [Resolved(i)], generation))
         == multiset(RecordedIn(history, generation)) + IssuedAt(history, generation, i)
  {
    hide IssuedCount, IssueOf, RestartCount, IsHistory, RecordedIn, IsResolved;
    HistoryNext(history, Resolved(i));
    OneMore(RecordedIn(history, generation), IssueOf(history, i).0);
  }

  lemma {:induction false} IssuedAreRecordedOnce(history: seq<Event>, generation: nat)
    requires IsHistory(history)
    ensures IsBalanced(history, generation)
  {
    hide IsBalanced, IssuedCount, IsResolved;
    if history == [] {
      NothingIssued(generation);
    } else {
      var n := |history| - 1;
      Unsnoc(history);
      IssuedAreRecordedOnce(history[..n], generation);
      match history[n]
      case Issued(op) => IssuedBalances(history[..n], op, generation);
      case Resolved(i) => ResolvedBalances(history[..n], i, generation);
      case Restarted => RestartBalances(history[..n], generation);
    }
  }

  lemma NothingIssued(generation: nat)
    ensures IsBalanced([], generation)
  {
  }

  lemma IssuedNext(history: seq<Event>, e: Event, generation: nat)
    ensures IssuedIn(history + [e], generation)
         == if e.Issued? && RestartCount(history) == generation then IssuedIn(history, generation) + [e.op]
            else IssuedIn(history, generation)
  {
    assert (history + [e])[..|history|] == history;
  }

  predicate AllResolved(history: seq<Event>, generation: nat) {
    forall i: nat :: i < IssuedCount(history) && IssueOf(history, i).1 == generation ==> IsResolved(history, i)
  }

  lemma {:induction false} NoneUnresolved(history: seq<Event>, generation: nat, n: nat)
    requires n <= IssuedCount(history) && AllResolved(history, generation)
    ensures UnresolvedIn(history, generation, n) == multiset{}
  {
    hide IssuedCount, IssueOf, IsResolved;
    if n > 0 {
      NoneUnresolved(history, generation, n - 1);
    }
  }

  /** A generation records each operation issued in it at most once, no other one, and all once they have resolved. */
  lemma RecordedWereIssued(history: seq<Event>, generation: nat)
    requires IsHistory(history)
    ensures multiset(RecordedIn(history, generation)) <= multiset(IssuedIn(history, generation))
    ensures AllResolved(history, generation) ==>
              multiset(RecordedIn(history, generation)) == multiset(IssuedIn(history, generation))
  {
    hide IssuedCount, IssueOf, IsHistory, RecordedIn, IssuedIn, AllResolved;
    IssuedAreRecordedOnce(history, generation);
    if AllResolved(history, generation) {
      NoneUnresolved(history, generation, IssuedCount(history));
    }
  }
}
