/** Counts of the keys and ranges that transactions hit, and the split of the keyspace into buckets by hits. */
module ProfileBuckets {
  import opened ByteStrings
  import opened ProfileEvents
  import opened Sequences
  import opened Wrappers

  /** One recorded read or write. */
  datatype Hit = KeyHit(key: bytes) | RangeHit(range: KeyRange) {
    /** Where it counts: a range counts at its begin. */
    function Start(): bytes {
      match this
      case KeyHit(key) => key
      case RangeHit(range) => range.begin
    }
  }

  datatype Bucket = Bucket(start: bytes, count: nat)

  // ---------- counting hits ----------

  function Times(hits: seq<Hit>, h: Hit): nat {
    if hits == [] then 0
    else Times(hits[..|hits| - 1], h) + if hits[|hits| - 1] == h then 1 else 0
  }

  /** The number of hits that are in a set. */
  function HitsIn(hits: seq<Hit>, done: set<Hit>): nat {
    if hits == [] then 0
    else HitsIn(hits[..|hits| - 1], done) + if hits[|hits| - 1] in done then 1 else 0
  }

  /** The number of hits that are in a set and start at a key. */
  function StartsIn(hits: seq<Hit>, done: set<Hit>, key: bytes): nat {
    if hits == [] then 0
    else StartsIn(hits[..|hits| - 1], done, key)
         + if hits[|hits| - 1] in done && hits[|hits| - 1].Start() == key then 1 else 0
  }

  predicate InBucket(key: bytes, start: bytes, end: Option<bytes>) {
    Le(start, key) && (end.Some? ==> Lt(key, end.value))
  }

  /** The number of hits that start from one key up to another one, or to the end of the keyspace. */
  function HitsFrom(hits: seq<Hit>, start: bytes, end: Option<bytes>): nat {
    if hits == [] then 0
    else HitsFrom(hits[..|hits| - 1], start, end) + if InBucket(hits[|hits| - 1].Start(), start, end) then 1 else 0
  }

  lemma {:induction false} OneMoreHit(hits: seq<Hit>, done: set<Hit>, h: Hit)
    requires h !in done
    ensures HitsIn(hits, done + {h}) == HitsIn(hits, done) + Times(hits, h)
  {
    if hits != [] {
      OneMoreHit(hits[..|hits| - 1], done, h);
    }
  }

  lemma {:induction false} OneMoreStart(hits: seq<Hit>, done: set<Hit>, h: Hit, key: bytes)
    requires h !in done
    ensures StartsIn(hits, done + {h}, key)
         == StartsIn(hits, done, key) + if h.Start() == key then Times(hits, h) else 0
  {
    if hits != [] {
      OneMoreStart(hits[..|hits| - 1], done, h, key);
    }
  }

  lemma {:induction false} AllHits(hits: seq<Hit>, done: set<Hit>)
    requires forall h :: h in hits ==> h in done
    ensures HitsIn(hits, done) == |hits|
  {
    if hits != [] {
      var n := |hits| - 1;
      assert hits[n] in hits;
      assert forall h :: h in hits[..n] ==> h in hits;
      AllHits(hits[..n], done);
    }
  }

  lemma {:induction false} NoHits(hits: seq<Hit>, key: bytes)
    ensures HitsIn(hits, {}) == 0 && StartsIn(hits, {}, key) == 0
  {
    if hits != [] {
      NoHits(hits[..|hits| - 1], key);
    }
  }

  lemma {:induction false} TimesIsPositive(hits: seq<Hit>, h: Hit)
    ensures Times(hits, h) > 0 <==> h in hits
  {
    if hits != [] {
      TimesIsPositive(hits[..|hits| - 1], h);
      Unsnoc(hits);
    }
  }

  lemma TimesNext(hits: seq<Hit>, x: Hit)
    ensures forall h :: Times(hits + [x], h) == Times(hits, h) + if x == h then 1 else 0
  {
    assert (hits + [x])[..|hits|] == hits;
  }

  // ---------- the counters ----------

  class KeyCounts {
    var keys: map<bytes, nat>
    var ranges: map<KeyRange, nat>
    /** Everything recorded, in order. */
    ghost var hits: seq<Hit>

    ghost predicate Valid()
      reads this
    {
      && (forall k :: k in keys <==> KeyHit(k) in hits)
      && (forall k :: k in keys ==> keys[k] == Times(hits, KeyHit(k)))
      && (forall r :: r in ranges <==> RangeHit(r) in hits)
      && (forall r :: r in ranges ==> ranges[r] == Times(hits, RangeHit(r)))
    }

    constructor ()
      ensures Valid() && hits == []
    {
      keys, ranges, hits := map[], map[], [];
    }

    method InsertKey(key: bytes)
      requires Valid()
      modifies this
      ensures Valid() && hits == old(hits) + [KeyHit(key)]
    {
      hide Times;
      TimesNext(hits, KeyHit(key));
      TimesIsPositive(hits, KeyHit(key));
      keys := keys[key := (if key in keys then keys[key] else 0) + 1];
      hits := hits + [KeyHit(key)];
    }

    method InsertRange(range: KeyRange)
      requires Valid()
      modifies this
      ensures Valid() && hits == old(hits) + [RangeHit(range)]
    {
      hide Times;
      TimesNext(hits, RangeHit(range));
      TimesIsPositive(hits, RangeHit(range));
      ranges := ranges[range := (if range in ranges then ranges[range] else 0) + 1];
      hits := hits + [RangeHit(range)];
    }

    method Total() returns (total: nat)
      requires Valid()
      ensures total == |hits|
    {
      total := 0;
      ghost var done: set<Hit> := {};
      NoHits(hits, []);
      var left := keys.Keys;
      while left != {}
        invariant left <= keys.Keys
        invariant forall k :: KeyHit(k) in done <==> k in keys && k !in left
        invariant forall r :: RangeHit(r) !in done
        invariant total == HitsIn(hits, done)
        decreases left
      {
        var k :| k in left;
        OneMoreHit(hits, done, KeyHit(k));
        total, left, done := total + keys[k], left - {k}, done + {KeyHit(k)};
      }
      var more := ranges.Keys;
      while more != {}
        invariant more <= ranges.Keys
        invariant forall k :: KeyHit(k) in done <==> k in keys
        invariant forall r :: RangeHit(r) in done <==> r in ranges && r !in more
        invariant total == HitsIn(hits, done)
        decreases more
      {
        var r :| r in more;
        OneMoreHit(hits, done, RangeHit(r));
        total, more, done := total + ranges[r], more - {r}, done + {RangeHit(r)};
      }
      forall h | h in hits ensures h in done {
        match h
        case KeyHit(k) =>
        case RangeHit(r) =>
      }
      AllHits(hits, done);
    }

    /** The hits by where they start. */
    method Starts() returns (starts: map<bytes, nat>)
      requires Valid()
      ensures IsTally(hits, starts)
    {
      starts := map[];
      ghost var done: set<Hit> := {};
      forall key ensures StartsIn(hits, {}, key) == 0 {
        NoHits(hits, key);
      }
      var left := keys.Keys;
      while left != {}
        invariant left <= keys.Keys
        invariant forall k :: KeyHit(k) in done <==> k in keys && k !in left
        invariant forall r :: RangeHit(r) !in done
        invariant IsTallyOf(hits, done, starts)
        decreases left
      {
        var k :| k in left;
        TallyNext(hits, done, starts, KeyHit(k));
        starts := Added(starts, k, keys[k]);
        left, done := left - {k}, done + {KeyHit(k)};
      }
      var more := ranges.Keys;
      while more != {}
        invariant more <= ranges.Keys
        invariant forall k :: KeyHit(k) in done <==> k in keys
        invariant forall r :: RangeHit(r) in done <==> r in ranges && r !in more
        invariant IsTallyOf(hits, done, starts)
        decreases more
      {
        var r :| r in more;
        TallyNext(hits, done, starts, RangeHit(r));
        starts := Added(starts, r.begin, ranges[r]);
        more, done := more - {r}, done + {RangeHit(r)};
      }
      forall h | h in hits ensures h in done {
        match h
        case KeyHit(k) =>
        case RangeHit(r) =>
      }
      TallyOfAll(hits, done, starts);
    }

    /** At most `n` buckets of about equal hits. */
    method Buckets(n: nat) returns (out: seq<Bucket>)
      requires Valid()
      ensures IsSplit(hits, n, out)
    {
      hide IsTally, AreKeysOf, AreFull, IsOver, Sum;
      if n == 0 {
        return [];
      }
      var starts := Starts();
      var keys := InKeyOrder(starts);
      KeysOfTally(hits, starts, keys);
      var total := 0;
      for i := 0 to |keys|
        invariant total == Sum(starts, keys, 0, i)
      {
        NextSum(starts, keys, i);
        total := total + starts[keys[i]];
      }
      TotalOfTally(hits, starts, keys);
      if total == 0 {
        return [];
      }
      var size := if total / n < 1 then 1 else total / n;
      ghost var cuts;
      out, cuts := SplitKeys(starts, keys, n, size);
      SplitOfHits(hits, starts, keys, n, out, cuts);
    }
  }

  function Added(starts: map<bytes, nat>, key: bytes, count: nat): map<bytes, nat> {
    starts[key := (if key in starts then starts[key] else 0) + count]
  }

  /** The keys where some of the hits start, with how many of them do. */
  ghost predicate IsTallyOf(hits: seq<Hit>, done: set<Hit>, starts: map<bytes, nat>) {
    && (forall key :: key in starts <==> StartsIn(hits, done, key) > 0)
    && (forall key :: key in starts ==> starts[key] == StartsIn(hits, done, key))
  }

  function StartsAt(hits: seq<Hit>, key: bytes): nat {
    if hits == [] then 0
    else StartsAt(hits[..|hits| - 1], key) + if hits[|hits| - 1].Start() == key then 1 else 0
  }

  ghost predicate IsTally(hits: seq<Hit>, starts: map<bytes, nat>) {
    && (forall key :: key in starts <==> StartsAt(hits, key) > 0)
    && (forall key :: key in starts ==> starts[key] == StartsAt(hits, key))
  }

  lemma TallyNext(hits: seq<Hit>, done: set<Hit>, starts: map<bytes, nat>, h: Hit)
    requires IsTallyOf(hits, done, starts) && h in hits && h !in done
    ensures IsTallyOf(hits, done + {h}, Added(starts, h.Start(), Times(hits, h)))
  {
    TimesIsPositive(hits, h);
    forall key ensures StartsIn(hits, done + {h}, key)
                    == StartsIn(hits, done, key) + if h.Start() == key then Times(hits, h) else 0 {
      OneMoreStart(hits, done, h, key);
    }
  }

  lemma {:induction false} StartsInAll(hits: seq<Hit>, done: set<Hit>, key: bytes)
    requires forall h :: h in hits ==> h in done
    ensures StartsIn(hits, done, key) == StartsAt(hits, key)
  {
    if hits != [] {
      var n := |hits| - 1;
      assert hits[n] in hits;
      assert forall h :: h in hits[..n] ==> h in hits;
      StartsInAll(hits[..n], done, key);
    }
  }

  lemma TallyOfAll(hits: seq<Hit>, done: set<Hit>, starts: map<bytes, nat>)
    requires IsTallyOf(hits, done, starts) && forall h :: h in hits ==> h in done
    ensures IsTally(hits, starts)
  {
    forall key ensures StartsIn(hits, done, key) == StartsAt(hits, key) {
      StartsInAll(hits, done, key);
    }
  }

  // ---------- splitting ----------

  predicate Increasing(keys: seq<bytes>) {
    forall i, j :: 0 <= i < j < |keys| ==> Lt(keys[i], keys[j])
  }

  /** The keys of a sorted map, in the order it is iterated. */
  ghost predicate AreKeysOf(keys: seq<bytes>, starts: map<bytes, nat>) {
    && Increasing(keys)
    && (forall i :: 0 <= i < |keys| ==> keys[i] in starts)
    && (forall key :: key in starts ==> key in keys)
  }

  method InKeyOrder(starts: map<bytes, nat>) returns (keys: seq<bytes>)
    ensures AreKeysOf(keys, starts)
  {
    hide CmpBytes;
    keys := [];
    var left := starts.Keys;
    while left != {}
      invariant left <= starts.Keys && Increasing(keys)
      invariant forall i :: 0 <= i < |keys| ==> keys[i] in starts && keys[i] !in left
      invariant forall key :: key in starts && key !in left ==> key in keys
      decreases left
    {
      var key :| key in left;
      var at := 0;
      while at < |keys| && Lt(keys[at], key)
        invariant at <= |keys|
        invariant forall i :: 0 <= i < at ==> Lt(keys[i], key)
      {
        at := at + 1;
      }
      KeyInserted(keys, key, at);
      keys, left := InsertAt(keys, at, key), left - {key};
    }
  }

  lemma KeyInserted(keys: seq<bytes>, key: bytes, at: nat)
    requires Increasing(keys) && at <= |keys| && key !in keys
    requires forall i :: 0 <= i < at ==> Lt(keys[i], key)
    requires at < |keys| ==> !Lt(keys[at], key)
    ensures Increasing(InsertAt(keys, at, key))
    ensures forall k :: k in InsertAt(keys, at, key) <==> k in keys || k == key
  {
    hide CmpBytes, InsertAt;
    var r := InsertAt(keys, at, key);
    forall i | at <= i < |keys| ensures Lt(key, keys[i]) {
      LtTotal(keys[at], key);
      LtTotal(key, keys[at]);
      assert keys[at] in keys;
      if i > at {
        LtTotal(keys[at], keys[i]);
        LtTransitive(key, keys[at], keys[i]);
      }
    }
    InsertAtKeeps(keys, at, key);
  }

  /** The hits at the keys from index `i` to `j`. */
  function Sum(starts: map<bytes, nat>, keys: seq<bytes>, i: nat, j: nat): nat
    requires i <= j <= |keys| && forall k :: 0 <= k < |keys| ==> keys[k] in starts
  {
    if i == j then 0 else Sum(starts, keys, i, j - 1) + starts[keys[j - 1]]
  }

  lemma {:induction false} SumGrows(starts: map<bytes, nat>, keys: seq<bytes>, i: nat, j: nat, k: nat)
    requires i <= j <= k <= |keys| && forall k :: 0 <= k < |keys| ==> keys[k] in starts
    ensures Sum(starts, keys, i, j) <= Sum(starts, keys, i, k)
    ensures Sum(starts, keys, i, k) == Sum(starts, keys, i, j) + Sum(starts, keys, j, k)
    decreases k
  {
    if j < k {
      SumGrows(starts, keys, i, j, k - 1);
    }
  }

  /** Buckets over the keys from index `cuts[k]` to `cuts[k + 1]`, each full at its last key and not before. */
  ghost predicate AreFull(starts: map<bytes, nat>, keys: seq<bytes>, size: nat, out: seq<Bucket>, cuts: seq<nat>)
    requires forall k :: 0 <= k < |keys| ==> keys[k] in starts
  {
    && |cuts| == |out| + 1 && cuts[0] == 0
    && (forall k :: 0 <= k < |cuts| ==> cuts[k] <= |keys|)
    && (forall k :: 0 <= k < |out| ==> IsFull(starts, keys, size, out[k], cuts[k], cuts[k + 1]))
  }

  ghost predicate IsFull(starts: map<bytes, nat>, keys: seq<bytes>, size: nat, b: Bucket, i: nat, j: nat)
    requires forall k :: 0 <= k < |keys| ==> keys[k] in starts
  {
    && IsOver(starts, keys, b, i, j)
    && Sum(starts, keys, i, j - 1) < size <= b.count
  }

  ghost predicate IsOver(starts: map<bytes, nat>, keys: seq<bytes>, b: Bucket, i: nat, j: nat)
    requires forall k :: 0 <= k < |keys| ==> keys[k] in starts
  {
    i < j <= |keys| && b == Bucket(keys[i], Sum(starts, keys, i, j))
  }

  /** Cuts a bucket once it is full, as long as one more may be opened; the last one takes what remains. */
  method SplitKeys(starts: map<bytes, nat>, keys: seq<bytes>, n: nat, size: nat)
    returns (out: seq<Bucket>, ghost cuts: seq<nat>)
    requires n > 0 && size > 0 && keys != []
    requires forall k :: 0 <= k < |keys| ==> keys[k] in starts && starts[keys[k]] > 0
    ensures 0 < |out| <= n && |cuts| == |out|
    ensures AreFull(starts, keys, size, out[..|out| - 1], cuts)
    ensures IsOver(starts, keys, out[|out| - 1], cuts[|out| - 1], |keys|)
    ensures |out| < n ==> Sum(starts, keys, cuts[|out| - 1], |keys| - 1) < size
  {
    out, cuts := [], [0];
    var currentStart: Option<bytes> := None;
    var currentCount := 0;
    for i := 0 to |keys|
      invariant |out| < n && AreFull(starts, keys, size, out, cuts)
      invariant cuts[|out|] <= i && (i > 0 ==> cuts[|out|] < i)
      invariant currentStart == if i == 0 then None else Some(keys[cuts[|out|]])
      invariant currentCount == Sum(starts, keys, cuts[|out|], i)
      invariant i > 0 && |out| + 1 < n ==> Sum(starts, keys, cuts[|out|], i - 1) < size
    {
      if currentCount >= size && |out| + 1 < n {
        if currentStart.Some? {
          CutAt(starts, keys, size, out, cuts, i);
          cuts := cuts + [i];
          out := out + [Bucket(currentStart.value, currentCount)];
          currentStart := None;
        }
        currentCount := 0;
      }
      currentCount := currentCount + starts[keys[i]];
      if currentStart.None? {
        currentStart := Some(keys[i]);
      }
    }
    if currentCount > 0 {
      if currentStart.Some? {
        assert (out + [Bucket(currentStart.value, currentCount)])[..|out|] == out;
        out := out + [Bucket(currentStart.value, currentCount)];
      }
    }
  }

  lemma CutAt(starts: map<bytes, nat>, keys: seq<bytes>, size: nat, out: seq<Bucket>, cuts: seq<nat>, i: nat)
    requires forall k :: 0 <= k < |keys| ==> keys[k] in starts
    requires AreFull(starts, keys, size, out, cuts) && cuts[|out|] < i <= |keys|
    requires Sum(starts, keys, cuts[|out|], i - 1) < size <= Sum(starts, keys, cuts[|out|], i)
    ensures var last := Bucket(keys[cuts[|out|]], Sum(starts, keys, cuts[|out|], i));
            AreFull(starts, keys, size, out + [last], cuts + [i])
  {
    hide Sum;
  }

  // ---------- what the buckets count ----------

  function KeyOrEnd(keys: seq<bytes>, j: nat): Option<bytes> {
    if j < |keys| then Some(keys[j]) else None
  }

  lemma {:induction false} TallyStart(hits: seq<Hit>, i: nat)
    requires i < |hits|
    ensures StartsAt(hits, hits[i].Start()) > 0
  {
    var n := |hits| - 1;
    if i < n {
      assert hits[..n][i] == hits[i];
      TallyStart(hits[..n], i);
    }
  }

  /** Every hit starts at one of the keys. */
  ghost predicate Covers(hits: seq<Hit>, keys: seq<bytes>) {
    forall i :: 0 <= i < |hits| ==> hits[i].Start() in keys
  }

  lemma TallyCovers(hits: seq<Hit>, starts: map<bytes, nat>, keys: seq<bytes>)
    requires IsTally(hits, starts) && AreKeysOf(keys, starts)
    ensures Covers(hits, keys)
  {
    hide Increasing;
    forall i | 0 <= i < |hits| ensures hits[i].Start() in keys {
      TallyStart(hits, i);
    }
  }

  lemma KeyInBucket(keys: seq<bytes>, i: nat, j: nat, m: nat)
    requires Increasing(keys) && i < |keys| && m < |keys|
    ensures InBucket(keys[m], keys[i], KeyOrEnd(keys, j)) <==> i <= m < j || (i <= m && j >= |keys|)
  {
    hide CmpBytes;
    LtTotal(keys[i], keys[m]);
    LtTotal(keys[m], keys[i]);
    if j < |keys| {
      LtTotal(keys[m], keys[j]);
      LtTotal(keys[j], keys[m]);
    }
  }

  /** One key more in a bucket adds the hits that start there. */
  lemma {:induction false} OneMoreKey(hits: seq<Hit>, keys: seq<bytes>, i: nat, j: nat)
    requires Increasing(keys) && Covers(hits, keys) && i <= j < |keys|
    ensures HitsFrom(hits, keys[i], KeyOrEnd(keys, j + 1))
         == HitsFrom(hits, keys[i], KeyOrEnd(keys, j)) + StartsAt(hits, keys[j])
  {
    hide InBucket, Increasing;
    if hits != [] {
      var n := |hits| - 1;
      FewerCovered(hits, keys);
      OneMoreKey(hits[..n], keys, i, j);
      var m := IndexOf(keys, hits[n].Start());
      KeyInBucket(keys, i, j, m);
      KeyInBucket(keys, i, j + 1, m);
      SameKey(keys, m, j);
    }
  }

  lemma FewerCovered(hits: seq<Hit>, keys: seq<bytes>)
    requires Covers(hits, keys) && hits != []
    ensures Covers(hits[..|hits| - 1], keys)
  {
  }

  lemma SameKey(keys: seq<bytes>, m: nat, j: nat)
    requires Increasing(keys) && m < |keys| && j < |keys|
    ensures keys[m] == keys[j] <==> m == j
  {
    hide CmpBytes;
    LtTotal(keys[m], keys[j]);
    LtTotal(keys[j], keys[m]);
  }

  lemma {:induction false} EmptyBucket(hits: seq<Hit>, key: bytes)
    ensures HitsFrom(hits, key, Some(key)) == 0
  {
    hide CmpBytes;
    if hits != [] {
      EmptyBucket(hits[..|hits| - 1], key);
      LtTotal(key, hits[|hits| - 1].Start());
    }
  }

  lemma {:induction false} SumIsHits(hits: seq<Hit>, starts: map<bytes, nat>, keys: seq<bytes>, i: nat, j: nat)
    requires IsTally(hits, starts) && AreKeysOf(keys, starts) && i < |keys| && i <= j <= |keys|
    ensures Sum(starts, keys, i, j) == HitsFrom(hits, keys[i], KeyOrEnd(keys, j))
    decreases j
  {
    hide Increasing, HitsFrom, StartsAt;
    if i == j {
      EmptyBucket(hits, keys[i]);
    } else {
      SumIsHits(hits, starts, keys, i, j - 1);
      TallyCovers(hits, starts, keys);
      OneMoreKey(hits, keys, i, j - 1);
    }
  }

  lemma {:induction false} AllInBucket(hits: seq<Hit>, keys: seq<bytes>)
    requires Increasing(keys) && Covers(hits, keys) && keys != []
    ensures HitsFrom(hits, keys[0], None) == |hits|
  {
    hide InBucket, Increasing;
    if hits != [] {
      FewerCovered(hits, keys);
      AllInBucket(hits[..|hits| - 1], keys);
      var m := IndexOf(keys, hits[|hits| - 1].Start());
      KeyInBucket(keys, 0, |keys|, m);
    }
  }

  /** Where a bucket ends: at the start of the next one, or at the end of the keyspace. */
  function EndOf(out: seq<Bucket>, k: nat): Option<bytes> {
    if k + 1 < |out| then Some(out[k + 1].start) else None
  }

  function SumOfCounts(out: seq<Bucket>): nat {
    if out == [] then 0 else SumOfCounts(out[..|out| - 1]) + out[|out| - 1].count
  }

  /** The least number of hits of a bucket before the last one. */
  function SizeOf(total: nat, n: nat): nat
    requires n > 0
  {
    if total / n < 1 then 1 else total / n
  }

  /** A bucket counts what starts in it, and would not have been full without its last start. */
  ghost predicate CountsItsHits(hits: seq<Hit>, out: seq<Bucket>, k: nat)
    requires k < |out|
  {
    StartsAt(hits, out[k].start) > 0 && out[k].count == HitsFrom(hits, out[k].start, EndOf(out, k))
  }

  ghost predicate NotFullBefore(hits: seq<Hit>, size: nat, out: seq<Bucket>, k: nat)
    requires k < |out|
  {
    forall key: bytes :: StartsAt(hits, key) > 0 && InBucket(key, out[k].start, EndOf(out, k)) ==>
      HitsFrom(hits, out[k].start, Some(key)) < size
  }

  /** The split of some hits into at most `n` buckets; no other sequence of buckets is one. */
  ghost predicate IsSplit(hits: seq<Hit>, n: nat, out: seq<Bucket>) {
    if n == 0 || hits == [] then
      out == []
    else
      && 0 < |out| <= n
      && (forall i, j :: 0 <= i < j < |out| ==> Lt(out[i].start, out[j].start))
      && (forall i :: 0 <= i < |hits| ==> Le(out[0].start, hits[i].Start()))
      && (forall k :: 0 <= k < |out| ==> CountsItsHits(hits, out, k))
      && SumOfCounts(out) == |hits|
      && (forall k :: 0 <= k < |out| - 1 ==> out[k].count >= SizeOf(|hits|, n))
      && (forall k :: 0 <= k < |out| - 1 ==> NotFullBefore(hits, SizeOf(|hits|, n), out, k))
      && (|out| < n ==> NotFullBefore(hits, SizeOf(|hits|, n), out, |out| - 1))
  }

  /** The counts of buckets over consecutive keys add up to the hits at all of them. */
  lemma {:induction false} CountsAddUp(
    starts: map<bytes, nat>, keys: seq<bytes>, size: nat, out: seq<Bucket>, cuts: seq<nat>
  )
    requires forall k :: 0 <= k < |keys| ==> keys[k] in starts
    requires AreFull(starts, keys, size, out, cuts)
    ensures SumOfCounts(out) == Sum(starts, keys, 0, cuts[|out|])
  {
    if out != [] {
      var n := |out| - 1;
      assert IsFull(starts, keys, size, out[n], cuts[n], cuts[n + 1]);
      CountsAddUp(starts, keys, size, out[..n], cuts[..n + 1]);
      SumGrows(starts, keys, 0, cuts[n], cuts[n + 1]);
    }
  }

  /** The buckets of `SplitKeys`, in terms of the keys: bucket `k` is over the keys from `cuts[k]` to `cuts[k + 1]`. */
  ghost predicate AreOver(starts: map<bytes, nat>, keys: seq<bytes>, out: seq<Bucket>, cuts: seq<nat>)
    requires forall k :: 0 <= k < |keys| ==> keys[k] in starts
  {
    && |cuts| == |out| + 1 && cuts[0] == 0 && cuts[|out|] == |keys|
    && (forall k :: 0 <= k < |out| ==> IsOver(starts, keys, out[k], cuts[k], cuts[k + 1]))
  }

  lemma LastIsOver(starts: map<bytes, nat>, keys: seq<bytes>, size: nat, out: seq<Bucket>, cuts: seq<nat>)
    requires forall k :: 0 <= k < |keys| ==> keys[k] in starts
    requires 0 < |out| == |cuts| && AreFull(starts, keys, size, out[..|out| - 1], cuts)
    requires IsOver(starts, keys, out[|out| - 1], cuts[|out| - 1], |keys|)
    ensures AreOver(starts, keys, out, cuts + [|keys|])
  {
    hide Sum;
    var all := cuts + [|keys|];
    forall k | 0 <= k < |out| ensures IsOver(starts, keys, out[k], all[k], all[k + 1]) {
      if k < |out| - 1 {
        assert IsFull(starts, keys, size, out[..|out| - 1][k], cuts[k], cuts[k + 1]);
      }
    }
  }

  lemma {:induction false} CutsIncrease(
    starts: map<bytes, nat>, keys: seq<bytes>, out: seq<Bucket>, cuts: seq<nat>, i: nat, j: nat
  )
    requires forall k :: 0 <= k < |keys| ==> keys[k] in starts
    requires AreOver(starts, keys, out, cuts) && i < j <= |out|
    ensures cuts[i] < cuts[j] <= |keys|
    decreases j
  {
    hide Sum;
    assert IsOver(starts, keys, out[j - 1], cuts[j - 1], cuts[j]);
    if i < j - 1 {
      CutsIncrease(starts, keys, out, cuts, i, j - 1);
    }
  }

  /** The bucket over some keys counts the hits that start in it. */
  lemma BucketOfKeys(
    hits: seq<Hit>, starts: map<bytes, nat>, keys: seq<bytes>, out: seq<Bucket>, cuts: seq<nat>, k: nat
  )
    requires IsTally(hits, starts) && AreKeysOf(keys, starts) && AreOver(starts, keys, out, cuts) && k < |out|
    ensures cuts[k] < cuts[k + 1] <= |keys| && out[k].start == keys[cuts[k]]
    ensures EndOf(out, k) == KeyOrEnd(keys, cuts[k + 1]) && CountsItsHits(hits, out, k)
  {
    hide Sum, Increasing, HitsFrom, StartsAt;
    assert IsOver(starts, keys, out[k], cuts[k], cuts[k + 1]);
    if k + 1 < |out| {
      assert IsOver(starts, keys, out[k + 1], cuts[k + 1], cuts[k + 2]);
    }
    SumIsHits(hits, starts, keys, cuts[k], cuts[k + 1]);
  }

  lemma NotFullBeforeLastKey(
    hits: seq<Hit>, starts: map<bytes, nat>, keys: seq<bytes>, size: nat, out: seq<Bucket>, cuts: seq<nat>, k: nat
  )
    requires IsTally(hits, starts) && AreKeysOf(keys, starts) && AreOver(starts, keys, out, cuts) && k < |out|
    requires cuts[k] < cuts[k + 1] <= |keys| && Sum(starts, keys, cuts[k], cuts[k + 1] - 1) < size
    ensures NotFullBefore(hits, size, out, k)
  {
    hide Sum, HitsFrom, StartsAt, Increasing, InBucket;
    BucketOfKeys(hits, starts, keys, out, cuts, k);
    forall key: bytes | StartsAt(hits, key) > 0 && InBucket(key, out[k].start, EndOf(out, k))
      ensures HitsFrom(hits, out[k].start, Some(key)) < size
    {
      var m := IndexOf(keys, key);
      KeyInBucket(keys, cuts[k], cuts[k + 1], m);
      SumIsHits(hits, starts, keys, cuts[k], m);
      SumGrows(starts, keys, cuts[k], m, cuts[k + 1] - 1);
    }
  }

  /** The buckets over the keys of a tally split its hits. */
  lemma SplitOfHits(hits: seq<Hit>, starts: map<bytes, nat>, keys: seq<bytes>, n: nat, out: seq<Bucket>, cuts: seq<nat>)
    requires IsTally(hits, starts) && AreKeysOf(keys, starts) && n > 0 && hits != []
    requires 0 < |out| <= n && |cuts| == |out|
    requires AreFull(starts, keys, SizeOf(|hits|, n), out[..|out| - 1], cuts)
    requires IsOver(starts, keys, out[|out| - 1], cuts[|out| - 1], |keys|)
    requires |out| < n ==> Sum(starts, keys, cuts[|out| - 1], |keys| - 1) < SizeOf(|hits|, n)
    ensures IsSplit(hits, n, out)
  {
    hide Sum, HitsFrom, StartsAt, Increasing, InBucket, CountsItsHits, NotFullBefore, SizeOf;
    var size, all, last := SizeOf(|hits|, n), cuts + [|keys|], |out| - 1;
    LastIsOver(starts, keys, size, out, cuts);
    forall k | 0 <= k < |out| ensures CountsItsHits(hits, out, k) {
      BucketOfKeys(hits, starts, keys, out, all, k);
    }
    forall k | 0 <= k < last ensures out[k].count >= size && NotFullBefore(hits, size, out, k) {
      assert IsFull(starts, keys, size, out[..last][k], cuts[k], cuts[k + 1]);
      NotFullBeforeLastKey(hits, starts, keys, size, out, all, k);
    }
    if |out| < n {
      NotFullBeforeLastKey(hits, starts, keys, size, out, all, last);
    }
    forall i, j | 0 <= i < j < |out| ensures Lt(out[i].start, out[j].start) {
      CutsIncrease(starts, keys, out, all, i, j);
      StartsIncrease(starts, keys, out, all, i, j);
    }
    forall i | 0 <= i < |hits| ensures Le(out[0].start, hits[i].Start()) {
      TallyCovers(hits, starts, keys);
      var m := IndexOf(keys, hits[i].Start());
      BucketOfKeys(hits, starts, keys, out, all, 0);
      FirstIsLeast(keys, m);
    }
    AllCounted(hits, starts, keys, size, out, cuts);
  }

  lemma StartsIncrease(starts: map<bytes, nat>, keys: seq<bytes>, out: seq<Bucket>, cuts: seq<nat>, i: nat, j: nat)
    requires forall k :: 0 <= k < |keys| ==> keys[k] in starts
    requires AreOver(starts, keys, out, cuts) && i < j < |out| && cuts[i] < cuts[j] && Increasing(keys)
    ensures Lt(out[i].start, out[j].start)
  {
    hide Sum;
    assert IsOver(starts, keys, out[i], cuts[i], cuts[i + 1]);
    assert IsOver(starts, keys, out[j], cuts[j], cuts[j + 1]);
  }

  lemma FirstIsLeast(keys: seq<bytes>, m: nat)
    requires Increasing(keys) && m < |keys|
    ensures Le(keys[0], keys[m])
  {
    hide CmpBytes;
    LtTotal(keys[0], keys[m]);
  }

  lemma AllCounted(
    hits: seq<Hit>, starts: map<bytes, nat>, keys: seq<bytes>, size: nat, out: seq<Bucket>, cuts: seq<nat>
  )
    requires IsTally(hits, starts) && AreKeysOf(keys, starts)
    requires 0 < |out| == |cuts| && AreFull(starts, keys, size, out[..|out| - 1], cuts)
    requires IsOver(starts, keys, out[|out| - 1], cuts[|out| - 1], |keys|)
    ensures SumOfCounts(out) == |hits|
  {
    hide Sum, HitsFrom, StartsAt, InBucket;
    var last := |out| - 1;
    CountsAddUp(starts, keys, size, out[..last], cuts);
    SumGrows(starts, keys, 0, cuts[last], |keys|);
    SumIsHits(hits, starts, keys, 0, |keys|);
    TallyCovers(hits, starts, keys);
    AllInBucket(hits, keys);
  }

  lemma KeysOfTally(hits: seq<Hit>, starts: map<bytes, nat>, keys: seq<bytes>)
    requires IsTally(hits, starts) && AreKeysOf(keys, starts)
    ensures forall k :: 0 <= k < |keys| ==> keys[k] in starts && starts[keys[k]] > 0
    ensures keys == [] <==> hits == []
    ensures Sum(starts, keys, 0, 0) == 0
  {
    hide StartsAt, Increasing;
    TallyCovers(hits, starts, keys);
    if hits != [] {
      assert hits[0].Start() in keys;
    } else if keys != [] {
      NothingStarts(keys[0]);
    }
  }

  lemma NothingStarts(key: bytes)
    ensures StartsAt([], key) == 0
  {
  }

  lemma NextSum(starts: map<bytes, nat>, keys: seq<bytes>, i: nat)
    requires i < |keys| && forall k :: 0 <= k < |keys| ==> keys[k] in starts
    ensures Sum(starts, keys, 0, i + 1) == Sum(starts, keys, 0, i) + starts[keys[i]]
  {
  }

  lemma TotalOfTally(hits: seq<Hit>, starts: map<bytes, nat>, keys: seq<bytes>)
    requires IsTally(hits, starts) && AreKeysOf(keys, starts)
    ensures Sum(starts, keys, 0, |keys|) == |hits|
  {
    hide StartsAt, Increasing, HitsFrom, InBucket;
    KeysOfTally(hits, starts, keys);
    if keys != [] {
      SumIsHits(hits, starts, keys, 0, |keys|);
      TallyCovers(hits, starts, keys);
      AllInBucket(hits, keys);
    }
  }

  /** A full bucket cannot be cut anywhere else: the buckets are the only ones that split the hits like this. */
  lemma {:induction false} SameStarts(hits: seq<Hit>, n: nat, a: seq<Bucket>, b: seq<Bucket>, k: nat)
    requires IsSplit(hits, n, a) && IsSplit(hits, n, b) && n > 0 && hits != [] && k < |a|
    ensures k < |b| && a[k].start == b[k].start
  {
    hide CmpBytes, HitsFrom, StartsAt, SizeOf, InBucket, SumOfCounts, NotFullBefore;
    if k == 0 {
      assert CountsItsHits(hits, a, 0) && CountsItsHits(hits, b, 0);
      FirstStart(hits, a[0].start, b[0].start);
    } else {
      SameStarts(hits, n, a, b, k - 1);
      NextStart(hits, n, a, b, k);
      if k < |b| {
        NextStart(hits, n, b, a, k);
        LtTotal(a[k].start, b[k].start);
        LtTotal(b[k].start, a[k].start);
      }
    }
  }

  /** The least of the recorded starts is one. */
  lemma {:induction false} FirstStart(hits: seq<Hit>, a: bytes, b: bytes)
    requires StartsAt(hits, a) > 0 && StartsAt(hits, b) > 0
    requires forall i :: 0 <= i < |hits| ==> Le(a, hits[i].Start()) && Le(b, hits[i].Start())
    ensures a == b
  {
    hide CmpBytes;
    var i := StartedAt(hits, a);
    var j := StartedAt(hits, b);
    LtTotal(a, b);
    LtTotal(b, a);
  }

  lemma {:induction false} StartedAt(hits: seq<Hit>, key: bytes) returns (i: nat)
    requires StartsAt(hits, key) > 0
    ensures i < |hits| && hits[i].Start() == key
  {
    i := |hits| - 1;
    if hits[i].Start() != key {
      i := StartedAt(hits[..i], key);
    }
  }

  /** A split cannot have its next bucket later than another one has it, nor lack it. */
  lemma NextStart(hits: seq<Hit>, n: nat, a: seq<Bucket>, b: seq<Bucket>, k: nat)
    requires IsSplit(hits, n, a) && IsSplit(hits, n, b) && n > 0 && hits != []
    requires 0 < k < |a| && k - 1 < |b| && a[k - 1].start == b[k - 1].start
    ensures k < |b| && Le(b[k].start, a[k].start)
  {
    hide CmpBytes, HitsFrom, StartsAt, SizeOf, SumOfCounts;
    var cut := a[k].start;
    assert CountsItsHits(hits, a, k) && CountsItsHits(hits, a, k - 1);
    assert a[k - 1].count >= SizeOf(|hits|, n);
    LtTotal(a[k - 1].start, cut);
    if k < |b| {
      assert NotFullBefore(hits, SizeOf(|hits|, n), b, k - 1);
      assert !InBucket(cut, b[k - 1].start, EndOf(b, k - 1));
      LtTotal(b[k].start, cut);
    }
  }

  lemma SplitIsUnique(hits: seq<Hit>, n: nat, a: seq<Bucket>, b: seq<Bucket>)
    requires IsSplit(hits, n, a) && IsSplit(hits, n, b)
    ensures a == b
  {
    hide CmpBytes, HitsFrom, StartsAt, SizeOf, SumOfCounts, InBucket, NotFullBefore;
    if n > 0 && hits != [] {
      forall k | 0 <= k < |a| ensures k < |b| && a[k].start == b[k].start {
        SameStarts(hits, n, a, b, k);
      }
      SameStarts(hits, n, b, a, |b| - 1);
      assert |a| == |b| by {
        SameStarts(hits, n, a, b, |a| - 1);
      }
      forall k | 0 <= k < |a| ensures a[k] == b[k] {
        assert CountsItsHits(hits, a, k) && CountsItsHits(hits, b, k);
      }
    }
  }

  // ---------- what the counts mean ----------

  /** A key lies from one key up to another one; a range counts where it begins. */
  predicate LiesFrom(h: Hit, start: bytes, end: Option<bytes>) {
    match h
    case KeyHit(key) => Le(start, key) && (end == None || Lt(key, end.value))
    case RangeHit(KeyRange(begin, _)) => Le(start, begin) && (end == None || Lt(begin, end.value))
  }

  ghost function Lying(hits: seq<Hit>, start: bytes, end: Option<bytes>): set<nat> {
    set i: nat | i < |hits| && LiesFrom(hits[i], start, end)
  }

  lemma {:induction false} HitsAreLying(hits: seq<Hit>, start: bytes, end: Option<bytes>)
    ensures HitsFrom(hits, start, end) == |Lying(hits, start, end)|
  {
    hide Le, Lt, LiesFrom;
    if hits == [] {
      assert Lying(hits, start, end) == {};
    } else {
      var n := |hits| - 1;
      HitsAreLying(hits[..n], start, end);
      LyingNext(hits, start, end);
      StartLies(hits[n], start, end);
    }
  }

  lemma LyingNext(hits: seq<Hit>, start: bytes, end: Option<bytes>)
    requires hits != []
    ensures var n := |hits| - 1;
            |Lying(hits, start, end)|
            == |Lying(hits[..n], start, end)| + if LiesFrom(hits[n], start, end) then 1 else 0
  {
    hide LiesFrom;
    var n: nat := |hits| - 1;
    var before := Lying(hits[..n], start, end);
    assert n !in before;
    assert Lying(hits, start, end) == before + if LiesFrom(hits[n], start, end) then {n} else {};
  }

  lemma StartLies(h: Hit, start: bytes, end: Option<bytes>)
    ensures LiesFrom(h, start, end) == InBucket(h.Start(), start, end)
  {
    hide Le, Lt;
  }

  /** Each bucket counts the recorded hits from its start up to the next one, and all but the last are large enough. */
  lemma BucketsCountHits(hits: seq<Hit>, n: nat, out: seq<Bucket>, k: nat)
    requires IsSplit(hits, n, out) && k < |out|
    ensures out[k].count == |Lying(hits, out[k].start, if k + 1 < |out| then Some(out[k + 1].start) else None)|
    ensures k + 1 < |out| ==> n > 0 && out[k].count >= 1 && out[k].count >= |hits| / n
  {
    hide HitsFrom, Le, Lt, SumOfCounts, NotFullBefore;
    assert CountsItsHits(hits, out, k);
    HitsAreLying(hits, out[k].start, if k + 1 < |out| then Some(out[k + 1].start) else None);
  }
}
