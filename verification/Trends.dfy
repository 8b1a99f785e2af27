/** Trend bucketing of the admin reports (lib/actions/admin-reporting.ts). A date is
    its UTC milliseconds since the epoch; a bucket is named by the instant it starts. */
module Trends {
  type Instant = int

  const DAY_MS := 24 * 60 * 60 * 1000

  datatype Granularity = Day | Week

  /** How many days a bucket spans. */
  function Span(g: Granularity): int {
    if g == Day then DAY_MS else 7 * DAY_MS
  }

  /** `getUTCDay()`: the epoch was a Thursday; 0 is Sunday. */
  function UtcDay(t: Instant): int {
    (t / DAY_MS + 4) % 7
  }

  function TruncateUtc(t: Instant, g: Granularity): Instant {
    var midnight := t / DAY_MS * DAY_MS;
    if g == Day then midnight
    else
      var day := UtcDay(midnight);
      var diffToMonday := (if day == 0 then -6 else 1) - day;
      midnight + diffToMonday * DAY_MS
  }

  function StepBucket(t: Instant, g: Granularity): Instant {
    t + (if g == Day then 1 else 7) * DAY_MS
  }

  // ---------------------------------------------------------------------------
  // Truncation
  // ---------------------------------------------------------------------------

  const MONDAY := 1

  /** Where buckets can start: midnights, and for weeks only Mondays. */
  predicate IsBucketStart(t: Instant, g: Granularity) {
    t % DAY_MS == 0 && (g == Week ==> UtcDay(t) == MONDAY)
  }

  /** The day count of a week's Monday, from any of its days. */
  lemma MondayOf(d: int)
    ensures var day := (d + 4) % 7;
            var monday := d + ((if day == 0 then -6 else 1) - day);
            monday <= d < monday + 7 && (monday + 4) % 7 == MONDAY
  {
  }

  lemma Midnights(d: int)
    ensures d * DAY_MS / DAY_MS == d && d * DAY_MS % DAY_MS == 0
  {
  }

  /** A truncated instant is the start of the bucket that contains the instant. */
  lemma TruncationContains(t: Instant, g: Granularity)
    ensures var b := TruncateUtc(t, g);
            b <= t < b + Span(g) && IsBucketStart(b, g)
  {
    var d := t / DAY_MS;
    Midnights(d);
    if g == Week {
      MondayOf(d);
      var day := (d + 4) % 7;
      var monday := d + ((if day == 0 then -6 else 1) - day);
      assert TruncateUtc(t, g) == monday * DAY_MS;
      Midnights(monday);
    }
  }

  /** Bucket starts are whole spans apart. */
  lemma StartsAreAligned(a: Instant, b: Instant, g: Granularity)
    requires IsBucketStart(a, g) && IsBucketStart(b, g)
    ensures (b - a) % Span(g) == 0
  {
    var p, q := a / DAY_MS, b / DAY_MS;
    assert a == p * DAY_MS && b == q * DAY_MS;
    if g == Week {
      assert (p + 4) % 7 == (q + 4) % 7;
      var w := (q - p) / 7;
      assert q - p == 7 * w;
      assert b - a == w * Span(g);
      Multiple(w, Span(g));
    } else {
      assert b - a == (q - p) * Span(g);
      Multiple(q - p, Span(g));
    }
  }

  lemma Multiple(k: int, n: int)
    requires n > 0
    ensures k * n % n == 0
  {
    var q, r := k * n / n, k * n % n;
    assert (k - q) * n == r;
    FarFromZero(k - q, n);
  }

  lemma FarFromZero(k: int, n: int)
    requires n > 0
    ensures k >= 1 ==> k * n >= n
    ensures k <= -1 ==> k * n <= -n
  {
  }

  /** Truncation is the only bucket start whose bucket contains the instant. */
  lemma TruncationIsUnique(t: Instant, b: Instant, g: Granularity)
    requires IsBucketStart(b, g) && b <= t < b + Span(g)
    ensures TruncateUtc(t, g) == b
  {
    TruncationContains(t, g);
    StartsAreAligned(b, TruncateUtc(t, g), g);
  }

  // ---------------------------------------------------------------------------
  // Buckets
  // ---------------------------------------------------------------------------

  /** Buckets that follow one another without a gap, from one start to another. */
  predicate Consecutive(buckets: seq<Instant>, first: Instant, last: Instant, g: Granularity) {
    buckets != [] && buckets[0] == first && buckets[|buckets| - 1] == last
    && forall i :: 0 < i < |buckets| ==> buckets[i] == StepBucket(buckets[i - 1], g)
  }

  /** The loop of `generateBuckets`. */
  method GenerateBuckets(start: Instant, end: Instant, g: Granularity) returns (buckets: seq<Instant>)
    ensures start <= end ==> Consecutive(buckets, TruncateUtc(start, g), TruncateUtc(end, g), g)
    ensures TruncateUtc(start, g) > TruncateUtc(end, g) ==> buckets == []
  {
    var cursor := TruncateUtc(start, g);
    var last := TruncateUtc(end, g);
    AlignedRange(start, end, g);
    buckets := [];
    ghost var first := cursor;
    while cursor <= last
      invariant (last - cursor) % Span(g) == 0
      invariant buckets == [] ==> cursor == first
      invariant buckets != [] ==>
                  Consecutive(buckets, first, cursor - Span(g), g) && first <= cursor - Span(g) <= last
      decreases last - cursor
    {
      OneSpanOn(last - cursor, Span(g));
      buckets := buckets + [cursor];
      cursor := StepBucket(cursor, g);
    }
    if buckets != [] {
      LastSpan(last - cursor, Span(g));
    }
  }

  lemma OneSpanOn(gap: int, n: int)
    requires n > 0 && gap % n == 0
    ensures (gap - n) % n == 0
  {
    assert gap == gap / n * n;
    Multiple(gap / n - 1, n);
    assert (gap / n - 1) * n == gap - n;
  }

  lemma LastSpan(gap: int, n: int)
    requires n > 0 && gap % n == 0 && -n <= gap < 0
    ensures gap == -n
  {
  }

  lemma AlignedRange(start: Instant, end: Instant, g: Granularity)
    ensures (TruncateUtc(end, g) - TruncateUtc(start, g)) % Span(g) == 0
    ensures start <= end ==> TruncateUtc(start, g) <= TruncateUtc(end, g)
  {
    TruncationContains(start, g);
    TruncationContains(end, g);
    StartsAreAligned(TruncateUtc(start, g), TruncateUtc(end, g), g);
    if start <= end { TruncationIsMonotone(start, end, g); }
  }

  lemma TruncationIsMonotone(a: Instant, b: Instant, g: Granularity)
    requires a <= b
    ensures TruncateUtc(a, g) <= TruncateUtc(b, g)
  {
    TruncationContains(a, g);
    TruncationContains(b, g);
    StartsAreAligned(TruncateUtc(b, g), TruncateUtc(a, g), g);
  }

  lemma {:induction false} BucketPosition(buckets: seq<Instant>, first: Instant, last: Instant, g: Granularity, i: nat)
    requires Consecutive(buckets, first, last, g) && i < |buckets|
    ensures buckets[i] == first + i * Span(g)
    decreases i
  {
    if i > 0 {
      BucketPosition(buckets, first, last, g, i - 1);
      assert buckets[i] == StepBucket(buckets[i - 1], g);
    }
  }

  lemma {:induction false} BucketsIncrease(buckets: seq<Instant>, first: Instant, last: Instant, g: Granularity, i: nat, j: nat)
    requires Consecutive(buckets, first, last, g) && i < j < |buckets|
    ensures buckets[i] < buckets[j]
    decreases j
  {
    assert buckets[j] == StepBucket(buckets[j - 1], g);
    if i < j - 1 {
      BucketsIncrease(buckets, first, last, g, i, j - 1);
    }
  }

  /** Every instant of the range falls in exactly one bucket of the series. */
  lemma InstantHasOneBucket(buckets: seq<Instant>, start: Instant, end: Instant, g: Granularity, t: Instant) returns (i: nat)
    requires start <= t <= end && Consecutive(buckets, TruncateUtc(start, g), TruncateUtc(end, g), g)
    ensures i < |buckets| && buckets[i] == TruncateUtc(t, g) && buckets[i] <= t < buckets[i] + Span(g)
    ensures forall j :: 0 <= j < |buckets| && buckets[j] == TruncateUtc(t, g) ==> j == i
  {
    var first, last, b := TruncateUtc(start, g), TruncateUtc(end, g), TruncateUtc(t, g);
    TruncationContains(t, g);
    TruncationContains(start, g);
    TruncationIsMonotone(start, t, g);
    TruncationIsMonotone(t, end, g);
    StartsAreAligned(first, b, g);
    i := (b - first) / Span(g);
    assert b == first + i * Span(g);
    var n := |buckets| - 1;
    BucketPosition(buckets, first, last, g, n);
    assert i * Span(g) <= n * Span(g);
    FarFromZero(i - n, Span(g));
    assert (i - n) * Span(g) == i * Span(g) - n * Span(g);
    BucketPosition(buckets, first, last, g, i);
    forall j | 0 <= j < |buckets| && buckets[j] == b
      ensures j == i
    {
      if j < i { BucketsIncrease(buckets, first, last, g, j, i); }
      if i < j { BucketsIncrease(buckets, first, last, g, i, j); }
    }
  }

  // ---------------------------------------------------------------------------
  // Series
  // ---------------------------------------------------------------------------

  /** A counted row: when it was created and what it adds (1 for a plain count). */
  datatype Entry = Entry(createdAt: Instant, amount: int)

  /** The grouped query: one sum per bucket that has rows. */
  function GroupByBucket(entries: seq<Entry>, g: Granularity): map<Instant, int> {
    if entries == [] then map[]
    else
      var before, last := GroupByBucket(entries[..|entries| - 1], g), entries[|entries| - 1];
      var b := TruncateUtc(last.createdAt, g);
      before[b := (if b in before then before[b] else 0) + last.amount]
  }

  /** What the rows created from `from` until before `to` add up to. */
  ghost function AmountBetween(entries: seq<Entry>, from: Instant, to: Instant): int {
    if entries == [] then 0
    else
      var last := entries[|entries| - 1];
      AmountBetween(entries[..|entries| - 1], from, to) + (if from <= last.createdAt < to then last.amount else 0)
  }

  /** Grouping by truncated instant is summing over each bucket's span of time. */
  lemma {:induction false} GroupedAmount(entries: seq<Entry>, b: Instant, g: Granularity)
    requires IsBucketStart(b, g)
    ensures var m := GroupByBucket(entries, g);
            AmountBetween(entries, b, b + Span(g)) == if b in m then m[b] else 0
    decreases |entries|
  {
    if entries != [] {
      var last := entries[|entries| - 1];
      GroupedAmount(entries[..|entries| - 1], b, g);
      TruncationContains(last.createdAt, g);
      if b <= last.createdAt < b + Span(g) { TruncationIsUnique(last.createdAt, b, g); }
    }
  }

  datatype TrendPoint = TrendPoint(bucket: Instant, value: int)

  function ZeroFillSeries(buckets: seq<Instant>, byBucket: map<Instant, int>): seq<TrendPoint> {
    seq(|buckets|, i requires 0 <= i < |buckets| =>
      TrendPoint(buckets[i], if buckets[i] in byBucket then byBucket[buckets[i]] else 0))
  }

  ghost function Total(points: seq<TrendPoint>): int {
    if points == [] then 0 else Total(points[..|points| - 1]) + points[|points| - 1].value
  }

  ghost function TotalAmount(entries: seq<Entry>): int {
    if entries == [] then 0 else TotalAmount(entries[..|entries| - 1]) + entries[|entries| - 1].amount
  }

  /** Changing one bucket's value changes the total by as much, if the bucket is
      listed exactly once. */
  lemma {:induction false} TotalAfterUpdate(buckets: seq<Instant>, m: map<Instant, int>, b: Instant, value: int)
    requires forall i, j :: 0 <= i < j < |buckets| ==> buckets[i] != buckets[j]
    ensures Total(ZeroFillSeries(buckets, m[b := value]))
         == Total(ZeroFillSeries(buckets, m)) + (if b in buckets then value - (if b in m then m[b] else 0) else 0)
    decreases |buckets|
  {
    if buckets != [] {
      var n := |buckets| - 1;
      var rest := buckets[..n];
      TotalAfterUpdate(rest, m, b, value);
      assert ZeroFillSeries(buckets, m)[..n] == ZeroFillSeries(rest, m);
      assert ZeroFillSeries(buckets, m[b := value])[..n] == ZeroFillSeries(rest, m[b := value]);
      assert b in buckets <==> b in rest || b == buckets[n];
    }
  }

  lemma {:induction false} EmptySeriesTotal(buckets: seq<Instant>)
    ensures Total(ZeroFillSeries(buckets, map[])) == 0
    decreases |buckets|
  {
    if buckets != [] {
      var n := |buckets| - 1;
      EmptySeriesTotal(buckets[..n]);
      assert ZeroFillSeries(buckets, map[])[..n] == ZeroFillSeries(buckets[..n], map[]);
    }
  }

  /** Every point of a trend shows its bucket, and the sum over the rows created in the
      day, or the seven days, that begin there. */
  lemma PointIsItsBucket(buckets: seq<Instant>, start: Instant, end: Instant, g: Granularity, entries: seq<Entry>, i: nat)
    requires Consecutive(buckets, TruncateUtc(start, g), TruncateUtc(end, g), g) && i < |buckets|
    ensures var points := ZeroFillSeries(buckets, GroupByBucket(entries, g));
            |points| == |buckets| && points[i].bucket == buckets[i]
            && points[i].value == AmountBetween(entries, buckets[i], buckets[i] + (if g == Day then 1 else 7) * 24 * 60 * 60 * 1000)
  {
    BucketStarts(buckets, start, end, g, i);
    GroupedAmount(entries, buckets[i], g);
  }

  lemma {:induction false} BucketStarts(buckets: seq<Instant>, start: Instant, end: Instant, g: Granularity, i: nat)
    requires Consecutive(buckets, TruncateUtc(start, g), TruncateUtc(end, g), g) && i < |buckets|
    ensures IsBucketStart(buckets[i], g)
    decreases i
  {
    if i == 0 {
      TruncationContains(start, g);
    } else {
      BucketStarts(buckets, start, end, g, i - 1);
      assert buckets[i] == StepBucket(buckets[i - 1], g);
      NextStart(buckets[i - 1], g);
    }
  }

  lemma NextStart(t: Instant, g: Granularity)
    requires IsBucketStart(t, g)
    ensures IsBucketStart(StepBucket(t, g), g)
  {
    var d := t / DAY_MS;
    var n := d + if g == Day then 1 else 7;
    assert StepBucket(t, g) == n * DAY_MS;
    Midnights(n);
  }

  /** Conservation: the points of a trend add up to the rows of the range. Nothing is
      dropped at either end of the range and nothing is counted twice. */
  lemma {:induction false} TrendAddsUp(buckets: seq<Instant>, start: Instant, end: Instant, g: Granularity, entries: seq<Entry>)
    requires Consecutive(buckets, TruncateUtc(start, g), TruncateUtc(end, g), g)
    requires forall e :: e in entries ==> start <= e.createdAt <= end
    ensures Total(ZeroFillSeries(buckets, GroupByBucket(entries, g))) == TotalAmount(entries)
    decreases |entries|
  {
    if entries == [] {
      EmptySeriesTotal(buckets);
    } else {
      var before, last := entries[..|entries| - 1], entries[|entries| - 1];
      TrendAddsUp(buckets, start, end, g, before);
      assert last in entries;
      var i := InstantHasOneBucket(buckets, start, end, g, last.createdAt);
      forall i, j | 0 <= i < j < |buckets|
        ensures buckets[i] != buckets[j]
      {
        BucketsIncrease(buckets, TruncateUtc(start, g), TruncateUtc(end, g), g, i, j);
      }
      var m, b := GroupByBucket(before, g), buckets[i];
      TotalAfterUpdate(buckets, m, b, (if b in m then m[b] else 0) + last.amount);
    }
  }
}
