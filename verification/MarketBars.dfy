/** Preparation of one-minute bars: validity, stale runs, and five-minute bars from complete buckets.
  * Times are in seconds, prices are reals. */
module MarketBars {
  import opened Reals

  datatype Row = Row(time: int, open: real, high: real, low: real, close: real)

  // ---- validity ----

  /** `valid_ohlc`: positive prices, and the range contains open, close and itself. */
  predicate ValidOhlc(r: Row) {
    && r.open > 0.0 && r.high > 0.0 && r.low > 0.0 && r.close > 0.0
    && r.high >= Max(r.open, Max(r.close, r.low))
    && r.low <= Min(r.open, Min(r.close, r.high))
  }

  /** Exactly the rows whose prices are positive and whose open and close lie between low and high. */
  lemma ValidRowsAreOrdered(r: Row)
    ensures ValidOhlc(r) <==> 0.0 < r.low && r.low <= r.open <= r.high && r.low <= r.close <= r.high
  {}

  // ---- stale runs ----

  const STALE_RUN_MINUTES := 60

  predicate SamePrices(a: Row, b: Row) {
    a.open == b.open && a.high == b.high && a.low == b.low && a.close == b.close
  }

  /** Same prices as the row before; the first row has none before it. */
  predicate SameAsPrevious(rows: seq<Row>, i: nat)
    requires i < |rows|
  {
    i > 0 && SamePrices(rows[i], rows[i - 1])
  }

  /** `(~same_as_previous).cumsum()`. */
  function Group(rows: seq<Row>, i: nat): nat
    requires i < |rows|
  {
    (if i == 0 then 0 else Group(rows, i - 1)) + (if SameAsPrevious(rows, i) then 0 else 1)
  }

  /** Rows of a group among the first n. */
  function Members(rows: seq<Row>, group: nat, n: nat): nat
    requires n <= |rows|
  {
    if n == 0 then 0 else Members(rows, group, n - 1) + (if Group(rows, n - 1) == group then 1 else 0)
  }

  /** `run_sizes >= STALE_RUN_MINUTES`. */
  predicate Stale(rows: seq<Row>, i: nat)
    requires i < |rows|
  {
    Members(rows, Group(rows, i), |rows|) >= STALE_RUN_MINUTES
  }

  /** All rows of a stretch have the same prices. */
  ghost predicate Flat(rows: seq<Row>, from: nat, end: nat)
    requires from < end <= |rows|
  {
    forall j | from < j < end :: SameAsPrevious(rows, j)
  }

  function RunStart(rows: seq<Row>, i: nat): (start: nat)
    requires i < |rows|
    ensures start <= i && Flat(rows, start, i + 1) && !SameAsPrevious(rows, start)
  {
    if SameAsPrevious(rows, i) then RunStart(rows, i - 1) else i
  }

  function RunEnd(rows: seq<Row>, i: nat): (end: nat)
    requires i < |rows|
    ensures i < end <= |rows| && Flat(rows, i, end) && (end < |rows| ==> !SameAsPrevious(rows, end))
    decreases |rows| - i
  {
    if i + 1 < |rows| && SameAsPrevious(rows, i + 1) then RunEnd(rows, i + 1) else i + 1
  }

  lemma {:induction false} GroupsAscend(rows: seq<Row>, i: nat, j: nat)
    requires i <= j < |rows|
    ensures Group(rows, i) <= Group(rows, j)
    ensures Group(rows, i) == Group(rows, j) <==> Flat(rows, i, j + 1)
    decreases j
  {
    if i < j {
      GroupsAscend(rows, i, j - 1);
      assert Flat(rows, i, j + 1) ==> SameAsPrevious(rows, j) && Flat(rows, i, j);
    }
  }

  /** A group is a maximal stretch of equal rows. */
  lemma GroupIsRun(rows: seq<Row>, i: nat, j: nat)
    requires i < |rows| && j < |rows|
    ensures Group(rows, j) == Group(rows, i) <==> RunStart(rows, i) <= j < RunEnd(rows, i)
  {
    var start, end := RunStart(rows, i), RunEnd(rows, i);
    if j <= i {
      GroupsAscend(rows, j, i);
    } else {
      GroupsAscend(rows, i, j);
    }
  }

  lemma {:induction false} MembersOfInterval(rows: seq<Row>, group: nat, start: nat, end: nat, n: nat)
    requires start <= end && n <= |rows|
    requires forall j | 0 <= j < n :: Group(rows, j) == group <==> start <= j < end
    ensures Members(rows, group, n) == if n <= start then 0 else if n <= end then n - start else end - start
    decreases n
  {
    if n > 0 { MembersOfInterval(rows, group, start, end, n - 1); }
  }

  lemma RunSizeIsLength(rows: seq<Row>, i: nat)
    requires i < |rows|
    ensures Members(rows, Group(rows, i), |rows|) == RunEnd(rows, i) - RunStart(rows, i)
  {
    forall j | 0 <= j < |rows|
      ensures Group(rows, j) == Group(rows, i) <==> RunStart(rows, i) <= j < RunEnd(rows, i)
    {
      GroupIsRun(rows, i, j);
    }
    MembersOfInterval(rows, Group(rows, i), RunStart(rows, i), RunEnd(rows, i), |rows|);
  }

  /** A row is marked exactly when it lies in sixty or more consecutive rows with identical prices. */
  lemma StaleExactlyInLongRuns(rows: seq<Row>, i: nat)
    requires i < |rows|
    ensures Stale(rows, i) <==>
      exists from: nat, end: nat :: from <= i < end <= |rows| && end - from >= 60 && Flat(rows, from, end)
  {
    RunSizeIsLength(rows, i);
    var start, end := RunStart(rows, i), RunEnd(rows, i);
    if Stale(rows, i) {
      assert Flat(rows, start, end) by {
        assert Flat(rows, start, i + 1) && Flat(rows, i, end);
      }
    }
    forall from: nat, upTo: nat | from <= i < upTo <= |rows| && Flat(rows, from, upTo)
      ensures start <= from && upTo <= end
    {}
  }

  // ---- five-minute bars ----

  const M5 := 300

  function Bucket(r: Row): int {
    r.time / M5
  }

  /** The rows of one bucket, in their order. */
  function InBucket(rows: seq<Row>, k: int): seq<Row> {
    if rows == [] then [] else (if Bucket(rows[0]) == k then [rows[0]] else []) + InBucket(rows[1..], k)
  }

  function Highest(rows: seq<Row>): real
    requires rows != []
  {
    if |rows| == 1 then rows[0].high else Max(rows[0].high, Highest(rows[1..]))
  }

  function Lowest(rows: seq<Row>): real
    requires rows != []
  {
    if |rows| == 1 then rows[0].low else Min(rows[0].low, Lowest(rows[1..]))
  }

  function BarOf(k: int, rows: seq<Row>): Row
    requires rows != []
  {
    Row(k * M5, rows[0].open, Highest(rows), Lowest(rows), rows[|rows| - 1].close)
  }

  predicate IsBarOf(rows: seq<Row>, b: int, bar: Row) {
    |InBucket(rows, b)| == 5 && bar == BarOf(b, InBucket(rows, b))
  }

  /** The bars of the buckets from k to last that have exactly five rows. */
  function BarsBetween(rows: seq<Row>, k: int, last: int): seq<Row>
    decreases last - k
  {
    if k > last then []
    else
      var bucket := InBucket(rows, k);
      (if |bucket| == 5 then [BarOf(k, bucket)] else []) + BarsBetween(rows, k + 1, last)
  }

  function FirstBucket(rows: seq<Row>): int
    requires rows != []
  {
    if |rows| == 1 then Bucket(rows[0])
    else var rest := FirstBucket(rows[1..]); if Bucket(rows[0]) <= rest then Bucket(rows[0]) else rest
  }

  function LastBucket(rows: seq<Row>): int
    requires rows != []
  {
    if |rows| == 1 then Bucket(rows[0])
    else var rest := LastBucket(rows[1..]); if Bucket(rows[0]) >= rest then Bucket(rows[0]) else rest
  }

  /** `resample_m5`. */
  function ResampleM5(rows: seq<Row>): seq<Row> {
    if rows == [] then [] else BarsBetween(rows, FirstBucket(rows), LastBucket(rows))
  }

  lemma {:induction false} InBucketIsExact(rows: seq<Row>, k: int)
    ensures forall r :: r in InBucket(rows, k) <==> r in rows && Bucket(r) == k
  {
    if rows != [] {
      InBucketIsExact(rows[1..], k);
      assert rows == [rows[0]] + rows[1..];
    }
  }

  lemma {:induction false} BucketRange(rows: seq<Row>)
    requires rows != []
    ensures forall r | r in rows :: FirstBucket(rows) <= Bucket(r) <= LastBucket(rows)
  {
    if |rows| > 1 {
      BucketRange(rows[1..]);
      assert rows == [rows[0]] + rows[1..];
    }
  }

  lemma {:induction false} BarsBetweenAreExact(rows: seq<Row>, k: int, last: int)
    ensures forall bar :: bar in BarsBetween(rows, k, last) <==>
      exists b :: k <= b <= last && IsBarOf(rows, b, bar)
    ensures forall i, j | 0 <= i < j < |BarsBetween(rows, k, last)| ::
      BarsBetween(rows, k, last)[i].time < BarsBetween(rows, k, last)[j].time
    decreases last - k
  {
    if k <= last {
      BarsBetweenAreExact(rows, k + 1, last);
      var rest := BarsBetween(rows, k + 1, last);
      forall bar
        ensures bar in BarsBetween(rows, k, last) <==> exists b :: k <= b <= last && IsBarOf(rows, b, bar)
      {
        assert bar in BarsBetween(rows, k, last) <==> bar in rest || IsBarOf(rows, k, bar);
      }
      forall j | 0 <= j < |rest| ensures k * M5 < rest[j].time {
        assert rest[j] in rest;
      }
    }
  }

  /** The bars are exactly those of the buckets with five rows, one each, in strictly ascending order. */
  lemma BarsAreTheFullBuckets(rows: seq<Row>, bar: Row)
    ensures bar in ResampleM5(rows) <==> exists b :: IsBarOf(rows, b, bar)
    ensures forall i, j | 0 <= i < j < |ResampleM5(rows)| :: ResampleM5(rows)[i].time < ResampleM5(rows)[j].time
  {
    if rows != [] {
      BucketRange(rows);
      BarsBetweenAreExact(rows, FirstBucket(rows), LastBucket(rows));
      forall b | IsBarOf(rows, b, bar) ensures FirstBucket(rows) <= b <= LastBucket(rows) {
        InBucketIsExact(rows, b);
        assert InBucket(rows, b)[0] in InBucket(rows, b);
      }
    }
  }

  lemma {:induction false} HighestBounds(rows: seq<Row>)
    requires rows != []
    ensures forall r | r in rows :: r.high <= Highest(rows)
    ensures exists r | r in rows :: r.high == Highest(rows)
  {
    if |rows| == 1 {
      assert rows[0] in rows;
    } else {
      HighestBounds(rows[1..]);
      assert rows == [rows[0]] + rows[1..];
      var r :| r in rows[1..] && r.high == Highest(rows[1..]);
      assert rows[0] in rows && r in rows;
    }
  }

  lemma {:induction false} LowestBounds(rows: seq<Row>)
    requires rows != []
    ensures forall r | r in rows :: Lowest(rows) <= r.low
    ensures exists r | r in rows :: r.low == Lowest(rows)
  {
    if |rows| == 1 {
      assert rows[0] in rows;
    } else {
      LowestBounds(rows[1..]);
      assert rows == [rows[0]] + rows[1..];
      var r :| r in rows[1..] && r.low == Lowest(rows[1..]);
      assert rows[0] in rows && r in rows;
    }
  }

  /** On valid rows every bar is itself valid and bounds the five rows it is made of, which all lie in the five
    * minutes it is labelled with. */
  lemma BarsAreValid(rows: seq<Row>, bar: Row)
    requires forall r | r in rows :: ValidOhlc(r)
    requires bar in ResampleM5(rows)
    ensures ValidOhlc(bar) && bar.time % M5 == 0
    ensures var used := InBucket(rows, bar.time / M5);
      && |used| == 5 && bar.open == used[0].open && bar.close == used[4].close
      && (forall r | r in used :: r in rows && bar.low <= r.low && r.high <= bar.high
                                  && bar.time <= r.time < bar.time + M5)
      && (exists r | r in used :: r.high == bar.high) && (exists r | r in used :: r.low == bar.low)
  {
    BarsAreTheFullBuckets(rows, bar);
    var b :| IsBarOf(rows, b, bar);
    assert bar.time / M5 == b;
    var used := InBucket(rows, b);
    InBucketIsExact(rows, b);
    HighestBounds(used);
    LowestBounds(used);
    assert used[0] in used && used[4] in used;
  }

  /** No row is used by two bars. */
  lemma NoRowIsUsedTwice(rows: seq<Row>, i: nat, j: nat, r: Row)
    requires i < j < |ResampleM5(rows)|
    ensures !(r in InBucket(rows, ResampleM5(rows)[i].time / M5) && r in InBucket(rows, ResampleM5(rows)[j].time / M5))
  {
    var bars := ResampleM5(rows);
    BarsAreTheFullBuckets(rows, bars[i]);
    BarsAreTheFullBuckets(rows, bars[j]);
    assert bars[i] in bars && bars[j] in bars;
    var b :| IsBarOf(rows, b, bars[i]);
    var b' :| IsBarOf(rows, b', bars[j]);
    InBucketIsExact(rows, b);
    InBucketIsExact(rows, b');
  }

  // ---- with one row a minute ----

  ghost predicate OneRowAMinute(rows: seq<Row>) {
    && (forall r | r in rows :: r.time % 60 == 0)
    && forall i, j | 0 <= i < j < |rows| :: rows[i].time < rows[j].time
  }

  lemma OneRowAMinuteTail(first: Row, rest: seq<Row>)
    requires OneRowAMinute([first] + rest)
    ensures OneRowAMinute(rest) && first.time % 60 == 0 && forall r | r in rest :: first.time < r.time
  {
    var rows := [first] + rest;
    assert rows[0] in rows && forall i | 0 <= i < |rest| :: rest[i] == rows[i + 1];
    assert forall r | r in rest :: r in rows;
  }

  lemma OneRowAMinuteCons(first: Row, rest: seq<Row>)
    requires OneRowAMinute(rest) && first.time % 60 == 0 && forall r | r in rest :: first.time < r.time
    ensures OneRowAMinute([first] + rest)
  {}

  lemma {:induction false} BucketKeepsOrder(rows: seq<Row>, k: int)
    requires OneRowAMinute(rows)
    ensures OneRowAMinute(InBucket(rows, k))
  {
    if rows != [] {
      var rest := rows[1..];
      assert rows == [rows[0]] + rest;
      OneRowAMinuteTail(rows[0], rest);
      BucketKeepsOrder(rest, k);
      InBucketIsExact(rest, k);
      if Bucket(rows[0]) == k { OneRowAMinuteCons(rows[0], InBucket(rest, k)); }
    }
  }

  lemma FullBucketIsFiveMinutes(rows: seq<Row>, b: int)
    requires OneRowAMinute(rows) && |InBucket(rows, b)| == 5
    ensures forall i | 0 <= i < 5 :: InBucket(rows, b)[i].time == b * M5 + 60 * i
  {
    var used := InBucket(rows, b);
    BucketKeepsOrder(rows, b);
    InBucketIsExact(rows, b);
    forall i | 0 <= i < 5 ensures used[i].time == 60 * (used[i].time / 60) && 5 * b <= used[i].time / 60 < 5 * b + 5 {
      assert used[i] in used;
      MinuteOf(used[i].time, b);
    }
    forall i | 0 <= i < 4 ensures used[i].time / 60 < used[i + 1].time / 60 {
      assert used[i] in used && used[i + 1] in used;
      MinutesAscend(used[i].time, used[i + 1].time);
    }
    MinuteSteps(b, used[0].time / 60, used[1].time / 60, used[2].time / 60, used[3].time / 60, used[4].time / 60);
  }

  /** On minute rows a bar stands for the five consecutive minutes of its bucket, none missing. */
  lemma FiveRowsAreFiveMinutes(rows: seq<Row>, bar: Row)
    requires OneRowAMinute(rows) && bar in ResampleM5(rows)
    ensures var used := InBucket(rows, bar.time / M5);
      |used| == 5 && forall i | 0 <= i < 5 :: used[i].time == bar.time + 60 * i
  {
    BarsAreTheFullBuckets(rows, bar);
    var b :| IsBarOf(rows, b, bar);
    assert bar.time / M5 == b;
    FullBucketIsFiveMinutes(rows, b);
  }

  /** Five ascending minutes within five minutes are all of them. */
  lemma MinuteSteps(b: int, m0: int, m1: int, m2: int, m3: int, m4: int)
    requires 5 * b <= m0 < m1 < m2 < m3 < m4 < 5 * b + 5
    ensures m0 == 5 * b && m1 == m0 + 1 && m2 == m0 + 2 && m3 == m0 + 3 && m4 == m0 + 4
  {}

  lemma MinuteOf(t: int, b: int)
    requires t % 60 == 0 && b * M5 <= t < b * M5 + M5
    ensures t == 60 * (t / 60) && 5 * b <= t / 60 < 5 * b + 5
  {}

  lemma MinutesAscend(t: int, t': int)
    requires t % 60 == 0 && t' % 60 == 0 && t < t'
    ensures t / 60 < t' / 60
  {}

  // ---- one year ----

  function Active(rows: seq<Row>, n: nat): seq<Row>
    requires n <= |rows|
  {
    if n == 0 then [] else Active(rows, n - 1) + (if Stale(rows, n - 1) then [] else [rows[n - 1]])
  }

  function ValidRows(rows: seq<Row>): seq<Row> {
    if rows == [] then [] else (if ValidOhlc(rows[0]) then [rows[0]] else []) + ValidRows(rows[1..])
  }

  /** Drop invalid rows, then stale runs, then resample. */
  function Prepared(raw: seq<Row>): seq<Row> {
    var rows := ValidRows(raw);
    ResampleM5(Active(rows, |rows|))
  }

  lemma {:induction false} ValidRowsAreExact(rows: seq<Row>)
    ensures forall r :: r in ValidRows(rows) <==> r in rows && ValidOhlc(r)
  {
    if rows != [] {
      ValidRowsAreExact(rows[1..]);
      assert rows == [rows[0]] + rows[1..];
    }
  }

  lemma {:induction false} ActiveRowsAreFresh(rows: seq<Row>, n: nat, r: Row)
    requires n <= |rows|
    ensures r in Active(rows, n) <==> exists i | 0 <= i < n :: rows[i] == r && !Stale(rows, i)
  {
    if n > 0 { ActiveRowsAreFresh(rows, n - 1, r); }
  }

  /** Every prepared bar is valid, and is made of five valid raw rows none of which lies in a stale run. */
  lemma PreparedBarsAreSound(raw: seq<Row>, bar: Row, r: Row)
    requires bar in Prepared(raw)
    ensures ValidOhlc(bar)
    ensures var rows := ValidRows(raw); var used := InBucket(Active(rows, |rows|), bar.time / M5);
      |used| == 5 && (r in used ==>
        && r in raw && ValidOhlc(r) && bar.low <= r.low && r.high <= bar.high
        && exists i | 0 <= i < |rows| :: rows[i] == r && !Stale(rows, i))
  {
    var rows := ValidRows(raw);
    var active := Active(rows, |rows|);
    ValidRowsAreExact(raw);
    forall x | x in active ensures x in rows && exists i | 0 <= i < |rows| :: rows[i] == x && !Stale(rows, i) {
      ActiveRowsAreFresh(rows, |rows|, x);
    }
    BarsAreValid(active, bar);
  }

  // ---- no bar is missing ----

  /** A valid raw row outside the stale runs of the valid rows. */
  ghost predicate Fresh(raw: seq<Row>, r: Row) {
    exists i | 0 <= i < |ValidRows(raw)| :: ValidRows(raw)[i] == r && !Stale(ValidRows(raw), i)
  }

  ghost predicate HasMinute(rows: seq<Row>, t: int) {
    exists r | r in rows :: r.time == t
  }

  ghost predicate HasFreshMinute(raw: seq<Row>, t: int) {
    exists r :: Fresh(raw, r) && r.time == t
  }

  lemma {:induction false} ValidRowsKeepOrder(rows: seq<Row>)
    requires OneRowAMinute(rows)
    ensures OneRowAMinute(ValidRows(rows))
  {
    if rows != [] {
      var rest := rows[1..];
      assert rows == [rows[0]] + rest;
      OneRowAMinuteTail(rows[0], rest);
      ValidRowsKeepOrder(rest);
      ValidRowsAreExact(rest);
      if ValidOhlc(rows[0]) { OneRowAMinuteCons(rows[0], ValidRows(rest)); }
    }
  }

  lemma OneRowAMinuteSnoc(rows: seq<Row>, last: Row)
    requires OneRowAMinute(rows) && last.time % 60 == 0 && forall r | r in rows :: r.time < last.time
    ensures OneRowAMinute(rows + [last])
  {}

  lemma {:induction false} ActiveKeepsOrder(rows: seq<Row>, n: nat)
    requires OneRowAMinute(rows) && n <= |rows|
    ensures OneRowAMinute(Active(rows, n))
  {
    if n > 0 {
      ActiveKeepsOrder(rows, n - 1);
      assert rows[n - 1] in rows;
      forall r | r in Active(rows, n - 1) ensures r.time < rows[n - 1].time {
        ActiveRowsAreFresh(rows, n - 1, r);
      }
      OneRowAMinuteSnoc(Active(rows, n - 1), rows[n - 1]);
    }
  }

  lemma {:induction false} AscendingFit(rows: seq<Row>, n: nat, b: int)
    requires OneRowAMinute(rows) && n < |rows|
    requires forall r | r in rows :: 5 * b <= r.time / 60 < 5 * b + 5
    ensures rows[n].time / 60 >= 5 * b + n
  {
    assert rows[n] in rows;
    if n > 0 {
      AscendingFit(rows, n - 1, b);
      assert rows[n - 1] in rows;
      MinutesAscend(rows[n - 1].time, rows[n].time);
    }
  }

  /** Five distinct minutes need five rows. */
  lemma FiveMinutesNeedFiveRows(rows: seq<Row>, t: int)
    requires OneRowAMinute(rows) && forall i | 0 <= i < 5 :: HasMinute(rows, t + 60 * i)
    ensures |rows| >= 5
  {
    assert HasMinute(rows, t + 60 * 0) && HasMinute(rows, t + 60 * 1) && HasMinute(rows, t + 60 * 2);
    assert HasMinute(rows, t + 60 * 3) && HasMinute(rows, t + 60 * 4);
    var a := RowAt(rows, t);
    var b := RowAt(rows, t + 60);
    var c := RowAt(rows, t + 120);
    var d := RowAt(rows, t + 180);
    var e := RowAt(rows, t + 240);
    assert a < b < c < d < e;
  }

  lemma RowAt(rows: seq<Row>, t: int) returns (i: nat)
    requires HasMinute(rows, t)
    ensures i < |rows| && rows[i].time == t
  {
    var r :| r in rows && r.time == t;
    i :| 0 <= i < |rows| && rows[i] == r;
  }

  lemma AtMostFiveRows(rows: seq<Row>, b: int)
    requires OneRowAMinute(rows)
    ensures |InBucket(rows, b)| <= 5
  {
    var used := InBucket(rows, b);
    InBucketIsExact(rows, b);
    BucketKeepsOrder(rows, b);
    forall r | r in used ensures 5 * b <= r.time / 60 < 5 * b + 5 { MinuteOf(r.time, b); }
    if used != [] {
      AscendingFit(used, |used| - 1, b);
      assert used[|used| - 1] in used;
    }
  }

  lemma FullHasItsMinutes(rows: seq<Row>, b: int)
    requires OneRowAMinute(rows) && |InBucket(rows, b)| == 5
    ensures forall i | 0 <= i < 5 :: HasMinute(rows, b * M5 + 60 * i)
  {
    FullBucketIsFiveMinutes(rows, b);
    forall i | 0 <= i < 5 ensures HasMinute(rows, b * M5 + 60 * i) { RowOfBucket(rows, b, i); }
  }

  lemma RowOfBucket(rows: seq<Row>, b: int, i: nat)
    requires i < |InBucket(rows, b)|
    ensures HasMinute(rows, InBucket(rows, b)[i].time)
  {
    InBucketIsExact(rows, b);
    assert InBucket(rows, b)[i] in InBucket(rows, b);
  }

  lemma MinuteInBucket(rows: seq<Row>, b: int, i: nat)
    requires i < 5 && HasMinute(rows, b * M5 + 60 * i)
    ensures HasMinute(InBucket(rows, b), b * M5 + 60 * i)
  {
    var r :| r in rows && r.time == b * M5 + 60 * i;
    assert Bucket(r) == b;
    InBucketIsExact(rows, b);
  }

  /** On minute rows a bucket is full exactly when each of its five minutes has a row. */
  lemma FullExactlyWithItsMinutes(rows: seq<Row>, b: int)
    requires OneRowAMinute(rows)
    ensures |InBucket(rows, b)| == 5 <==> forall i | 0 <= i < 5 :: HasMinute(rows, b * M5 + 60 * i)
  {
    AtMostFiveRows(rows, b);
    if |InBucket(rows, b)| == 5 { FullHasItsMinutes(rows, b); }
    if forall i | 0 <= i < 5 :: HasMinute(rows, b * M5 + 60 * i) {
      forall i | 0 <= i < 5 ensures HasMinute(InBucket(rows, b), b * M5 + 60 * i) { MinuteInBucket(rows, b, i); }
      BucketKeepsOrder(rows, b);
      FiveMinutesNeedFiveRows(InBucket(rows, b), b * M5);
    }
  }

  /** On minute rows a prepared bar starts at t exactly when t is a multiple of five minutes and every one of the five
    * minutes from there has a valid row outside the stale runs. */
  lemma PreparedBarsAreComplete(raw: seq<Row>, b: int)
    requires OneRowAMinute(raw)
    ensures (exists bar :: bar in Prepared(raw) && bar.time == b * M5)
       <==> forall i | 0 <= i < 5 :: HasFreshMinute(raw, b * M5 + 60 * i)
  {
    var rows := ValidRows(raw);
    var active := Active(rows, |rows|);
    ValidRowsKeepOrder(raw);
    ActiveKeepsOrder(rows, |rows|);
    FullExactlyWithItsMinutes(active, b);
    forall r ensures r in active <==> Fresh(raw, r) { ActiveRowsAreFresh(rows, |rows|, r); }
    forall i | 0 <= i < 5 ensures HasMinute(active, b * M5 + 60 * i) <==> HasFreshMinute(raw, b * M5 + 60 * i) {}
    BarExactlyWhenFull(active, b);
  }

  lemma BarExactlyWhenFull(rows: seq<Row>, b: int)
    ensures (exists bar :: bar in ResampleM5(rows) && bar.time == b * M5) <==> |InBucket(rows, b)| == 5
  {
    if |InBucket(rows, b)| == 5 {
      var bar := BarOf(b, InBucket(rows, b));
      BarsAreTheFullBuckets(rows, bar);
      assert IsBarOf(rows, b, bar);
    }
    forall bar | bar in ResampleM5(rows) && bar.time == b * M5 ensures |InBucket(rows, b)| == 5 {
      BarsAreTheFullBuckets(rows, bar);
      var b' :| IsBarOf(rows, b', bar);
      assert b' == b;
    }
  }
}
