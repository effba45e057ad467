/** Nearest-rank percentiles in whole milliseconds. */
module Percentiles {
  import opened Wrappers

  datatype Metrics = Metrics(count: nat, p50: int, p95: int, p99: int, max: int)

  /** Python's `round`: to the nearest integer, halves to the even one. */
  function Round(x: real): int {
    var low := x.Floor;
    var over := x - low as real;
    if over < 0.5 then low
    else if over > 0.5 then low + 1
    else if low % 2 == 0 then low
    else low + 1
  }

  lemma RoundMonotone(x: real, y: real)
    requires x <= y
    ensures Round(x) <= Round(y)
  {
    if x.Floor == y.Floor {
      assert x - x.Floor as real <= y - y.Floor as real;
    }
  }

  /** The nearest integer and, halfway between two, the even one. */
  predicate Nearest(x: real, n: int) {
    n as real - 0.5 < x < n as real + 0.5 || (n % 2 == 0 && (x == n as real - 0.5 || x == n as real + 0.5))
  }

  lemma RoundExact(x: real, n: int)
    ensures Round(x) == n <==> Nearest(x, n)
  {
    assert x.Floor as real <= x < x.Floor as real + 1.0;
    if Nearest(x, n) { assert n == x.Floor || n == x.Floor + 1; }
  }

  // ---- sorting and counting ----------------------------------------------------------------------

  function Insert(x: real, s: seq<real>): seq<real> {
    if s == [] || x <= s[0] then [x] + s else [s[0]] + Insert(x, s[1..])
  }

  function Sort(s: seq<real>): seq<real> {
    if s == [] then [] else Insert(s[0], Sort(s[1..]))
  }

  predicate Ordered(s: seq<real>) { forall j, k :: 0 <= j <= k < |s| ==> s[j] <= s[k] }

  /** Questions whose answer stays yes for smaller samples. */
  datatype Test = AtMost(v: real) | LessThan(v: real) | RoundsAtMost(b: int)

  predicate Meets(t: Test, x: real) {
    match t
    case AtMost(v) => x <= v
    case LessThan(v) => x < v
    case RoundsAtMost(b) => Round(x) <= b
  }

  function Count(s: seq<real>, t: Test): nat {
    if s == [] then 0 else (if Meets(t, s[0]) then 1 else 0) + Count(s[1..], t)
  }

  lemma {:induction false} InsertBag(x: real, s: seq<real>)
    ensures multiset(Insert(x, s)) == multiset(s) + multiset{x}
  {
    if s != [] && s[0] < x {
      InsertBag(x, s[1..]);
      assert s == [s[0]] + s[1..];
    }
  }

  lemma {:induction false} InsertOrdered(x: real, s: seq<real>)
    requires Ordered(s)
    ensures Ordered(Insert(x, s))
  {
    if s != [] && s[0] < x {
      var rest := Insert(x, s[1..]);
      InsertOrdered(x, s[1..]);
      assert s[0] <= rest[0];
      forall k | 0 <= k < |rest| ensures s[0] <= rest[k] { assert rest[0] <= rest[k]; }
    }
  }

  lemma {:induction false} InsertCount(x: real, s: seq<real>, t: Test)
    ensures Count(Insert(x, s), t) == Count(s, t) + (if Meets(t, x) then 1 else 0)
  {
    if s == [] || x <= s[0] {
      assert ([x] + s)[1..] == s;
    } else {
      InsertCount(x, s[1..], t);
      assert Insert(x, s)[1..] == Insert(x, s[1..]);
    }
  }

  lemma {:induction false} SortOrdered(s: seq<real>)
    ensures Ordered(Sort(s))
  {
    if s != [] {
      SortOrdered(s[1..]);
      InsertOrdered(s[0], Sort(s[1..]));
    }
  }

  lemma {:induction false} SortBag(s: seq<real>)
    ensures multiset(Sort(s)) == multiset(s)
  {
    if s != [] {
      SortBag(s[1..]);
      InsertBag(s[0], Sort(s[1..]));
      assert s == [s[0]] + s[1..];
    }
  }

  lemma {:induction false} InsertSize(x: real, s: seq<real>)
    ensures |Insert(x, s)| == |s| + 1
  {
    if s != [] && s[0] < x { InsertSize(x, s[1..]); }
  }

  lemma {:induction false} SortSize(s: seq<real>)
    ensures |Sort(s)| == |s|
  {
    if s != [] {
      SortSize(s[1..]);
      InsertSize(s[0], Sort(s[1..]));
    }
  }

  lemma {:induction false} SortCount(s: seq<real>, t: Test)
    ensures Count(Sort(s), t) == Count(s, t)
  {
    if s != [] {
      SortCount(s[1..], t);
      InsertCount(s[0], Sort(s[1..]), t);
    }
  }

  lemma SortFacts(s: seq<real>, t: Test)
    ensures Ordered(Sort(s)) && multiset(Sort(s)) == multiset(s) && |Sort(s)| == |s|
    ensures Count(Sort(s), t) == Count(s, t)
  {
    SortOrdered(s);
    SortBag(s);
    SortSize(s);
    SortCount(s, t);
  }

  lemma MeetsBelow(t: Test, x: real, y: real)
    requires x <= y && Meets(t, y)
    ensures Meets(t, x)
  {
    RoundMonotone(x, y);
  }

  /** In an ordered list the samples that meet a test are the first ones. */
  lemma {:induction false} CountOrdered(s: seq<real>, t: Test, k: nat)
    requires Ordered(s) && k < |s|
    ensures Meets(t, s[k]) ==> Count(s, t) > k
    ensures !Meets(t, s[k]) ==> Count(s, t) <= k
  {
    if Meets(t, s[k]) { MeetsBelow(t, s[0], s[k]); }
    if k > 0 {
      CountOrdered(s[1..], t, k - 1);
    } else if !Meets(t, s[0]) {
      NoneMeet(s, t);
    }
  }

  lemma {:induction false} NoneMeet(s: seq<real>, t: Test)
    requires Ordered(s) && s != [] && !Meets(t, s[0])
    ensures Count(s, t) == 0
  {
    if |s| > 1 {
      if Meets(t, s[1]) { MeetsBelow(t, s[0], s[1]); }
      NoneMeet(s[1..], t);
    }
  }

  // ---- percentiles -------------------------------------------------------------------------------

  /** The one-based nearest rank. */
  function Position(count: nat, hundredths: nat): nat {
    var up := (count * hundredths + 99) / 100;
    var atLeastOne := if up < 1 then 1 else up;
    if count < atLeastOne then count else atLeastOne
  }

  lemma PositionIsCeiling(count: nat, hundredths: nat)
    requires count > 0 && 0 < hundredths <= 100
    ensures 1 <= Position(count, hundredths) <= count
    ensures 100 * (Position(count, hundredths) - 1) < count * hundredths <= 100 * Position(count, hundredths)
  {
    var product := count * hundredths;
    assert count <= product <= count * 100;
  }

  function ValueAt(samples: seq<real>, hundredths: nat): real
    requires samples != [] && 0 < hundredths <= 100
  {
    SortFacts(samples, AtMost(0.0));
    PositionIsCeiling(|samples|, hundredths);
    Sort(samples)[Position(|samples|, hundredths) - 1]
  }

  /** The percentile is a sample; enough samples are at or below it and too few strictly below. */
  lemma NearestRank(samples: seq<real>, hundredths: nat)
    requires samples != [] && 0 < hundredths <= 100
    ensures var v := ValueAt(samples, hundredths);
            && v in samples
            && Count(samples, AtMost(v)) * 100 >= |samples| * hundredths
            && Count(samples, LessThan(v)) * 100 < |samples| * hundredths
  {
    var v := ValueAt(samples, hundredths);
    var k := Position(|samples|, hundredths) - 1;
    PositionIsCeiling(|samples|, hundredths);
    SortFacts(samples, AtMost(v));
    SortFacts(samples, LessThan(v));
    CountOrdered(Sort(samples), AtMost(v), k);
    CountOrdered(Sort(samples), LessThan(v), k);
    assert v in multiset(Sort(samples));
  }

  lemma ConstantPercentile(samples: seq<real>, hundredths: nat, x: real)
    requires samples != [] && 0 < hundredths <= 100 && forall y :: y in samples ==> y == x
    ensures ValueAt(samples, hundredths) == x
  {
    NearestRank(samples, hundredths);
  }

  /** A rounded percentile is within a bound exactly when that share of the rounded samples is. */
  lemma BoundCoversShare(samples: seq<real>, hundredths: nat, bound: int)
    requires samples != [] && 0 < hundredths <= 100
    ensures Round(ValueAt(samples, hundredths)) <= bound
       <==> Count(samples, RoundsAtMost(bound)) * 100 >= |samples| * hundredths
  {
    var k := Position(|samples|, hundredths) - 1;
    PositionIsCeiling(|samples|, hundredths);
    SortFacts(samples, RoundsAtMost(bound));
    CountOrdered(Sort(samples), RoundsAtMost(bound), k);
  }

  /** The record of a sample list, without any correction. */
  function MetricsOf(samples: seq<real>): Option<Metrics> {
    if samples == [] then None
    else Some(Metrics(|samples|, Round(ValueAt(samples, 50)), Round(ValueAt(samples, 95)),
                      Round(ValueAt(samples, 99)), Round(ValueAt(samples, 100))))
  }

  lemma ValuesRise(samples: seq<real>, a: nat, b: nat)
    requires samples != [] && 0 < a <= b <= 100
    ensures Round(ValueAt(samples, a)) <= Round(ValueAt(samples, b))
  {
    PositionIsCeiling(|samples|, a);
    PositionIsCeiling(|samples|, b);
    assert |samples| * a <= |samples| * b;
    SortFacts(samples, AtMost(0.0));
    RoundMonotone(ValueAt(samples, a), ValueAt(samples, b));
  }

  /** The maximum is the last of the ordered samples, which is the hundredth percentile. */
  lemma LastIsMaximum(samples: seq<real>)
    requires samples != []
    ensures |Sort(samples)| == |samples| && Sort(samples)[|samples| - 1] == ValueAt(samples, 100)
    ensures forall x :: x in samples ==> x <= ValueAt(samples, 100)
  {
    SortFacts(samples, AtMost(0.0));
    PositionIsCeiling(|samples|, 100);
    forall x | x in samples ensures x <= ValueAt(samples, 100) {
      assert x in multiset(Sort(samples));
    }
  }

  predicate Rising(first: int, s: seq<int>) {
    (s != [] ==> first <= s[0]) && forall j, k :: 0 <= j <= k < |s| ==> s[j] <= s[k]
  }

  /** `v` is the largest of `first` and the values up to position `k`. */
  predicate Tops(first: int, raw: seq<int>, k: int, v: int)
    requires 0 <= k < |raw|
  {
    && first <= v && (forall j :: 0 <= j <= k ==> raw[j] <= v)
    && (v == first || exists j :: 0 <= j <= k && raw[j] == v)
  }

  /** Lifts each value to the largest before it: the result always rises, and what rose already is
      left as it was. */
  method Lift(first: int, raw: seq<int>) returns (values: seq<int>)
    ensures |values| == |raw| && Rising(first, values)
    ensures forall k :: 0 <= k < |raw| ==> Tops(first, raw, k, values[k])
    ensures Rising(first, raw) ==> values == raw
  {
    values := [];
    var ceiling := first;
    for k := 0 to |raw|
      invariant |values| == k && ceiling == (if k == 0 then first else values[k - 1])
      invariant Rising(first, values) && first <= ceiling
      invariant forall j :: 0 <= j < k ==> Tops(first, raw, j, values[j])
      invariant Rising(first, raw) ==> values == raw[..k]
    {
      ceiling := if ceiling < raw[k] then raw[k] else ceiling;
      values := values + [ceiling];
    }
  }

  lemma MetricsRise(samples: seq<real>)
    requires samples != []
    ensures Rising(Round(ValueAt(samples, 50)),
                   [Round(ValueAt(samples, 95)), Round(ValueAt(samples, 99)), Round(ValueAt(samples, 100))])
  {
    ValuesRise(samples, 50, 95);
    ValuesRise(samples, 95, 99);
    ValuesRise(samples, 99, 100);
  }

  /** Each entry is the least whole number that its share of the rounded samples does not exceed, and
      `max` the largest rounded sample. */
  ghost predicate Records(samples: seq<real>, m: Metrics) {
    && m.count == |samples|
    && (forall b :: m.p50 <= b <==> Count(samples, RoundsAtMost(b)) * 100 >= |samples| * 50)
    && (forall b :: m.p95 <= b <==> Count(samples, RoundsAtMost(b)) * 100 >= |samples| * 95)
    && (forall b :: m.p99 <= b <==> Count(samples, RoundsAtMost(b)) * 100 >= |samples| * 99)
    && (exists x :: x in samples && Round(x) == m.max) && forall x :: x in samples ==> Round(x) <= m.max
  }

  lemma MetricsRecord(samples: seq<real>)
    requires samples != []
    ensures Records(samples, MetricsOf(samples).value)
  {
    forall b, hundredths: nat | 0 < hundredths <= 100
      ensures Round(ValueAt(samples, hundredths)) <= b
         <==> Count(samples, RoundsAtMost(b)) * 100 >= |samples| * hundredths
    {
      BoundCoversShare(samples, hundredths, b);
    }
    NearestRank(samples, 100);
    LastIsMaximum(samples);
    forall x | x in samples ensures Round(x) <= Round(ValueAt(samples, 100)) { RoundMonotone(x, ValueAt(samples, 100)); }
  }

  /** The record, whose final lift never has anything to correct. */
  method Percentiles(samples: seq<real>) returns (r: Option<Metrics>)
    ensures r == MetricsOf(samples)
    ensures if samples == [] then r.None? else r.Some? && Records(samples, r.value)
  {
    if samples == [] { return None; }
    MetricsRecord(samples);
    LastIsMaximum(samples);
    MetricsRise(samples);
    var p50, last := Round(ValueAt(samples, 50)), Round(Sort(samples)[|samples| - 1]);
    var values := Lift(p50, [Round(ValueAt(samples, 95)), Round(ValueAt(samples, 99)), last]);
    r := Some(Metrics(|samples|, p50, values[0], values[1], values[2]));
  }

  // ---- the contract's check ----------------------------------------------------------------------

  predicate ValidMetrics(m: Metrics) {
    m.count > 0 && 0 <= m.p50 && m.p50 <= m.p95 <= m.p99 <= m.max
  }

  lemma RoundNonNegative(x: real)
    requires x >= 0.0
    ensures Round(x) >= 0
  {
    RoundMonotone(0.0, x);
  }

  /** The record of any samples that are not negative is valid. */
  lemma MetricsValid(samples: seq<real>)
    requires samples != [] && forall x :: x in samples ==> x >= 0.0
    ensures MetricsOf(samples).Some? && ValidMetrics(MetricsOf(samples).value)
  {
    ValuesRise(samples, 50, 95);
    ValuesRise(samples, 95, 99);
    ValuesRise(samples, 99, 100);
    NearestRank(samples, 50);
    RoundNonNegative(ValueAt(samples, 50));
  }
}
