/** The early-stop rule of the rate ladder, as the runner follows it, as the report checks it, and
    as the contract states it. */
module Ladder {
  import opened Wrappers

  const REPETITIONS: nat := 5
  const DIVISORS: seq<nat> := [32, 16, 8, 4, 2, 1]

  /** Whether each measured repetition passed, by rate index and repetition. */
  type Results = map<(nat, nat), bool>

  /** One entry of the omission record. */
  datatype Omission = Omission(rateIndex: int, rate: int, twoFailed: bool)

  // ---- the rule --------------------------------------------------------------------------------

  /** The rates at which some repetition passed. */
  function AliveIn(results: Results): set<nat> { set k | k in results && results[k] :: k.0 }

  predicate Passes(outcome: (nat, nat) -> bool, i: nat) {
    exists rep: nat :: rep < REPETITIONS && outcome(i, rep)
  }

  function AliveAmong(outcome: (nat, nat) -> bool, n: nat): set<nat> {
    set i: nat | i < n && Passes(outcome, i)
  }

  /** The two rates before `k` both failed. */
  predicate TwoDead(alive: set<nat>, k: nat) { k >= 2 && k - 1 !in alive && k - 2 !in alive }

  /** `m` of `n` rates are attempted: none after two failures in a row, and otherwise all. */
  ghost predicate Attempts(alive: set<nat>, n: nat, m: nat) {
    && m <= n && (forall k: nat :: k < m ==> !TwoDead(alive, k))
    && (m < n ==> TwoDead(alive, m))
  }

  lemma AttemptsUnique(alive: set<nat>, n: nat, m: nat, m': nat)
    requires Attempts(alive, n, m) && Attempts(alive, n, m')
    ensures m == m'
  {
    assert m < m' ==> !TwoDead(alive, m);
    assert m' < m ==> !TwoDead(alive, m');
  }

  lemma AttemptsAgree(a: set<nat>, b: set<nat>, n: nat, m: nat)
    requires Attempts(a, n, m) && forall k: nat :: k < m ==> (k in a <==> k in b)
    ensures Attempts(b, n, m)
  {
    forall k: nat | k <= m ensures TwoDead(a, k) == TwoDead(b, k) {}
  }

  function Block(m: nat): set<(nat, nat)> {
    set i: nat, rep: nat | i < m && rep < REPETITIONS :: (i, rep)
  }

  /** The evidence is what a runner facing these outcomes leaves behind. */
  ghost predicate Faithful(rates: seq<int>, results: Results, omissions: set<Omission>) {
    exists m: nat ::
      && Attempts(AliveIn(results), |rates|, m)
      && results.Keys == Block(m)
      && omissions == set i | m <= i < |rates| :: Omission(i, rates[i], true)
  }

  // ---- the runner ------------------------------------------------------------------------------

  method Repetitions(outcome: (nat, nat) -> bool, i: nat, before: Results) returns (results: Results, alive: bool)
    requires before.Keys == Block(i) && forall k :: k in before ==> before[k] == outcome(k.0, k.1)
    ensures results.Keys == Block(i + 1) && forall k :: k in results ==> results[k] == outcome(k.0, k.1)
    ensures alive == Passes(outcome, i)
  {
    results, alive := before, false;
    for rep := 0 to REPETITIONS
      invariant results.Keys == Block(i) + set r | 0 <= r < rep :: (i, r)
      invariant forall k :: k in results ==> results[k] == outcome(k.0, k.1)
      invariant alive == exists r :: 0 <= r < rep && outcome(i, r)
    {
      results := results[(i, rep) := outcome(i, rep)];
      alive := alive || outcome(i, rep);
    }
  }

  /** The ladder loop: rate by rate, until two in a row have failed. */
  method RunLadder(rates: seq<int>, outcome: (nat, nat) -> bool)
    returns (results: Results, omitted: seq<Omission>, history: seq<bool>)
    ensures Attempts(AliveAmong(outcome, |rates|), |rates|, |history|)
    ensures results.Keys == Block(|history|) && forall k :: k in results ==> results[k] == outcome(k.0, k.1)
    ensures forall i :: 0 <= i < |history| ==> history[i] == Passes(outcome, i)
    ensures |omitted| == |rates| - |history|
    ensures forall k :: 0 <= k < |omitted| ==>
              omitted[k] == Omission(|history| + k, rates[|history| + k], true)
  {
    results, omitted, history := map[], [], [];
    for index := 0 to |rates|
      invariant |history| <= index && |omitted| == index - |history|
      invariant results.Keys == Block(|history|) && forall k :: k in results ==> results[k] == outcome(k.0, k.1)
      invariant forall i :: 0 <= i < |history| ==> history[i] == Passes(outcome, i)
      invariant Attempts(AliveAmong(outcome, |rates|), index, |history|)
      invariant forall k :: 0 <= k < |omitted| ==>
                  omitted[k] == Omission(|history| + k, rates[|history| + k], true)
    {
      if |history| >= 2 && !history[|history| - 1] && !history[|history| - 2] {
        omitted := omitted + [Omission(index, rates[index], true)];
      } else {
        assert !TwoDead(AliveAmong(outcome, |rates|), |history|);
        var alive: bool;
        results, alive := Repetitions(outcome, index, results);
        history := history + [alive];
      }
    }
  }

  /** Whatever passes and fails, the runner's evidence is faithful. */
  lemma RunnerFaithful(rates: seq<int>, outcome: (nat, nat) -> bool, results: Results, omitted: seq<Omission>, m: nat)
    requires Attempts(AliveAmong(outcome, |rates|), |rates|, m)
    requires results.Keys == Block(m) && forall k :: k in results ==> results[k] == outcome(k.0, k.1)
    requires |omitted| == |rates| - m
    requires forall k :: 0 <= k < |omitted| ==> omitted[k] == Omission(m + k, rates[m + k], true)
    ensures Faithful(rates, results, set o | o in omitted)
  {
    forall i: nat | i < m ensures i in AliveAmong(outcome, |rates|) <==> i in AliveIn(results) {
      forall rep: nat | rep < REPETITIONS ensures (i, rep) in results && results[(i, rep)] == outcome(i, rep) {
        assert (i, rep) in Block(m);
      }
    }
    AttemptsAgree(AliveAmong(outcome, |rates|), AliveIn(results), |rates|, m);
    var listed := set i | m <= i < |rates| :: Omission(i, rates[i], true);
    forall o | o in listed ensures o in omitted {
      var i :| m <= i < |rates| && o == Omission(i, rates[i], true);
      assert omitted[i - m] == o;
    }
  }

  /** For given outcomes only one pair of results and omissions is faithful. */
  lemma FaithfulUnique(
    rates: seq<int>, outcome: (nat, nat) -> bool, a: Results, b: Results, x: set<Omission>, y: set<Omission>)
    requires Faithful(rates, a, x) && Faithful(rates, b, y)
    requires (forall k :: k in a ==> a[k] == outcome(k.0, k.1)) && forall k :: k in b ==> b[k] == outcome(k.0, k.1)
    ensures a == b && x == y
  {
    var m: nat :| Attempts(AliveIn(a), |rates|, m) && a.Keys == Block(m)
                  && x == set i | m <= i < |rates| :: Omission(i, rates[i], true);
    var n: nat :| Attempts(AliveIn(b), |rates|, n) && b.Keys == Block(n)
                  && y == set i | n <= i < |rates| :: Omission(i, rates[i], true);
    AliveAgrees(outcome, a, |rates|, m);
    AliveAgrees(outcome, b, |rates|, n);
    AttemptsUnique(AliveAmong(outcome, |rates|), |rates|, m, n);
  }

  lemma AliveAgrees(outcome: (nat, nat) -> bool, results: Results, n: nat, m: nat)
    requires results.Keys == Block(m) && Attempts(AliveIn(results), n, m)
    requires forall k :: k in results ==> results[k] == outcome(k.0, k.1)
    ensures Attempts(AliveAmong(outcome, n), n, m)
  {
    forall i: nat | i < m ensures i in AliveAmong(outcome, n) <==> i in AliveIn(results) {
      forall rep: nat | rep < REPETITIONS ensures (i, rep) in results && results[(i, rep)] == outcome(i, rep) {
        assert (i, rep) in Block(m);
      }
    }
    AttemptsAgree(AliveIn(results), AliveAmong(outcome, n), n, m);
  }

  // ---- the contract's statement ----------------------------------------------------------------

  function Onward(m: nat, n: nat): seq<nat>
    requires m <= n
  {
    seq(n - m, k requires 0 <= k => m + k)
  }

  /** The rates to omit after the completed ones; more outcomes than rates are refused. */
  function OmittedAfter(history: seq<bool>, n: nat): Option<seq<nat>> {
    if |history| > n then None
    else if |history| >= 2 && !history[|history| - 1] && !history[|history| - 2] then
      Some(Onward(|history|, n))
    else Some([])
  }

  /** Before each rate the runner omits it exactly when the contract says so; at the end they omit
      the same rates. */
  lemma OmittedAfterAgrees(alive: set<nat>, n: nat, m: nat, history: seq<bool>)
    requires Attempts(alive, n, m) && |history| <= m
    requires forall i: nat :: i < |history| ==> (history[i] <==> i in alive)
    ensures |history| < m ==> OmittedAfter(history, n) == Some([])
    ensures |history| == m ==> OmittedAfter(history, n) == Some(Onward(m, n))
  {
    assert TwoDead(alive, |history|) <==> |history| >= 2 && !history[|history| - 1] && !history[|history| - 2];
    assert m == n ==> Onward(m, n) == [];
  }

  // ---- the report's check ----------------------------------------------------------------------

  datatype Problem =
    | Gaps
    | WrongRepetitions(rateIndex: int)
    | MeasuredAfterStop
    | Unjustified(missing: set<nat>)
    | WrongRate(rateIndex: int)
    | WrongReason
    | Disagrees(listed: set<int>, expected: set<int>)

  function RatesOf(results: Results): set<nat> { set k | k in results :: k.0 }

  function Repeats(results: Results, i: nat): set<nat> { set k | k in results && k.0 == i :: k.1 }

  predicate InRange(i: int, m: int, n: int) { m <= i < n }

  function UpTo(n: nat): set<nat> { set i: nat | i < n && InRange(i, 0, n) }

  function From(m: int, n: int): set<int> { set i | m <= i < n && InRange(i, m, n) }

  lemma {:induction false} UpToSize(n: nat)
    ensures |UpTo(n)| == n
  {
    if n > 0 {
      UpToSize(n - 1);
      assert UpTo(n) == UpTo(n - 1) + {n - 1};
    }
  }

  /** Every attempted rate was repeated as often as the contract says, and whether any passed. */
  method RateOutcomes(results: Results, m: nat) returns (alive: seq<bool>, problems: seq<Problem>)
    requires RatesOf(results) == UpTo(m)
    ensures |alive| == m && forall i: nat :: i < m ==> (alive[i] <==> i in AliveIn(results))
    ensures problems == [] <==> forall i: nat :: i < m ==> Repeats(results, i) == UpTo(REPETITIONS)
  {
    alive, problems := [], [];
    for i := 0 to m
      invariant |alive| == i && forall j: nat :: j < i ==> (alive[j] <==> j in AliveIn(results))
      invariant problems == [] <==> forall j: nat :: j < i ==> Repeats(results, j) == UpTo(REPETITIONS)
    {
      if Repeats(results, i) != UpTo(REPETITIONS) { problems := problems + [WrongRepetitions(i)]; }
      alive := alive + [exists rep :: rep in Repeats(results, i) && (i, rep) in results && results[(i, rep)]];
    }
  }

  /** The rates the measured outcomes excuse. */
  method Excused(alive: seq<bool>, n: nat) returns (expected: set<int>, stop: nat)
    ensures stop <= |alive| && expected == (if stop < |alive| then From(stop + 1, n) else {})
    ensures stop < |alive| ==> stop >= 1 && !alive[stop] && !alive[stop - 1]
    ensures forall j :: 1 <= j < stop ==> alive[j] || alive[j - 1]
  {
    expected := {};
    stop := if |alive| < 1 then |alive| else 1;
    while stop < |alive|
      invariant stop <= |alive| && expected == {} && (|alive| >= 1 ==> stop >= 1)
      invariant forall j :: 1 <= j < stop ==> alive[j] || alive[j - 1]
    {
      if !alive[stop] && !alive[stop - 1] {
        expected := From(stop + 1, n);
        return;
      }
      stop := stop + 1;
    }
  }

  method OmissionProblems(rates: seq<int>, omissions: seq<Omission>)
    returns (listed: set<int>, problems: seq<Problem>)
    ensures listed == set o | o in omissions :: o.rateIndex
    ensures problems == [] <==>
              forall o :: o in omissions ==> Sound(rates, o)
  {
    listed, problems := {}, [];
    for k := 0 to |omissions|
      invariant listed == set o | o in omissions[..k] :: o.rateIndex
      invariant problems == [] <==> forall o :: o in omissions[..k] ==> Sound(rates, o)
    {
      var o := omissions[k];
      assert omissions[..k + 1] == omissions[..k] + [o];
      listed := listed + {o.rateIndex};
      if 0 <= o.rateIndex < |rates| && o.rate != rates[o.rateIndex] {
        problems := problems + [WrongRate(o.rateIndex)];
      }
      if !o.twoFailed { problems := problems + [WrongReason]; }
    }
    assert omissions[..|omissions|] == omissions;
  }

  predicate Sound(rates: seq<int>, o: Omission) {
    o.twoFailed && (0 <= o.rateIndex < |rates| ==> o.rate == rates[o.rateIndex])
  }

  /** What the check comes down to for `m` attempted rates. */
  ghost predicate Consistent(rates: seq<int>, results: Results, omissions: seq<Omission>, m: nat, expected: set<int>) {
    && RatesOf(results) == UpTo(m)
    && (forall i: nat :: i < m ==> Repeats(results, i) == UpTo(REPETITIONS))
    && expected == From(m, |rates|)
    && (set o | o in omissions :: o.rateIndex) == expected
    && (forall o :: o in omissions ==> Sound(rates, o))
  }

  lemma ConsistentBlock(rates: seq<int>, results: Results, omissions: seq<Omission>, m: nat, expected: set<int>)
    requires Consistent(rates, results, omissions, m, expected)
    ensures results.Keys == Block(m)
    ensures (set o | o in omissions) == set i | m <= i < |rates| :: Omission(i, rates[i], true)
  {
    forall i: nat, rep: nat ensures (i, rep) in results <==> i < m && rep < REPETITIONS {
      assert (i, rep) in results ==> i in RatesOf(results) && rep in Repeats(results, i);
      if i < m && rep < REPETITIONS { assert rep in Repeats(results, i); }
    }
    forall i | m <= i < |rates| ensures Omission(i, rates[i], true) in omissions {
      assert i in From(m, |rates|);
      var o :| o in omissions && o.rateIndex == i;
      assert Sound(rates, o);
    }
    forall o | o in omissions ensures m <= o.rateIndex < |rates| && o == Omission(o.rateIndex, rates[o.rateIndex], true) {
      assert o.rateIndex in From(m, |rates|) && Sound(rates, o);
    }
  }

  lemma FaithfulConsistent(rates: seq<int>, results: Results, omissions: seq<Omission>, m: nat)
    requires results.Keys == Block(m) && m <= |rates|
    requires (set o | o in omissions) == set i | m <= i < |rates| :: Omission(i, rates[i], true)
    ensures Consistent(rates, results, omissions, m, From(m, |rates|))
  {
    forall i: nat ensures i in RatesOf(results) <==> i < m {
      if i < m { assert (i, 0) in Block(m); }
    }
    forall i: nat, rep: nat | i < m ensures rep in Repeats(results, i) <==> rep < REPETITIONS {
      assert (i, rep) in results <==> rep < REPETITIONS;
    }
    var all := set i | m <= i < |rates| :: Omission(i, rates[i], true);
    var listed := set o | o in omissions :: o.rateIndex;
    forall i | i in From(m, |rates|) ensures i in listed {
      assert Omission(i, rates[i], true) in all && Omission(i, rates[i], true) in omissions;
    }
    forall o | o in omissions ensures Sound(rates, o) && m <= o.rateIndex < |rates| { assert o in all; }
  }

  /** Nothing measured that was excused and nothing left out that was not: exactly the runner's
      stopping rule. */
  lemma StopMeaning(alive: seq<bool>, live: set<nat>, n: nat, expected: set<int>, stop: nat)
    requires |alive| <= n && forall i: nat :: i < |alive| ==> (alive[i] <==> i in live)
    requires stop <= |alive| && expected == (if stop < |alive| then From(stop + 1, n) else {})
    requires stop < |alive| ==> stop >= 1 && !alive[stop] && !alive[stop - 1]
    requires forall j :: 1 <= j < stop ==> alive[j] || alive[j - 1]
    ensures (UpTo(|alive|) !! (set i: nat | i in expected)) && UpTo(n) <= UpTo(|alive|) + (set i: nat | i in expected)
       <==> Attempts(live, n, |alive|)
    ensures Attempts(live, n, |alive|) ==> expected == From(|alive|, n)
  {
    var m := |alive|;
    var ex := set i: nat | i in expected;
    assert forall k: nat :: k < m && TwoDead(live, k) ==> k - 1 == stop || k - 1 > stop;
    if stop < m {
      assert TwoDead(live, stop + 1);
      assert stop + 1 < m ==> stop + 1 in UpTo(m) && stop + 1 in ex;
    } else {
      assert !TwoDead(live, m);
      if m < n { assert m in UpTo(n) && m !in UpTo(m); }
    }
  }

  lemma FaithfulRates(rates: seq<int>, results: Results, omissions: seq<Omission>)
    requires Faithful(rates, results, set o | o in omissions)
    ensures var m := |RatesOf(results)|;
            && RatesOf(results) == UpTo(m) && Attempts(AliveIn(results), |rates|, m)
            && Consistent(rates, results, omissions, m, From(m, |rates|))
  {
    var m: nat :|
      && Attempts(AliveIn(results), |rates|, m) && results.Keys == Block(m)
      && (set o | o in omissions) == set i | m <= i < |rates| :: Omission(i, rates[i], true);
    FaithfulConsistent(rates, results, omissions, m);
    UpToSize(m);
  }

  lemma ConsistentFaithful(rates: seq<int>, results: Results, omissions: seq<Omission>, m: nat)
    requires Attempts(AliveIn(results), |rates|, m) && Consistent(rates, results, omissions, m, From(m, |rates|))
    ensures Faithful(rates, results, set o | o in omissions)
  {
    ConsistentBlock(rates, results, omissions, m, From(m, |rates|));
  }

  /** The ladder's attempted prefix against its outcomes and its omission record. */
  method PrefixProblems(rates: seq<int>, results: Results, omissions: seq<Omission>, m: nat)
    returns (problems: seq<Problem>)
    requires RatesOf(results) == UpTo(m) && m <= |rates|
    ensures problems == [] <==>
              Attempts(AliveIn(results), |rates|, m) && Consistent(rates, results, omissions, m, From(m, |rates|))
  {
    var alive, repeats := RateOutcomes(results, m);
    var expected, stop := Excused(alive, |rates|);
    StopMeaning(alive, AliveIn(results), |rates|, expected, stop);
    var excused := set i: nat | i in expected;
    var missing := UpTo(|rates|) - UpTo(m) - excused;
    assert missing == {} <==> UpTo(|rates|) <= UpTo(m) + excused;
    var listed, entries := OmissionProblems(rates, omissions);
    problems := repeats + entries
      + (if UpTo(m) !! excused then [] else [MeasuredAfterStop])
      + (if missing == {} then [] else [Unjustified(missing)])
      + (if listed == expected then [] else [Disagrees(listed, expected)]);
  }

  /** The report's rule accepts exactly the evidence the runner would have left. */
  method LadderProblems(rates: seq<int>, results: Results, omissions: seq<Omission>) returns (problems: seq<Problem>)
    requires forall k :: k in results ==> k.0 < |rates| && k.1 < REPETITIONS
    ensures problems == [] <==> Faithful(rates, results, set o | o in omissions)
  {
    if Faithful(rates, results, set o | o in omissions) { FaithfulRates(rates, results, omissions); }
    var attempted := RatesOf(results);
    var m := |attempted|;
    if attempted != UpTo(m) { return [Gaps]; }
    assert m <= |rates| by { assert |rates| !in attempted; }
    problems := PrefixProblems(rates, results, omissions, m);
    if problems == [] { ConsistentFaithful(rates, results, omissions, m); }
  }

  // ---- the rates -------------------------------------------------------------------------------

  /** The share of the ceiling, rounded up, and never zero. */
  function Rate(ceiling: nat, divisor: nat): nat
    requires divisor > 0
  {
    var share := (ceiling + divisor - 1) / divisor;
    if share < 1 then 1 else share
  }

  /** The six preregistered rates; a ceiling must be positive. */
  function LadderRates(ceiling: int): Option<seq<nat>> {
    if ceiling <= 0 then None
    else Some([Rate(ceiling, DIVISORS[0]), Rate(ceiling, DIVISORS[1]), Rate(ceiling, DIVISORS[2]),
               Rate(ceiling, DIVISORS[3]), Rate(ceiling, DIVISORS[4]), Rate(ceiling, DIVISORS[5])])
  }

  function Doubled(rate: int, n: nat): int { if n == 0 then rate else 2 * Doubled(rate, n - 1) }

  lemma DoubledExact(rate: int)
    ensures Doubled(rate, 0) == rate && Doubled(rate, 1) == 2 * rate && Doubled(rate, 2) == 4 * rate
    ensures Doubled(rate, 3) == 8 * rate && Doubled(rate, 4) == 16 * rate && Doubled(rate, 5) == 32 * rate
  {
    assert Doubled(rate, 2) == 2 * Doubled(rate, 1);
    assert Doubled(rate, 4) == 2 * Doubled(rate, 3);
  }

  /** The rate reaches the ceiling when doubled `n` times, and no smaller one does. */
  predicate Least(rate: int, n: nat, ceiling: int) {
    Doubled(rate, n) >= ceiling && Doubled(rate - 1, n) < ceiling
  }

  lemma RatesLeast(ceiling: nat)
    requires ceiling > 0
    ensures Least((ceiling + 31) / 32, 5, ceiling) && Least((ceiling + 15) / 16, 4, ceiling)
    ensures Least((ceiling + 7) / 8, 3, ceiling) && Least((ceiling + 3) / 4, 2, ceiling)
    ensures Least((ceiling + 1) / 2, 1, ceiling) && Least(ceiling, 0, ceiling)
  {
    forall rate ensures Doubled(rate, 0) == rate && Doubled(rate, 1) == 2 * rate && Doubled(rate, 2) == 4 * rate
                ensures Doubled(rate, 3) == 8 * rate && Doubled(rate, 4) == 16 * rate && Doubled(rate, 5) == 32 * rate
    {
      DoubledExact(rate);
    }
  }

  /** The ladder climbs to the ceiling: each rate is the least that reaches it when doubled once for
      every rate after it. The rates are six different ones exactly when the ceiling exceeds 16. */
  lemma LadderClimbs(ceiling: nat)
    requires ceiling > 0
    ensures LadderRates(ceiling).Some?
    ensures var rates := LadderRates(ceiling).value;
            && |rates| == 6 && rates[5] == ceiling
            && (forall k :: 0 <= k < 6 ==> Least(rates[k], 5 - k, ceiling))
            && (forall j, k :: 0 <= j <= k < 6 ==> 1 <= rates[j] <= rates[k])
            && ((forall j, k :: 0 <= j < k < 6 ==> rates[j] < rates[k]) <==> ceiling > 16)
  {
    var rates := LadderRates(ceiling).value;
    assert rates == [(ceiling + 31) / 32, (ceiling + 15) / 16, (ceiling + 7) / 8, (ceiling + 3) / 4,
                     (ceiling + 1) / 2, ceiling];
    assert rates[0] < rates[1] <==> ceiling > 16;
    RatesLeast(ceiling);
    forall k | 0 <= k < 6 ensures Least(rates[k], 5 - k, ceiling) {
      assert k == 0 || k == 1 || k == 2 || k == 3 || k == 4 || k == 5;
    }
  }
}
