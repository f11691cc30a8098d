/**
 Rule engine bookkeeping: the priority sort of ProcessMessage and the running mean of recordRuleExecution in
 pkg/rules/engine.go.
 */
module Rules {

  // ----- Running mean of latencies -----

  datatype Metrics = Metrics(executed: nat, avg: int)

  /** Go's integer division: towards zero. */
  function GoDiv(a: int, b: int): int
    requires b > 0
  {
    if a >= 0 then a / b else -(-a / b)
  }

  /** The numerator of the new mean; the only intermediate result that could leave 64 bits. */
  function Numerator(m: Metrics, latency: int): int {
    m.avg * m.executed + latency
  }

  function Record(m: Metrics, latency: int): Metrics {
    Metrics(m.executed + 1, if m.executed == 0 then latency else GoDiv(Numerator(m, latency), m.executed + 1))
  }

  function MeanOf(samples: seq<int>): Metrics {
    if samples == [] then Metrics(0, 0) else Record(MeanOf(samples[..|samples| - 1]), samples[|samples| - 1])
  }

  function Sum(samples: seq<int>): int {
    if samples == [] then 0 else Sum(samples[..|samples| - 1]) + samples[|samples| - 1]
  }

  /** How far the mean, multiplied out, falls behind the exact sum. */
  function Shortfall(samples: seq<int>): int {
    Sum(samples) - MeanOf(samples).avg * |samples|
  }

  /** What the truncations of the first n updates can add up to: 0 + 1 + ... + (n-1). */
  function Drift(n: int): int {
    n * (n - 1) / 2
  }

  lemma DriftGrows(n: int)
    ensures Drift(n + 1) == Drift(n) + n
  {
    assert (n + 1) * n == n * (n - 1) + 2 * n;
  }

  lemma MulOrder(x: int, y: int, b: int)
    requires b > 0
    ensures x <= y <==> x * b <= y * b
  {
    assert (y - x) * b == y * b - x * b;
  }

  lemma GoDivRemainder(a: int, b: int)
    requires b > 0
    ensures var q := GoDiv(a, b); -b < a - q * b < b && (a >= 0 ==> a - q * b >= 0) && (a <= 0 ==> a - q * b <= 0)
  {
  }

  lemma GoDivBounds(a: int, b: int, lo: int, hi: int)
    requires b > 0 && lo * b <= a <= hi * b
    ensures lo <= GoDiv(a, b) <= hi
  {
    var q := GoDiv(a, b);
    GoDivRemainder(a, b);
    hide GoDiv;
    assert (q + 1) * b == q * b + b && (q - 1) * b == q * b - b;
    MulOrder(q + 1, lo, b);
    MulOrder(lo, q, b);
    MulOrder(q, hi, b);
    MulOrder(hi, q - 1, b);
  }

  lemma {:induction false} MeanCounts(samples: seq<int>)
    ensures MeanOf(samples).executed == |samples|
  {
    if samples != [] {
      MeanCounts(samples[..|samples| - 1]);
    }
  }

  /** One update: the shortfall changes by the remainder of one division. */
  lemma ShortfallStep(samples: seq<int>)
    requires samples != []
    ensures var front := samples[..|samples| - 1];
            var x := Numerator(MeanOf(front), samples[|samples| - 1]);
            && -|samples| < Shortfall(samples) - Shortfall(front) < |samples|
            && (x >= 0 ==> Shortfall(samples) >= Shortfall(front))
            && x == Sum(samples) - Shortfall(front)
  {
    var front, last := samples[..|samples| - 1], samples[|samples| - 1];
    MeanCounts(front);
    var m, n := MeanOf(front), |samples|;
    GoDivRemainder(Numerator(m, last), n);
    assert MeanOf(samples) == Record(m, last) && Sum(samples) == Sum(front) + last;
    hide GoDiv, Sum, MeanOf;
    assert Shortfall(front) == Sum(front) - m.avg * (n - 1);
    if n == 1 {
      assert m.avg * 0 == 0 && last * 1 == last;
    }
  }

  /** The mean differs from the exact one by rounding alone, however long the run. */
  lemma {:induction false} MeanErrorBound(samples: seq<int>)
    ensures -Drift(|samples|) <= Shortfall(samples) <= Drift(|samples|)
  {
    if samples != [] {
      MeanErrorBound(samples[..|samples| - 1]);
      ShortfallStep(samples);
      DriftGrows(|samples| - 1);
    }
  }

  /** The running mean stays within the range of the samples. */
  lemma {:induction false} MeanWithinSamples(samples: seq<int>, lo: int, hi: int)
    requires samples != [] && forall i :: 0 <= i < |samples| ==> lo <= samples[i] <= hi
    ensures lo <= MeanOf(samples).avg <= hi
  {
    var front, last := samples[..|samples| - 1], samples[|samples| - 1];
    MeanCounts(front);
    if front != [] {
      MeanWithinSamples(front, lo, hi);
      WeightedMean(MeanOf(front), last, lo, hi);
    }
  }

  lemma WeightedMean(m: Metrics, last: int, lo: int, hi: int)
    requires m.executed > 0 && lo <= m.avg <= hi && lo <= last <= hi
    ensures lo <= Record(m, last).avg <= hi
  {
    var n := m.executed;
    MulOrder(lo, m.avg, n);
    MulOrder(m.avg, hi, n);
    assert lo * (n + 1) == lo * n + lo && hi * (n + 1) == hi * n + hi;
    GoDivBounds(Numerator(m, last), n + 1, lo, hi);
    hide GoDiv;
  }

  /**
   For non-negative latencies the mean is never too high, is too low by at most (n-1)/2, and the 64-bit numerator never
   exceeds the exact sum of the samples.
   */
  lemma {:induction false} NonNegativeLatencies(samples: seq<int>)
    requires forall i :: 0 <= i < |samples| ==> samples[i] >= 0
    ensures 0 <= Shortfall(samples) <= Drift(|samples|) && MeanOf(samples).avg >= 0
    ensures samples != [] ==>
              0 <= Numerator(MeanOf(samples[..|samples| - 1]), samples[|samples| - 1]) <= Sum(samples)
  {
    hide *;
    MeanErrorBound(samples);
    if samples == [] {
      NoSamples();
    } else {
      var front, last := samples[..|samples| - 1], samples[|samples| - 1];
      NonNegativeLatencies(front);
      ShortfallStep(samples);
      NonNegativeNumerator(MeanOf(front), last);
      NonNegativeMean(samples);
    }
  }

  lemma NoSamples()
    ensures Shortfall([]) == 0 && MeanOf([]).avg == 0
  {
  }

  lemma NonNegativeNumerator(m: Metrics, latency: int)
    requires m.avg >= 0 && latency >= 0
    ensures Numerator(m, latency) >= 0
  {
    assert m.avg * m.executed >= 0;
  }

  lemma NonNegativeMean(samples: seq<int>)
    requires samples != [] && forall i :: 0 <= i < |samples| ==> samples[i] >= 0
    ensures MeanOf(samples).avg >= 0
  {
    MeanWithinSamples(samples, 0, LargestOf(samples));
  }

  function LargestOf(samples: seq<int>): (r: int)
    requires samples != []
    ensures forall i :: 0 <= i < |samples| ==> samples[i] <= r
  {
    var last := samples[|samples| - 1];
    if |samples| == 1 then last
    else
      var r := LargestOf(samples[..|samples| - 1]);
      if last > r then last else r
  }

  function UpTo(n: nat): (s: seq<int>)
    ensures |s| == n && forall i :: 0 <= i < n ==> s[i] == i
  {
    seq(n, i => i)
  }

  lemma SmallSample(n: nat)
    ensures Record(Metrics(n, 0), n) == Metrics(n + 1, 0)
  {
    assert Numerator(Metrics(n, 0), n) == n;
  }

  /** The bound is attained at every length: the latencies 0, 1, 2, ... leave the mean at zero. */
  lemma {:induction false} BoundIsAttained(n: nat)
    ensures MeanOf(UpTo(n)) == Metrics(n, 0) && Shortfall(UpTo(n)) == Sum(UpTo(n)) == Drift(n)
  {
    if n > 0 {
      BoundIsAttained(n - 1);
      var samples := UpTo(n);
      assert samples[..n - 1] == UpTo(n - 1);
      SmallSample(n - 1);
      DriftGrows(n - 1);
      hide Drift, Record, UpTo;
    }
  }

  class RuleMetrics {
    var executedCount: nat
    var avgLatency: int
    ghost var samples: seq<int>

    ghost predicate Valid()
      reads this
    {
      MeanOf(samples) == Metrics(executedCount, avgLatency)
    }

    constructor ()
      ensures Valid() && samples == []
    {
      executedCount, avgLatency, samples := 0, 0, [];
    }

    method RecordRuleExecution(latency: int)
      requires Valid()
      modifies this
      ensures Valid() && samples == old(samples) + [latency]
    {
      MeanCounts(samples);
      assert (samples + [latency])[..|samples|] == samples;
      executedCount := executedCount + 1;
      if executedCount == 1 {
        avgLatency := latency;
      } else {
        avgLatency := GoDiv(avgLatency * (executedCount - 1) + latency, executedCount);
      }
      samples := samples + [latency];
    }
  }

  // ----- Priority order -----

  datatype Rule = Rule(id: string, enabled: bool, priority: int)

  ghost predicate Descending(rules: seq<Rule>) {
    forall i, j :: 0 <= i < j < |rules| ==> rules[i].priority >= rules[j].priority
  }

  /** Everything before position i is in its final place. */
  ghost predicate Placed(rules: seq<Rule>, i: nat) {
    i <= |rules| && forall k, l :: 0 <= k < i && k < l < |rules| ==> rules[k].priority >= rules[l].priority
  }

  function Swapped(rules: seq<Rule>, i: nat, j: nat): seq<Rule>
    requires i < j < |rules|
  {
    rules[i := rules[j]][j := rules[i]]
  }

  lemma SwappedCounts(rules: seq<Rule>, i: nat, j: nat)
    requires i < j < |rules|
    ensures multiset(Swapped(rules, i, j)) == multiset(rules)
  {
    assert rules == rules[..i] + [rules[i]] + rules[i + 1..j] + [rules[j]] + rules[j + 1..];
    assert Swapped(rules, i, j) == rules[..i] + [rules[j]] + rules[i + 1..j] + [rules[i]] + rules[j + 1..];
  }

  /** Position i has the highest priority from there up to j. */
  ghost predicate HighestUpTo(rules: seq<Rule>, i: nat, j: nat) {
    i < j <= |rules| && forall l :: i < l < j ==> rules[i].priority >= rules[l].priority
  }

  lemma SwapStep(rules: seq<Rule>, i: nat, j: nat)
    requires j < |rules| && Placed(rules, i) && HighestUpTo(rules, i, j)
    ensures if rules[i].priority < rules[j].priority
            then Placed(Swapped(rules, i, j), i) && HighestUpTo(Swapped(rules, i, j), i, j + 1)
            else HighestUpTo(rules, i, j + 1)
  {
  }

  lemma HighestIsPlaced(rules: seq<Rule>, i: nat)
    requires Placed(rules, i) && HighestUpTo(rules, i, |rules|)
    ensures Placed(rules, i + 1)
  {
  }

  /** The exchange sort: in place, highest priority first. */
  method SortByPriority(a: array<Rule>)
    modifies a
    ensures Descending(a[..]) && multiset(a[..]) == multiset(old(a[..]))
  {
    var i := 0;
    while i < a.Length - 1
      invariant 0 <= i <= a.Length && (a.Length > 0 ==> i < a.Length)
      invariant Placed(a[..], i)
      invariant multiset(a[..]) == multiset(old(a[..]))
    {
      BringUpHighest(a, i);
      i := i + 1;
    }
  }

  /** The inner loop: afterwards position i holds the highest priority from i on. */
  method BringUpHighest(a: array<Rule>, i: nat)
    requires i < a.Length && Placed(a[..], i)
    modifies a
    ensures Placed(a[..], i + 1) && multiset(a[..]) == multiset(old(a[..]))
  {
    assert HighestUpTo(a[..], i, i + 1);
    hide Placed, HighestUpTo;
    for j := i + 1 to a.Length
      invariant Placed(a[..], i) && HighestUpTo(a[..], i, j)
      invariant multiset(a[..]) == multiset(old(a[..]))
    {
      ghost var before := a[..];
      SwapStep(before, i, j);
      if a[i].priority < a[j].priority {
        SwappedCounts(before, i, j);
        a[i], a[j] := a[j], a[i];
        assert a[..] == Swapped(before, i, j);
      }
    }
    HighestIsPlaced(a[..], i);
  }

  // ----- Processing a message -----

  /** The enabled rules of the table, once each, in the order of `keys`. */
  ghost predicate EnabledOnce(rules: seq<Rule>, keys: seq<string>, table: map<string, Rule>) {
    && |rules| == |keys|
    && (forall i, j :: 0 <= i < j < |keys| ==> keys[i] != keys[j])
    && (forall k :: k in keys <==> k in table && table[k].enabled)
    && (forall i :: 0 <= i < |keys| ==> keys[i] in table && rules[i] == table[keys[i]])
  }

  class RuleEngine {
    var rules: map<string, Rule>

    constructor ()
      ensures rules == map[]
    {
      rules := map[];
    }

    method EnabledRules() returns (enabled: seq<Rule>, ghost keys: seq<string>)
      ensures EnabledOnce(enabled, keys, rules)
      ensures forall r :: r in enabled <==> r in rules.Values && r.enabled
    {
      enabled, keys := [], [];
      var todo := rules.Keys;
      while todo != {}
        invariant todo <= rules.Keys && |enabled| == |keys|
        invariant forall i, j :: 0 <= i < j < |keys| ==> keys[i] != keys[j]
        invariant forall k :: k in keys <==> k in rules && k !in todo && rules[k].enabled
        invariant forall i :: 0 <= i < |keys| ==> keys[i] in rules && enabled[i] == rules[keys[i]]
        decreases todo
      {
        var k :| k in todo;
        if rules[k].enabled {
          enabled, keys := enabled + [rules[k]], keys + [k];
        }
        todo := todo - {k};
      }
      forall r ensures r in enabled <==> r in rules.Values && r.enabled {
        if r in rules.Values && r.enabled {
          var k :| k in rules && rules[k] == r;
          assert k in keys;
        }
      }
    }

    /** Every enabled rule is processed exactly once, in descending order of priority. */
    method ProcessMessage() returns (processed: seq<Rule>, ghost enabled: seq<Rule>, ghost keys: seq<string>)
      ensures EnabledOnce(enabled, keys, rules)
      ensures multiset(processed) == multiset(enabled) && Descending(processed)
    {
      var list;
      list, keys := EnabledRules();
      enabled := list;
      var a := new Rule[|list|](i requires 0 <= i < |list| => list[i]);
      assert a[..] == list;
      SortByPriority(a);
      processed := [];
      for i := 0 to a.Length
        invariant processed == a[..i]
      {
        processed := processed + [a[i]];
      }
      assert a[..a.Length] == a[..];
    }
  }
}
