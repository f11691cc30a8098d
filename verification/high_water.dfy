/**
 The lock-free high-water marks of pkg/metrics/metrics.go.

 IncConnections, IncSessions and IncSubscriptions add to a counter, SetRoutes and SetTopics store into one; all five
 then run the same retry loop: load the maximum, stop if it is not smaller, else compare-and-swap it.  The model
 interleaves the atomic instructions of any number of threads.
 */
module HighWater {

  /** Between the instructions of its retry loop a thread remembers its value, and after the load also what it loaded. */
  datatype Thread =
    | Holding(value: int, fails: nat)
    | Loaded(value: int, seen: int, fails: nat)

  datatype Gauge = Gauge(count: int, max: int, threads: map<nat, Thread>)

  const INIT := Gauge(0, 0, map[])

  datatype Action =
    | Inc(t: nat)
    | Set(t: nat, v: int)
    | Dec
    | Load(t: nat)
    | CompareAndSwap(t: nat)

  predicate ByThread(a: Action, t: nat) {
    !a.Dec? && a.t == t
  }

  /** An instruction a thread is not about to execute changes nothing. */
  function Step(g: Gauge, a: Action): Gauge {
    match a
    case Inc(t) =>
      if t in g.threads then g
      else g.(count := g.count + 1, threads := g.threads[t := Holding(g.count + 1, 0)])
    case Set(t, v) =>
      if t in g.threads then g
      else g.(count := v, threads := g.threads[t := Holding(v, 0)])
    case Dec => g.(count := g.count - 1)
    case Load(t) =>
      if t !in g.threads || !g.threads[t].Holding? then g
      else
        var th := g.threads[t];
        if th.value <= g.max then g.(threads := g.threads - {t})
        else g.(threads := g.threads[t := Loaded(th.value, g.max, th.fails)])
    case CompareAndSwap(t) =>
      if t !in g.threads || !g.threads[t].Loaded? then g
      else
        var th := g.threads[t];
        if g.max == th.seen then g.(max := th.value, threads := g.threads - {t})
        else g.(threads := g.threads[t := Holding(th.value, th.fails + 1)])
  }

  function Run(actions: seq<Action>): Gauge {
    if actions == [] then INIT else Step(Run(actions[..|actions| - 1]), actions[|actions| - 1])
  }

  function Max(a: int, b: int): int {
    if a < b then b else a
  }

  /** The thread is outside its retry loop, so its call begins with this action. */
  predicate Begins(before: seq<Action>, a: Action) {
    (a.Inc? || a.Set?) && a.t !in Run(before).threads
  }

  /** What the counter should be: the last value set, if any, plus the increments and minus the decrements since. */
  function Expected(actions: seq<Action>): int {
    if actions == [] then 0
    else
      var front, a := actions[..|actions| - 1], actions[|actions| - 1];
      match a
      case Inc(_) => Expected(front) + if Begins(front, a) then 1 else 0
      case Set(_, v) => if Begins(front, a) then v else Expected(front)
      case Dec => Expected(front) - 1
      case _ => Expected(front)
  }

  /** The largest value the counter should ever have had. */
  function Peak(actions: seq<Action>): int {
    if actions == [] then 0 else Max(Peak(actions[..|actions| - 1]), Expected(actions))
  }

  lemma {:induction false} CountIsExpected(actions: seq<Action>)
    ensures Run(actions).count == Expected(actions)
  {
    if actions != [] {
      CountIsExpected(actions[..|actions| - 1]);
    }
  }

  function Incs(actions: seq<Action>): nat {
    if actions == [] then 0
    else
      var front, a := actions[..|actions| - 1], actions[|actions| - 1];
      Incs(front) + if a.Inc? && Begins(front, a) then 1 else 0
  }

  function Decs(actions: seq<Action>): nat {
    if actions == [] then 0 else Decs(actions[..|actions| - 1]) + if actions[|actions| - 1].Dec? then 1 else 0
  }

  /** A counter that is never set is the number of increments minus the number of decrements, in every interleaving. */
  lemma {:induction false} CountIsBalance(actions: seq<Action>)
    requires forall i :: 0 <= i < |actions| ==> !actions[i].Set?
    ensures Run(actions).count == Incs(actions) - Decs(actions)
  {
    if actions != [] {
      CountIsBalance(actions[..|actions| - 1]);
      assert !actions[|actions| - 1].Set?;
    }
  }

  // ----- Invariants -----

  /** The retry loop of one thread: each failed swap has been paid for by a rise of the maximum. */
  predicate Sound(th: Thread, max: int, peak: int) {
    && th.value <= peak
    && th.fails <= Max(0, th.value)
    && (th.Holding? ==> th.fails <= max)
    && (th.Loaded? ==> th.fails <= th.seen <= max && th.seen < th.value)
  }

  /** The peak is recorded, or some thread is still on its way to record it. */
  ghost predicate Covered(g: Gauge, peak: int) {
    g.max == peak || exists t <- g.threads :: g.threads[t].value == peak
  }

  ghost predicate Good(g: Gauge, peak: int) {
    && 0 <= g.max <= peak && g.count <= peak
    && (forall t <- g.threads :: Sound(g.threads[t], g.max, peak))
    && Covered(g, peak)
  }

  lemma MaxNeverFalls(g: Gauge, a: Action, peak: int)
    requires Good(g, peak)
    ensures g.max <= Step(g, a).max
    ensures Step(g, a).max != g.max ==> a.CompareAndSwap? && a.t in g.threads && g.threads[a.t].Loaded?
                                        && Step(g, a).max == g.threads[a.t].value
  {
  }

  lemma BeginKeepsGood(g: Gauge, peak: int, t: nat, v: int)
    requires Good(g, peak) && t !in g.threads
    ensures Good(Gauge(v, g.max, g.threads[t := Holding(v, 0)]), Max(peak, v))
  {
    var h := Gauge(v, g.max, g.threads[t := Holding(v, 0)]);
    if v > peak || (v == peak && g.max != peak) {
      assert h.threads[t].value == Max(peak, v);
    } else if g.max != peak {
      var u :| u in g.threads && g.threads[u].value == peak;
      assert h.threads[u].value == peak;
    }
  }

  lemma LoadKeepsGood(g: Gauge, peak: int, t: nat)
    requires Good(g, peak)
    ensures Good(Step(g, Load(t)), peak)
  {
    var h := Step(g, Load(t));
    if g.max != peak && t in g.threads {
      var u :| u in g.threads && g.threads[u].value == peak;
      assert u in h.threads && h.threads[u].value == peak;
    }
  }

  lemma SwapKeepsGood(g: Gauge, peak: int, t: nat)
    requires Good(g, peak)
    ensures Good(Step(g, CompareAndSwap(t)), peak)
  {
    var h := Step(g, CompareAndSwap(t));
    if t in g.threads && h.max != peak {
      var u :| u in g.threads && g.threads[u].value == peak;
      assert u in h.threads && h.threads[u].value == peak;
    }
  }

  lemma StepKeepsGood(g: Gauge, peak: int, a: Action)
    requires Good(g, peak)
    ensures Good(Step(g, a), Max(peak, Step(g, a).count))
  {
    match a {
      case Inc(t) => if t !in g.threads { BeginKeepsGood(g, peak, t, g.count + 1); }
      case Set(t, v) => if t !in g.threads { BeginKeepsGood(g, peak, t, v); }
      case Dec =>
      case Load(t) => LoadKeepsGood(g, peak, t);
      case CompareAndSwap(t) => SwapKeepsGood(g, peak, t);
    }
  }

  lemma {:induction false} RunIsGood(actions: seq<Action>)
    ensures Good(Run(actions), Peak(actions))
  {
    if actions != [] {
      var front := actions[..|actions| - 1];
      RunIsGood(front);
      CountIsExpected(actions);
      StepKeepsGood(Run(front), Peak(front), actions[|actions| - 1]);
    }
  }

  // ----- Results -----

  lemma {:induction false} PrefixOfRun(actions: seq<Action>, i: nat, j: nat)
    requires i <= j <= |actions|
    ensures Run(actions[..i]).max <= Run(actions[..j]).max
  {
    if i < j {
      PrefixOfRun(actions, i, j - 1);
      assert actions[..j][..j - 1] == actions[..j - 1];
      RunIsGood(actions[..j - 1]);
      MaxNeverFalls(Run(actions[..j - 1]), actions[j - 1], Peak(actions[..j - 1]));
    }
  }

  /**
   In every interleaving the recorded maximum never falls and never exceeds the peak of the counter, and whenever no
   thread is inside its retry loop it equals that peak.
   */
  lemma HighWaterMark(actions: seq<Action>, i: nat)
    requires i <= |actions|
    ensures Run(actions[..i]).max <= Run(actions).max <= Peak(actions)
    ensures Run(actions).threads == map[] ==> Run(actions).max == Peak(actions)
  {
    RunIsGood(actions);
    PrefixOfRun(actions, i, |actions|);
    assert actions[..|actions|] == actions;
  }

  /** A thread that holds a value has failed at most that many swaps. */
  lemma RetriesAreBounded(actions: seq<Action>, t: nat)
    requires t in Run(actions).threads
    ensures Run(actions).threads[t].fails <= Max(0, Run(actions).threads[t].value)
  {
    RunIsGood(actions);
  }

  /** Between two instructions of its own, a thread's memory does not change. */
  lemma {:induction false} OwnMemory(actions: seq<Action>, t: nat, i: nat, j: nat)
    requires i <= j <= |actions|
    requires forall k :: i <= k < j ==> !ByThread(actions[k], t)
    requires t in Run(actions[..i]).threads
    ensures t in Run(actions[..j]).threads && Run(actions[..j]).threads[t] == Run(actions[..i]).threads[t]
  {
    if i < j {
      OwnMemory(actions, t, i, j - 1);
      assert actions[..j][..j - 1] == actions[..j - 1];
    }
  }

  /** A maximum that differs between two moments was raised by an action in between. */
  lemma {:induction false} SomeoneRaised(actions: seq<Action>, i: nat, j: nat) returns (k: nat)
    requires i <= j <= |actions|
    requires Run(actions[..i]).max != Run(actions[..j]).max
    ensures i <= k < j && actions[k].CompareAndSwap? && Run(actions[..k]).max < Run(actions[..k + 1]).max
  {
    var m := j - 1;
    assert actions[..j][..m] == actions[..m];
    RunIsGood(actions[..m]);
    MaxNeverFalls(Run(actions[..m]), actions[m], Peak(actions[..m]));
    if Run(actions[..m]).max != Run(actions[..j]).max {
      k := m;
    } else {
      k := SomeoneRaised(actions, i, m);
    }
  }

  /** The load of a thread in its retry loop, and a swap that will fail. */
  predicate Loads(g: Gauge, t: nat) {
    t in g.threads && g.threads[t].Holding?
  }

  predicate SwapFails(g: Gauge, t: nat) {
    t in g.threads && g.threads[t].Loaded? && g.threads[t].seen != g.max
  }

  /**
   Lock freedom.  If a thread loads at position i, executes nothing else until its swap at position j, and that swap
   fails, then another thread's swap in between strictly raised the maximum.
   */
  lemma FailedSwapMeansProgress(actions: seq<Action>, t: nat, i: nat, j: nat)
    requires i < j < |actions|
    requires actions[i] == Load(t) && Loads(Run(actions[..i]), t)
    requires actions[j] == CompareAndSwap(t) && SwapFails(Run(actions[..j]), t)
    requires forall k :: i < k < j ==> !ByThread(actions[k], t)
    ensures exists k, u :: i < k < j && u != t && actions[k] == CompareAndSwap(u)
                           && Run(actions[..k]).max < Run(actions[..k + 1]).max
  {
    assert actions[..i + 1][..i] == actions[..i];
    if t !in Run(actions[..i + 1]).threads {
      StaysOut(actions, t, i + 1, j);
    }
    OwnMemory(actions, t, i + 1, j);
    var k := SomeoneRaised(actions, i + 1, j);
    assert actions[k] == CompareAndSwap(actions[k].t) && actions[k].t != t;
  }

  lemma {:induction false} StaysOut(actions: seq<Action>, t: nat, i: nat, j: nat)
    requires i <= j <= |actions|
    requires forall k :: i <= k < j ==> !ByThread(actions[k], t)
    requires t !in Run(actions[..i]).threads
    ensures t !in Run(actions[..j]).threads
  {
    if i < j {
      StaysOut(actions, t, i, j - 1);
      assert actions[..j][..j - 1] == actions[..j - 1];
    }
  }
}
