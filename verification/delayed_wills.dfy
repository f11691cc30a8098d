/**
 Delayed wills: the timers of pkg/persistent/will.go and what stops them.

 A delayed will waits on a timer that is filed in a map under its client and the instant it was made.  A cancel goes
 through that map, so it stops exactly the timers that are filed; two timers made at one instant share an ID, and the
 map keeps the second.  The lemmas say when that happens, what it costs, and what becomes of every delayed will.
 */
module DelayedWills {
  import opened Common
  import opened Sessions
  import opened DurableMirror
  import opened Wills

  /** The map leads to this timer. */
  predicate Filed(w: WillState, h: nat)
    requires h in w.armed
  {
    w.armed[h].id in w.timers && w.timers[w.armed[h].id] == w.armed[h]
  }

  /** Timers know their handles and clients, and a filed timer that may still go off is the one with that handle. */
  ghost predicate Consistent(w: WillState) {
    && (forall h <- w.armed :: w.armed[h].handle == h < w.nextHandle && w.armed[h].id.clientID == w.armed[h].clientID)
    && (forall id <- w.timers :: w.timers[id].id == id && w.timers[id].clientID == id.clientID)
    && (forall id <- w.timers :: w.timers[id].handle < w.nextHandle)
    && (forall id <- w.timers :: w.timers[id].handle in w.armed ==> w.armed[w.timers[id].handle] == w.timers[id])
  }

  ghost predicate Good(s: State) {
    Durable(s) && WillsOnce(s) && Consistent(s.wills)
  }

  lemma ScheduleConsistent(w: WillState, will: Will, c: string, now: int)
    requires Consistent(w)
    ensures Consistent(Schedule(w, will, c, now))
  {
  }

  lemma CancelConsistent(w: WillState, c: string)
    requires Consistent(w)
    ensures Consistent(CancelWills(w, c))
  {
  }

  lemma CloseConsistent(w: WillState)
    requires Consistent(w)
    ensures Consistent(CloseWills(w))
  {
  }

  lemma FireConsistent(w: WillState, handle: nat, now: int)
    requires Consistent(w)
    ensures Consistent(FireTimer(w, handle, now))
  {
  }

  lemma StepKeepsConsistent(cfg: Config, s: State, a: Action)
    requires Durable(s) && Consistent(s.wills)
    ensures Consistent(Step(cfg, s, a).wills)
  {
    if Quiet(a) {
      QuietHolds(cfg, s, a, "");
    } else {
      match a {
        case DisconnectAction(c, graceful, now) =>
          if c in s.active {
            DisconnectIs(s, c, graceful, now);
            hide Disconnect, Consistent;
            if !graceful && s.active[c].will.Some? {
              ScheduleConsistent(s.wills, s.active[c].will.value, c, now);
              PublishConsistent(s.wills, s.active[c].will.value, c);
            } else if graceful {
              CancelConsistent(s.wills, c);
            }
          }
        case FireAction(handle, now) => FireConsistent(s.wills, handle, now);
        case CancelAction(c) => CancelConsistent(s.wills, c);
        case CloseAction => CloseConsistent(s.wills);
        case SetWillAction(_, _, _, _, _, _) =>
        case CrashAction =>
      }
    }
  }

  lemma DisconnectIs(s: State, c: string, graceful: bool, now: int)
    requires c in s.active
    ensures Disconnect(s, c, graceful, now).wills == WillsAfterDisconnect(s.wills, s.active[c], c, graceful, now)
  {
  }

  lemma PublishConsistent(w: WillState, will: Will, c: string)
    requires Consistent(w)
    ensures Consistent(PublishNow(w, will, c))
  {
  }

  lemma StepKeepsGood(cfg: Config, s: State, a: Action)
    requires Good(s)
    ensures Good(Step(cfg, s, a))
  {
    hide Step, Durable, WillsOnce, Consistent;
    StepKeeps(cfg, s, a);
    StepKeepsWills(cfg, s, a);
    StepKeepsConsistent(cfg, s, a);
  }

  lemma {:induction false} RunKeepsGood(cfg: Config, s: State, actions: seq<Action>)
    requires Good(s)
    ensures Good(RunFrom(cfg, s, actions))
  {
    if actions != [] {
      RunKeepsGood(cfg, s, actions[..|actions| - 1]);
      hide Step, Good;
      StepKeepsGood(cfg, RunFrom(cfg, s, actions[..|actions| - 1]), actions[|actions| - 1]);
    }
  }

  /** Every reachable state is good. */
  lemma RunIsGood(cfg: Config, actions: seq<Action>)
    ensures Good(Run(cfg, actions))
  {
    RunKeepsGood(cfg, INIT, actions);
  }

  // ----- When all timers of a client are filed -----

  ghost predicate TrackedFor(w: WillState, c: string) {
    forall h <- w.armed :: w.armed[h].clientID == c ==> Filed(w, h)
  }

  /** A disconnect with a delayed will, at the very instant at which a timer of the client that still waits was made. */
  predicate ReusesID(s: State, a: Action, c: string) {
    && a.DisconnectAction? && a.clientID == c && !a.graceful
    && c in s.active && s.active[c].will.Some? && s.active[c].will.value.delayInterval > 0
    && exists h <- s.wills.armed :: s.wills.armed[h].id == TimerID(c, a.now)
  }

  lemma ScheduleTracksIff(w: WillState, will: Will, d: string, now: int, c: string)
    requires Consistent(w) && TrackedFor(w, c)
    ensures TrackedFor(Schedule(w, will, d, now), c)
            <==> !(d == c && exists h <- w.armed :: w.armed[h].id == TimerID(c, now))
  {
    var v := Schedule(w, will, d, now);
    if d == c && exists h <- w.armed :: w.armed[h].id == TimerID(c, now) {
      var h :| h in w.armed && w.armed[h].id == TimerID(c, now);
      assert h in v.armed && v.armed[h] == w.armed[h] && !Filed(v, h);
    } else {
      forall h | h in v.armed && v.armed[h].clientID == c ensures Filed(v, h) {
        if h != w.nextHandle {
          assert Filed(w, h);
        }
      }
    }
  }

  lemma CancelTracks(w: WillState, d: string, c: string)
    requires Consistent(w) && TrackedFor(w, c)
    ensures TrackedFor(CancelWills(w, d), c)
    ensures d == c ==> forall h <- CancelWills(w, d).armed :: CancelWills(w, d).armed[h].clientID != c
  {
    var v := CancelWills(w, d);
    forall h | h in v.armed && v.armed[h].clientID == c ensures Filed(v, h) && d != c {
      assert Filed(w, h);
    }
  }

  lemma CloseTracks(w: WillState, c: string)
    requires Consistent(w) && TrackedFor(w, c)
    ensures TrackedFor(CloseWills(w), c)
  {
    var v := CloseWills(w);
    forall h | h in w.armed && w.armed[h].clientID == c ensures h !in v.armed {
      assert Filed(w, h);
    }
  }

  lemma FireTracks(w: WillState, handle: nat, now: int, c: string)
    requires Consistent(w) && TrackedFor(w, c)
    ensures TrackedFor(FireTimer(w, handle, now), c)
  {
    var v := FireTimer(w, handle, now);
    forall h | h in v.armed && v.armed[h].clientID == c ensures Filed(v, h) {
      assert Filed(w, h);
      assert handle in w.armed && w.armed[handle].clientID == c ==> Filed(w, handle);
    }
  }

  /** From a state where all timers of c are filed, a call loses track of one exactly when it reuses an ID. */
  lemma StepTracksIff(cfg: Config, s: State, a: Action, c: string)
    requires Good(s) && TrackedFor(s.wills, c)
    ensures TrackedFor(Step(cfg, s, a).wills, c) <==> !ReusesID(s, a, c)
  {
    if Quiet(a) {
      QuietHolds(cfg, s, a, "");
    } else {
      match a {
        case DisconnectAction(d, graceful, now) =>
          if d in s.active {
            DisconnectIs(s, d, graceful, now);
            hide Disconnect, Consistent, TrackedFor;
            if !graceful && s.active[d].will.Some? {
              ScheduleTracksIff(s.wills, s.active[d].will.value, d, now, c);
              PublishTracks(s.wills, s.active[d].will.value, d, c);
            } else if graceful {
              CancelTracks(s.wills, d, c);
            }
          }
        case FireAction(handle, now) => FireTracks(s.wills, handle, now, c);
        case CancelAction(d) => CancelTracks(s.wills, d, c);
        case CloseAction => CloseTracks(s.wills, c);
        case SetWillAction(_, _, _, _, _, _) =>
        case CrashAction =>
      }
    }
  }

  lemma PublishTracks(w: WillState, will: Will, d: string, c: string)
    requires TrackedFor(w, c)
    ensures TrackedFor(PublishNow(w, will, d), c)
  {
    forall h | h in w.armed && w.armed[h].clientID == c ensures Filed(PublishNow(w, will, d), h) {
      assert Filed(w, h);
    }
  }

  ghost predicate NeverReusesID(cfg: Config, actions: seq<Action>, c: string) {
    forall i :: 0 <= i < |actions| ==> !ReusesID(Run(cfg, actions[..i]), actions[i], c)
  }

  /** In a run that reuses no ID of c, all timers of c are filed; other clients do not matter. */
  lemma {:induction false} RunTracks(cfg: Config, actions: seq<Action>, c: string)
    requires NeverReusesID(cfg, actions, c)
    ensures TrackedFor(Run(cfg, actions).wills, c)
  {
    if actions != [] {
      var front, k := actions[..|actions| - 1], |actions| - 1;
      assert !ReusesID(Run(cfg, actions[..k]), actions[k], c);
      assert forall i :: 0 <= i < |front| ==> front[i] == actions[i] && front[..i] == actions[..i];
      hide Step, ReusesID;
      RunTracks(cfg, front, c);
      RunIsGood(cfg, front);
      StepTracksIff(cfg, Run(cfg, front), actions[k], c);
    }
  }

  // ----- A graceful disconnect -----

  /** Everything a client may still publish was installed at or after `from`. */
  ghost predicate OnlyNewer(s: State, c: string, from: nat, done: nat) {
    && from <= s.nextWill
    && (forall x <- Held(s, c) :: from <= x)
    && (forall h <- s.wills.armed :: s.wills.armed[h].clientID == c ==> from <= s.wills.armed[h].will.serial)
    && (forall i :: done <= i < |s.wills.published| && s.wills.published[i].clientID == c
                    ==> from <= s.wills.published[i].will.serial)
  }

  lemma DisconnectKeepsNewer(s: State, d: string, graceful: bool, now: int, c: string, from: nat, done: nat)
    requires Durable(s) && OnlyNewer(s, c, from, done) && d in s.active
    ensures OnlyNewer(Disconnect(s, d, graceful, now), c, from, done)
  {
    var t := Disconnect(s, d, graceful, now);
    DisconnectDrops(s, d, graceful, now, c);
    assert t.wills == WillsAfterDisconnect(s.wills, s.active[d], d, graceful, now) && t.nextWill == s.nextWill;
    if d == c && s.active[d].will.Some? {
      assert s.active[d].will.value.serial in Held(s, c);
    }
    hide Disconnect, Held;
  }

  lemma FireKeepsNewer(w: WillState, handle: nat, now: int, c: string, from: nat, done: nat)
    requires forall h <- w.armed :: w.armed[h].clientID == c ==> from <= w.armed[h].will.serial
    requires forall i :: done <= i < |w.published| && w.published[i].clientID == c ==> from <= w.published[i].will.serial
    ensures var v := FireTimer(w, handle, now);
            && (forall h <- v.armed :: v.armed[h].clientID == c ==> from <= v.armed[h].will.serial)
            && (forall i :: done <= i < |v.published| && v.published[i].clientID == c ==> from <= v.published[i].will.serial)
  {
  }

  lemma StepKeepsNewer(cfg: Config, s: State, a: Action, c: string, from: nat, done: nat)
    requires Durable(s) && OnlyNewer(s, c, from, done)
    ensures OnlyNewer(Step(cfg, s, a), c, from, done)
  {
    hide Durable, FireTimer;
    if Quiet(a) {
      QuietHolds(cfg, s, a, c);
    } else {
      match a {
        case DisconnectAction(d, graceful, now) =>
          if d in s.active {
            DisconnectKeepsNewer(s, d, graceful, now, c, from, done);
          }
        case CloseAction => CloseHolds(s, c);
        case CrashAction =>
        case SetWillAction(_, _, _, _, _, _) =>
        case FireAction(handle, now) =>
          FireKeepsNewer(s.wills, handle, now, c, from, done);
          assert Held(Step(cfg, s, a), c) == Held(s, c);
        case CancelAction(_) =>
          assert Held(Step(cfg, s, a), c) == Held(s, c);
      }
    }
  }

  lemma {:induction false} RunKeepsNewer(cfg: Config, s: State, actions: seq<Action>, c: string, from: nat, done: nat)
    requires Durable(s) && OnlyNewer(s, c, from, done)
    ensures Durable(RunFrom(cfg, s, actions)) && OnlyNewer(RunFrom(cfg, s, actions), c, from, done)
  {
    if actions != [] {
      var front := actions[..|actions| - 1];
      RunKeepsNewer(cfg, s, front, c, from, done);
      StepKeeps(cfg, RunFrom(cfg, s, front), actions[|actions| - 1]);
      StepKeepsNewer(cfg, RunFrom(cfg, s, front), actions[|actions| - 1], c, from, done);
      hide Step, OnlyNewer, Durable;
    }
  }

  /** Between the two states a will of c was published that had been installed before the first. */
  ghost predicate OldWillPublished(s: State, u: State, c: string) {
    exists i :: |s.wills.published| <= i < |u.wills.published| && u.wills.published[i].clientID == c
                && u.wills.published[i].will.serial < s.nextWill
  }

  /** An old will of c is published in this continuation of its graceful disconnect. */
  ghost predicate Escapes(cfg: Config, s: State, c: string, now: int, more: seq<Action>) {
    OldWillPublished(s, RunFrom(cfg, Disconnect(s, c, true, now), more), c)
  }

  lemma TrackedIsFinal(cfg: Config, s: State, c: string, now: int, more: seq<Action>)
    requires Good(s) && c in s.active && TrackedFor(s.wills, c)
    ensures !OldWillPublished(s, RunFrom(cfg, Disconnect(s, c, true, now), more), c)
  {
    var t := Disconnect(s, c, true, now);
    DisconnectIs(s, c, true, now);
    CancelTracks(s.wills, c, c);
    DisconnectDrops(s, c, true, now, c);
    assert OnlyNewer(t, c, s.nextWill, |s.wills.published|);
    StepKeeps(cfg, s, DisconnectAction(c, true, now));
    hide Disconnect, Held, CancelWills, Durable, TrackedFor, Step;
    RunKeepsNewer(cfg, t, more, c, s.nextWill, |s.wills.published|);
  }

  lemma UnfiledEscapes(cfg: Config, s: State, c: string, now: int, h: nat) returns (more: seq<Action>)
    requires Good(s) && c in s.active && h in s.wills.armed && s.wills.armed[h].clientID == c && !Filed(s.wills, h)
    ensures OldWillPublished(s, RunFrom(cfg, Disconnect(s, c, true, now), more), c)
  {
    var t := Disconnect(s, c, true, now);
    var timer := s.wills.armed[h];
    DisconnectIs(s, c, true, now);
    CancelSkips(s.wills, c, h);
    more := [FireAction(h, timer.due)];
    FireNow(cfg, t, h);
    assert timer.will.serial < s.nextWill;
    hide Disconnect, CancelWills, Good, RunFrom;
    var u := RunFrom(cfg, t, more);
    assert u.wills.published[|s.wills.published|] == Publication(c, timer.will);
  }

  lemma FireNow(cfg: Config, s: State, h: nat)
    requires h in s.wills.armed
    ensures var timer := s.wills.armed[h];
            RunFrom(cfg, s, [FireAction(h, timer.due)]).wills.published
            == s.wills.published + [Publication(timer.clientID, timer.will)]
  {
    var fire := FireAction(h, s.wills.armed[h].due);
    RunAppend(cfg, s, [], fire);
    assert [] + [fire] == [fire];
  }

  lemma CancelSkips(w: WillState, c: string, h: nat)
    requires Consistent(w) && h in w.armed && (!Filed(w, h) || w.armed[h].clientID != c)
    ensures h in CancelWills(w, c).armed && CancelWills(w, c).armed[h] == w.armed[h]
    ensures CancelWills(w, c).published == w.published
  {
  }

  /**
   After any run, something that a client installed before its graceful disconnect can still be published afterwards
   exactly when one of its waiting timers is not the one filed under its ID.
   */
  lemma GracefulDisconnectIsFinalIff(cfg: Config, actions: seq<Action>, c: string, now: int)
    requires c in Run(cfg, actions).active
    ensures var s := Run(cfg, actions);
            (exists more :: Escapes(cfg, s, c, now, more)) <==> !TrackedFor(s.wills, c)
  {
    var s := Run(cfg, actions);
    RunIsGood(cfg, actions);
    hide Run, Good, OldWillPublished, Disconnect;
    if TrackedFor(s.wills, c) {
      forall more ensures !Escapes(cfg, s, c, now, more) { TrackedIsFinal(cfg, s, c, now, more); }
    } else {
      var h :| h in s.wills.armed && s.wills.armed[h].clientID == c && !Filed(s.wills, h);
      var more := UnfiledEscapes(cfg, s, c, now, h);
      assert Escapes(cfg, s, c, now, more);
    }
  }

  /** In particular never, in any continuation, after a run that has reused no ID of this client. */
  lemma GracefulDisconnectIsFinal(cfg: Config, actions: seq<Action>, c: string, now: int, more: seq<Action>)
    requires c in Run(cfg, actions).active && NeverReusesID(cfg, actions, c)
    ensures !OldWillPublished(Run(cfg, actions), Run(cfg, actions + [DisconnectAction(c, true, now)] + more), c)
  {
    RunTracks(cfg, actions, c);
    RunIsGood(cfg, actions);
    TrackedIsFinal(cfg, Run(cfg, actions), c, now, more);
    RunAppend(cfg, INIT, actions, DisconnectAction(c, true, now));
    RunConcat(cfg, INIT, actions + [DisconnectAction(c, true, now)], more);
  }

  /** It happens: after two disconnects with a delayed will at one instant the map has lost the first timer. */
  lemma SharedTimerIDEscapes(cfg: Config, c: string, t: int)
    ensures var arm := [SetWillAction(c, "w", [], 0, false, 1), DisconnectAction(c, false, t)];
            var s := Run(cfg, [ConnectAction(c, false, 0, t)] + arm + arm);
            c in s.active && !TrackedFor(s.wills, c)
  {
    var will, drop := SetWillAction(c, "w", [], 0, false, 1), DisconnectAction(c, false, t);
    var s0 := Connect(cfg, INIT, c, false, 0, t);
    var s1 := SetWill(s0, c, "w", [], 0, false, 1);
    var s2 := Disconnect(s1, c, false, t);
    var s3 := SetWill(s2, c, "w", [], 0, false, 1);
    var s4 := Disconnect(s3, c, false, t);
    var open := ConnectAction(c, false, 0, t);
    FiveSteps(cfg, open, will, drop);
    assert [open] + [will, drop] + [will, drop] == [open, will, drop, will, drop];
    assert Run(cfg, [open, will, drop, will, drop]) == s4;
    var w1, w2 := Will(0, "w", [], 0, false, 1), Will(1, "w", [], 0, false, 1);
    var t1, t2 := Timer(TimerID(c, t), 0, w1, c, t + 1), Timer(TimerID(c, t), 1, w2, c, t + 1);
    assert s2.wills == WillState(map[TimerID(c, t) := t1], map[0 := t1], 1, []);
    assert s4.wills == WillState(map[TimerID(c, t) := t2], map[0 := t1, 1 := t2], 2, []);
    assert !Filed(s4.wills, 0);
  }

  lemma FiveSteps(cfg: Config, a: Action, b: Action, c: Action)
    ensures Run(cfg, [a, b, c, b, c])
            == Step(cfg, Step(cfg, Step(cfg, Step(cfg, Step(cfg, INIT, a), b), c), b), c)
  {
    assert RunFrom(cfg, INIT, []) == INIT;
    assert [] + [a] == [a] && [a] + [b] == [a, b] && [a, b] + [c] == [a, b, c]
           && [a, b, c] + [b] == [a, b, c, b] && [a, b, c, b] + [c] == [a, b, c, b, c];
    hide Step, RunFrom;
    RunAppend(cfg, INIT, [], a);
    RunAppend(cfg, INIT, [a], b);
    RunAppend(cfg, INIT, [a, b], c);
    RunAppend(cfg, INIT, [a, b, c], b);
    RunAppend(cfg, INIT, [a, b, c, b], c);
  }

  // ----- What becomes of a delayed will -----

  /** The timer goes off and is due. */
  predicate Fires(a: Action, timer: Timer) {
    a.FireAction? && a.handle == timer.handle && timer.due <= a.now
  }

  /** The calls that stop a timer: the loss of the process, and, if it is filed, three others. */
  predicate Stops(s: State, a: Action, h: nat)
    requires h in s.wills.armed
  {
    var c := s.wills.armed[h].clientID;
    a.CrashAction?
    || (Filed(s.wills, h)
        && (a == CancelAction(c) || (a.CloseAction? && !s.closed)
            || (a.DisconnectAction? && a.clientID == c && a.graceful && c in s.active)))
  }

  /** The will waits on its timer. */
  ghost predicate Waits(s: State, timer: Timer) {
    timer.handle in s.wills.armed && s.wills.armed[timer.handle] == timer
  }

  /** The will is nowhere any more and was never published. */
  ghost predicate Gone(s: State, serial: nat) {
    && serial < s.nextWill && !IsArmed(s.wills, serial) && !IsPublished(s.wills, serial)
    && forall c :: serial !in Held(s, c)
  }

  lemma ArmedIsNotHeld(s: State, timer: Timer, c: string)
    requires WillsOnce(s) && Waits(s, timer)
    ensures timer.will.serial !in Held(s, c) && timer.will.serial < s.nextWill && !IsPublished(s.wills, timer.will.serial)
  {
    assert IsArmed(s.wills, timer.will.serial);
    if timer.will.serial in Held(s, c) {
      HeldIsIdle(s, c, timer.will.serial);
    }
  }

  lemma StoppedIsGone(s: State, t: State, timer: Timer)
    requires WillsOnce(s) && Waits(s, timer)
    requires t.wills.published == s.wills.published && t.nextWill == s.nextWill
    requires forall h <- t.wills.armed :: h != timer.handle && h in s.wills.armed && t.wills.armed[h] == s.wills.armed[h]
    requires forall c :: Held(t, c) <= Held(s, c)
    ensures Gone(t, timer.will.serial)
  {
    forall c ensures timer.will.serial !in Held(t, c) { ArmedIsNotHeld(s, timer, c); }
    ArmedIsNotHeld(s, timer, "");
    hide Held;
  }

  lemma CancelStops(w: WillState, c: string, timer: Timer)
    requires Consistent(w) && timer.handle in w.armed && w.armed[timer.handle] == timer
    requires Filed(w, timer.handle) && timer.clientID == c
    ensures var v := CancelWills(w, c);
            v.published == w.published
            && forall h <- v.armed :: h != timer.handle && h in w.armed && v.armed[h] == w.armed[h]
  {
    assert timer.id in w.timers && w.timers[timer.id] == timer;
  }

  lemma CloseStops(w: WillState, timer: Timer)
    requires Consistent(w) && timer.handle in w.armed && w.armed[timer.handle] == timer
    ensures var v := CloseWills(w);
            && v.published == w.published
            && (Filed(w, timer.handle) ==>
                  forall h <- v.armed :: h != timer.handle && h in w.armed && v.armed[h] == w.armed[h])
            && (!Filed(w, timer.handle) ==> timer.handle in v.armed && v.armed[timer.handle] == timer)
  {
    if Filed(w, timer.handle) {
      assert timer.id in w.timers && w.timers[timer.id] == timer;
    }
  }

  lemma FireFate(w: WillState, handle: nat, now: int, timer: Timer)
    requires Consistent(w) && timer.handle in w.armed && w.armed[timer.handle] == timer
    ensures var v := FireTimer(w, handle, now);
            if handle == timer.handle && timer.due <= now then IsPublished(v, timer.will.serial)
            else timer.handle in v.armed && v.armed[timer.handle] == timer
  {
    var v := FireTimer(w, handle, now);
    if handle == timer.handle && timer.due <= now {
      assert v.published[|w.published|].will.serial == timer.will.serial;
    }
  }

  lemma DisconnectFate(s: State, d: string, graceful: bool, now: int, timer: Timer)
    requires Good(s) && Waits(s, timer) && d in s.active
    ensures var t := Disconnect(s, d, graceful, now);
            if graceful && d == timer.clientID && Filed(s.wills, timer.handle) then Gone(t, timer.will.serial)
            else Waits(t, timer)
  {
    var t := Disconnect(s, d, graceful, now);
    DisconnectIs(s, d, graceful, now);
    assert t.nextWill == s.nextWill;
    forall c ensures Held(t, c) <= Held(s, c) { DisconnectDrops(s, d, graceful, now, c); }
    hide Disconnect, Held, Durable;
    if graceful {
      if d == timer.clientID && Filed(s.wills, timer.handle) {
        CancelStops(s.wills, d, timer);
        StoppedIsGone(s, t, timer);
      } else {
        CancelSkips(s.wills, d, timer.handle);
      }
    }
  }

  /** One call: a waiting will is published by its own timer alone, is stopped for good, or goes on waiting. */
  lemma StepFate(cfg: Config, s: State, a: Action, timer: Timer)
    requires Good(s) && Waits(s, timer)
    ensures var t := Step(cfg, s, a);
            if Fires(a, timer) then IsPublished(t.wills, timer.will.serial)
            else if Stops(s, a, timer.handle) then Gone(t, timer.will.serial)
            else Waits(t, timer)
  {
    hide Step, Good, Gone, IsPublished, Filed;
    if Quiet(a) {
      GoodFacts(s);
      QuietHolds(cfg, s, a, "");
    } else {
      NoisyFate(cfg, s, a, timer);
    }
  }

  lemma NoisyFate(cfg: Config, s: State, a: Action, timer: Timer)
    requires Good(s) && Waits(s, timer) && !Quiet(a)
    ensures var t := Step(cfg, s, a);
            if Fires(a, timer) then IsPublished(t.wills, timer.will.serial)
            else if Stops(s, a, timer.handle) then Gone(t, timer.will.serial)
            else Waits(t, timer)
  {
    hide Good, Held, CancelWills, Close, Crash, FireTimer, Disconnect, Gone, IsPublished;
    match a {
      case DisconnectAction(d, graceful, now) =>
        if d in s.active {
          DisconnectFate(s, d, graceful, now, timer);
        } else {
          NotActive(s, d, graceful, now);
        }
      case FireAction(handle, now) =>
        GoodFacts(s);
        FireFate(s.wills, handle, now, timer);
      case CancelAction(c) => CancelFate(s, c, timer);
      case CloseAction => CloseFate(s, timer);
      case CrashAction => CrashFate(s, timer);
      case SetWillAction(_, _, _, _, _, _) =>
    }
  }

  lemma GoodFacts(s: State)
    requires Good(s)
    ensures Durable(s) && Consistent(s.wills)
  {
  }

  lemma CancelFate(s: State, c: string, timer: Timer)
    requires Good(s) && Waits(s, timer)
    ensures var t := s.(wills := CancelWills(s.wills, c));
            if Stops(s, CancelAction(c), timer.handle) then Gone(t, timer.will.serial) else Waits(t, timer)
  {
    var t := s.(wills := CancelWills(s.wills, c));
    SameHolds(s, t);
    hide Held, CancelWills, Durable;
    if Stops(s, CancelAction(c), timer.handle) {
      CancelStops(s.wills, c, timer);
      StoppedIsGone(s, t, timer);
    } else {
      CancelSkips(s.wills, c, timer.handle);
    }
  }

  lemma CloseFate(s: State, timer: Timer)
    requires Good(s) && Waits(s, timer)
    ensures var t := Close(s);
            if Stops(s, CloseAction, timer.handle) then Gone(t, timer.will.serial) else Waits(t, timer)
  {
    var t := Close(s);
    forall c ensures Held(t, c) <= Held(s, c) { CloseHolds(s, c); }
    CloseStops(s.wills, timer);
    hide Held, CloseWills, Durable;
    if Stops(s, CloseAction, timer.handle) {
      StoppedIsGone(s, t, timer);
    }
  }

  lemma CrashFate(s: State, timer: Timer)
    requires Good(s) && Waits(s, timer)
    ensures Gone(Crash(s), timer.will.serial)
  {
    forall c ensures Held(Crash(s), c) <= Held(s, c) { CrashHolds(s, c); }
    hide Held, Durable;
    StoppedIsGone(s, Crash(s), timer);
  }

  lemma NotActive(s: State, d: string, graceful: bool, now: int)
    requires d !in s.active
    ensures Disconnect(s, d, graceful, now) == s
  {
  }

  lemma SameHolds(s: State, t: State)
    requires t.active == s.active && t.store == s.store
    ensures forall c :: Held(t, c) <= Held(s, c)
  {
  }

  lemma CrashHolds(s: State, c: string)
    ensures Held(Crash(s), c) <= Held(s, c)
  {
  }

  /** A will that is gone stays gone. */
  lemma GoneStays(cfg: Config, s: State, a: Action, x: nat)
    requires Good(s) && Gone(s, x)
    ensures Gone(Step(cfg, s, a), x)
  {
    var t := Step(cfg, s, a);
    if Quiet(a) {
      forall c ensures Held(t, c) <= Held(s, c) { QuietHolds(cfg, s, a, c); }
      QuietHolds(cfg, s, a, "");
      hide Step, Held;
    } else {
      match a {
        case DisconnectAction(d, graceful, now) =>
          if d in s.active {
            GoneAfterDisconnect(s, d, graceful, now, x);
          }
        case FireAction(handle, now) =>
          SameHolds(s, t);
          GoneAfterFire(s.wills, handle, now, x);
          hide Held, FireTimer;
        case CancelAction(c) =>
          SameHolds(s, t);
          CancelDisarms(s.wills, c);
          hide Held, CancelWills;
        case CloseAction =>
          forall c ensures Held(t, c) <= Held(s, c) { CloseHolds(s, c); }
          hide Held;
        case CrashAction =>
          forall c ensures Held(t, c) <= Held(s, c) { CrashHolds(s, c); }
          hide Held;
        case SetWillAction(d, topic, payload, qos, retain, delay) =>
          SetWillHolds(s, d, topic, payload, qos, retain, delay);
          hide Held;
      }
    }
  }

  lemma SetWillHolds(s: State, d: string, topic: string, payload: Bytes, qos: nat, retain: bool, delay: int)
    ensures var t := SetWill(s, d, topic, payload, qos, retain, delay);
            t.wills == s.wills && s.nextWill <= t.nextWill && forall c :: Held(t, c) <= Held(s, c) + {s.nextWill}
  {
  }

  lemma GoneAfterFire(w: WillState, handle: nat, now: int, x: nat)
    requires !IsArmed(w, x) && !IsPublished(w, x)
    ensures !IsArmed(FireTimer(w, handle, now), x) && !IsPublished(FireTimer(w, handle, now), x)
  {
  }

  lemma GoneAfterDisconnect(s: State, d: string, graceful: bool, now: int, x: nat)
    requires Good(s) && Gone(s, x) && d in s.active
    ensures Gone(Disconnect(s, d, graceful, now), x)
  {
    var t := Disconnect(s, d, graceful, now);
    DisconnectIs(s, d, graceful, now);
    forall c ensures Held(t, c) <= Held(s, c) { DisconnectDrops(s, d, graceful, now, c); }
    assert s.active[d].will.Some? ==> s.active[d].will.value.serial in Held(s, d);
    assert t.nextWill == s.nextWill;
    CancelDisarms(s.wills, d);
    hide Disconnect, Held, CancelWills;
  }

  // ----- Over whole continuations -----

  /** Call j of the continuation stops the timer, which was still waiting. */
  ghost predicate StopsAt(cfg: Config, s: State, more: seq<Action>, j: nat, timer: Timer)
    requires j < |more|
  {
    var r := RunFrom(cfg, s, more[..j]);
    Waits(r, timer) && Stops(r, more[j], timer.handle)
  }

  ghost predicate Stopped(cfg: Config, s: State, more: seq<Action>, timer: Timer) {
    exists j :: 0 <= j < |more| && StopsAt(cfg, s, more, j, timer)
  }

  /** The timer goes off, due, before any call stops it. */
  ghost predicate FiresUnstopped(cfg: Config, s: State, more: seq<Action>, timer: Timer) {
    exists i :: 0 <= i < |more| && Fires(more[i], timer) && !Stopped(cfg, s, more[..i], timer)
  }

  lemma StoppedGrows(cfg: Config, s: State, more: seq<Action>, timer: Timer)
    requires more != []
    ensures var k := |more| - 1;
            Stopped(cfg, s, more, timer) <==> Stopped(cfg, s, more[..k], timer) || StopsAt(cfg, s, more, k, timer)
  {
    var k := |more| - 1;
    var front := more[..k];
    hide Waits, Stops, RunFrom;
    forall j | 0 <= j < k ensures StopsAt(cfg, s, more, j, timer) <==> StopsAt(cfg, s, front, j, timer) {
      assert front[..j] == more[..j];
    }
  }

  lemma FiresGrows(cfg: Config, s: State, more: seq<Action>, timer: Timer)
    requires more != []
    ensures var k := |more| - 1;
            FiresUnstopped(cfg, s, more, timer)
            <==> FiresUnstopped(cfg, s, more[..k], timer)
                 || (Fires(more[k], timer) && !Stopped(cfg, s, more[..k], timer))
  {
    var k := |more| - 1;
    var front := more[..k];
    hide Fires, Stopped;
    forall i | 0 <= i < k ensures front[..i] == more[..i] && front[i] == more[i] {
    }
    if FiresUnstopped(cfg, s, front, timer) {
      var i :| 0 <= i < |front| && Fires(front[i], timer) && !Stopped(cfg, s, front[..i], timer);
      assert Fires(more[i], timer) && !Stopped(cfg, s, more[..i], timer);
    }
  }

  lemma {:induction false} Fate(cfg: Config, s: State, more: seq<Action>, timer: Timer)
    requires Good(s) && Waits(s, timer)
    ensures var u := RunFrom(cfg, s, more);
            && Good(u)
            && (FiresUnstopped(cfg, s, more, timer) ==> IsPublished(u.wills, timer.will.serial))
            && (!FiresUnstopped(cfg, s, more, timer) && Stopped(cfg, s, more, timer) ==> Gone(u, timer.will.serial))
            && (!FiresUnstopped(cfg, s, more, timer) && !Stopped(cfg, s, more, timer) ==> Waits(u, timer))
  {
    if more != [] {
      var k := |more| - 1;
      var front, a, x := more[..k], more[k], timer.will.serial;
      Fate(cfg, s, front, timer);
      FiresGrows(cfg, s, more, timer);
      StoppedGrows(cfg, s, more, timer);
      var r := RunFrom(cfg, s, front);
      StepKeepsGood(cfg, r, a);
      assert StopsAt(cfg, s, more, k, timer) <==> Waits(r, timer) && Stops(r, a, timer.handle);
      PublishedStays(cfg, r, a, x);
      hide Step, Good, Gone, Fires, Stops, FiresUnstopped, Stopped, StopsAt, IsPublished, Waits;
      if FiresUnstopped(cfg, s, front, timer) {
      } else if Stopped(cfg, s, front, timer) {
        GoneStays(cfg, r, a, x);
        GoneIsNotWaiting(r, timer);
      } else {
        StepFate(cfg, r, a, timer);
      }
    }
  }

  lemma GoneIsNotWaiting(s: State, timer: Timer)
    requires Gone(s, timer.will.serial)
    ensures !Waits(s, timer)
  {
    assert !IsArmed(s.wills, timer.will.serial);
  }

  lemma PublishedStays(cfg: Config, s: State, a: Action, x: nat)
    ensures IsPublished(s.wills, x) ==> IsPublished(Step(cfg, s, a).wills, x)
  {
    PublishedGrows(cfg, s, a);
    hide Step;
    if IsPublished(s.wills, x) {
      var i :| 0 <= i < |s.wills.published| && s.wills.published[i].will.serial == x;
      assert Step(cfg, s, a).wills.published[i].will.serial == x;
    }
  }

  /**
   What becomes of a delayed will.  From any good state, in any continuation, it is published exactly once if its timer
   goes off before a call stops it, and otherwise not at all.
   */
  lemma DelayedWillFate(cfg: Config, s: State, more: seq<Action>, timer: Timer)
    requires Good(s) && Waits(s, timer)
    ensures TimesPublished(RunFrom(cfg, s, more).wills.published, timer.will.serial)
            == if FiresUnstopped(cfg, s, more, timer) then 1 else 0
  {
    var u := RunFrom(cfg, s, more);
    Fate(cfg, s, more, timer);
    DistinctMeansAtMostOnce(u.wills.published, timer.will.serial);
    hide FiresUnstopped, Stopped, RunFrom;
    if Waits(u, timer) {
      ArmedIsNotHeld(u, timer, "");
    }
  }

  /** The timer that an ungraceful disconnect with a delayed will makes. */
  function TimerOf(s: State, c: string, now: int): Timer
    requires c in s.active && s.active[c].will.Some?
  {
    var will := s.active[c].will.value;
    Timer(TimerID(c, now), s.wills.nextHandle, will, c, now + will.delayInterval)
  }

  /**
   Exactly once, for delayed wills: after any run, a client with a delayed will disconnects ungracefully; then, in any
   continuation, the will reaches the publisher once if its timer goes off before it is stopped, and else never.
   */
  lemma DelayedWillExactlyOnce(cfg: Config, actions: seq<Action>, c: string, now: int, more: seq<Action>)
    requires c in Run(cfg, actions).active && Run(cfg, actions).active[c].will.Some?
    requires Run(cfg, actions).active[c].will.value.delayInterval > 0
    ensures var s := Run(cfg, actions); var timer := TimerOf(s, c, now); var drop := DisconnectAction(c, false, now);
            && Waits(Run(cfg, actions + [drop]), timer)
            && TimesPublished(Run(cfg, actions + [drop] + more).wills.published, timer.will.serial)
               == if FiresUnstopped(cfg, Run(cfg, actions + [drop]), more, timer) then 1 else 0
  {
    var s, drop := Run(cfg, actions), DisconnectAction(c, false, now);
    RunAppend(cfg, INIT, actions, drop);
    DisconnectIs(s, c, false, now);
    RunIsGood(cfg, actions + [drop]);
    RunConcat(cfg, INIT, actions + [drop], more);
    assert Waits(Run(cfg, actions + [drop]), TimerOf(s, c, now));
    hide Step, RunFrom, Good, FiresUnstopped, Waits;
    DelayedWillFate(cfg, Run(cfg, actions + [drop]), more, TimerOf(s, c, now));
  }

  /** A graceful disconnect or a cancel of the client, a close, or the loss of the process. */
  predicate MayStop(a: Action, c: string) {
    a.CrashAction? || a.CloseAction? || a == CancelAction(c) || (a.DisconnectAction? && a.clientID == c && a.graceful)
  }

  /**
   Nothing else stops a delayed will: not a reconnect of its client, clean or not, although section 3.1.3.2.2 of
   MQTT 5.0 says the server must not send it when the client is back in time; not even the session's expiry.
   */
  lemma ReconnectDoesNotCancel(cfg: Config, s: State, more: seq<Action>, timer: Timer)
    requires Good(s) && Waits(s, timer)
    requires forall i :: 0 <= i < |more| ==> !MayStop(more[i], timer.clientID)
    ensures TimesPublished(RunFrom(cfg, s, more).wills.published, timer.will.serial)
            == if exists i :: 0 <= i < |more| && Fires(more[i], timer) then 1 else 0
  {
    DelayedWillFate(cfg, s, more, timer);
    forall i | 0 <= i <= |more| ensures !Stopped(cfg, s, more[..i], timer) {
      forall j | 0 <= j < i ensures !StopsAt(cfg, s, more[..i], j, timer) {
        assert !MayStop(more[j], timer.clientID) && more[..i][j] == more[j];
      }
    }
    hide Stopped, RunFrom;
    if exists i :: 0 <= i < |more| && Fires(more[i], timer) {
      var i :| 0 <= i < |more| && Fires(more[i], timer);
      assert !Stopped(cfg, s, more[..i], timer);
    }
  }
}
