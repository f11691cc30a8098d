/**
 The statistics of pkg/blacklist/manager.go: counts of entries by action, and recorded blocks.
 */
module BlacklistStats {
  import opened Common
  import B = Blacklist

  // ----- Entries by action -----

  ghost function OfReaction(entries: map<string, B.Entry>, r: B.Reaction): set<string> {
    set id <- entries | entries[id].reaction == r
  }

  ghost predicate ReactionCountsExact(s: B.State) {
    forall r: B.Reaction :: B.ReactionCountOf(s, r) == |OfReaction(s.entries, r)|
  }

  /** A successful update that gives an entry another action; the code does not adjust the counts for it. */
  predicate ChangesReaction(lib: B.Library, s: B.State, c: B.Call) {
    c.UpdateCall? && B.UpdateError(lib, s, c.id, c.updates).None?
    && B.Updated(s.entries[c.id], c.updates, c.now).reaction != s.entries[c.id].reaction
  }

  lemma ReactionInsert(m: map<string, B.Entry>, e: B.Entry, r: B.Reaction)
    requires e.id !in m
    ensures |OfReaction(m[e.id := e], r)| == |OfReaction(m, r)| + if r == e.reaction then 1 else 0
  {
    var a, b := OfReaction(m[e.id := e], r), OfReaction(m, r);
    assert a == if r == e.reaction then b + {e.id} else b;
  }

  lemma InsertExact(s: B.State, t: B.State, e: B.Entry)
    requires ReactionCountsExact(s) && e.id !in s.entries && t.entries == s.entries[e.id := e]
    requires t.byReaction == s.byReaction[e.reaction := B.ReactionCountOf(s, e.reaction) + 1]
    ensures ReactionCountsExact(t)
  {
    forall r: B.Reaction ensures B.ReactionCountOf(t, r) == |OfReaction(t.entries, r)| { ReactionInsert(s.entries, e, r); }
  }

  lemma DeleteExact(s: B.State, t: B.State, e: B.Entry)
    requires ReactionCountsExact(s) && e.id in s.entries && s.entries[e.id] == e && t.entries == s.entries - {e.id}
    requires t.byReaction == s.byReaction[e.reaction := B.ReactionCountOf(s, e.reaction) - 1]
    ensures ReactionCountsExact(t)
  {
    assert t.entries[e.id := e] == s.entries;
    forall r: B.Reaction ensures B.ReactionCountOf(t, r) == |OfReaction(t.entries, r)| { ReactionInsert(t.entries, e, r); }
  }

  lemma ReplaceExactIff(s: B.State, t: B.State, e: B.Entry)
    requires ReactionCountsExact(s) && e.id in s.entries && t.entries == s.entries[e.id := e] && t.byReaction == s.byReaction
    ensures ReactionCountsExact(t) <==> e.reaction == s.entries[e.id].reaction
  {
    var r := s.entries[e.id].reaction;
    if e.reaction == r {
      forall q: B.Reaction ensures OfReaction(t.entries, q) == OfReaction(s.entries, q) {
      }
    } else {
      assert OfReaction(t.entries, r) == OfReaction(s.entries, r) - {e.id};
      assert B.ReactionCountOf(t, r) == |OfReaction(s.entries, r)| != |OfReaction(t.entries, r)|;
    }
  }

  lemma IndexLeavesCounts(s: B.State, e: B.Entry)
    ensures B.AddToIndex(s, e).byReaction == s.byReaction && B.RemoveFromIndex(s, e).byReaction == s.byReaction
  {
  }

  lemma AddExact(lib: B.Library, s: B.State, e: B.Entry, now: int)
    requires ReactionCountsExact(s)
    ensures ReactionCountsExact(B.Add(lib, s, e, now))
  {
    if B.AddError(lib, s, e).None? {
      var n := B.Stamped(e, now);
      B.AddShape(lib, s, e, now);
      IndexLeavesCounts(s.(entries := s.entries[e.id := n]), n);
      hide B.AddToIndex;
      InsertExact(s, B.Add(lib, s, e, now), n);
    }
  }

  lemma RemoveExact(s: B.State, id: string)
    requires ReactionCountsExact(s) && B.IndexSound(s)
    ensures ReactionCountsExact(B.Remove(s, id))
  {
    if id in s.entries {
      var e := s.entries[id];
      B.SoundEntry(s, id);
      B.RemoveShape(s, id);
      IndexLeavesCounts(s.(entries := s.entries - {id}), e);
      hide B.RemoveFromIndex, B.IndexSound;
      DeleteExact(s, B.Remove(s, id), e);
    }
  }

  lemma {:induction false} RemoveAllExact(s: B.State, ids: seq<string>)
    requires ReactionCountsExact(s) && B.IndexSound(s)
    ensures ReactionCountsExact(B.RemoveAll(s, ids)) && B.IndexSound(B.RemoveAll(s, ids))
  {
    if ids != [] {
      var front, last := ids[..|ids| - 1], ids[|ids| - 1];
      RemoveAllExact(s, front);
      hide B.IndexSound, ReactionCountsExact, B.Remove;
      RemoveExact(B.RemoveAll(s, front), last);
      B.RemoveKeepsSound(B.RemoveAll(s, front), last);
    }
  }

  lemma UpdateExactIff(lib: B.Library, s: B.State, id: string, u: B.Entry, now: int)
    requires ReactionCountsExact(s) && B.IndexSound(s)
    ensures ReactionCountsExact(B.Update(lib, s, id, u, now)) <==> !ChangesReaction(lib, s, B.UpdateCall(id, u, now))
  {
    if id in s.entries {
      var e := s.entries[id];
      var n := if B.UpdateError(lib, s, id, u).None? then B.Updated(e, u, now) else B.HalfUpdated(e, u);
      B.SoundEntry(s, id);
      B.UpdateShape(lib, s, id, u, now);
      UpdateLeavesCounts(lib, s, id, u, now);
      assert n.id == id && (B.UpdateError(lib, s, id, u).Some? ==> n.reaction == e.reaction);
      hide B.Update, B.IndexSound;
      ReplaceExactIff(s, B.Update(lib, s, id, u, now), n);
    }
  }

  lemma UpdateLeavesCounts(lib: B.Library, s: B.State, id: string, u: B.Entry, now: int)
    requires id in s.entries
    ensures B.Update(lib, s, id, u, now).byReaction == s.byReaction
  {
    var e := s.entries[id];
    var n := B.Updated(e, u, now);
    IndexLeavesCounts(s, e);
    IndexLeavesCounts(B.RemoveFromIndex(s, e).(entries := s.entries[id := n]), n);
    hide B.AddToIndex, B.RemoveFromIndex, B.Updated, B.HalfUpdated;
  }

  /** From exact counts by action, a call keeps them exact if and only if it does not change the action of an entry. */
  lemma ReactionCountsStepIff(lib: B.Library, s: B.State, c: B.Call)
    requires ReactionCountsExact(s) && B.IndexSound(s)
    ensures ReactionCountsExact(B.Step(lib, s, c)) <==> !ChangesReaction(lib, s, c)
  {
    hide ReactionCountsExact, B.IndexSound, B.Add, B.Update, B.Remove, B.RemoveAll, B.ListsExpired;
    match c {
      case AddCall(e, now) => AddExact(lib, s, e, now);
      case UpdateCall(id, u, now) => UpdateExactIff(lib, s, id, u, now);
      case RemoveCall(id) => RemoveExact(s, id);
      case CleanupCall(order, now) => RemoveAllExact(s, order);
    }
  }

  ghost predicate KeepsReactions(lib: B.Library, calls: seq<B.Call>) {
    forall i :: 0 <= i < |calls| ==> !ChangesReaction(lib, B.Run(lib, calls[..i]), calls[i])
  }

  /** The counts by action are exact after every run that changes no action, and the first change ends that. */
  lemma {:induction false} ReactionCountsOfRuns(lib: B.Library, calls: seq<B.Call>, c: B.Call)
    requires KeepsReactions(lib, calls)
    ensures ReactionCountsExact(B.Run(lib, calls))
    ensures ReactionCountsExact(B.Step(lib, B.Run(lib, calls), c)) <==> !ChangesReaction(lib, B.Run(lib, calls), c)
  {
    if calls == [] {
      assert forall r: B.Reaction :: OfReaction(B.INIT.entries, r) == {};
    } else {
      var k := |calls| - 1;
      var front := calls[..k];
      forall i | 0 <= i < |front| ensures !ChangesReaction(lib, B.Run(lib, front[..i]), front[i]) {
        assert front[..i] == calls[..i] && !ChangesReaction(lib, B.Run(lib, calls[..i]), calls[i]);
      }
      assert !ChangesReaction(lib, B.Run(lib, front), calls[k]);
      hide B.Step, ChangesReaction, ReactionCountsExact;
      ReactionCountsOfRuns(lib, front, calls[k]);
    }
    B.RunIsSound(lib, calls);
    ReactionCountsStepIff(lib, B.Run(lib, calls), c);
  }

  // ----- Recorded blocks -----

  /** A check that hits, or a recording goroutine that gets the lock, in whatever order the scheduler likes. */
  datatype Event = Refuse(block: B.Block) | Record(block: B.Block)

  function Step(s: B.BlockStats, e: Event): B.BlockStats {
    match e
    case Refuse(b) => B.Refused(s, Some(b))
    case Record(b) => if b in s.pending then B.Recorded(s, b) else s
  }

  function Run(events: seq<Event>): B.BlockStats {
    if events == [] then B.NO_BLOCKS else Step(Run(events[..|events| - 1]), events[|events| - 1])
  }

  function Refusals(events: seq<Event>): seq<B.Block> {
    if events == [] then []
    else
      var e := events[|events| - 1];
      Refusals(events[..|events| - 1]) + if e.Refuse? then [e.block] else []
  }

  /** The recorded blocks, in the order they were recorded. */
  function Records(events: seq<Event>): seq<B.Block> {
    if events == [] then []
    else
      var front, e := events[..|events| - 1], events[|events| - 1];
      Records(front) + if e.Record? && e.block in Run(front).pending then [e.block] else []
  }

  function CountKind(bs: seq<B.Block>, k: B.Kind): nat {
    if bs == [] then 0 else CountKind(bs[..|bs| - 1], k) + if bs[|bs| - 1].kind == k then 1 else 0
  }

  /** The statistics are those of the blocks recorded so far. */
  ghost predicate Describes(s: B.BlockStats, records: seq<B.Block>) {
    && s.total == |records| && s.recent == Last(records, B.MAX_RECENT)
    && forall k: B.Kind :: B.BlockCountOf(s, k) == CountKind(records, k)
  }

  lemma RecordDescribes(s: B.BlockStats, records: seq<B.Block>, b: B.Block)
    requires Describes(s, records)
    ensures Describes(B.Recorded(s, b), records + [b])
  {
    LastOfAppend(records, b, B.MAX_RECENT);
    assert (records + [b])[..|records|] == records;
  }

  /**
   Over every interleaving of checks and recordings: totals, counts by type and the list of the last hundred are those of
   the blocks recorded so far, and every refusal is recorded or pending, exactly once.
   */
  lemma {:induction false} BlocksAreConserved(events: seq<Event>)
    ensures Describes(Run(events), Records(events))
    ensures multiset(Records(events)) + Run(events).pending == multiset(Refusals(events))
    ensures |Records(events)| + |Run(events).pending| == |Refusals(events)|
  {
    hide *;
    if events == [] {
      NoEvents();
    } else {
      var front, e := events[..|events| - 1], events[|events| - 1];
      BlocksAreConserved(front);
      LastEvent(events);
      NextDescribes(Run(front), e, Records(front));
      EventConserves(Run(front), e, Records(front), Refusals(front));
    }
    assert |multiset(Records(events))| == |Records(events)| && |multiset(Refusals(events))| == |Refusals(events)|;
  }

  lemma NoEvents()
    ensures Run([]) == B.NO_BLOCKS && Records([]) == [] && Refusals([]) == []
    ensures Describes(Run([]), []) && Run([]).pending == multiset{}
  {
  }

  function NextRecords(s: B.BlockStats, e: Event, records: seq<B.Block>): seq<B.Block> {
    if e.Record? && e.block in s.pending then records + [e.block] else records
  }

  function NextRefusals(e: Event, refusals: seq<B.Block>): seq<B.Block> {
    if e.Refuse? then refusals + [e.block] else refusals
  }

  lemma LastEvent(events: seq<Event>)
    requires events != []
    ensures var front, e := events[..|events| - 1], events[|events| - 1];
            && Run(events) == Step(Run(front), e)
            && Refusals(events) == NextRefusals(e, Refusals(front))
            && Records(events) == NextRecords(Run(front), e, Records(front))
  {
    hide Step;
  }

  lemma NextDescribes(s: B.BlockStats, e: Event, records: seq<B.Block>)
    requires Describes(s, records)
    ensures Describes(Step(s, e), NextRecords(s, e, records))
  {
    if e.Record? && e.block in s.pending {
      RecordDescribes(s, records, e.block);
      hide B.Recorded, Describes;
    }
  }

  lemma EventConserves(s: B.BlockStats, e: Event, records: seq<B.Block>, refusals: seq<B.Block>)
    requires multiset(records) + s.pending == multiset(refusals)
    ensures multiset(NextRecords(s, e, records)) + Step(s, e).pending == multiset(NextRefusals(e, refusals))
  {
  }
}
