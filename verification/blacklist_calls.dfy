/**
 The blacklist read off its calls: pkg/blacklist/manager.go.

 Which entries exist and what each of their fields holds is computed from the list of calls alone, as the last call that
 gave it, and compared with the table.  The checks are then stated in those terms: what an update switches on or off.
 */
module BlacklistCalls {
  import opened Common
  import opened Blacklist
  import Topics

  // ----- Which calls count -----

  predicate WellFormed(e: Entry) {
    && e.id != "" && e.kind in {ClientID, Username, IPAddress, Topic} && e.reaction in {Deny, Disconnect, Log}
    && !(e.value == "" && e.pattern == "")
  }

  /** No pattern, or one that compiles. */
  predicate Compiles(lib: Library, e: Entry) {
    e.pattern == "" || lib.compiles(e.pattern)
  }

  /** What an add or an update gives. */
  function Payload(c: Call): Entry
    requires c.AddCall? || c.UpdateCall?
  {
    if c.AddCall? then c.entry else c.updates
  }

  /** The call is an add or an update of this entry. */
  predicate TouchesEntry(c: Call, id: string) {
    (c.AddCall? && c.entry.id == id) || (c.UpdateCall? && c.id == id)
  }

  /** The call adds the entry: there is none with that ID, and it is well formed. */
  ghost predicate Adds(lib: Library, before: seq<Call>, c: Call, id: string)
    decreases |before|, 1
  {
    && c.AddCall? && c.entry.id == id && WellFormed(c.entry) && Compiles(lib, c.entry)
    && !Present(lib, before, id)
  }

  /** The call finds the entry it is to update; whether its pattern compiles is seen too late. */
  ghost predicate Finds(lib: Library, before: seq<Call>, c: Call, id: string)
    decreases |before|, 1
  {
    c.UpdateCall? && c.id == id && Present(lib, before, id)
  }

  /** An add or an update that reports no error. */
  ghost predicate Takes(lib: Library, before: seq<Call>, c: Call, id: string): (r: bool)
    ensures r ==> TouchesEntry(c, id)
    decreases |before|, 2
  {
    Adds(lib, before, c, id) || (Finds(lib, before, c, id) && Compiles(lib, c.updates))
  }

  /** The walk of a cleanup: every entry that is past its expiry, once. */
  ghost predicate Walks(lib: Library, before: seq<Call>, order: seq<string>, now: int)
    decreases |before|, 1
  {
    && (forall i, j :: 0 <= i < j < |order| ==> order[i] != order[j])
    && forall id :: id in order <==> Present(lib, before, id) && Lapsed(ExpiryGiven(lib, before, id), now)
  }

  predicate Lapsed(expiry: Option<int>, now: int) {
    expiry.Some? && now > expiry.value
  }

  /** The entry was added and since then neither removed nor cleaned up. */
  ghost predicate Present(lib: Library, calls: seq<Call>, id: string)
    decreases |calls|, 0
  {
    if calls == [] then false
    else
      var front, c := calls[..|calls| - 1], calls[|calls| - 1];
      Adds(lib, front, c, id) || (Present(lib, front, id) && !Drops(lib, front, c, id))
  }

  /** The call removes the entry, or is a cleanup that comes across it. */
  ghost predicate Drops(lib: Library, before: seq<Call>, c: Call, id: string)
    decreases |before|, 2
  {
    || (c.RemoveCall? && c.id == id)
    || (c.CleanupCall? && id in c.order && Walks(lib, before, c.order, c.now))
  }

  // ----- The last call that gave a field -----

  ghost function EnabledGiven(lib: Library, calls: seq<Call>, id: string): bool
    decreases |calls|, 0
  {
    if calls == [] then false
    else
      var front, c := calls[..|calls| - 1], calls[|calls| - 1];
      if Takes(lib, front, c, id) then Payload(c).enabled else EnabledGiven(lib, front, id)
  }

  ghost function ExpiryGiven(lib: Library, calls: seq<Call>, id: string): Option<int>
    decreases |calls|, 0
  {
    if calls == [] then None
    else
      var front, c := calls[..|calls| - 1], calls[|calls| - 1];
      if Takes(lib, front, c, id) && (c.AddCall? || Payload(c).expiresAt.Some?) then Payload(c).expiresAt
      else ExpiryGiven(lib, front, id)
  }

  ghost function ReactionGiven(lib: Library, calls: seq<Call>, id: string): Reaction {
    if calls == [] then Deny
    else
      var front, c := calls[..|calls| - 1], calls[|calls| - 1];
      if Takes(lib, front, c, id) && (c.AddCall? || Payload(c).reaction != OtherReaction("")) then Payload(c).reaction
      else ReactionGiven(lib, front, id)
  }

  ghost function ReasonGiven(lib: Library, calls: seq<Call>, id: string): string {
    if calls == [] then ""
    else
      var front, c := calls[..|calls| - 1], calls[|calls| - 1];
      if Takes(lib, front, c, id) && (c.AddCall? || Payload(c).reason != "") then Payload(c).reason
      else ReasonGiven(lib, front, id)
  }

  ghost function DescriptionGiven(lib: Library, calls: seq<Call>, id: string): string {
    if calls == [] then ""
    else
      var front, c := calls[..|calls| - 1], calls[|calls| - 1];
      if Takes(lib, front, c, id) && (c.AddCall? || Payload(c).description != "") then Payload(c).description
      else DescriptionGiven(lib, front, id)
  }

  /** An update that fails on its pattern has changed value and pattern by then. */
  ghost function ValueGiven(lib: Library, calls: seq<Call>, id: string): string {
    if calls == [] then ""
    else
      var front, c := calls[..|calls| - 1], calls[|calls| - 1];
      if Adds(lib, front, c, id) || (Finds(lib, front, c, id) && c.updates.value != "") then Payload(c).value
      else ValueGiven(lib, front, id)
  }

  ghost function PatternGiven(lib: Library, calls: seq<Call>, id: string): string {
    if calls == [] then ""
    else
      var front, c := calls[..|calls| - 1], calls[|calls| - 1];
      if Adds(lib, front, c, id) || (Finds(lib, front, c, id) && c.updates.pattern != "") then Payload(c).pattern
      else PatternGiven(lib, front, id)
  }

  /** The pattern that is matched against: the last one that compiled. */
  ghost function CompiledGiven(lib: Library, calls: seq<Call>, id: string): Option<string> {
    if calls == [] then None
    else
      var front, c := calls[..|calls| - 1], calls[|calls| - 1];
      if Takes(lib, front, c, id) && Payload(c).pattern != "" then Some(Payload(c).pattern)
      else if Adds(lib, front, c, id) then c.entry.compiled
      else CompiledGiven(lib, front, id)
  }

  ghost function KindGiven(lib: Library, calls: seq<Call>, id: string): Kind {
    if calls == [] then ClientID
    else
      var front, c := calls[..|calls| - 1], calls[|calls| - 1];
      if Adds(lib, front, c, id) then c.entry.kind else KindGiven(lib, front, id)
  }

  ghost function CreatedAt(lib: Library, calls: seq<Call>, id: string): int {
    if calls == [] then 0
    else
      var front, c := calls[..|calls| - 1], calls[|calls| - 1];
      if Adds(lib, front, c, id) then c.now else CreatedAt(lib, front, id)
  }

  ghost function UpdatedAt(lib: Library, calls: seq<Call>, id: string): int {
    if calls == [] then 0
    else
      var front, c := calls[..|calls| - 1], calls[|calls| - 1];
      if Takes(lib, front, c, id) then c.now else UpdatedAt(lib, front, id)
  }

  // ----- The table against the calls -----

  /** Every field of the stored entry is the one last given. */
  ghost predicate AsGiven(lib: Library, calls: seq<Call>, id: string, e: Entry) {
    && e.id == id && e.kind == KindGiven(lib, calls, id)
    && e.value == ValueGiven(lib, calls, id) && e.pattern == PatternGiven(lib, calls, id)
    && e.compiled == CompiledGiven(lib, calls, id)
    && e.reaction == ReactionGiven(lib, calls, id) && e.reason == ReasonGiven(lib, calls, id)
    && e.description == DescriptionGiven(lib, calls, id)
    && e.createdAt == CreatedAt(lib, calls, id) && e.updatedAt == UpdatedAt(lib, calls, id)
    && e.expiresAt == ExpiryGiven(lib, calls, id) && e.enabled == EnabledGiven(lib, calls, id)
  }

  ghost predicate StoredAsGiven(lib: Library, calls: seq<Call>, entries: map<string, Entry>, id: string) {
    && (id in entries <==> Present(lib, calls, id))
    && (id in entries ==> AsGiven(lib, calls, id, entries[id]))
  }

  /** The last call is neither an add nor an update of this entry. */
  lemma OtherCall(lib: Library, front: seq<Call>, c: Call, id: string, e: Entry)
    requires AsGiven(lib, front, id, e)
    requires !Adds(lib, front, c, id) && !Finds(lib, front, c, id)
    ensures AsGiven(lib, front + [c], id, e)
  {
    assert (front + [c])[..|front|] == front;
    hide Present;
  }

  lemma PresentAfter(lib: Library, front: seq<Call>, c: Call, id: string)
    ensures Present(lib, front + [c], id)
            <==> Adds(lib, front, c, id) || (Present(lib, front, id) && !Drops(lib, front, c, id))
  {
    assert (front + [c])[..|front|] == front;
    hide Walks, Adds, Drops;
  }

  lemma AddedEntry(lib: Library, front: seq<Call>, c: Call, id: string)
    requires Adds(lib, front, c, id)
    ensures AsGiven(lib, front + [c], id, Stamped(c.entry, c.now))
  {
    assert (front + [c])[..|front|] == front;
    hide Present;
  }

  lemma UpdatedEntry(lib: Library, front: seq<Call>, c: Call, id: string, e: Entry)
    requires Finds(lib, front, c, id) && AsGiven(lib, front, id, e)
    ensures Compiles(lib, c.updates) ==> AsGiven(lib, front + [c], id, Updated(e, c.updates, c.now))
    ensures !Compiles(lib, c.updates) ==> AsGiven(lib, front + [c], id, HalfUpdated(e, c.updates))
  {
    assert (front + [c])[..|front|] == front;
    hide Present;
  }

  lemma AddErrorIff(lib: Library, s: State, e: Entry)
    ensures AddError(lib, s, e).None? <==> WellFormed(e) && Compiles(lib, e) && e.id !in s.entries
  {
  }

  lemma AddAsGiven(lib: Library, front: seq<Call>, s: State, e: Entry, now: int, id: string)
    requires StoredAsGiven(lib, front, s.entries, id)
    ensures StoredAsGiven(lib, front + [AddCall(e, now)], Add(lib, s, e, now).entries, id)
  {
    var c := AddCall(e, now);
    hide AsGiven, Present, AddError, Stamped, Add, WellFormed, Compiles;
    AddErrorIff(lib, s, e);
    AddEntries(lib, s, e, now);
    PresentAfter(lib, front, c, id);
    if e.id == id && AddError(lib, s, e).None? {
      AddedEntry(lib, front, c, id);
    } else if id in s.entries {
      OtherCall(lib, front, c, id, s.entries[id]);
    }
  }

  lemma AddEntries(lib: Library, s: State, e: Entry, now: int)
    ensures Add(lib, s, e, now).entries
            == if AddError(lib, s, e).None? then s.entries[e.id := Stamped(e, now)] else s.entries
  {
    hide AddError;
    if AddError(lib, s, e).None? {
      AddShape(lib, s, e, now);
    }
  }

  lemma UpdateAsGiven(lib: Library, front: seq<Call>, s: State, x: string, u: Entry, now: int, id: string)
    requires StoredAsGiven(lib, front, s.entries, id)
    ensures StoredAsGiven(lib, front + [UpdateCall(x, u, now)], Update(lib, s, x, u, now).entries, id)
  {
    var c := UpdateCall(x, u, now);
    hide AsGiven, Present, Updated, HalfUpdated;
    PresentAfter(lib, front, c, id);
    if x in s.entries {
      UpdateShape(lib, s, x, u, now);
    }
    hide Update;
    if id in s.entries {
      if x == id {
        UpdatedEntry(lib, front, c, id, s.entries[id]);
      } else {
        OtherCall(lib, front, c, id, s.entries[id]);
      }
    }
    assert x !in s.entries ==> Update(lib, s, x, u, now) == s by { UnknownUpdate(lib, s, x, u, now); }
  }

  lemma UnknownUpdate(lib: Library, s: State, x: string, u: Entry, now: int)
    ensures x !in s.entries ==> Update(lib, s, x, u, now) == s
  {
  }

  lemma RemoveAsGiven(lib: Library, front: seq<Call>, s: State, x: string, id: string)
    requires StoredAsGiven(lib, front, s.entries, id)
    ensures StoredAsGiven(lib, front + [RemoveCall(x)], Remove(s, x).entries, id)
  {
    hide AsGiven, Present;
    PresentAfter(lib, front, RemoveCall(x), id);
    if x in s.entries {
      RemoveShape(s, x);
    }
    if id in s.entries {
      OtherCall(lib, front, RemoveCall(x), id, s.entries[id]);
    }
  }

  lemma {:induction false} RemoveAllEntries(s: State, ids: seq<string>)
    ensures RemoveAll(s, ids).entries == map id | id in s.entries && id !in ids :: s.entries[id]
  {
    if ids != [] {
      var front, last := ids[..|ids| - 1], ids[|ids| - 1];
      assert ids == front + [last];
      RemoveAllEntries(s, front);
      if last in RemoveAll(s, front).entries {
        RemoveShape(RemoveAll(s, front), last);
      }
      hide RemoveFromIndex, CountUp;
    }
  }

  lemma CleanupAsGiven(lib: Library, front: seq<Call>, s: State, order: seq<string>, now: int, id: string)
    requires forall x :: StoredAsGiven(lib, front, s.entries, x)
    ensures StoredAsGiven(lib, front + [CleanupCall(order, now)], Step(lib, s, CleanupCall(order, now)).entries, id)
  {
    var c := CleanupCall(order, now);
    WalkIff(lib, front, s, order, now);
    assert StoredAsGiven(lib, front, s.entries, id);
    hide AsGiven, Present, Walks, ListsExpired;
    PresentAfter(lib, front, c, id);
    RemoveAllEntries(s, order);
    hide RemoveAll;
    if id in s.entries {
      OtherCall(lib, front, c, id, s.entries[id]);
    }
  }

  lemma WalkIff(lib: Library, front: seq<Call>, s: State, order: seq<string>, now: int)
    requires forall x :: StoredAsGiven(lib, front, s.entries, x)
    ensures ListsExpired(s, order, now) <==> Walks(lib, front, order, now)
  {
    hide Present, ExpiryGiven, KindGiven, ValueGiven, PatternGiven, CompiledGiven, ReactionGiven, ReasonGiven,
         DescriptionGiven, CreatedAt, UpdatedAt, EnabledGiven;
    forall x ensures x in s.entries && PastExpiry(s.entries[x], now)
                     <==> Present(lib, front, x) && Lapsed(ExpiryGiven(lib, front, x), now) {
      assert StoredAsGiven(lib, front, s.entries, x);
    }
  }

  /**
   In every run the table holds exactly the entries that were added and neither removed nor cleaned up since, and each
   of their fields is the one given by the last call that gave it.
   */
  lemma {:induction false} FieldsAreLastGiven(lib: Library, calls: seq<Call>)
    ensures forall id :: StoredAsGiven(lib, calls, Run(lib, calls).entries, id)
  {
    if calls != [] {
      var front, c := calls[..|calls| - 1], calls[|calls| - 1];
      assert calls == front + [c];
      FieldsAreLastGiven(lib, front);
      var s := Run(lib, front);
      hide Run, StoredAsGiven, Add, Update, Remove, RemoveAll, ListsExpired;
      LastCall(lib, calls);
      forall id ensures StoredAsGiven(lib, calls, Step(lib, s, c).entries, id) {
        match c {
          case AddCall(e, now) => AddAsGiven(lib, front, s, e, now, id);
          case UpdateCall(x, u, now) => UpdateAsGiven(lib, front, s, x, u, now, id);
          case RemoveCall(x) => RemoveAsGiven(lib, front, s, x, id);
          case CleanupCall(order, now) => CleanupAsGiven(lib, front, s, order, now, id);
        }
      }
    }
  }

  lemma LastCall(lib: Library, calls: seq<Call>)
    requires calls != []
    ensures Run(lib, calls) == Step(lib, Run(lib, calls[..|calls| - 1]), calls[|calls| - 1])
  {
  }

  // ----- The errors that are reported -----

  /** After every run an add reports the first thing that is wrong, in this order, and nothing when nothing is. */
  lemma AddErrorIsGiven(lib: Library, calls: seq<Call>, e: Entry)
    ensures var err := AddError(lib, Run(lib, calls), e);
            && (err == Some(MissingID) <==> e.id == "")
            && (err == Some(InvalidType) <==> e.id != "" && e.kind !in {ClientID, Username, IPAddress, Topic})
            && (err == Some(InvalidAction) <==> e.id != "" && e.kind in {ClientID, Username, IPAddress, Topic}
                                                && e.reaction !in {Deny, Disconnect, Log})
            && (err == Some(AlreadyExists) <==> WellFormed(e) && Present(lib, calls, e.id))
            && (err == Some(InvalidPattern) <==> WellFormed(e) && !Present(lib, calls, e.id) && !Compiles(lib, e))
            && (err == None <==> WellFormed(e) && !Present(lib, calls, e.id) && Compiles(lib, e))
  {
    FieldsAreLastGiven(lib, calls);
    assert StoredAsGiven(lib, calls, Run(lib, calls).entries, e.id);
    hide Run, AsGiven, Present;
  }

  /** After every run an update fails exactly when there is no such entry, or its pattern does not compile. */
  lemma UpdateErrorIsGiven(lib: Library, calls: seq<Call>, id: string, u: Entry)
    ensures var err := UpdateError(lib, Run(lib, calls), id, u);
            && (err == Some(NotFound) <==> !Present(lib, calls, id))
            && (err == Some(InvalidPattern) <==> Present(lib, calls, id) && !Compiles(lib, u))
            && (err == None <==> Present(lib, calls, id) && Compiles(lib, u))
  {
    FieldsAreLastGiven(lib, calls);
    assert StoredAsGiven(lib, calls, Run(lib, calls).entries, id);
    hide Run, AsGiven, Present;
  }

  // ----- What the checks answer -----

  predicate Active(enabled: bool, expiry: Option<int>, now: int) {
    enabled && (expiry.None? || now < expiry.value)
  }

  /**
   An entry without a pattern covers exactly its value.  One with a pattern covers what the last pattern that compiled
   matches; for addresses also the range, and for topics also the filter, that is its value.
   */
  ghost predicate CoversGiven(lib: Library, calls: seq<Call>, id: string, input: string) {
    var k, value, compiled := KindGiven(lib, calls, id), ValueGiven(lib, calls, id), CompiledGiven(lib, calls, id);
    if PatternGiven(lib, calls, id) == "" then value == input
    else || (compiled.Some? && lib.matches(compiled.value, input))
         || (k == IPAddress && lib.inRange(value, input))
         || (k == Topic && Topics.MatchMQTTTopicFilter(input, value))
  }

  /** The entry is there, of this kind, enabled, not expired, and covers the input. */
  ghost predicate BlocksGiven(lib: Library, calls: seq<Call>, id: string, k: Kind, input: string, now: int) {
    && Present(lib, calls, id) && KindGiven(lib, calls, id) == k && CoversGiven(lib, calls, id, input)
    && Active(EnabledGiven(lib, calls, id), ExpiryGiven(lib, calls, id), now)
  }

  /**
   In every reachable state the entry a check names is one that was added for that kind and not removed, whose last add
   or update left it enabled and not yet expired, and which covers the input.
   */
  lemma HitIsGiven(lib: Library, calls: seq<Call>, k: Kind, input: string, now: int, id: string)
    requires Check(lib, Run(lib, calls), k, input, now) == Some(id)
    ensures Present(lib, calls, id) && KindGiven(lib, calls, id) == k
    ensures Active(EnabledGiven(lib, calls, id), ExpiryGiven(lib, calls, id), now)
    ensures CoversGiven(lib, calls, id, input)
  {
    CheckAgreesWithScan(lib, calls, k, input, now);
    FieldsAreLastGiven(lib, calls);
    BlocksIff(lib, calls, Run(lib, calls), id, k, input, now);
    hide Run, Check, Blocks, BlocksGiven;
    hide Present, EnabledGiven, ExpiryGiven, KindGiven, CoversGiven;
    BlocksGivenIs(lib, calls, id, k, input, now);
  }

  lemma BlocksGivenIs(lib: Library, calls: seq<Call>, id: string, k: Kind, input: string, now: int)
    ensures BlocksGiven(lib, calls, id, k, input, now)
            <==> Present(lib, calls, id) && KindGiven(lib, calls, id) == k && CoversGiven(lib, calls, id, input)
                 && Active(EnabledGiven(lib, calls, id), ExpiryGiven(lib, calls, id), now)
  {
    hide Present, EnabledGiven, ExpiryGiven, KindGiven, CoversGiven;
  }

  lemma BlocksIff(lib: Library, calls: seq<Call>, s: State, id: string, k: Kind, input: string, now: int)
    requires StoredAsGiven(lib, calls, s.entries, id)
    ensures id in s.entries && Blocks(lib, s.entries[id], k, input, now) <==> BlocksGiven(lib, calls, id, k, input, now)
  {
    hide Present, EnabledGiven, ExpiryGiven, KindGiven, ValueGiven, PatternGiven, CompiledGiven, ReactionGiven,
         ReasonGiven, DescriptionGiven, CreatedAt, UpdatedAt;
  }

  ghost predicate SomeGivenBlocks(lib: Library, calls: seq<Call>, k: Kind, input: string, now: int) {
    exists id :: BlocksGiven(lib, calls, id, k, input, now)
  }

  /** After a run of tidy calls a check hits exactly when an entry that was added, and not removed, covers the input. */
  lemma HitIffGiven(lib: Library, calls: seq<Call>, k: Kind, input: string, now: int)
    requires TidyRun(lib, calls)
    ensures Check(lib, Run(lib, calls), k, input, now).Some? <==> SomeGivenBlocks(lib, calls, k, input, now)
  {
    var s := Run(lib, calls);
    RunIsSound(lib, calls);
    CheckAgreesWithScan(lib, calls, k, input, now);
    FieldsAreLastGiven(lib, calls);
    hide Run, Check, Blocks, BlocksGiven, StoredAsGiven, IndexSound, CountsExact, TidyRun, Complete;
    if Scan(lib, s, k, input, now) {
      var id :| id in s.entries && Blocks(lib, s.entries[id], k, input, now);
      BlocksIff(lib, calls, s, id, k, input, now);
    }
    if SomeGivenBlocks(lib, calls, k, input, now) {
      var id :| BlocksGiven(lib, calls, id, k, input, now);
      BlocksIff(lib, calls, s, id, k, input, now);
    }
  }

  lemma {:induction false} EnabledStays(lib: Library, calls: seq<Call>, more: seq<Call>, id: string)
    requires forall i :: 0 <= i < |more| ==> !TouchesEntry(more[i], id)
    ensures EnabledGiven(lib, calls + more, id) == EnabledGiven(lib, calls, id)
  {
    if more == [] {
      assert calls + more == calls;
    } else {
      var k := |more| - 1;
      EnabledStays(lib, calls, more[..k], id);
      assert (calls + more)[..|calls + more| - 1] == calls + more[..k];
      assert !TouchesEntry(more[k], id);
    }
  }

  /**
   An update that disables an entry silences it: no check of any kind, for any input, at any time names it, whatever
   calls follow, until the next add or update of that ID.
   */
  lemma DisabledIsSilent(lib: Library, calls: seq<Call>, id: string, u: Entry, now: int, more: seq<Call>,
                         k: Kind, input: string, at: int)
    requires Present(lib, calls, id) && Compiles(lib, u) && !u.enabled
    requires forall i :: 0 <= i < |more| ==> !TouchesEntry(more[i], id)
    ensures Check(lib, Run(lib, calls + [UpdateCall(id, u, now)] + more), k, input, at) != Some(id)
  {
    var c := UpdateCall(id, u, now);
    var all := calls + [c] + more;
    assert (calls + [c])[..|calls|] == calls;
    assert !EnabledGiven(lib, calls + [c], id) by { assert Takes(lib, calls, c, id); }
    EnabledStays(lib, calls + [c], more, id);
    hide *;
    if Check(lib, Run(lib, all), k, input, at) == Some(id) {
      HitIsGiven(lib, all, k, input, at, id);
      ActiveIsEnabled(EnabledGiven(lib, all, id), ExpiryGiven(lib, all, id), at);
    }
  }

  lemma ActiveIsEnabled(enabled: bool, expiry: Option<int>, now: int)
    requires Active(enabled, expiry, now)
    ensures enabled
  {
  }

  /** A successful add or update puts the entry, and nothing else, where its value or its pattern leads. */
  lemma IndexedAfter(s: State, e: Entry)
    requires Known(e.kind)
    ensures e.pattern == "" ==> (e.kind, e.value) in AddToIndex(s, e).byValue
                                && AddToIndex(s, e).byValue[(e.kind, e.value)] == e.id
    ensures e.pattern != "" ==> e.id in PatternsOf(AddToIndex(s, e), e.kind)
  {
    AddToIndexFacts(s, e);
    hide AddToIndex;
  }

  /** The value index leads to the entry, or its pattern list contains it. */
  predicate Reached(s: State, id: string) {
    id in s.entries && Indexed(s, id)
  }

  lemma UpdateReaches(lib: Library, s: State, id: string, u: Entry, now: int)
    requires IndexSound(s) && UpdateError(lib, s, id, u).None?
    ensures Reached(Update(lib, s, id, u, now), id)
  {
    var e, n := s.entries[id], Updated(s.entries[id], u, now);
    SoundEntry(s, id);
    var t := RemoveFromIndex(s, e).(entries := s.entries[id := n]);
    IndexedAfter(t, n);
    UpdateShape(lib, s, id, u, now);
    assert Update(lib, s, id, u, now) == AddToIndex(t, n);
    assert n.id == id && n.kind == e.kind;
    hide RemoveFromIndex, AddToIndex, Updated, IndexSound, Update;
  }

  lemma AddReaches(lib: Library, s: State, e: Entry, now: int)
    requires AddError(lib, s, e).None?
    ensures Reached(Add(lib, s, e, now), e.id)
  {
    var n := Stamped(e, now);
    var t := s.(entries := s.entries[e.id := n]);
    IndexedAfter(t, n);
    AddShape(lib, s, e, now);
    assert Add(lib, s, e, now) == CountUp(AddToIndex(t, n), n, 1);
    hide AddToIndex, Add;
  }

  /** The call is an add or an update of the entry that reports no error and leaves it enabled. */
  ghost predicate SwitchesOn(lib: Library, before: seq<Call>, c: Call, id: string) {
    Takes(lib, before, c, id) && Payload(c).enabled
  }

  lemma TakenIsReached(lib: Library, calls: seq<Call>, c: Call, id: string)
    requires Takes(lib, calls, c, id)
    ensures Reached(Run(lib, calls + [c]), id)
  {
    RunIsSound(lib, calls);
    FieldsAreLastGiven(lib, calls);
    var s := Run(lib, calls);
    assert StoredAsGiven(lib, calls, s.entries, id);
    assert (calls + [c])[..|calls|] == calls;
    assert Run(lib, calls + [c]) == Step(lib, s, c);
    hide Run, AsGiven, IndexSound, CountsExact, Present;
    if c.AddCall? {
      AddErrorIff(lib, s, c.entry);
      AddReaches(lib, s, c.entry, c.now);
    } else {
      UpdateReaches(lib, s, id, c.updates, c.now);
    }
    hide Add, Update, Reached;
  }

  /** An entry that is reached and blocks the input makes the check hit, and is named if it has no pattern. */
  lemma ReachedAnswers(lib: Library, s: State, id: string, k: Kind, input: string, now: int)
    requires IndexSound(s) && Reached(s, id) && Blocks(lib, s.entries[id], k, input, now)
    ensures Check(lib, s, k, input, now).Some?
    ensures s.entries[id].pattern == "" ==> Check(lib, s, k, input, now) == Some(id)
  {
    CheckFacts(lib, s, k, input, now);
    hide IndexSound, FirstMatch;
  }

  /**
   An add or an update that enables an entry switches it on: until the expiry that holds after the call, a check of its
   kind hits for every input it then covers, and names it if it has no pattern.
   */
  lemma EnabledAnswers(lib: Library, calls: seq<Call>, c: Call, id: string, input: string, at: int)
    requires SwitchesOn(lib, calls, c, id)
    requires Active(true, ExpiryGiven(lib, calls + [c], id), at)
    ensures var after := calls + [c]; var hit := Check(lib, Run(lib, after), KindGiven(lib, after, id), input, at);
            CoversGiven(lib, after, id, input) ==> hit.Some? && (PatternGiven(lib, after, id) == "" ==> hit == Some(id))
  {
    var after := calls + [c];
    assert after[..|calls|] == calls;
    assert EnabledGiven(lib, after, id);
    hide *;
    if CoversGiven(lib, after, id, input) {
      var s, k := Run(lib, after), KindGiven(lib, after, id);
      SwitchesOnTakes(lib, calls, c, id);
      TakenIsReached(lib, calls, c, id);
      RunIsSound(lib, after);
      FieldsAreLastGiven(lib, after);
      ReachedIsPresent(lib, after, s, id);
      BlocksGivenIs(lib, after, id, k, input, at);
      BlocksIff(lib, after, s, id, k, input, at);
      ReachedAnswers(lib, s, id, k, input, at);
    }
  }

  lemma SwitchesOnTakes(lib: Library, before: seq<Call>, c: Call, id: string)
    requires SwitchesOn(lib, before, c, id)
    ensures Takes(lib, before, c, id)
  {
  }

  lemma ReachedIsPresent(lib: Library, calls: seq<Call>, s: State, id: string)
    requires Reached(s, id) && StoredAsGiven(lib, calls, s.entries, id)
    ensures id in s.entries && Present(lib, calls, id) && s.entries[id].pattern == PatternGiven(lib, calls, id)
  {
    hide Present, EnabledGiven, ExpiryGiven, KindGiven, ValueGiven, PatternGiven, CompiledGiven, ReactionGiven,
         ReasonGiven, DescriptionGiven, CreatedAt, UpdatedAt, Indexed;
  }

  // ----- What a refusal leaves behind -----

  /** The block names the refused client and the entry that refused it, with the action and reason last given for it. */
  ghost predicate Accounts(lib: Library, calls: seq<Call>, b: Block, k: Kind, input: string, client: Client, now: int,
                           id: string)
  {
    && b.now == now && b.kind == k && b.value == input && b.client == client && b.entryID == id
    && b.reaction == ReactionGiven(lib, calls, id) && b.reason == ReasonGiven(lib, calls, id)
  }

  lemma BlockAccounts(lib: Library, calls: seq<Call>, k: Kind, input: string, client: Client, now: int)
    requires IndexSound(Run(lib, calls))
    ensures var s := Run(lib, calls);
            var hit, b := Check(lib, s, k, input, now), BlockOf(lib, s, k, input, client, now);
            && (b.Some? <==> hit.Some?)
            && (b.Some? ==> Accounts(lib, calls, b.value, k, input, client, now, hit.value))
  {
    FieldsAreLastGiven(lib, calls);
    CheckFacts(lib, Run(lib, calls), k, input, now);
    var hit := Check(lib, Run(lib, calls), k, input, now);
    if hit.Some? {
      assert StoredAsGiven(lib, calls, Run(lib, calls).entries, hit.value);
    }
    hide Run, Check, IndexSound, Present, EnabledGiven, ExpiryGiven, KindGiven, ValueGiven, PatternGiven, CompiledGiven,
         ReactionGiven, ReasonGiven, DescriptionGiven, CreatedAt, UpdatedAt;
  }

  /** What the client presents for a kind of check. */
  function Presents(c: Client, k: Kind): string {
    match k
    case ClientID => c.clientID
    case Username => c.username
    case _ => c.ipAddress
  }

  /**
   In every reachable state a connection leaves a block behind exactly when it is refused: the block is for the first of
   client ID, user name and address that hits, and accounts for the entry that was hit.
   */
  lemma RefusalAccounts(lib: Library, calls: seq<Call>, c: Client, now: int)
    ensures var s := Run(lib, calls);
            && IndexSound(s)
            && var hit, b := CheckConnection(lib, s, c, now), ConnectionBlock(lib, s, c, now);
               && (b.Some? <==> hit.Some?)
               && (b.Some? ==>
                     var k := b.value.kind;
                     Accounts(lib, calls, b.value, k, Presents(c, k), c, now, hit.value) && FirstHit(lib, s, c, now, k))
  {
    RunIsSound(lib, calls);
    BlockAccounts(lib, calls, ClientID, c.clientID, c, now);
    BlockAccounts(lib, calls, Username, c.username, c, now);
    BlockAccounts(lib, calls, IPAddress, c.ipAddress, c, now);
    hide Run, Check, BlockOf, IndexSound, ReactionGiven, ReasonGiven;
  }

  /** Of the three checks of a connection this one hits and those before it do not. */
  ghost predicate FirstHit(lib: Library, s: State, c: Client, now: int, k: Kind) {
    && k in {ClientID, Username, IPAddress}
    && Check(lib, s, k, Presents(c, k), now).Some?
    && (k != ClientID ==> Check(lib, s, ClientID, c.clientID, now).None?)
    && (k == IPAddress ==> Check(lib, s, Username, c.username, now).None?)
  }
}
