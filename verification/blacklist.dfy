/**
 The blacklist of pkg/blacklist/manager.go: a table of entries, an index by value, an index by pattern, and counters.

 An entry object is shared between the table and the indexes; the model keeps the entry in the table and its ID in the
 indexes.  Regular expressions and address ranges are parameters.
 */
module Blacklist {
  import opened Common
  import Topics

  datatype Kind = ClientID | Username | IPAddress | Topic | OtherKind(name: string)

  datatype Reaction = Deny | Disconnect | Log | OtherReaction(name: string)

  /** `compiled` is the source text of the compiled pattern. */
  datatype Entry = Entry(
    id: string, kind: Kind, value: string, pattern: string, reaction: Reaction, reason: string, description: string,
    createdAt: int, updatedAt: int, expiresAt: Option<int>, enabled: bool, compiled: Option<string>)

  /** What the code calls but does not define. */
  datatype Library = Library(
    compiles: string -> bool, matches: (string, string) -> bool, inRange: (string, string) -> bool)

  datatype State = State(
    entries: map<string, Entry>, byValue: map<(Kind, string), string>, byPattern: map<Kind, seq<string>>,
    total: int, byKind: map<Kind, int>, byReaction: map<Reaction, int>)

  const INIT := State(map[], map[], map[], 0, map[], map[])

  datatype Error = MissingID | InvalidType | InvalidAction | MissingValue | AlreadyExists | NotFound | InvalidPattern

  predicate Known(k: Kind) {
    !k.OtherKind?
  }

  function PatternsOf(s: State, k: Kind): seq<string> {
    if k in s.byPattern then s.byPattern[k] else []
  }

  function CountOf(s: State, k: Kind): int {
    if k in s.byKind then s.byKind[k] else 0
  }

  function ReactionCountOf(s: State, r: Reaction): int {
    if r in s.byReaction then s.byReaction[r] else 0
  }

  // ----- Indexes -----

  function WithoutFirst(ids: seq<string>, id: string): seq<string> {
    if ids == [] then [] else if ids[0] == id then ids[1..] else [ids[0]] + WithoutFirst(ids[1..], id)
  }

  function AddToIndex(s: State, e: Entry): State {
    if e.pattern != "" then s.(byPattern := s.byPattern[e.kind := PatternsOf(s, e.kind) + [e.id]])
    else if Known(e.kind) then s.(byValue := s.byValue[(e.kind, e.value) := e.id])
    else s
  }

  function RemoveFromIndex(s: State, e: Entry): State {
    if e.pattern != "" then
      if e.id in PatternsOf(s, e.kind)
      then s.(byPattern := s.byPattern[e.kind := WithoutFirst(PatternsOf(s, e.kind), e.id)])
      else s
    else s.(byValue := s.byValue - {(e.kind, e.value)})
  }

  function CountUp(s: State, e: Entry, d: int): State {
    s.(total := s.total + d, byKind := s.byKind[e.kind := CountOf(s, e.kind) + d],
       byReaction := s.byReaction[e.reaction := ReactionCountOf(s, e.reaction) + d])
  }

  // ----- Calls that change the blacklist -----

  /** What is wrong with an entry by itself; the first fault counts. */
  function Fault(e: Entry): (r: Option<Error>)
    ensures r.None? <==> e.id != "" && Known(e.kind) && !e.reaction.OtherReaction? && (e.value != "" || e.pattern != "")
  {
    if e.id == "" then Some(MissingID)
    else if !Known(e.kind) then Some(InvalidType)
    else if e.reaction.OtherReaction? then Some(InvalidAction)
    else if e.value == "" && e.pattern == "" then Some(MissingValue)
    else None
  }

  function AddError(lib: Library, s: State, e: Entry): Option<Error> {
    if Fault(e).Some? then Fault(e)
    else if e.id in s.entries then Some(AlreadyExists)
    else if e.pattern != "" && !lib.compiles(e.pattern) then Some(InvalidPattern)
    else None
  }

  function Stamped(e: Entry, now: int): Entry {
    e.(createdAt := now, updatedAt := now,
       compiled := if e.pattern != "" then Some(e.pattern) else e.compiled)
  }

  function Add(lib: Library, s: State, e: Entry, now: int): State {
    if AddError(lib, s, e).Some? then s
    else
      var n := Stamped(e, now);
      CountUp(AddToIndex(s.(entries := s.entries[e.id := n]), n), n, 1)
  }

  function UpdateError(lib: Library, s: State, id: string, u: Entry): Option<Error> {
    if id !in s.entries then Some(NotFound)
    else if u.pattern != "" && !lib.compiles(u.pattern) then Some(InvalidPattern)
    else None
  }

  /** The part of an update that happens before the new pattern is compiled. */
  function HalfUpdated(e: Entry, u: Entry): Entry {
    e.(value := if u.value != "" then u.value else e.value,
       pattern := if u.pattern != "" then u.pattern else e.pattern)
  }

  function Updated(e: Entry, u: Entry, now: int): Entry {
    HalfUpdated(e, u).(
      compiled := if u.pattern != "" then Some(u.pattern) else e.compiled,
      reaction := if u.reaction != OtherReaction("") then u.reaction else e.reaction,
      reason := if u.reason != "" then u.reason else e.reason,
      description := if u.description != "" then u.description else e.description,
      enabled := u.enabled,
      updatedAt := now,
      expiresAt := if u.expiresAt.Some? then u.expiresAt else e.expiresAt)
  }

  /** A bad pattern is noticed after the entry has left its index and has been half changed. */
  function Update(lib: Library, s: State, id: string, u: Entry, now: int): State {
    match UpdateError(lib, s, id, u)
    case Some(NotFound) => s
    case Some(_) =>
      RemoveFromIndex(s, s.entries[id]).(entries := s.entries[id := HalfUpdated(s.entries[id], u)])
    case None =>
      var n := Updated(s.entries[id], u, now);
      AddToIndex(RemoveFromIndex(s, s.entries[id]).(entries := s.entries[id := n]), n)
  }

  function Remove(s: State, id: string): State {
    if id !in s.entries then s
    else
      var e := s.entries[id];
      CountUp(RemoveFromIndex(s.(entries := s.entries - {id}), e), e, -1)
  }

  predicate PastExpiry(e: Entry, now: int) {
    e.expiresAt.Some? && now > e.expiresAt.value
  }

  /** Removes the expired entries one by one, in the order the map yields them. */
  function RemoveAll(s: State, ids: seq<string>): State {
    if ids == [] then s else Remove(RemoveAll(s, ids[..|ids| - 1]), ids[|ids| - 1])
  }

  // ----- Checks -----

  predicate InForce(e: Entry, now: int) {
    e.enabled && (e.expiresAt.None? || now < e.expiresAt.value)
  }

  predicate RegexMatches(lib: Library, e: Entry, input: string) {
    e.compiled.Some? && lib.matches(e.compiled.value, input)
  }

  predicate PatternMatches(lib: Library, e: Entry, k: Kind, input: string) {
    match k
    case IPAddress => lib.inRange(e.value, input) || RegexMatches(lib, e, input)
    case Topic => Topics.MatchMQTTTopicFilter(input, e.value) || RegexMatches(lib, e, input)
    case _ => RegexMatches(lib, e, input)
  }

  /** The first entry of a pattern list that is in force and matches. */
  function FirstMatch(lib: Library, s: State, ids: seq<string>, k: Kind, input: string, now: int): Option<string> {
    if ids == [] then None
    else if ids[0] in s.entries && InForce(s.entries[ids[0]], now) && PatternMatches(lib, s.entries[ids[0]], k, input)
    then Some(ids[0])
    else FirstMatch(lib, s, ids[1..], k, input, now)
  }

  predicate HitByValue(s: State, k: Kind, input: string, now: int) {
    (k, input) in s.byValue && s.byValue[(k, input)] in s.entries && InForce(s.entries[s.byValue[(k, input)]], now)
  }

  function Check(lib: Library, s: State, k: Kind, input: string, now: int): Option<string> {
    if HitByValue(s, k, input, now) then Some(s.byValue[(k, input)])
    else FirstMatch(lib, s, PatternsOf(s, k), k, input, now)
  }

  datatype Client = Client(clientID: string, username: string, ipAddress: string)

  /** The entry that refuses a connection, if any. */
  function CheckConnection(lib: Library, s: State, c: Client, now: int): Option<string> {
    if Check(lib, s, ClientID, c.clientID, now).Some? then Check(lib, s, ClientID, c.clientID, now)
    else if Check(lib, s, Username, c.username, now).Some? then Check(lib, s, Username, c.username, now)
    else Check(lib, s, IPAddress, c.ipAddress, now)
  }

  // ----- The simple form -----

  /** What an entry blocks: exactly its value, or whatever its pattern matches. */
  predicate Blocks(lib: Library, e: Entry, k: Kind, input: string, now: int) {
    && e.kind == k && InForce(e, now)
    && (if e.pattern == "" then e.value == input else PatternMatches(lib, e, k, input))
  }

  /** A scan of the whole table. */
  predicate Scan(lib: Library, s: State, k: Kind, input: string, now: int) {
    exists id <- s.entries :: Blocks(lib, s.entries[id], k, input, now)
  }

  // ----- Invariants -----

  ghost predicate Distinct(ids: seq<string>) {
    forall i, j :: 0 <= i < j < |ids| ==> ids[i] != ids[j]
  }

  /** A value index entry points to a live value-only entry of that kind and value. */
  predicate GoodValueKey(s: State, key: (Kind, string)) {
    key in s.byValue && s.byValue[key] in s.entries
    && var e := s.entries[s.byValue[key]]; e.pattern == "" && e.kind == key.0 && e.value == key.1
  }

  predicate GoodPatternID(s: State, k: Kind, id: string) {
    id in s.entries && s.entries[id].pattern != "" && s.entries[id].kind == k
  }

  ghost predicate IndexSound(s: State) {
    && (forall id <- s.entries :: s.entries[id].id == id && Known(s.entries[id].kind))
    && (forall key <- s.byValue :: GoodValueKey(s, key))
    && (forall k: Kind :: Distinct(PatternsOf(s, k)))
    && (forall k: Kind :: forall id <- PatternsOf(s, k) :: GoodPatternID(s, k, id))
  }

  ghost function OfKind(entries: map<string, Entry>, k: Kind): set<string> {
    set id <- entries | entries[id].kind == k
  }

  ghost predicate CountsExact(s: State) {
    s.total == |s.entries| && forall k: Kind :: CountOf(s, k) == |OfKind(s.entries, k)|
  }

  /** Every entry can be found through its index. */
  predicate Indexed(s: State, id: string)
    requires id in s.entries
  {
    var e := s.entries[id];
    if e.pattern == "" then (e.kind, e.value) in s.byValue && s.byValue[(e.kind, e.value)] == id
    else id in PatternsOf(s, e.kind)
  }

  ghost predicate Complete(s: State) {
    forall id <- s.entries :: Indexed(s, id)
  }

  // ----- Index lemmas -----

  lemma {:induction false} WithoutFirstFacts(ids: seq<string>, id: string)
    requires Distinct(ids)
    ensures Distinct(WithoutFirst(ids, id))
    ensures forall x :: x in WithoutFirst(ids, id) <==> x in ids && x != id
  {
    if ids != [] {
      var rest := ids[1..];
      assert ids == [ids[0]] + rest;
      assert forall i :: 0 <= i < |rest| ==> rest[i] == ids[i + 1];
      WithoutFirstFacts(rest, id);
      var w := WithoutFirst(rest, id);
      assert ids[0] !in rest;
      forall x ensures x in WithoutFirst(ids, id) <==> x in ids && x != id {
        assert x in ids <==> x == ids[0] || x in rest;
        if ids[0] != id {
          assert x in [ids[0]] + w <==> x == ids[0] || x in w;
        }
      }
      if ids[0] != id {
        assert ids[0] !in w;
      }
    }
  }

  lemma {:induction false} WithoutFirstAbsent(ids: seq<string>, id: string)
    requires id !in ids
    ensures WithoutFirst(ids, id) == ids
  {
    if ids != [] {
      WithoutFirstAbsent(ids[1..], id);
    }
  }

  lemma {:induction false} WithoutFirstAt(ids: seq<string>, id: string, i: nat)
    requires i < |ids| && ids[i] == id && id !in ids[..i]
    ensures WithoutFirst(ids, id) == ids[..i] + ids[i + 1..]
  {
    if i > 0 {
      assert ids[0] in ids[..i];
      assert ids[1..][..i - 1] == ids[1..i];
      WithoutFirstAt(ids[1..], id, i - 1);
      assert ids[..i] == [ids[0]] + ids[1..i];
    }
  }

  /** Taking an entry out of its index keeps the other references and leaves none to it. */
  lemma RemoveFromIndexFacts(s: State, e: Entry)
    requires IndexSound(s) && e.id in s.entries && e == s.entries[e.id]
    ensures var t := RemoveFromIndex(s, e);
            && t.entries == s.entries && t.total == s.total && t.byKind == s.byKind
            && (forall key <- t.byValue :: key in s.byValue && t.byValue[key] == s.byValue[key] && t.byValue[key] != e.id)
            && (forall k: Kind :: Distinct(PatternsOf(t, k)))
            && (forall k: Kind, id :: id in PatternsOf(t, k) <==> id in PatternsOf(s, k) && id != e.id)
            && (forall key <- s.byValue :: s.byValue[key] != e.id && !(e.pattern == "" && key == (e.kind, e.value))
                                           ==> key in t.byValue)
  {
    IndexOnly(s, e);
    if e.pattern != "" {
      RemovePatternFacts(s, e);
    } else {
      RemoveValueFacts(s, e);
    }
    hide RemoveFromIndex, IndexSound, PatternsOf, Distinct;
  }

  /** t has the references of s but those to one entry. */
  ghost predicate Unreferenced(s: State, t: State, e: Entry) {
    && (forall key <- t.byValue :: key in s.byValue && t.byValue[key] == s.byValue[key] && t.byValue[key] != e.id)
    && (forall k: Kind :: Distinct(PatternsOf(t, k)))
    && (forall k: Kind, id :: id in PatternsOf(t, k) <==> id in PatternsOf(s, k) && id != e.id)
    && (forall key <- s.byValue :: s.byValue[key] != e.id && !(e.pattern == "" && key == (e.kind, e.value))
                                   ==> key in t.byValue)
  }

  lemma RemovePatternFacts(s: State, e: Entry)
    requires IndexSound(s) && e.id in s.entries && e == s.entries[e.id] && e.pattern != ""
    ensures Unreferenced(s, RemoveFromIndex(s, e), e)
  {
    var t, ids := RemoveFromIndex(s, e), PatternsOf(s, e.kind);
    WithoutFirstFacts(ids, e.id);
    if e.id !in ids {
      WithoutFirstAbsent(ids, e.id);
    }
    assert t.byValue == s.byValue;
    assert forall k: Kind :: PatternsOf(t, k) == if k == e.kind then WithoutFirst(ids, e.id) else PatternsOf(s, k);
    hide RemoveFromIndex, PatternsOf, WithoutFirst;
    forall k: Kind, id | id in PatternsOf(s, k) && k != e.kind ensures id != e.id {
      assert GoodPatternID(s, k, id);
    }
    forall key | key in s.byValue ensures s.byValue[key] != e.id {
      assert GoodValueKey(s, key);
    }
  }

  lemma RemoveValueFacts(s: State, e: Entry)
    requires IndexSound(s) && e.id in s.entries && e == s.entries[e.id] && e.pattern == ""
    ensures Unreferenced(s, RemoveFromIndex(s, e), e)
  {
    var t := RemoveFromIndex(s, e);
    assert t.byValue == s.byValue - {(e.kind, e.value)};
    assert forall k: Kind :: PatternsOf(t, k) == PatternsOf(s, k);
    hide RemoveFromIndex, PatternsOf;
    forall k: Kind, id | id in PatternsOf(s, k) ensures id != e.id {
      assert GoodPatternID(s, k, id);
    }
    forall key | key in t.byValue ensures t.byValue[key] != e.id {
      assert GoodValueKey(s, key);
    }
  }

  lemma AddToIndexFacts(s: State, e: Entry)
    requires Known(e.kind)
    ensures var t := AddToIndex(s, e);
            && t.entries == s.entries && t.total == s.total && t.byKind == s.byKind
            && t.byValue == (if e.pattern == "" then s.byValue[(e.kind, e.value) := e.id] else s.byValue)
            && (forall k: Kind :: PatternsOf(t, k)
                                  == PatternsOf(s, k) + (if e.pattern != "" && k == e.kind then [e.id] else []))
  {
  }

  lemma IndexIgnoresEntries(s: State, m: map<string, Entry>, e: Entry)
    ensures var t := RemoveFromIndex(s.(entries := m), e); var r := RemoveFromIndex(s, e);
            && t.entries == m && t.total == s.total && t.byKind == s.byKind && t.byReaction == s.byReaction
            && t.byValue == r.byValue && t.byPattern == r.byPattern
  {
    assert PatternsOf(s.(entries := m), e.kind) == PatternsOf(s, e.kind);
    hide WithoutFirst, PatternsOf;
  }

  /** Changing one entry of the table keeps the index sound when no reference to its ID is left. */
  lemma ReplaceKeepsSound(s: State, t: State, e: Entry)
    requires IndexSound(s) && Known(e.kind)
    requires forall key <- t.byValue :: key in s.byValue && t.byValue[key] == s.byValue[key] && t.byValue[key] != e.id
    requires forall k: Kind :: Distinct(PatternsOf(t, k))
    requires forall k: Kind, id :: id in PatternsOf(t, k) ==> id in PatternsOf(s, k) && id != e.id
    requires t.entries == s.entries[e.id := e]
    ensures IndexSound(t)
  {
    forall key | key in t.byValue ensures GoodValueKey(t, key) {
      assert GoodValueKey(s, key);
    }
    forall k: Kind, id | id in PatternsOf(t, k) ensures GoodPatternID(t, k, id) {
      assert GoodPatternID(s, k, id);
    }
  }

  /** Adding the one reference an entry needs. */
  lemma AddToIndexKeepsSound(t: State, e: Entry)
    requires IndexSound(t) && Known(e.kind) && e.id in t.entries && t.entries[e.id] == e
    requires forall k: Kind :: e.id !in PatternsOf(t, k)
    ensures IndexSound(AddToIndex(t, e))
  {
    AddToIndexFacts(t, e);
    var u := AddToIndex(t, e);
    hide AddToIndex, PatternsOf;
    forall key | key in u.byValue ensures GoodValueKey(u, key) {
      if key in t.byValue { assert GoodValueKey(t, key); }
    }
    forall k: Kind, id | id in PatternsOf(u, k) ensures GoodPatternID(u, k, id) {
      if id in PatternsOf(t, k) { assert GoodPatternID(t, k, id); }
    }
  }

  /** After a removal from the index, nothing refers to the entry any more, and everything else is as before. */
  lemma UnreferencedAfterRemoval(s: State, e: Entry, n: Entry)
    requires IndexSound(s) && e.id in s.entries && e == s.entries[e.id] && n.id == e.id && Known(n.kind)
    ensures var t := RemoveFromIndex(s, e).(entries := s.entries[e.id := n]);
            IndexSound(t) && (forall k: Kind :: e.id !in PatternsOf(t, k))
  {
    RemoveFromIndexFacts(s, e);
    var r := RemoveFromIndex(s, e);
    var t := r.(entries := s.entries[e.id := n]);
    assert forall k: Kind :: PatternsOf(t, k) == PatternsOf(r, k);
    hide RemoveFromIndex, PatternsOf, IndexSound;
    ReplaceKeepsSound(s, t, n);
  }

  // ----- Every call keeps the index sound -----

  lemma SoundIgnoresCounts(s: State, e: Entry, d: int)
    requires IndexSound(s)
    ensures IndexSound(CountUp(s, e, d))
  {
    var t := CountUp(s, e, d);
    assert forall j: Kind :: PatternsOf(t, j) == PatternsOf(s, j);
    forall key | key in t.byValue ensures GoodValueKey(t, key) { assert GoodValueKey(s, key); }
    forall j: Kind, id | id in PatternsOf(t, j) ensures GoodPatternID(t, j, id) { assert GoodPatternID(s, j, id); }
  }

  lemma AddKeepsSound(lib: Library, s: State, e: Entry, now: int)
    requires IndexSound(s)
    ensures IndexSound(Add(lib, s, e, now))
  {
    if AddError(lib, s, e).None? {
      var n := Stamped(e, now);
      var t := s.(entries := s.entries[e.id := n]);
      assert forall k: Kind :: PatternsOf(t, k) == PatternsOf(s, k);
      forall k: Kind, id | id in PatternsOf(s, k) ensures id != e.id { assert GoodPatternID(s, k, id); }
      forall key | key in s.byValue ensures s.byValue[key] != e.id { assert GoodValueKey(s, key); }
      ReplaceKeepsSound(s, t, n);
      AddToIndexKeepsSound(t, n);
      SoundIgnoresCounts(AddToIndex(t, n), n, 1);
    }
  }

  lemma UpdateKeepsSound(lib: Library, s: State, id: string, u: Entry, now: int)
    requires IndexSound(s)
    ensures IndexSound(Update(lib, s, id, u, now))
  {
    if id in s.entries {
      var e := s.entries[id];
      hide IndexSound, RemoveFromIndex, AddToIndex;
      SoundEntry(s, id);
      UnreferencedAfterRemoval(s, e, HalfUpdated(e, u));
      UnreferencedAfterRemoval(s, e, Updated(e, u, now));
      if UpdateError(lib, s, id, u).None? {
        AddToIndexKeepsSound(RemoveFromIndex(s, e).(entries := s.entries[id := Updated(e, u, now)]), Updated(e, u, now));
      }
    }
  }

  lemma SoundEntry(s: State, id: string)
    requires IndexSound(s) && id in s.entries
    ensures s.entries[id].id == id && Known(s.entries[id].kind)
  {
  }

  lemma RemoveKeepsSound(s: State, id: string)
    requires IndexSound(s)
    ensures IndexSound(Remove(s, id))
  {
    if id in s.entries {
      var e := s.entries[id];
      RemoveFromIndexFacts(s, e);
      var r := RemoveFromIndex(s, e);
      var t := RemoveFromIndex(s.(entries := s.entries - {id}), e);
      IndexIgnoresEntries(s, s.entries - {id}, e);
      hide RemoveFromIndex;
      assert forall k: Kind :: PatternsOf(t, k) == PatternsOf(r, k);
      hide PatternsOf;
      forall key | key in t.byValue ensures GoodValueKey(t, key) { assert GoodValueKey(s, key); }
      forall k: Kind, x | x in PatternsOf(t, k) ensures GoodPatternID(t, k, x) { assert GoodPatternID(s, k, x); }
      SoundIgnoresCounts(t, e, -1);
    }
  }

  // ----- Counters -----

  lemma KindInsert(m: map<string, Entry>, e: Entry, k: Kind)
    requires e.id !in m
    ensures |OfKind(m[e.id := e], k)| == |OfKind(m, k)| + if k == e.kind then 1 else 0
  {
    assert OfKind(m[e.id := e], k) == if k == e.kind then OfKind(m, k) + {e.id} else OfKind(m, k);
  }

  lemma SizeInsert(m: map<string, Entry>, e: Entry)
    requires e.id !in m
    ensures |m[e.id := e]| == |m| + 1
  {
  }

  lemma CountInsert(s: State, t: State, e: Entry)
    requires CountsExact(s) && e.id !in s.entries && t.entries == s.entries[e.id := e]
    requires t.total == s.total + 1 && t.byKind == s.byKind[e.kind := CountOf(s, e.kind) + 1]
    ensures CountsExact(t)
  {
    hide OfKind;
    SizeInsert(s.entries, e);
    forall k: Kind ensures CountOf(t, k) == |OfKind(t.entries, k)| {
      KindInsert(s.entries, e, k);
    }
  }

  lemma CountReplace(s: State, t: State, e: Entry)
    requires CountsExact(s) && e.id in s.entries && s.entries[e.id].kind == e.kind && t.entries == s.entries[e.id := e]
    requires t.total == s.total && t.byKind == s.byKind
    ensures CountsExact(t)
  {
    assert t.entries.Keys == s.entries.Keys;
    assert |t.entries| == |t.entries.Keys| && |s.entries| == |s.entries.Keys|;
    forall k: Kind ensures CountOf(t, k) == |OfKind(t.entries, k)| {
      assert OfKind(t.entries, k) == OfKind(s.entries, k);
    }
  }

  lemma CountDelete(s: State, t: State, e: Entry)
    requires CountsExact(s) && e.id in s.entries && s.entries[e.id] == e && t.entries == s.entries - {e.id}
    requires t.total == s.total - 1 && t.byKind == s.byKind[e.kind := CountOf(s, e.kind) - 1]
    ensures CountsExact(t)
  {
    assert s.entries == t.entries[e.id := e];
    hide OfKind;
    SizeInsert(t.entries, e);
    forall k: Kind ensures CountOf(t, k) == |OfKind(t.entries, k)| {
      KindInsert(t.entries, e, k);
    }
  }

  lemma AddShape(lib: Library, s: State, e: Entry, now: int)
    requires AddError(lib, s, e).None?
    ensures var t := Add(lib, s, e, now);
            && t.entries == s.entries[e.id := Stamped(e, now)] && t.total == s.total + 1
            && t.byKind == s.byKind[e.kind := CountOf(s, e.kind) + 1]
  {
  }

  lemma AddCounts(lib: Library, s: State, e: Entry, now: int)
    requires CountsExact(s)
    ensures CountsExact(Add(lib, s, e, now))
  {
    hide CountsExact, CountOf;
    if AddError(lib, s, e).None? {
      hide Add;
      AddShape(lib, s, e, now);
      CountInsert(s, Add(lib, s, e, now), Stamped(e, now));
    }
  }

  lemma IndexOnly(s: State, e: Entry)
    ensures var r, a := RemoveFromIndex(s, e), AddToIndex(s, e);
            && r.entries == s.entries && r.total == s.total && r.byKind == s.byKind
            && a.entries == s.entries && a.total == s.total && a.byKind == s.byKind
  {
    hide WithoutFirst;
  }

  lemma UpdateShape(lib: Library, s: State, id: string, u: Entry, now: int)
    requires id in s.entries
    ensures var t := Update(lib, s, id, u, now);
            && t.total == s.total && t.byKind == s.byKind
            && t.entries == s.entries[id := if UpdateError(lib, s, id, u).None? then Updated(s.entries[id], u, now)
                                            else HalfUpdated(s.entries[id], u)]
  {
    hide Updated, HalfUpdated, RemoveFromIndex, AddToIndex;
    IndexOnly(s, s.entries[id]);
    IndexOnly(RemoveFromIndex(s, s.entries[id]).(entries := s.entries[id := Updated(s.entries[id], u, now)]),
              Updated(s.entries[id], u, now));
  }

  lemma UpdateCounts(lib: Library, s: State, id: string, u: Entry, now: int)
    requires CountsExact(s) && IndexSound(s)
    ensures CountsExact(Update(lib, s, id, u, now))
  {
    hide CountsExact, IndexSound, CountOf;
    if id in s.entries {
      hide Update;
      SoundEntry(s, id);
      UpdateShape(lib, s, id, u, now);
      CountReplace(s, Update(lib, s, id, u, now), Update(lib, s, id, u, now).entries[id]);
    }
  }

  lemma RemoveShape(s: State, id: string)
    requires id in s.entries
    ensures var t := Remove(s, id); var k := s.entries[id].kind;
            t.entries == s.entries - {id} && t.total == s.total - 1 && t.byKind == s.byKind[k := CountOf(s, k) - 1]
  {
    IndexIgnoresEntries(s, s.entries - {id}, s.entries[id]);
    hide RemoveFromIndex;
  }

  lemma RemoveCounts(s: State, id: string)
    requires CountsExact(s) && IndexSound(s)
    ensures CountsExact(Remove(s, id))
  {
    hide CountsExact, IndexSound, CountOf;
    if id in s.entries {
      hide Remove;
      SoundEntry(s, id);
      RemoveShape(s, id);
      CountDelete(s, Remove(s, id), s.entries[id]);
    }
  }

  // ----- Completeness of the index -----

  /** Another value-only entry already has this kind and value. */
  predicate Collides(s: State, e: Entry) {
    e.pattern == "" && exists id <- s.entries :: id != e.id && s.entries[id].pattern == ""
                                                 && s.entries[id].kind == e.kind && s.entries[id].value == e.value
  }

  lemma AddToIndexCompletes(t: State, e: Entry)
    requires Known(e.kind) && e.id in t.entries && t.entries[e.id] == e && !Collides(t, e)
    requires forall id <- t.entries :: id != e.id ==> Indexed(t, id)
    ensures Complete(AddToIndex(t, e))
  {
    AddToIndexFacts(t, e);
    var u := AddToIndex(t, e);
    hide AddToIndex;
    forall id | id in u.entries ensures Indexed(u, id) {
      if id != e.id {
        assert Indexed(t, id);
      }
    }
  }

  lemma AddKeepsComplete(lib: Library, s: State, e: Entry, now: int)
    requires IndexSound(s) && Complete(s) && (AddError(lib, s, e).None? ==> !Collides(s, e))
    ensures Complete(Add(lib, s, e, now))
  {
    if AddError(lib, s, e).None? {
      var n := Stamped(e, now);
      var t := s.(entries := s.entries[e.id := n]);
      forall id | id in t.entries && id != e.id ensures Indexed(t, id) { assert Indexed(s, id); }
      AddToIndexCompletes(t, n);
      var u := AddToIndex(t, n);
      forall id | id in u.entries ensures Indexed(CountUp(u, n, 1), id) { assert Indexed(u, id); }
    }
  }

  lemma OthersStayIndexed(s: State, e: Entry, id: string)
    requires IndexSound(s) && Complete(s) && e.id in s.entries && e == s.entries[e.id]
    requires id in s.entries && id != e.id
    ensures Indexed(RemoveFromIndex(s, e), id)
  {
    RemoveFromIndexFacts(s, e);
    assert Indexed(s, id) && Indexed(s, e.id);
    hide RemoveFromIndex;
  }

  lemma UpdateKeepsComplete(lib: Library, s: State, id: string, u: Entry, now: int)
    requires IndexSound(s) && Complete(s)
    requires UpdateError(lib, s, id, u) != Some(InvalidPattern)
    requires id in s.entries ==> !Collides(s, Updated(s.entries[id], u, now))
    ensures Complete(Update(lib, s, id, u, now))
  {
    if id in s.entries {
      var e := s.entries[id];
      var n := Updated(e, u, now);
      var t := RemoveFromIndex(s, e).(entries := s.entries[id := n]);
      forall x | x in t.entries && x != id ensures Indexed(t, x) {
        OthersStayIndexed(s, e, x);
      }
      AddToIndexCompletes(t, n);
    }
  }

  /** A reference by value can be to one entry only. */
  lemma SecondReferenceLoses(t: State, e: Entry)
    requires Known(e.kind) && e.id in t.entries && t.entries[e.id] == e && Collides(t, e)
    ensures !Complete(AddToIndex(t, e))
  {
    AddToIndexFacts(t, e);
    var id :| id in t.entries && id != e.id && t.entries[id].pattern == ""
              && t.entries[id].kind == e.kind && t.entries[id].value == e.value;
    hide AddToIndex;
    assert !Indexed(AddToIndex(t, e), id);
  }

  lemma AddLosesOne(lib: Library, s: State, e: Entry, now: int)
    requires IndexSound(s) && AddError(lib, s, e).None? && Collides(s, e)
    ensures !Complete(Add(lib, s, e, now))
  {
    var n := Stamped(e, now);
    var t := s.(entries := s.entries[e.id := n]);
    var id :| id in s.entries && id != e.id && s.entries[id].pattern == ""
              && s.entries[id].kind == e.kind && s.entries[id].value == e.value;
    assert t.entries[id] == s.entries[id];
    SecondReferenceLoses(t, n);
    CompleteIgnoresCounts(AddToIndex(t, n), n, 1);
  }

  lemma CompleteIgnoresCounts(s: State, e: Entry, d: int)
    ensures Complete(CountUp(s, e, d)) <==> Complete(s)
  {
    assert forall id <- s.entries :: Indexed(CountUp(s, e, d), id) <==> Indexed(s, id);
  }

  lemma UpdateLosesOne(lib: Library, s: State, id: string, u: Entry, now: int)
    requires IndexSound(s) && id in s.entries
    requires UpdateError(lib, s, id, u) == Some(InvalidPattern) || Collides(s, Updated(s.entries[id], u, now))
    ensures !Complete(Update(lib, s, id, u, now))
  {
    var e := s.entries[id];
    if UpdateError(lib, s, id, u).Some? {
      UnreferencedAfterRemoval(s, e, HalfUpdated(e, u));
      hide RemoveFromIndex;
      assert !Indexed(Update(lib, s, id, u, now), id);
    } else {
      var n := Updated(e, u, now);
      var t := RemoveFromIndex(s, e).(entries := s.entries[id := n]);
      var x :| x in s.entries && x != n.id && s.entries[x].pattern == ""
               && s.entries[x].kind == n.kind && s.entries[x].value == n.value;
      assert t.entries[x] == s.entries[x];
      hide RemoveFromIndex, AddToIndex;
      SecondReferenceLoses(t, n);
    }
  }

  lemma RemoveKeepsComplete(s: State, id: string)
    requires IndexSound(s) && Complete(s)
    ensures Complete(Remove(s, id))
  {
    if id in s.entries {
      var e := s.entries[id];
      var r, t := RemoveFromIndex(s, e), Remove(s, id);
      hide *;
      SoundEntry(s, id);
      RemoveIs(s, id);
      forall x | x in t.entries ensures Indexed(t, x) {
        OthersStayIndexed(s, e, x);
        IndexedAlike(r, t, x);
      }
      CompleteFrom(t);
    }
  }

  lemma RemoveIs(s: State, id: string)
    requires id in s.entries
    ensures var r, t := RemoveFromIndex(s, s.entries[id]), Remove(s, id);
            && r.entries == s.entries && t.entries == s.entries - {id}
            && t.byValue == r.byValue && t.byPattern == r.byPattern
  {
    IndexOnly(s, s.entries[id]);
    IndexIgnoresEntries(s, s.entries - {id}, s.entries[id]);
    hide RemoveFromIndex;
  }

  lemma IndexedAlike(r: State, t: State, x: string)
    requires x in r.entries && x in t.entries && t.entries[x] == r.entries[x]
    requires t.byValue == r.byValue && t.byPattern == r.byPattern
    ensures Indexed(t, x) <==> Indexed(r, x)
  {
  }

  lemma CompleteFrom(t: State)
    requires forall x <- t.entries :: Indexed(t, x)
    ensures Complete(t)
  {
  }

  // ----- Runs -----

  datatype Call =
    | AddCall(entry: Entry, now: int)
    | UpdateCall(id: string, updates: Entry, now: int)
    | RemoveCall(id: string)
    | CleanupCall(order: seq<string>, now: int)

  /** `order` lists the expired entries once each: the order in which the map was walked. */
  ghost predicate ListsExpired(s: State, order: seq<string>, now: int) {
    Distinct(order) && forall id :: id in order <==> id in s.entries && PastExpiry(s.entries[id], now)
  }

  ghost function Step(lib: Library, s: State, c: Call): State {
    match c
    case AddCall(e, now) => Add(lib, s, e, now)
    case UpdateCall(id, u, now) => Update(lib, s, id, u, now)
    case RemoveCall(id) => Remove(s, id)
    case CleanupCall(order, now) => if ListsExpired(s, order, now) then RemoveAll(s, order) else s
  }

  ghost function Run(lib: Library, calls: seq<Call>): State {
    if calls == [] then INIT else Step(lib, Run(lib, calls[..|calls| - 1]), calls[|calls| - 1])
  }

  /** The call makes no second value-only entry for a kind and value, and does not fail on a bad pattern. */
  predicate Tidy(lib: Library, s: State, c: Call) {
    match c
    case AddCall(e, _) => AddError(lib, s, e).None? ==> !Collides(s, e)
    case UpdateCall(id, u, now) =>
      UpdateError(lib, s, id, u) != Some(InvalidPattern)
      && (id in s.entries ==> !Collides(s, Updated(s.entries[id], u, now)))
    case _ => true
  }

  ghost predicate TidyRun(lib: Library, calls: seq<Call>) {
    calls == [] || (TidyRun(lib, calls[..|calls| - 1])
                    && Tidy(lib, Run(lib, calls[..|calls| - 1]), calls[|calls| - 1]))
  }

  lemma {:induction false} RemoveAllKeeps(s: State, ids: seq<string>)
    requires IndexSound(s) && CountsExact(s)
    ensures IndexSound(RemoveAll(s, ids)) && CountsExact(RemoveAll(s, ids))
    ensures Complete(s) ==> Complete(RemoveAll(s, ids))
    ensures forall id :: id in RemoveAll(s, ids).entries <==> id in s.entries && id !in ids
  {
    if ids != [] {
      var front, last := ids[..|ids| - 1], ids[|ids| - 1];
      assert ids == front + [last];
      RemoveAllKeeps(s, front);
      var t := RemoveAll(s, front);
      RemoveKeepsSound(t, last);
      RemoveCounts(t, last);
      RemoveEntries(t, last);
      if Complete(s) {
        RemoveKeepsComplete(t, last);
      }
      hide IndexSound, CountsExact, Complete, Remove;
    }
  }

  lemma RemoveEntries(s: State, id: string)
    ensures forall x :: x in Remove(s, id).entries <==> x in s.entries && x != id
  {
  }

  /**
   In every reachable state each index reference is to a live entry of the right kind and value, and the counters equal
   the true counts.  After a run of tidy calls every entry is indexed; the first call that is not tidy ends that.
   */
  lemma {:induction false} RunIsSound(lib: Library, calls: seq<Call>)
    ensures IndexSound(Run(lib, calls)) && CountsExact(Run(lib, calls))
    ensures TidyRun(lib, calls) ==> Complete(Run(lib, calls))
    ensures calls != [] && TidyRun(lib, calls[..|calls| - 1]) ==> (Complete(Run(lib, calls)) <==> TidyRun(lib, calls))
  {
    if calls == [] {
      assert forall k: Kind :: OfKind(INIT.entries, k) == {};
    } else {
      var front, c := calls[..|calls| - 1], calls[|calls| - 1];
      RunIsSound(lib, front);
      StepKeeps(lib, Run(lib, front), c);
      hide IndexSound, CountsExact, Complete, Step;
    }
  }

  lemma StepKeeps(lib: Library, s: State, c: Call)
    requires IndexSound(s) && CountsExact(s)
    ensures IndexSound(Step(lib, s, c)) && CountsExact(Step(lib, s, c))
    ensures Complete(s) ==> (Complete(Step(lib, s, c)) <==> Tidy(lib, s, c))
  {
    hide IndexSound, CountsExact, Complete, Add, Update, Remove, RemoveAll, ListsExpired, Collides;
    match c {
      case AddCall(e, now) =>
        AddKeepsSound(lib, s, e, now);
        AddCounts(lib, s, e, now);
        if Complete(s) && Tidy(lib, s, c) { AddKeepsComplete(lib, s, e, now); }
        if !Tidy(lib, s, c) { AddLosesOne(lib, s, e, now); }
      case UpdateCall(id, u, now) =>
        UpdateKeepsSound(lib, s, id, u, now);
        UpdateCounts(lib, s, id, u, now);
        if Complete(s) && Tidy(lib, s, c) { UpdateKeepsComplete(lib, s, id, u, now); }
        if !Tidy(lib, s, c) { UpdateLosesOne(lib, s, id, u, now); }
      case RemoveCall(id) =>
        RemoveKeepsSound(s, id);
        RemoveCounts(s, id);
        if Complete(s) { RemoveKeepsComplete(s, id); }
      case CleanupCall(order, now) =>
        RemoveAllKeeps(s, order);
    }
  }

  // ----- Checks against the scan -----

  lemma {:induction false} FirstMatchFacts(lib: Library, s: State, ids: seq<string>, k: Kind, input: string, now: int)
    requires forall i :: 0 <= i < |ids| ==> ids[i] in s.entries && GoodPatternID(s, k, ids[i])
    ensures var r := FirstMatch(lib, s, ids, k, input, now);
            && (r.Some? ==> r.value in s.entries && r.value in ids && Blocks(lib, s.entries[r.value], k, input, now))
            && (r.None? ==> forall i :: 0 <= i < |ids| ==> !Blocks(lib, s.entries[ids[i]], k, input, now))
  {
    if ids != [] {
      assert forall i :: 0 <= i < |ids| - 1 ==> ids[1..][i] == ids[i + 1];
      FirstMatchFacts(lib, s, ids[1..], k, input, now);
      if FirstMatch(lib, s, ids, k, input, now).None? {
        forall i | 0 <= i < |ids| ensures !Blocks(lib, s.entries[ids[i]], k, input, now) {
          if i > 0 { assert ids[i] == ids[1..][i - 1]; }
        }
      }
    }
  }

  lemma CheckFacts(lib: Library, s: State, k: Kind, input: string, now: int)
    requires IndexSound(s)
    ensures var r := Check(lib, s, k, input, now);
            && (r.Some? ==> r.value in s.entries && Indexed(s, r.value) && Blocks(lib, s.entries[r.value], k, input, now))
            && (r.None? ==> forall id <- s.entries :: Indexed(s, id) ==> !Blocks(lib, s.entries[id], k, input, now))
  {
    var ids := PatternsOf(s, k);
    forall i | 0 <= i < |ids| ensures ids[i] in s.entries && GoodPatternID(s, k, ids[i]) {
      assert ids[i] in PatternsOf(s, k);
      assert GoodPatternID(s, k, ids[i]);
    }
    FirstMatchFacts(lib, s, ids, k, input, now);
    if HitByValue(s, k, input, now) {
      assert GoodValueKey(s, (k, input));
    }
  }

  /** The scan restricted to entries that some index refers to. */
  ghost predicate IndexedScan(lib: Library, s: State, k: Kind, input: string, now: int) {
    exists id <- s.entries :: Indexed(s, id) && Blocks(lib, s.entries[id], k, input, now)
  }

  /**
   In every reachable state a check blocks exactly when a scan of the indexed entries does, and names an entry that is
   live, in force and matches.  While every entry is indexed, the scan is one of all entries.
   */
  lemma CheckAgreesWithScan(lib: Library, calls: seq<Call>, k: Kind, input: string, now: int)
    ensures var s := Run(lib, calls); var r := Check(lib, s, k, input, now);
            && (r.Some? ==> r.value in s.entries && Blocks(lib, s.entries[r.value], k, input, now))
            && (r.Some? <==> IndexedScan(lib, s, k, input, now))
            && (Complete(s) ==> (r.Some? <==> Scan(lib, s, k, input, now)))
  {
    RunIsSound(lib, calls);
    CheckFacts(lib, Run(lib, calls), k, input, now);
    hide Run, Check, Blocks, IndexSound, Indexed;
  }

  /**
   In every reachable state a connection is refused exactly when an indexed entry blocks its client ID, its user name or
   its address; while every entry is indexed, exactly when any entry does.
   */
  lemma ConnectionAgreesWithScan(lib: Library, calls: seq<Call>, c: Client, now: int)
    ensures var s := Run(lib, calls); var refused := CheckConnection(lib, s, c, now).Some?;
            && (refused <==> IndexedScan(lib, s, ClientID, c.clientID, now) || IndexedScan(lib, s, Username, c.username, now)
                             || IndexedScan(lib, s, IPAddress, c.ipAddress, now))
            && (Complete(s) ==> (refused <==> Scan(lib, s, ClientID, c.clientID, now) || Scan(lib, s, Username, c.username, now)
                                              || Scan(lib, s, IPAddress, c.ipAddress, now)))
  {
    CheckAgreesWithScan(lib, calls, ClientID, c.clientID, now);
    CheckAgreesWithScan(lib, calls, Username, c.username, now);
    CheckAgreesWithScan(lib, calls, IPAddress, c.ipAddress, now);
    hide Run, Check, Scan, IndexedScan, Complete;
  }

  // ----- Recorded blocks -----

  const MAX_RECENT := 100

  datatype Block = Block(
    now: int, kind: Kind, value: string, reaction: Reaction, entryID: string, client: Client, reason: string)

  /** What is recorded about refusals; `pending` are the blocks whose goroutine has not run yet. */
  datatype BlockStats = BlockStats(pending: multiset<Block>, total: int, byKind: map<Kind, int>, recent: seq<Block>)

  const NO_BLOCKS := BlockStats(multiset{}, 0, map[], [])

  function BlockCountOf(b: BlockStats, k: Kind): int {
    if k in b.byKind then b.byKind[k] else 0
  }

  /** The block a check leaves behind, if it hits. */
  ghost function BlockOf(lib: Library, s: State, k: Kind, input: string, client: Client, now: int): Option<Block>
    requires IndexSound(s)
  {
    CheckFacts(lib, s, k, input, now);
    var hit := Check(lib, s, k, input, now);
    if hit.None? then None
    else Some(Block(now, k, input, s.entries[hit.value].reaction, hit.value, client, s.entries[hit.value].reason))
  }

  ghost function ConnectionBlock(lib: Library, s: State, c: Client, now: int): Option<Block>
    requires IndexSound(s)
  {
    if Check(lib, s, ClientID, c.clientID, now).Some? then BlockOf(lib, s, ClientID, c.clientID, c, now)
    else if Check(lib, s, Username, c.username, now).Some? then BlockOf(lib, s, Username, c.username, c, now)
    else BlockOf(lib, s, IPAddress, c.ipAddress, c, now)
  }

  function Refused(b: BlockStats, block: Option<Block>): BlockStats {
    if block.None? then b else b.(pending := b.pending + multiset{block.value})
  }

  function Recorded(b: BlockStats, block: Block): BlockStats {
    BlockStats(b.pending - multiset{block}, b.total + 1, b.byKind[block.kind := BlockCountOf(b, block.kind) + 1],
               if |b.recent| + 1 > MAX_RECENT then (b.recent + [block])[1..] else b.recent + [block])
  }

  // ----- Both conditions are needed -----

  function ValueEntry(id: string, value: string): Entry {
    Entry(id, ClientID, value, "", Deny, "", "", 0, 0, None, true, None)
  }

  lemma TwoSteps(lib: Library, a: Call, b: Call)
    ensures Run(lib, [a, b]) == Step(lib, Step(lib, INIT, a), b)
  {
    hide Step;
    assert [a, b][..1] == [a] && [a][..0] == [];
    assert Run(lib, [a]) == Step(lib, Run(lib, []), a);
  }

  /** Two entries for the same client ID: removing one takes the other out of the index, and it blocks no more. */
  lemma SharedValueEscapes(lib: Library, value: string, now: int)
    requires value != ""
    ensures var calls := [AddCall(ValueEntry("1", value), now), AddCall(ValueEntry("2", value), now), RemoveCall("1")];
            var s := Run(lib, calls);
            Scan(lib, s, ClientID, value, now) && Check(lib, s, ClientID, value, now).None?
  {
    var a, b, c := AddCall(ValueEntry("1", value), now), AddCall(ValueEntry("2", value), now), RemoveCall("1");
    TwoSteps(lib, a, b);
    assert [a, b, c][..2] == [a, b];
    var s1, s2 := Add(lib, INIT, a.entry, now), Add(lib, Add(lib, INIT, a.entry, now), b.entry, now);
    assert Run(lib, [a, b, c]) == Remove(s2, "1");
    var s := Remove(s2, "1");
    assert "2" in s.entries && Blocks(lib, s.entries["2"], ClientID, value, now);
    assert (ClientID, value) !in s.byValue && PatternsOf(s, ClientID) == [];
  }

  /** An update with a pattern that does not compile leaves the entry in the table but in no index. */
  lemma BadPatternEscapes(lib: Library, value: string, bad: string, now: int)
    requires value != "" && bad != "" && !lib.compiles(bad)
    ensures var calls := [AddCall(ValueEntry("1", value), now), UpdateCall("1", ValueEntry("1", "").(pattern := bad), now)];
            var s := Run(lib, calls);
            "1" in s.entries && !Indexed(s, "1") && Check(lib, s, ClientID, value, now).None?
  {
    var a, b := AddCall(ValueEntry("1", value), now), UpdateCall("1", ValueEntry("1", "").(pattern := bad), now);
    TwoSteps(lib, a, b);
    var s := Update(lib, Add(lib, INIT, a.entry, now), "1", b.updates, now);
    assert (ClientID, value) !in s.byValue && PatternsOf(s, ClientID) == [];
  }

  // ----- The manager -----

  class BlacklistManager {
    const lib: Library
    var entries: map<string, Entry>
    var valueEntries: map<(Kind, string), string>
    var patternEntries: map<Kind, seq<string>>
    var totalEntries: int
    var entriesByType: map<Kind, int>
    var entriesByAction: map<Reaction, int>
    /** Blocks whose goroutine has not recorded them yet. */
    var pending: multiset<Block>
    var totalBlocks: int
    var blocksByType: map<Kind, int>
    var recentBlocks: seq<Block>

    ghost function View(): State
      reads this
    {
      State(entries, valueEntries, patternEntries, totalEntries, entriesByType, entriesByAction)
    }

    constructor (lib: Library)
      ensures View() == INIT && BlocksView() == NO_BLOCKS && this.lib == lib
    {
      this.lib := lib;
      entries, valueEntries, patternEntries := map[], map[], map[];
      totalEntries, entriesByType, entriesByAction := 0, map[], map[];
      pending, totalBlocks, blocksByType, recentBlocks := multiset{}, 0, map[], [];
    }

    ghost function BlocksView(): BlockStats
      reads this
    {
      BlockStats(pending, totalBlocks, blocksByType, recentBlocks)
    }

    method AddToTypeIndex(e: Entry)
      modifies this`valueEntries, this`patternEntries
      ensures View() == AddToIndex(old(View()), e)
    {
      if e.pattern != "" {
        var patterns := if e.kind in patternEntries then patternEntries[e.kind] else [];
        patternEntries := patternEntries[e.kind := patterns + [e.id]];
      } else if !e.kind.OtherKind? {
        valueEntries := valueEntries[(e.kind, e.value) := e.id];
      }
    }

    method RemoveFromTypeIndex(e: Entry)
      modifies this`valueEntries, this`patternEntries
      ensures View() == RemoveFromIndex(old(View()), e)
    {
      if e.pattern != "" {
        var patterns := if e.kind in patternEntries then patternEntries[e.kind] else [];
        for i := 0 to |patterns|
          invariant e.id !in patterns[..i]
          invariant View() == old(View())
        {
          if patterns[i] == e.id {
            patternEntries := patternEntries[e.kind := patterns[..i] + patterns[i + 1..]];
            WithoutFirstAt(patterns, e.id, i);
            return;
          }
        }
        assert patterns[..|patterns|] == patterns;
      } else {
        valueEntries := valueEntries - {(e.kind, e.value)};
      }
    }

    method UpdateStats(e: Entry, d: int)
      modifies this`totalEntries, this`entriesByType, this`entriesByAction
      ensures View() == CountUp(old(View()), e, d)
    {
      totalEntries := totalEntries + d;
      entriesByType := entriesByType[e.kind := (if e.kind in entriesByType then entriesByType[e.kind] else 0) + d];
      entriesByAction :=
        entriesByAction[e.reaction := (if e.reaction in entriesByAction then entriesByAction[e.reaction] else 0) + d];
    }

    method AddEntry(entry: Entry, now: int) returns (err: Option<Error>)
      modifies this
      ensures err == AddError(lib, old(View()), entry)
      ensures View() == Add(lib, old(View()), entry, now)
    {
      if Fault(entry).Some? {
        return Fault(entry);
      }
      if entry.id in entries {
        return Some(AlreadyExists);
      }
      var e := entry;
      if entry.pattern != "" {
        if !lib.compiles(entry.pattern) {
          return Some(InvalidPattern);
        }
        e := e.(compiled := Some(entry.pattern));
      }
      e := e.(createdAt := now, updatedAt := now);
      entries := entries[e.id := e];
      AddToTypeIndex(e);
      UpdateStats(e, 1);
      err := None;
    }

    method UpdateEntry(id: string, updates: Entry, now: int) returns (err: Option<Error>)
      modifies this
      ensures err == UpdateError(lib, old(View()), id, updates)
      ensures View() == Update(lib, old(View()), id, updates, now)
    {
      hide RemoveFromIndex, AddToIndex;
      if id !in entries {
        return Some(NotFound);
      }
      var e := entries[id];
      IndexOnly(View(), e);
      RemoveFromTypeIndex(e);
      if updates.value != "" {
        e := e.(value := updates.value);
      }
      if updates.pattern != "" {
        e := e.(pattern := updates.pattern);
        if !lib.compiles(e.pattern) {
          entries := entries[id := e];
          return Some(InvalidPattern);
        }
        e := e.(compiled := Some(e.pattern));
      }
      if updates.reaction != OtherReaction("") {
        e := e.(reaction := updates.reaction);
      }
      if updates.reason != "" {
        e := e.(reason := updates.reason);
      }
      if updates.description != "" {
        e := e.(description := updates.description);
      }
      e := e.(enabled := updates.enabled, updatedAt := now);
      if updates.expiresAt.Some? {
        e := e.(expiresAt := updates.expiresAt);
      }
      assert e == Updated(old(entries)[id], updates, now);
      hide Updated, HalfUpdated;
      entries := entries[id := e];
      AddToTypeIndex(e);
      err := None;
    }

    method RemoveEntry(id: string) returns (err: Option<Error>)
      modifies this
      ensures err == if id in old(entries) then None else Some(NotFound)
      ensures View() == Remove(old(View()), id)
    {
      if id !in entries {
        return Some(NotFound);
      }
      var e := entries[id];
      entries := entries - {id};
      RemoveFromTypeIndex(e);
      UpdateStats(e, -1);
      err := None;
    }

    /** `order` is the order in which the map was walked. */
    method CleanupExpiredEntries(now: int) returns (removed: nat, ghost order: seq<string>)
      modifies this
      ensures ListsExpired(old(View()), order, now) && removed == |order|
      ensures View() == RemoveAll(old(View()), order)
    {
      ghost var start := View();
      var todo := entries.Keys;
      removed, order := 0, [];
      while todo != {}
        invariant todo <= entries.Keys && removed == |order|
        invariant View() == RemoveAll(start, order)
        invariant forall id <- todo :: id in start.entries && entries[id] == start.entries[id]
        invariant Distinct(order) && forall id <- order :: id !in todo && id in start.entries && PastExpiry(start.entries[id], now)
        invariant forall id <- start.entries :: PastExpiry(start.entries[id], now) ==> id in todo || id in order
        decreases todo
      {
        var id :| id in todo;
        todo := todo - {id};
        if entries[id].expiresAt.Some? && now > entries[id].expiresAt.value {
          RemoveShape(View(), id);
          var err := RemoveEntry(id);
          assert (order + [id])[..|order|] == order;
          order := order + [id];
          removed := removed + 1;
        }
      }
    }

    /** checkClientID, checkUsername, checkIPAddress and checkTopic differ only in the kind. */
    method CheckKind(k: Kind, input: string, now: int) returns (hit: Option<string>)
      requires IndexSound(View())
      ensures hit == Check(lib, View(), k, input, now)
    {
      if (k, input) in valueEntries {
        assert GoodValueKey(View(), (k, input));
        var e := entries[valueEntries[(k, input)]];
        if e.enabled && (e.expiresAt.None? || now < e.expiresAt.value) {
          return Some(valueEntries[(k, input)]);
        }
      }
      var patterns := if k in patternEntries then patternEntries[k] else [];
      assert patterns == PatternsOf(View(), k);
      for i := 0 to |patterns|
        invariant FirstMatch(lib, View(), patterns, k, input, now) == FirstMatch(lib, View(), patterns[i..], k, input, now)
      {
        assert patterns[i] in PatternsOf(View(), k);
        assert GoodPatternID(View(), k, patterns[i]);
        var e := entries[patterns[i]];
        assert patterns[i..][0] == patterns[i] && patterns[i..][1..] == patterns[i + 1..];
        if e.enabled && (e.expiresAt.None? || now < e.expiresAt.value) && PatternMatches(lib, e, k, input) {
          return Some(patterns[i]);
        }
      }
      hit := None;
    }

    method CheckClientConnection(client: Client, now: int) returns (hit: Option<string>)
      requires IndexSound(View())
      modifies this`pending
      ensures hit == CheckConnection(lib, View(), client, now)
      ensures BlocksView() == Refused(old(BlocksView()), ConnectionBlock(lib, View(), client, now))
    {
      hide Check, IndexSound;
      hit := CheckKind(ClientID, client.clientID, now);
      if hit.Some? {
        RecordBlockLater(ClientID, client.clientID, client, now, hit.value);
        return;
      }
      hit := CheckKind(Username, client.username, now);
      if hit.Some? {
        RecordBlockLater(Username, client.username, client, now, hit.value);
        return;
      }
      hit := CheckKind(IPAddress, client.ipAddress, now);
      if hit.Some? {
        RecordBlockLater(IPAddress, client.ipAddress, client, now, hit.value);
      }
    }

    method CheckTopicAccess(topic: string, client: Client, now: int) returns (hit: Option<string>)
      requires IndexSound(View())
      modifies this`pending
      ensures hit == Check(lib, View(), Topic, topic, now)
      ensures BlocksView() == Refused(old(BlocksView()), BlockOf(lib, View(), Topic, topic, client, now))
    {
      hide Check, IndexSound;
      hit := CheckKind(Topic, topic, now);
      if hit.Some? {
        RecordBlockLater(Topic, topic, client, now, hit.value);
      }
    }

    /** recordBlock up to the goroutine it starts. */
    method RecordBlockLater(k: Kind, input: string, client: Client, now: int, id: string)
      requires IndexSound(View()) && Check(lib, View(), k, input, now) == Some(id)
      modifies this`pending
      ensures BlocksView() == Refused(old(BlocksView()), BlockOf(lib, View(), k, input, client, now))
      ensures BlockOf(lib, View(), k, input, client, now).Some?
    {
      CheckFacts(lib, View(), k, input, now);
      hide Check, IndexSound;
      pending := pending + multiset{Block(now, k, input, entries[id].reaction, id, client, entries[id].reason)};
    }

    /** The goroutine that recordBlock starts, once it has the lock. */
    method RecordBlock(b: Block)
      requires b in pending
      modifies this`pending, this`totalBlocks, this`blocksByType, this`recentBlocks
      ensures BlocksView() == Recorded(old(BlocksView()), b)
    {
      pending := pending - multiset{b};
      totalBlocks := totalBlocks + 1;
      blocksByType := blocksByType[b.kind := (if b.kind in blocksByType then blocksByType[b.kind] else 0) + 1];
      recentBlocks := recentBlocks + [b];
      if |recentBlocks| > MAX_RECENT {
        recentBlocks := recentBlocks[1..];
      }
    }
  }
}
