/** strings.Split with a one-character separator, and its inverse. */
module Strings {

  function Split(s: string, sep: char): (r: seq<string>)
    ensures |r| >= 1
  {
    if s == "" then [""]
    else
      var rest := Split(s[1..], sep);
      if s[0] == sep then [""] + rest else [[s[0]] + rest[0]] + rest[1..]
  }

  function Join(parts: seq<string>, sep: char): string
    requires |parts| >= 1
  {
    if |parts| == 1 then parts[0] else parts[0] + [sep] + Join(parts[1..], sep)
  }

  predicate Free(s: string, sep: char) {
    sep !in s
  }

  lemma {:induction false} SplitPartsAreFree(s: string, sep: char)
    ensures forall i :: 0 <= i < |Split(s, sep)| ==> Free(Split(s, sep)[i], sep)
  {
    if s != "" {
      SplitPartsAreFree(s[1..], sep);
      var rest := Split(s[1..], sep);
      assert forall i :: 1 <= i < |rest| ==> rest[1..][i - 1] == rest[i];
    }
  }

  lemma {:induction false} SplitAfterPart(p: string, s: string, sep: char)
    requires Free(p, sep)
    ensures Split(p + [sep] + s, sep) == [p] + Split(s, sep)
  {
    var whole := p + [sep] + s;
    if p == "" {
      assert whole[1..] == s;
    } else {
      assert Free(p[1..], sep) by { assert forall c :: c in p[1..] ==> c in p; }
      SplitAfterPart(p[1..], s, sep);
      assert whole[1..] == p[1..] + [sep] + s;
      assert whole[0] == p[0] && p[0] in p;
      assert [p[0]] + p[1..] == p;
    }
  }

  lemma {:induction false} SplitOnePart(p: string, sep: char)
    requires Free(p, sep)
    ensures Split(p, sep) == [p]
  {
    if p != "" {
      assert Free(p[1..], sep) by { assert forall c :: c in p[1..] ==> c in p; }
      SplitOnePart(p[1..], sep);
      assert p[0] in p;
      assert [p[0]] + p[1..] == p;
    }
  }

  /** Splitting what was joined gives the parts back. */
  lemma {:induction false} SplitJoin(parts: seq<string>, sep: char)
    requires |parts| >= 1 && forall i :: 0 <= i < |parts| ==> Free(parts[i], sep)
    ensures Split(Join(parts, sep), sep) == parts
  {
    if |parts| == 1 {
      SplitOnePart(parts[0], sep);
    } else {
      SplitJoin(parts[1..], sep);
      SplitAfterPart(parts[0], Join(parts[1..], sep), sep);
    }
  }

  /** And joining what was split gives the string back. */
  lemma {:induction false} JoinSplit(s: string, sep: char)
    ensures Join(Split(s, sep), sep) == s
  {
    if s != "" {
      JoinSplit(s[1..], sep);
      var rest, parts := Split(s[1..], sep), Split(s, sep);
      assert s == [s[0]] + s[1..];
      hide Split;
      if s[0] == sep {
        assert parts[1..] == rest;
      } else if |rest| > 1 {
        assert parts[1..] == rest[1..];
        assert Join(rest, sep) == rest[0] + [sep] + Join(rest[1..], sep);
      }
    }
  }
}

/**
 Topic filters.  Three matchers of the repository: the recursive one of pkg/blacklist/manager.go, the one with index
 loops of pkg/retainer/retainer.go, and the simplified one of pkg/persistent/offline.go, against each other and against
 the level-wise reading of section 4.7.1 of MQTT 3.1.1.
 */
module Topics {
  import opened Strings

  // ----- pkg/persistent/offline.go -----

  predicate BasicTopicMatch(topic: string, filter: string) {
    topic == filter || filter == "#"
  }

  // ----- pkg/blacklist/manager.go -----

  predicate MatchTopicLevels(topic: seq<string>, filter: seq<string>, topicIndex: nat, filterIndex: nat)
    decreases |filter| - filterIndex
  {
    if filterIndex >= |filter| then topicIndex >= |topic|
    else if topicIndex >= |topic| then filterIndex == |filter| - 1 && filter[filterIndex] == "#"
    else if filter[filterIndex] == "#" then true
    else if filter[filterIndex] == "+" then MatchTopicLevels(topic, filter, topicIndex + 1, filterIndex + 1)
    else if filter[filterIndex] == topic[topicIndex] then MatchTopicLevels(topic, filter, topicIndex + 1, filterIndex + 1)
    else false
  }

  predicate MatchMQTTTopicFilter(topic: string, filter: string) {
    MatchTopicLevels(Split(topic, '/'), Split(filter, '/'), 0, 0)
  }

  // ----- Section 4.7.1 of MQTT 3.1.1 -----

  predicate LevelMatches(filterLevel: string, topicLevel: string) {
    filterLevel == "+" || filterLevel == topicLevel
  }

  /** Level by level; a final "#" stands for any number of further levels, including none. */
  predicate FilterMatches(topic: seq<string>, filter: seq<string>)
    requires |filter| >= 1
  {
    if filter[|filter| - 1] == "#" then
      |filter| - 1 <= |topic| && forall i :: 0 <= i < |filter| - 1 ==> LevelMatches(filter[i], topic[i])
    else
      |filter| == |topic| && forall i :: 0 <= i < |filter| ==> LevelMatches(filter[i], topic[i])
  }

  // ----- pkg/retainer/retainer.go -----

  predicate RetainerMatches(topic: string, filter: string) {
    topic == filter || filter == "#" || FilterMatches(Split(topic, '/'), Split(filter, '/'))
  }

  method MatchTopicFilter(topic: string, filter: string) returns (matched: bool)
    ensures matched <==> RetainerMatches(topic, filter)
  {
    if topic == filter {
      return true;
    }
    if filter == "#" {
      return true;
    }
    var topicLevels := Split(topic, '/');
    var filterLevels := Split(filter, '/');
    if |filterLevels| > 0 && filterLevels[|filterLevels| - 1] == "#" {
      for i := 0 to |filterLevels| - 1
        invariant i <= |topicLevels|
        invariant forall k :: 0 <= k < i ==> LevelMatches(filterLevels[k], topicLevels[k])
      {
        if i >= |topicLevels| {
          return false;
        }
        if filterLevels[i] != "+" && filterLevels[i] != topicLevels[i] {
          assert !LevelMatches(filterLevels[i], topicLevels[i]);
          return false;
        }
      }
      return true;
    }
    if |topicLevels| != |filterLevels| {
      return false;
    }
    for i := 0 to |filterLevels|
      invariant forall k :: 0 <= k < i ==> LevelMatches(filterLevels[k], topicLevels[k])
    {
      if filterLevels[i] == "+" {
        continue;
      }
      if filterLevels[i] != topicLevels[i] {
        assert !LevelMatches(filterLevels[i], topicLevels[i]);
        return false;
      }
    }
    return true;
  }

  // ----- Agreement -----

  /** "#" stands alone in the last level or nowhere. */
  predicate HashOnlyLast(filter: seq<string>) {
    forall i :: 0 <= i < |filter| - 1 ==> filter[i] != "#"
  }

  lemma FilterMatchesTail(topic: seq<string>, filter: seq<string>)
    requires |filter| >= 2 && topic != [] && filter[0] != "#"
    ensures FilterMatches(topic, filter) <==> LevelMatches(filter[0], topic[0]) && FilterMatches(topic[1..], filter[1..])
  {
    var t, f := topic[1..], filter[1..];
    assert forall i :: 1 <= i < |filter| ==> filter[i] == f[i - 1];
    assert forall i :: 1 <= i < |topic| ==> topic[i] == t[i - 1];
    if FilterMatches(topic, filter) {
      assert forall i :: 0 <= i < |f| && i < |t| ==> f[i] == filter[i + 1] && t[i] == topic[i + 1];
    }
  }

  lemma {:induction false} RecursiveMatcherFromIndex(topic: seq<string>, filter: seq<string>, i: nat)
    requires HashOnlyLast(filter) && i < |filter| && i <= |topic|
    ensures MatchTopicLevels(topic, filter, i, i) <==> FilterMatches(topic[i..], filter[i..])
    decreases |filter| - i
  {
    var t, f := topic[i..], filter[i..];
    assert f[0] == filter[i] && f[|f| - 1] == filter[|filter| - 1];
    if i == |topic| {
      assert t == [];
    } else {
      assert t[0] == topic[i];
      if |f| == 1 {
        assert |t| >= 1;
        assert MatchTopicLevels(topic, filter, i + 1, i + 1) <==> |t| == 1;
      } else {
        assert f[0] != "#";
        RecursiveMatcherFromIndex(topic, filter, i + 1);
        assert t[1..] == topic[i + 1..] && f[1..] == filter[i + 1..];
        FilterMatchesTail(t, f);
      }
    }
  }

  /** The recursive matcher implements section 4.7.1 on every filter whose "#" is the whole last level. */
  lemma RecursiveMatcherIsStandard(topic: string, filter: string)
    requires HashOnlyLast(Split(filter, '/'))
    ensures MatchMQTTTopicFilter(topic, filter) <==> FilterMatches(Split(topic, '/'), Split(filter, '/'))
  {
    var t, f := Split(topic, '/'), Split(filter, '/');
    RecursiveMatcherFromIndex(t, f, 0);
    assert t[0..] == t && f[0..] == f;
  }

  /** So does the one with index loops: its two shortcuts agree with the level-wise reading. */
  lemma IterativeMatcherIsStandard(topic: string, filter: string)
    requires HashOnlyLast(Split(filter, '/'))
    ensures RetainerMatches(topic, filter) <==> FilterMatches(Split(topic, '/'), Split(filter, '/'))
  {
    SplitOnePart("#", '/');
  }

  /** A topic on which the two matchers differ, for a filter with "#" in an earlier level. */
  function Telltale(filter: seq<string>): (r: seq<string>)
    requires !HashOnlyLast(filter)
    ensures 1 <= |r| < |filter| && filter[|r| - 1] == "#" && r[|r| - 1] == "x"
    ensures forall i :: 0 <= i < |r| - 1 ==> filter[i] != "#" && r[i] == if filter[i] == "+" then "x" else filter[i]
  {
    if filter[0] == "#" then ["x"]
    else
      assert !HashOnlyLast(filter[1..]) by {
        var i :| 0 <= i < |filter| - 1 && filter[i] == "#";
        assert filter[1..][i - 1] == "#";
      }
      [if filter[0] == "+" then "x" else filter[0]] + Telltale(filter[1..])
  }

  lemma {:induction false} TelltaleMatches(filter: seq<string>, i: nat)
    requires !HashOnlyLast(filter) && i < |Telltale(filter)|
    ensures MatchTopicLevels(Telltale(filter), filter, i, i)
    decreases |filter| - i
  {
    var t := Telltale(filter);
    if i < |t| - 1 {
      TelltaleMatches(filter, i + 1);
    }
  }

  lemma TelltaleDenied(filter: seq<string>)
    requires !HashOnlyLast(filter)
    ensures !FilterMatches(Telltale(filter), filter)
  {
    var k := |Telltale(filter)| - 1;
    assert !LevelMatches(filter[k], Telltale(filter)[k]);
  }

  lemma TelltaleLevelIsFree(filter: seq<string>, i: nat)
    requires !HashOnlyLast(filter) && i < |Telltale(filter)| && Free(filter[i], '/')
    ensures Free(Telltale(filter)[i], '/')
  {
    hide Telltale;
    assert Free("x", '/');
  }

  lemma TelltaleIsFree(filter: string)
    requires !HashOnlyLast(Split(filter, '/'))
    ensures forall i :: 0 <= i < |Telltale(Split(filter, '/'))| ==> Free(Telltale(Split(filter, '/'))[i], '/')
  {
    SplitPartsAreFree(filter, '/');
    hide *;
    forall i | 0 <= i < |Telltale(Split(filter, '/'))| ensures Free(Telltale(Split(filter, '/'))[i], '/') {
      TelltaleLevelIsFree(Split(filter, '/'), i);
    }
  }

  lemma MatchersDiffer(filter: string)
    requires !HashOnlyLast(Split(filter, '/'))
    ensures var topic := Join(Telltale(Split(filter, '/')), '/');
            MatchMQTTTopicFilter(topic, filter) && !RetainerMatches(topic, filter)
  {
    hide Split, Join, Telltale, FilterMatches, MatchTopicLevels, HashOnlyLast, Free;
    var f := Split(filter, '/');
    TelltaleIsFree(filter);
    SplitJoin(Telltale(f), '/');
    TelltaleMatches(f, 0);
    TelltaleDenied(f);
    HashHasOneLevel();
  }

  lemma HashHasOneLevel()
    ensures Split("#", '/') == ["#"]
  {
    SplitOnePart("#", '/');
  }

  /**
   The recursive and the iterative matcher give the same answer on every topic if and only if no level of the filter
   before the last is "#".
   */
  lemma MatchersAgreeIff(filter: string)
    ensures (forall topic :: MatchMQTTTopicFilter(topic, filter) <==> RetainerMatches(topic, filter))
            <==> HashOnlyLast(Split(filter, '/'))
  {
    if HashOnlyLast(Split(filter, '/')) {
      forall topic ensures MatchMQTTTopicFilter(topic, filter) <==> RetainerMatches(topic, filter) {
        RecursiveMatcherIsStandard(topic, filter);
        IterativeMatcherIsStandard(topic, filter);
      }
    } else {
      MatchersDiffer(filter);
    }
  }

  lemma {:induction false} EqualLevelsMatch(levels: seq<string>, i: nat)
    requires i <= |levels|
    ensures MatchTopicLevels(levels, levels, i, i)
    decreases |levels| - i
  {
    if i < |levels| {
      EqualLevelsMatch(levels, i + 1);
    }
  }

  /** The simplified matcher never claims a match the other two deny, on any filter. */
  lemma BasicImpliesBoth(topic: string, filter: string)
    requires BasicTopicMatch(topic, filter)
    ensures MatchMQTTTopicFilter(topic, filter) && RetainerMatches(topic, filter)
  {
    EqualLevelsMatch(Split(topic, '/'), 0);
    SplitOnePart("#", '/');
  }

  // ----- Where the simplified matcher falls short -----

  predicate NoWildcard(filter: seq<string>) {
    forall i :: 0 <= i < |filter| ==> filter[i] != "+" && filter[i] != "#"
  }

  /** The iterative matcher reads "#" as a wildcard in the last level only. */
  predicate NoEffectiveWildcard(filter: seq<string>)
    requires |filter| >= 1
  {
    filter[|filter| - 1] != "#" && forall i :: 0 <= i < |filter| ==> filter[i] != "+"
  }

  predicate IsWildcard(filter: seq<string>, i: nat)
    requires i < |filter|
  {
    filter[i] == "+" || (i == |filter| - 1 && filter[i] == "#")
  }

  /** A topic that the filter stands for: every wildcard filled in. */
  function Filled(filter: seq<string>): (r: seq<string>)
    ensures |r| == |filter|
    ensures forall i :: 0 <= i < |filter| ==> r[i] == if IsWildcard(filter, i) then "x" else filter[i]
  {
    seq(|filter|, i requires 0 <= i < |filter| => if IsWildcard(filter, i) then "x" else filter[i])
  }

  lemma FilledMatches(filter: seq<string>)
    requires |filter| >= 1
    ensures FilterMatches(Filled(filter), filter)
    ensures !NoEffectiveWildcard(filter) ==> Filled(filter) != filter
  {
    if !NoEffectiveWildcard(filter) {
      var last := |filter| - 1;
      var i :| 0 <= i < |filter| && filter[i] == if filter[last] == "#" then "#" else "+";
      assert Filled(filter)[if filter[last] == "#" then last else i] == "x";
    }
  }

  lemma FilledSplits(filter: string)
    ensures Split(Join(Filled(Split(filter, '/')), '/'), '/') == Filled(Split(filter, '/'))
  {
    SplitPartsAreFree(filter, '/');
    var f := Split(filter, '/');
    forall i | 0 <= i < |f| ensures Free(Filled(f)[i], '/') {
      assert Free("x", '/') && Free(f[i], '/');
    }
    SplitJoin(Filled(f), '/');
  }

  /** A topic that a filter with a wildcard matches without being equal to it. */
  lemma FilledTopic(filter: string)
    requires !NoEffectiveWildcard(Split(filter, '/'))
    ensures var topic := Join(Filled(Split(filter, '/')), '/');
            topic != filter && FilterMatches(Split(topic, '/'), Split(filter, '/'))
  {
    FilledSplits(filter);
    FilledMatches(Split(filter, '/'));
  }

  /** Without wildcards a filter matches itself alone. */
  lemma PlainFilter(topic: string, filter: string)
    requires NoEffectiveWildcard(Split(filter, '/')) && FilterMatches(Split(topic, '/'), Split(filter, '/'))
    ensures topic == filter
  {
    var t, f := Split(topic, '/'), Split(filter, '/');
    forall i | 0 <= i < |f| ensures t[i] == f[i] { assert LevelMatches(f[i], t[i]); }
    assert t == f;
    JoinSplit(topic, '/');
    JoinSplit(filter, '/');
  }

  /** The simplified and the iterative matcher agree exactly on "#" and on filters without an effective wildcard. */
  lemma BasicAgreesWithRetainerIff(filter: string)
    ensures (forall topic :: BasicTopicMatch(topic, filter) <==> RetainerMatches(topic, filter))
            <==> filter == "#" || NoEffectiveWildcard(Split(filter, '/'))
  {
    if filter != "#" && !NoEffectiveWildcard(Split(filter, '/')) {
      FilledTopic(filter);
      var topic := Join(Filled(Split(filter, '/')), '/');
      assert RetainerMatches(topic, filter) && !BasicTopicMatch(topic, filter);
    } else if filter != "#" {
      forall topic ensures BasicTopicMatch(topic, filter) <==> RetainerMatches(topic, filter) {
        if FilterMatches(Split(topic, '/'), Split(filter, '/')) {
          PlainFilter(topic, filter);
        }
      }
    }
  }

  /** The simplified and the recursive matcher agree exactly on "#" and on filters without any wildcard. */
  lemma BasicAgreesWithRecursiveIff(filter: string)
    ensures (forall topic :: BasicTopicMatch(topic, filter) <==> MatchMQTTTopicFilter(topic, filter))
            <==> filter == "#" || NoWildcard(Split(filter, '/'))
  {
    var f := Split(filter, '/');
    hide Split, Join, MatchTopicLevels, FilterMatches, Filled, Telltale;
    if filter == "#" {
      forall topic ensures MatchMQTTTopicFilter(topic, filter) { BasicImpliesBoth(topic, filter); }
    } else if !HashOnlyLast(f) {
      MatchersDiffer(filter);
      var topic := Join(Telltale(f), '/');
      assert !BasicTopicMatch(topic, filter);
    } else {
      BasicAgreesWithRetainerIff(filter);
      forall topic ensures MatchMQTTTopicFilter(topic, filter) <==> RetainerMatches(topic, filter) {
        RecursiveMatcherIsStandard(topic, filter);
        IterativeMatcherIsStandard(topic, filter);
      }
      assert NoWildcard(f) <==> NoEffectiveWildcard(f);
    }
  }
}
