/**
 Leader election among core nodes: performLeaderElection and GetCoreNodes of pkg/mria/manager.go.

 Each core node scans its own list of core nodes, in whatever order a map gives it, and takes the running node with the
 smallest ID as leader.  The lemmas give the exact condition under which that order does not matter, show that nodes
 with equal views agree on one leader, and follow the leadership notifications over whole runs.
 */
module Election {

  datatype NodeInfo = NodeInfo(nodeID: string, status: int)
  datatype Role = Core | Replicant

  const STATUS_RUNNING := 2

  // ----- Order of node IDs -----

  /** Go's `<` on strings. */
  predicate Less(a: string, b: string) {
    b != [] && (a == [] || a[0] < b[0] || (a[0] == b[0] && Less(a[1..], b[1..])))
  }

  lemma {:induction false} LessIsTotal(a: string, b: string)
    ensures Less(a, b) || a == b || Less(b, a)
    ensures !(Less(a, b) && Less(b, a))
    ensures !Less(a, a)
  {
    if a != [] {
      LessIsTotal(a[1..], if b == [] then [] else b[1..]);
    }
    if a != [] && b != [] && a[0] == b[0] && a[1..] == b[1..] {
      assert a == [a[0]] + a[1..] && b == [b[0]] + b[1..];
    }
  }

  lemma {:induction false} LessIsTransitive(a: string, b: string, c: string)
    requires Less(a, b) && Less(b, c)
    ensures Less(a, c)
  {
    if a != [] && a[0] == b[0] == c[0] {
      LessIsTransitive(a[1..], b[1..], c[1..]);
    }
  }

  // ----- One scan -----

  predicate Runs(n: NodeInfo) {
    n.status == STATUS_RUNNING
  }

  function Better(leader: string, n: NodeInfo): string {
    if Runs(n) && (leader == "" || Less(n.nodeID, leader)) then n.nodeID else leader
  }

  function Elect(nodes: seq<NodeInfo>): string {
    if nodes == [] then "" else Better(Elect(nodes[..|nodes| - 1]), nodes[|nodes| - 1])
  }

  /** A running node is listed under this ID. */
  ghost predicate RunningID(nodes: seq<NodeInfo>, id: string) {
    NodeInfo(id, STATUS_RUNNING) in nodes
  }

  ghost predicate Smallest(nodes: seq<NodeInfo>, id: string) {
    RunningID(nodes, id) && forall x :: RunningID(nodes, x) ==> !Less(x, id)
  }

  ghost predicate NoneRunning(nodes: seq<NodeInfo>) {
    forall x :: !RunningID(nodes, x)
  }

  lemma RunningSplits(nodes: seq<NodeInfo>, id: string)
    requires nodes != []
    ensures RunningID(nodes, id)
            <==> RunningID(nodes[..|nodes| - 1], id) || nodes[|nodes| - 1] == NodeInfo(id, STATUS_RUNNING)
  {
    assert nodes == nodes[..|nodes| - 1] + [nodes[|nodes| - 1]];
  }

  /** The scan finds the smallest running ID, and no leader at all when nothing runs. */
  lemma {:induction false} ElectIsSmallest(nodes: seq<NodeInfo>)
    requires !RunningID(nodes, "")
    ensures if NoneRunning(nodes) then Elect(nodes) == "" else Smallest(nodes, Elect(nodes))
  {
    if nodes != [] {
      var front, last := nodes[..|nodes| - 1], nodes[|nodes| - 1];
      forall x ensures RunningID(nodes, x) <==> RunningID(front, x) || last == NodeInfo(x, STATUS_RUNNING) {
        RunningSplits(nodes, x);
      }
      ElectIsSmallest(front);
      if Runs(last) {
        assert last == NodeInfo(last.nodeID, STATUS_RUNNING);
        assert RunningID(nodes, last.nodeID);
        ElectNext(nodes, front, last);
      } else {
        assert forall x :: RunningID(nodes, x) <==> RunningID(front, x);
      }
    }
  }

  lemma ElectNext(nodes: seq<NodeInfo>, front: seq<NodeInfo>, last: NodeInfo)
    requires Runs(last) && last.nodeID != ""
    requires forall x :: RunningID(nodes, x) <==> RunningID(front, x) || last == NodeInfo(x, STATUS_RUNNING)
    requires if NoneRunning(front) then Elect(front) == "" else Smallest(front, Elect(front))
    requires !RunningID(front, "")
    ensures Smallest(nodes, Better(Elect(front), last))
  {
    hide Elect, Less, RunningID;
    var was, now := Elect(front), Better(Elect(front), last);
    assert RunningID(nodes, now);
    forall x | RunningID(nodes, x) ensures !Less(x, now) {
      LessIsTotal(now, now);
      LessIsTotal(now, was);
      if RunningID(front, x) && Less(x, now) && now != was {
        LessIsTransitive(x, now, was);
      }
    }
  }

  lemma SmallestIsUnique(v: seq<NodeInfo>, w: seq<NodeInfo>, a: string, b: string)
    requires forall x :: RunningID(v, x) <==> RunningID(w, x)
    requires Smallest(v, a) && Smallest(w, b)
    ensures a == b
  {
    LessIsTotal(a, b);
  }

  // ----- When the order of the scan matters -----

  /** Two enumerations of the same core nodes. */
  ghost predicate SameView(v: seq<NodeInfo>, w: seq<NodeInfo>) {
    multiset(v) == multiset(w)
  }

  lemma SameViewSameRunning(v: seq<NodeInfo>, w: seq<NodeInfo>)
    requires SameView(v, w)
    ensures forall x :: RunningID(v, x) <==> RunningID(w, x)
  {
    forall x ensures RunningID(v, x) <==> RunningID(w, x) {
      var n := NodeInfo(x, STATUS_RUNNING);
      assert n in v <==> n in multiset(v);
      assert n in w <==> n in multiset(w);
    }
  }

  ghost predicate OrderMatters(nodes: seq<NodeInfo>) {
    exists w :: SameView(nodes, w) && Elect(w) != Elect(nodes)
  }

  ghost predicate MixesEmptyID(nodes: seq<NodeInfo>) {
    RunningID(nodes, "") && exists x :: x != "" && RunningID(nodes, x)
  }

  /** The leader is the same for every order of the map exactly when no running node with an empty ID meets another one. */
  lemma OrderMattersIff(nodes: seq<NodeInfo>)
    ensures OrderMatters(nodes) <==> MixesEmptyID(nodes)
  {
    if MixesEmptyID(nodes) {
      OrderDecides(nodes);
    } else {
      forall w | SameView(nodes, w) ensures Elect(w) == Elect(nodes) {
        SameLeader(nodes, w);
      }
    }
  }

  lemma SameLeader(v: seq<NodeInfo>, w: seq<NodeInfo>)
    requires SameView(v, w) && !MixesEmptyID(v)
    ensures Elect(v) == Elect(w)
  {
    SameViewSameRunning(v, w);
    if RunningID(v, "") {
      OnlyEmpty(v);
      OnlyEmpty(w);
    } else {
      ElectIsSmallest(v);
      ElectIsSmallest(w);
      if !NoneRunning(v) {
        SmallestIsUnique(v, w, Elect(v), Elect(w));
      }
    }
  }

  lemma {:induction false} OnlyEmpty(nodes: seq<NodeInfo>)
    requires forall x :: RunningID(nodes, x) ==> x == ""
    ensures Elect(nodes) == ""
  {
    if nodes != [] {
      var front, last := nodes[..|nodes| - 1], nodes[|nodes| - 1];
      forall x | RunningID(front, x) ensures x == "" { RunningSplits(nodes, x); }
      OnlyEmpty(front);
      assert Runs(last) ==> last == NodeInfo(last.nodeID, STATUS_RUNNING) && RunningID(nodes, last.nodeID);
    }
  }

  /** With the empty ID scanned last there is no leader; with another one scanned last there is. */
  lemma OrderDecides(nodes: seq<NodeInfo>)
    requires MixesEmptyID(nodes)
    ensures OrderMatters(nodes)
  {
    var x :| x != "" && RunningID(nodes, x);
    var v := ScannedLast(nodes, NodeInfo("", STATUS_RUNNING));
    var w := ScannedLast(nodes, NodeInfo(x, STATUS_RUNNING));
    assert Elect(v) == "" && Elect(w) != "";
    assert Elect(v) != Elect(nodes) || Elect(w) != Elect(nodes);
  }

  lemma ScannedLast(nodes: seq<NodeInfo>, n: NodeInfo) returns (w: seq<NodeInfo>)
    requires n in nodes
    ensures SameView(nodes, w) && w != [] && w[|w| - 1] == n
  {
    var i :| 0 <= i < |nodes| && nodes[i] == n;
    WithoutCounts(nodes, i);
    w := Without(nodes, i) + [n];
  }

  // ----- One node over many elections -----

  /** What a node knows about the leader, and the notifications it has sent (true for becoming leader). */
  datatype State = State(leader: string, isLeader: bool, notices: seq<bool>)

  const INIT := State("", false, [])

  function PerformElection(role: Role, me: string, s: State, nodes: seq<NodeInfo>): State {
    if role != Core || nodes == [] then s
    else
      var leader := Elect(nodes);
      var isLeader := leader == me;
      State(leader, isLeader,
            if s.leader == leader || isLeader == s.isLeader then s.notices else s.notices + [isLeader])
  }

  /** The state after elections over the given enumerations of the node's core list. */
  function Run(role: Role, me: string, views: seq<seq<NodeInfo>>): State {
    if views == [] then INIT
    else PerformElection(role, me, Run(role, me, views[..|views| - 1]), views[|views| - 1])
  }

  /** The notifications alternate, the first is "become", and the last one says what the node believes now. */
  ghost predicate Faithful(s: State) {
    && (forall i :: 0 <= i < |s.notices| ==> s.notices[i] == (i % 2 == 0))
    && s.isLeader == (|s.notices| % 2 == 1)
  }

  lemma {:induction false} RunIsFaithful(role: Role, me: string, views: seq<seq<NodeInfo>>)
    requires me != ""
    ensures Faithful(Run(role, me, views))
    ensures var s := Run(role, me, views); s.isLeader <==> s.leader == me
  {
    if views != [] {
      RunIsFaithful(role, me, views[..|views| - 1]);
    }
  }

  /** The last view that lists anyone. */
  function LastView(views: seq<seq<NodeInfo>>): (v: seq<NodeInfo>)
    ensures v == [] <==> forall i :: 0 <= i < |views| ==> views[i] == []
  {
    if views == [] then []
    else if views[|views| - 1] != [] then views[|views| - 1]
    else LastView(views[..|views| - 1])
  }

  /** A core node knows the leader of the last view that listed anyone; an empty list of core nodes changes nothing. */
  lemma {:induction false} LeaderIsOfLastView(me: string, views: seq<seq<NodeInfo>>)
    ensures var s, v := Run(Core, me, views), LastView(views);
            s.leader == Elect(v) && (s.isLeader <==> v != [] && Elect(v) == me)
  {
    if views != [] {
      LeaderIsOfLastView(me, views[..|views| - 1]);
    }
  }

  /** Notifications are faithful in every run exactly when the node is not a core node with an empty ID. */
  lemma NotificationsFaithfulIff(role: Role, me: string)
    ensures (forall views :: Faithful(Run(role, me, views))) <==> role != Core || me != ""
  {
    if role != Core {
      forall views ensures Faithful(Run(role, me, views)) { ReplicantNeverElects(role, me, views); }
    } else if me != "" {
      forall views ensures Faithful(Run(role, me, views)) { RunIsFaithful(role, me, views); }
    } else {
      var alone := [NodeInfo(me, STATUS_RUNNING)];
      assert Elect(alone) == "" by { assert alone[..0] == []; }
      var views := [alone];
      assert views[..0] == [];
      assert Run(role, me, views) == State("", true, []);
    }
  }

  lemma {:induction false} ReplicantNeverElects(role: Role, me: string, views: seq<seq<NodeInfo>>)
    requires role != Core
    ensures Run(role, me, views) == INIT
  {
    if views != [] {
      ReplicantNeverElects(role, me, views[..|views| - 1]);
    }
  }

  /**
   Whatever two core nodes believed before, once each has elected over the same view they name the same leader, at most
   one of them claims to be it, and a node claims it exactly when it is the smallest running one.
   */
  lemma EqualViewsAgree(a: string, b: string, before: seq<seq<NodeInfo>>, before': seq<seq<NodeInfo>>,
                        v: seq<NodeInfo>, w: seq<NodeInfo>)
    requires v != [] && SameView(v, w) && !RunningID(v, "") && a != "" && b != ""
    ensures var s, t := Run(Core, a, before + [v]), Run(Core, b, before' + [w]);
            && s.leader == t.leader
            && (s.isLeader && t.isLeader ==> a == b)
            && (s.isLeader <==> Smallest(v, a))
  {
    assert (before + [v])[..|before|] == before && (before' + [w])[..|before'|] == before';
    assert |v| == |multiset(v)| == |multiset(w)| == |w|;
    SameLeader(v, w);
    ElectIsSmallest(v);
    if Smallest(v, a) {
      SmallestIsUnique(v, v, a, Elect(v));
    }
  }

  // ----- The manager -----

  /** An enumeration of the map: every entry once, in the order of `keys`. */
  ghost predicate Enumerates(nodes: seq<NodeInfo>, keys: seq<string>, m: map<string, NodeInfo>) {
    && |nodes| == |keys|
    && (forall i, j :: 0 <= i < j < |keys| ==> keys[i] != keys[j])
    && (forall k :: k in keys <==> k in m)
    && (forall i :: 0 <= i < |keys| ==> keys[i] in m && nodes[i] == m[keys[i]])
  }

  /** The scan as the manager runs it. */
  method FindLeader(nodes: seq<NodeInfo>) returns (leader: string)
    ensures leader == Elect(nodes)
  {
    leader := "";
    for i := 0 to |nodes|
      invariant leader == Elect(nodes[..i])
    {
      assert nodes[..i + 1][..i] == nodes[..i];
      if nodes[i].status == STATUS_RUNNING {
        if leader == "" || Less(nodes[i].nodeID, leader) {
          leader := nodes[i].nodeID;
        }
      }
    }
    assert nodes[..|nodes|] == nodes;
  }

  class MriaManager {
    const nodeID: string
    const nodeRole: Role
    var coreNodes: map<string, NodeInfo>
    var leader: string
    var isLeader: bool
    var notices: seq<bool>

    constructor (nodeID: string, nodeRole: Role)
      ensures this.nodeID == nodeID && this.nodeRole == nodeRole && coreNodes == map[] && View() == INIT
    {
      this.nodeID, this.nodeRole := nodeID, nodeRole;
      coreNodes, leader, isLeader, notices := map[], "", false, [];
    }

    ghost function View(): State
      reads this
    {
      State(leader, isLeader, notices)
    }

    method GetCoreNodes() returns (nodes: seq<NodeInfo>, ghost keys: seq<string>)
      ensures Enumerates(nodes, keys, coreNodes)
      ensures |nodes| == |coreNodes| && forall n :: n in nodes <==> n in coreNodes.Values
    {
      nodes, keys := [], [];
      var todo := coreNodes.Keys;
      while todo != {}
        invariant todo <= coreNodes.Keys && |nodes| == |keys| == |coreNodes| - |todo|
        invariant forall i, j :: 0 <= i < j < |keys| ==> keys[i] != keys[j]
        invariant forall k :: k in keys <==> k in coreNodes && k !in todo
        invariant forall i :: 0 <= i < |keys| ==> keys[i] in coreNodes && nodes[i] == coreNodes[keys[i]]
        decreases todo
      {
        var k :| k in todo;
        nodes, keys := nodes + [coreNodes[k]], keys + [k];
        todo := todo - {k};
      }
      forall n ensures n in nodes <==> n in coreNodes.Values {
        if n in coreNodes.Values {
          var k :| k in coreNodes && coreNodes[k] == n;
          assert k in keys;
        }
      }
    }

    method PerformLeaderElection() returns (ghost nodes: seq<NodeInfo>, ghost keys: seq<string>)
      modifies this`leader, this`isLeader, this`notices
      ensures nodeRole == Core ==> Enumerates(nodes, keys, coreNodes)
      ensures View() == PerformElection(nodeRole, nodeID, old(View()), nodes)
    {
      nodes, keys := [], [];
      if nodeRole != Core {
        return;
      }
      var list;
      list, keys := GetCoreNodes();
      nodes := list;
      if |list| == 0 {
        return;
      }
      var elected := FindLeader(list);
      var oldLeader, wasLeader := leader, isLeader;
      leader := elected;
      isLeader := elected == nodeID;
      if oldLeader != elected {
        if isLeader && !wasLeader {
          notices := notices + [true];
        } else if !isLeader && wasLeader {
          notices := notices + [false];
        }
      }
    }
  }

  /** All enumerations of one map are the same view, so the hypothesis of EqualViewsAgree is about the maps alone. */
  lemma {:induction false} EnumerationsAgree(v: seq<NodeInfo>, keys: seq<string>, w: seq<NodeInfo>, keys': seq<string>,
                                             m: map<string, NodeInfo>)
    requires Enumerates(v, keys, m) && Enumerates(w, keys', m)
    ensures SameView(v, w)
    decreases |v|
  {
    assert forall i :: 0 <= i < |keys'| ==> keys'[i] in keys;
    if v != [] {
      var last := |v| - 1;
      assert keys[last] in keys';
      var i :| 0 <= i < |keys'| && keys'[i] == keys[last];
      assert |w| == |keys'| && v[last] == w[i];
      hide Enumerates;
      DropAt(v, keys, m, last);
      DropAt(w, keys', m, i);
      EnumerationsAgree(Without(v, last), Without(keys, last), Without(w, i), Without(keys', i), m - {keys[last]});
      WithoutCounts(v, last);
      WithoutCounts(w, i);
    }
  }

  function Without<T>(s: seq<T>, i: nat): (r: seq<T>)
    requires i < |s|
    ensures |r| == |s| - 1
  {
    s[..i] + s[i + 1..]
  }

  lemma WithoutCounts<T>(s: seq<T>, i: nat)
    requires i < |s|
    ensures multiset(s) == multiset(Without(s, i)) + multiset{s[i]}
    ensures forall x :: x in s <==> x in Without(s, i) || x == s[i]
  {
    assert s == s[..i] + [s[i]] + s[i + 1..];
  }

  lemma DropAt(w: seq<NodeInfo>, keys: seq<string>, m: map<string, NodeInfo>, i: nat)
    requires Enumerates(w, keys, m) && i < |keys|
    ensures Enumerates(Without(w, i), Without(keys, i), m - {keys[i]})
  {
    WithoutCounts(keys, i);
    var l := Without(keys, i);
    forall j | 0 <= j < |l| ensures l[j] in m - {keys[i]} && Without(w, i)[j] == m[l[j]] {
      assert l[j] == keys[if j < i then j else j + 1];
    }
  }
}
