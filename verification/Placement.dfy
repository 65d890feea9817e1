/** Where the policy compiler puts a capsule: replication targets and the target of a migration. */
module Placement {
  import opened Types

  type NodeId = nat

  datatype ZoneId = Metro(name: string) | Geo(name: string) | Edge(name: string)

  datatype NodeInfo = NodeInfo(zone: ZoneId, available: nat, used: nat)

  /** Node ids need not be unique; a lookup takes the first. */
  datatype Mesh = Mesh(nodes: seq<(NodeId, NodeInfo)>, local: ZoneId)

  datatype Sovereignty = Local | Zoned | Global

  /** Durations in nanoseconds. */
  datatype Goals = Goals(rpo: nat, latency: nat, sovereignty: Sovereignty)

  const MILLI: nat := 1_000_000
  const SECOND: nat := 1_000_000_000

  datatype Strategy = MetroSync(replicas: nat) | AsyncWithBatching(rpo: nat)

  datatype Action =
    | Replicate(cid: CapsuleId, strategy: Strategy, targets: seq<NodeId>)
    | Migrate(cid: CapsuleId, destination: NodeId, transform: bool)

  // ---------------------------------------------------------------- the mesh

  function Info(nodes: seq<(NodeId, NodeInfo)>, id: NodeId): Option<NodeInfo> {
    if nodes == [] then None else if nodes[0].0 == id then Some(nodes[0].1) else Info(nodes[1..], id)
  }

  function Ids(m: Mesh): seq<NodeId> { seq(|m.nodes|, i requires 0 <= i < |m.nodes| => m.nodes[i].0) }

  predicate Sovereign(m: Mesh, id: NodeId, level: Sovereignty) {
    match level
    case Global => true
    case Zoned => Info(m.nodes, id).Some? && Info(m.nodes, id).value.zone == m.local
    case Local => false
  }

  predicate InMetro(m: Mesh, id: NodeId) { Info(m.nodes, id).Some? && Info(m.nodes, id).value.zone.Metro? }

  predicate SameRegion(m: Mesh, id: NodeId) {
    Info(m.nodes, id).Some? && !m.local.Edge? && Info(m.nodes, id).value.zone == m.local
  }

  predicate Roomy(m: Mesh, id: NodeId, bytes: nat) { Info(m.nodes, id).Some? && Info(m.nodes, id).value.available >= bytes }

  function Utilization(m: Mesh, id: NodeId): nat {
    match Info(m.nodes, id)
    case None => 100
    case Some(info) => if info.available + info.used == 0 then 0 else info.used * 100 / (info.available + info.used)
  }

  predicate FitForReplica(m: Mesh, g: Goals, id: NodeId) {
    && Sovereign(m, id, g.sovereignty) && Roomy(m, id, 1_000_000)
    && (g.latency < 2 * MILLI ==> InMetro(m, id))
    && (2 * MILLI <= g.latency < 100 * MILLI ==> SameRegion(m, id))
  }

  predicate FitForMove(m: Mesh, g: Goals, id: NodeId) {
    Sovereign(m, id, g.sovereignty) && Roomy(m, id, 10_000_000) && (g.latency < 2 * MILLI ==> InMetro(m, id))
  }

  function Retain(ids: seq<NodeId>, fit: NodeId -> bool): (r: seq<NodeId>)
    ensures forall i :: 0 <= i < |r| ==> r[i] in ids && fit(r[i])
    ensures forall id :: id in ids && fit(id) ==> id in r
  {
    if ids == [] then [] else if fit(ids[0]) then [ids[0]] + Retain(ids[1..], fit) else Retain(ids[1..], fit)
  }

  /** The first of those with the least utilization. */
  function Least(m: Mesh, ids: seq<NodeId>): (r: Option<NodeId>)
    ensures r.None? <==> ids == []
    ensures r.Some? ==> r.value in ids && forall id :: id in ids ==> Utilization(m, r.value) <= Utilization(m, id)
  {
    if ids == [] then None
    else match Least(m, ids[1..])
         case None => Some(ids[0])
         case Some(id) => if Utilization(m, id) < Utilization(m, ids[0]) then Some(id) else Some(ids[0])
  }

  // ---------------------------------------------------------------- compiling an event

  /** The fit entries of the node list, repeated ids included. */
  function ReplicaFits(m: Mesh, g: Goals): seq<NodeId> { Retain(Ids(m), (id: NodeId) => FitForReplica(m, g, id)) }

  function MoveFits(m: Mesh, g: Goals): seq<NodeId> { Retain(Ids(m), (id: NodeId) => FitForMove(m, g, id)) }

  function Targets(m: Mesh, g: Goals): seq<NodeId> { ReplicaFits(m, g)[..Min(2, |ReplicaFits(m, g)|)] }

  function OnNewCapsule(m: Mesh, g: Goals, cid: CapsuleId): seq<Action> {
    if g.rpo >= 60 * SECOND || Targets(m, g) == [] then []
    else [Replicate(cid, if g.rpo == 0 then MetroSync(2) else AsyncWithBatching(g.rpo), Targets(m, g))]
  }

  /** Crossing zones under zone sovereignty. */
  predicate Transforms(m: Mesh, g: Goals, id: NodeId) {
    g.sovereignty == Zoned && Info(m.nodes, id).Some? && Info(m.nodes, id).value.zone != m.local
  }

  function OnHeatSpike(m: Mesh, g: Goals, cid: CapsuleId, perMinute: nat): seq<Action> {
    if perMinute <= 100 || g.latency >= 10 * MILLI then []
    else
      match Least(m, MoveFits(m, g))
      case None => []
      case Some(id) => [Migrate(cid, id, Transforms(m, g, id))]
  }

  /** The check of finished actions asks of every target whether it may hold the data. */
  predicate Passes(a: Action, may: NodeId -> bool) {
    match a
    case Replicate(_, _, targets) => forall i :: 0 <= i < |targets| ==> may(targets[i])
    case Migrate(_, destination, _) => may(destination)
  }

  function Filtered(actions: seq<Action>, may: NodeId -> bool): seq<Action> {
    if actions == [] then []
    else if Passes(actions[0], may) then [actions[0]] + Filtered(actions[1..], may)
    else Filtered(actions[1..], may)
  }

  /** What it asks is a placeholder. */
  function Validated(g: Goals, actions: seq<Action>): seq<Action> {
    if g.sovereignty == Global then actions else Filtered(actions, (_: NodeId) => true)
  }

  datatype Event = NewCapsule(cid: CapsuleId) | HeatSpike(cid: CapsuleId, perMinute: nat)

  function Compiled(m: Mesh, g: Goals, e: Event): seq<Action> {
    Validated(g, match e
                 case NewCapsule(cid) => OnNewCapsule(m, g, cid)
                 case HeatSpike(cid, perMinute) => OnHeatSpike(m, g, cid, perMinute))
  }

  // ---------------------------------------------------------------- what the actions promise

  /** The check removes nothing, not even an action that sends data where it may not go. */
  lemma ValidationIdle(g: Goals, actions: seq<Action>)
    ensures Validated(g, actions) == actions
  {
    FilteredAll(actions, (_: NodeId) => true);
  }

  lemma {:induction false} FilteredAll(actions: seq<Action>, may: NodeId -> bool)
    requires forall id :: may(id)
    ensures Filtered(actions, may) == actions
  {
    if actions != [] { FilteredAll(actions[1..], may); }
  }

  function Total(n: NodeInfo): nat { n.available + n.used }

  /** The used share of node `a`'s bytes is less than a hundredth above that of `b`'s. */
  predicate HardlyFuller(m: Mesh, a: NodeId, b: NodeId) {
    && Info(m.nodes, a).Some? && Info(m.nodes, b).Some?
    && var x, y := Info(m.nodes, a).value, Info(m.nodes, b).value;
       100 * x.used * Total(y) < 100 * y.used * Total(x) + Total(x) * Total(y)
  }

  lemma LessUsed(m: Mesh, a: NodeId, b: NodeId)
    requires Info(m.nodes, a).Some? && Total(Info(m.nodes, a).value) > 0 && Info(m.nodes, b).Some? && Total(Info(m.nodes, b).value) > 0
    requires Utilization(m, a) <= Utilization(m, b)
    ensures HardlyFuller(m, a, b)
  {
    var x, y := Info(m.nodes, a).value, Info(m.nodes, b).value;
    Shares(x.used * 100, Total(x), y.used * 100, Total(y));
  }

  lemma Shares(u: nat, s: nat, v: nat, t: nat)
    requires s > 0 && t > 0 && u / s <= v / t
    ensures u * t < v * s + s * t
  {
    var q := v / t;
    assert u < s * (q + 1);
    assert u * t < s * (q + 1) * t;
    assert q * t <= v;
    assert s * (q * t) <= s * v;
    assert s * (q + 1) * t == s * (q * t) + s * t;
  }

  /** Entry `i` is the first from `from` on that is fit. */
  predicate FirstFrom(ids: seq<NodeId>, fit: NodeId -> bool, from: nat, i: int) {
    from <= i < |ids| && fit(ids[i]) && forall j :: from <= j < i ==> !fit(ids[j])
  }

  lemma {:induction false} RetainFirst(ids: seq<NodeId>, fit: NodeId -> bool) returns (i: nat)
    requires Retain(ids, fit) != []
    ensures FirstFrom(ids, fit, 0, i) && Retain(ids, fit) == [ids[i]] + Retain(ids[i + 1..], fit)
  {
    if fit(ids[0]) {
      i := 0;
    } else {
      var k := RetainFirst(ids[1..], fit);
      i := k + 1;
      assert ids[1..][k + 1..] == ids[i + 1..];
    }
  }

  /** The first fit entry from `from` on, if it is to be a target. */
  ghost predicate IsFirst(ids: seq<NodeId>, fit: NodeId -> bool, from: nat, id: NodeId) {
    exists i :: FirstFrom(ids, fit, from, i) && ids[i] == id
  }

  /** The targets are the first fit entry, and the first after it. */
  lemma TargetsFirst(m: Mesh, g: Goals) returns (i: nat)
    ensures var ids, fit, targets := Ids(m), (id: NodeId) => FitForReplica(m, g, id), Targets(m, g);
            && |targets| <= 2
            && (targets != [] ==> FirstFrom(ids, fit, 0, i) && targets[0] == ids[i])
            && (|targets| == 2 ==> IsFirst(ids, fit, i + 1, targets[1]))
            && (targets == [] ==> forall id :: id in ids ==> !fit(id))
            && (|targets| == 1 ==> forall j :: i < j < |ids| ==> !fit(ids[j]))
  {
    var ids, fit := Ids(m), (id: NodeId) => FitForReplica(m, g, id);
    hide Ids, FitForReplica;
    i := 0;
    var all := Retain(ids, fit);
    assert ReplicaFits(m, g) == all;
    if all != [] {
      i := RetainFirst(ids, fit);
      var rest := ids[i + 1..];
      if Retain(rest, fit) != [] {
        var k := RetainFirst(rest, fit);
        assert forall j :: i < j < |ids| ==> ids[j] == rest[j - i - 1];
        assert FirstFrom(ids, fit, i + 1, i + 1 + k);
      } else {
        forall j | i < j < |ids| ensures !fit(ids[j]) { assert ids[j] == rest[j - i - 1] && ids[j] in rest; }
      }
    }
  }

  /** A hot capsule moves exactly if its latency goal is strict and some node is fit; it moves to a fit node whose used share
      of bytes is at most that of any fit node, to the hundredth. No move ever asks for a transformation: the destinations that would need one are not fit. */
  lemma MigrationExact(m: Mesh, g: Goals, cid: CapsuleId, perMinute: nat)
    ensures var actions := Compiled(m, g, HeatSpike(cid, perMinute));
            && (actions != [] <==> perMinute > 100 && g.latency < 10 * MILLI && exists id :: id in Ids(m) && FitForMove(m, g, id))
            && (actions != [] ==>
                  && |actions| == 1 && actions[0].Migrate? && actions[0].cid == cid && !actions[0].transform
                  && FitForMove(m, g, actions[0].destination)
                  && forall id :: id in Ids(m) && FitForMove(m, g, id) ==>
                       HardlyFuller(m, actions[0].destination, id))
  {
    var fit := MoveFits(m, g);
    ValidationIdle(g, OnHeatSpike(m, g, cid, perMinute));
    hide Ids, FitForMove, HardlyFuller, Utilization, Info;
    if fit != [] { assert fit[0] in Ids(m) && FitForMove(m, g, fit[0]); }
    if Least(m, fit).Some? {
      var d := Least(m, fit).value;
      assert FitForMove(m, g, d);
      NeverTransforms(m, g, d);
      forall id | id in Ids(m) && FitForMove(m, g, id) ensures HardlyFuller(m, d, id) {
        FitHasRoom(m, g, d);
        FitHasRoom(m, g, id);
        LessUsed(m, d, id);
      }
    }
  }

  lemma FitHasRoom(m: Mesh, g: Goals, id: NodeId)
    requires FitForMove(m, g, id)
    ensures Info(m.nodes, id).Some? && Total(Info(m.nodes, id).value) > 0
  {
  }

  lemma NeverTransforms(m: Mesh, g: Goals, id: NodeId)
    requires FitForMove(m, g, id)
    ensures !Transforms(m, g, id)
  {
  }

  /** Every target is fit: it is the selection that sees to that, not the check after it. The two synchronous replicas that a
      goal of no data loss is compiled to are there exactly if two entries are fit: with one, the action promises two
      and names one. */
  lemma ReplicationExact(m: Mesh, g: Goals, cid: CapsuleId)
    ensures var actions := Compiled(m, g, NewCapsule(cid));
            && (actions != [] <==> g.rpo < 60 * SECOND && exists id :: id in Ids(m) && FitForReplica(m, g, id))
            && (actions != [] ==>
                  && |actions| == 1 && actions[0].Replicate?
                  && (forall i :: 0 <= i < |actions[0].targets| ==> actions[0].targets[i] in Ids(m) && FitForReplica(m, g, actions[0].targets[i]))
                  && (g.rpo == 0 <==> actions[0].strategy == MetroSync(2))
                  && (|actions[0].targets| == 2 <==> |ReplicaFits(m, g)| >= 2))
  {
    var fit := ReplicaFits(m, g);
    ValidationIdle(g, OnNewCapsule(m, g, cid));
    hide Ids, FitForReplica;
    if fit != [] { assert fit[0] in Ids(m) && FitForReplica(m, g, fit[0]); }
    assert Targets(m, g) == fit[..Min(2, |fit|)];
    forall i | 0 <= i < |Targets(m, g)| ensures Targets(m, g)[i] in Ids(m) && FitForReplica(m, g, Targets(m, g)[i]) {
      assert Targets(m, g)[i] == fit[i];
    }
  }

  /** The nodes that an action sends data to. */
  function Recipients(a: Action): seq<NodeId> {
    match a
    case Replicate(_, _, targets) => targets
    case Migrate(_, destination, _) => [destination]
  }

  /** The node is in the mesh, has room, is in the local zone if the goals ask for zone sovereignty, and in a metro zone if
      they ask for less than two milliseconds. */
  predicate Lawful(m: Mesh, g: Goals, id: NodeId) {
    && Info(m.nodes, id).Some?
    && var n := Info(m.nodes, id).value;
       && n.available >= 1_000_000
       && (g.sovereignty == Zoned ==> n.zone == m.local)
       && (g.latency < 2 * MILLI ==> n.zone.Metro?)
  }

  /** Whatever the event and the mesh, no action sends data where the goals forbid it; with local sovereignty there is none. */
  lemma DataStaysLawful(m: Mesh, g: Goals, e: Event)
    ensures g.sovereignty == Local ==> Compiled(m, g, e) == []
    ensures forall i, j :: 0 <= i < |Compiled(m, g, e)| && 0 <= j < |Recipients(Compiled(m, g, e)[i])| ==>
      Lawful(m, g, Recipients(Compiled(m, g, e)[i])[j])
  {
    var actions := Compiled(m, g, e);
    match e
    case NewCapsule(cid) =>
      ReplicationExact(m, g, cid);
      hide Compiled;
      forall j | actions != [] && 0 <= j < |actions[0].targets| ensures Lawful(m, g, actions[0].targets[j]) { }
    case HeatSpike(cid, perMinute) =>
      MigrationExact(m, g, cid, perMinute);
      hide Compiled;
  }
}
