/**
 * The simulated network the attacker and defender act on: node records,
 * firewall rules, listening services and the annotated edges of the graph.
 * These are the parts of the simulation's environment that actions.py reads
 * and writes; cyberbattle/simulation/model.py itself is not part of this model,
 * so each record keeps exactly the fields actions.py uses.
 */
module Model {

  type NodeId = string
  type PortName = string
  type CredentialId = string
  type PropertyName = string
  type VulnerabilityId = string

  datatype Option<T> = None | Some(value: T)

  /** True when no element occurs twice. */
  ghost predicate Distinct<T>(s: seq<T>)
  {
    forall i, j :: 0 <= i < j < |s| ==> s[i] != s[j]
  }

  /** The set of elements of a sequence. */
  function Elems<T>(s: seq<T>): set<T>
  {
    set x | x in s
  }

  /** Python's list.index: the position of the first occurrence. */
  function IndexOf<T(==)>(s: seq<T>, x: T): (i: nat)
    requires x in s
    ensures i < |s| && s[i] == x
    ensures forall j :: 0 <= j < i ==> s[j] != x
  {
    if s[0] == x then 0 else 1 + IndexOf(s[1..], x)
  }

  /** A sequence without repetitions has as many elements as its set. */
  lemma {:induction false} DistinctCard<T>(s: seq<T>)
    requires Distinct(s)
    ensures |Elems(s)| == |s|
  {
    if s != [] {
      var t := s[..|s| - 1];
      assert Distinct(t);
      DistinctCard(t);
      assert s == t + [s[|s| - 1]];
      assert s[|s| - 1] !in t;
      assert Elems(s) == Elems(t) + {s[|s| - 1]};
    }
  }

  /** Any sequence has at least as many elements as its set. */
  lemma {:induction false} ElemsCard<T>(s: seq<T>)
    ensures |Elems(s)| <= |s|
  {
    if s != [] {
      var t := s[..|s| - 1];
      ElemsCard(t);
      assert s == t + [s[|s| - 1]];
      assert Elems(s) == Elems(t) + {s[|s| - 1]};
    }
  }

  /** Privilege levels, ordered NoAccess < LocalUser < Admin < System. */
  datatype PrivilegeLevel = NoAccess | LocalUser | Admin | System

  function PrivilegeRank(p: PrivilegeLevel): nat
  {
    match p
    case NoAccess => 0
    case LocalUser => 1
    case Admin => 2
    case System => 3
  }

  /**
   * model.escalate is not part of this model; it is taken to raise the current
   * level to the requested one and never to lower it.
   */
  function Escalate(current: PrivilegeLevel, requested: PrivilegeLevel): (r: PrivilegeLevel)
    ensures r == current || r == requested
    ensures PrivilegeRank(r) >= PrivilegeRank(current) && PrivilegeRank(r) >= PrivilegeRank(requested)
  {
    if PrivilegeRank(requested) > PrivilegeRank(current) then requested else current
  }

  datatype MachineStatus = Stopped | Running | Imaging

  datatype RulePermission = Allow | Block

  /** A firewall rule; a rule built from a port and a permission alone has an empty reason. */
  datatype FirewallRule = FirewallRule(port: PortName, permission: RulePermission, reason: string)

  datatype FirewallConfiguration = FirewallConfiguration(outgoing: seq<FirewallRule>, incoming: seq<FirewallRule>)

  datatype ListeningService = ListeningService(name: PortName, allowedCredentials: seq<CredentialId>, running: bool)

  /** The record stored as a node's data in the network. */
  datatype NodeInfo = NodeInfo(
    services: seq<ListeningService>,
    firewall: FirewallConfiguration,
    value: int,
    properties: seq<PropertyName>,
    agentInstalled: bool,
    privilegeLevel: PrivilegeLevel,
    status: MachineStatus,
    lastReimaging: Option<nat>,
    reimagable: bool)

  /** The environment's identifier tables: all property names and two sub-lists of them. */
  datatype Identifiers = Identifiers(
    properties: seq<PropertyName>,
    globalProperties: seq<PropertyName>,
    initialProperties: seq<PropertyName>)

  /** Edge annotations, declared in actions.py:113-117, ordered by their values 0, 1, 2. */
  datatype EdgeAnnotation = Knows | RemoteExploit | LateralMove

  function AnnotationValue(a: EdgeAnnotation): nat
  {
    match a
    case Knows => 0
    case RemoteExploit => 1
    case LateralMove => 2
  }

  /** The data of a graph edge: an edge may exist without a `kind` entry. */
  datatype EdgeData = EdgeData(kind: Option<EdgeAnnotation>)

  /** What the environment promises about itself, stated on values. */
  ghost predicate WellFormedNetwork(ids: Identifiers, order: seq<NodeId>, nodes: map<NodeId, NodeInfo>, clock: nat)
  {
    && Distinct(order)
    && (forall n :: n in order <==> n in nodes)
    && (forall n, p :: n in nodes && p in nodes[n].properties ==> p in ids.properties)
    && (forall p :: p in ids.globalProperties ==> p in ids.properties)
    && (forall n :: n in nodes && nodes[n].lastReimaging.Some? ==> nodes[n].lastReimaging.value <= clock)
  }

  /**
   * The network shared by the attacker and the defender. Nodes are listed in
   * the graph's iteration order; `clock` is the last time stamp handed out.
   */
  class Environment {
    const identifiers: Identifiers
    var nodeOrder: seq<NodeId>
    var nodes: map<NodeId, NodeInfo>
    var edges: map<(NodeId, NodeId), EdgeData>
    var clock: nat

    ghost predicate Valid()
      reads this
    {
      WellFormedNetwork(identifiers, nodeOrder, nodes, clock)
    }

    constructor (ids: Identifiers, order: seq<NodeId>, nodeMap: map<NodeId, NodeInfo>, edgeMap: map<(NodeId, NodeId), EdgeData>, start: nat)
      requires WellFormedNetwork(ids, order, nodeMap, start)
      ensures Valid()
      ensures identifiers == ids && nodeOrder == order && nodes == nodeMap && edges == edgeMap && clock == start
    {
      identifiers := ids;
      nodeOrder := order;
      nodes := nodeMap;
      edges := edgeMap;
      clock := start;
    }

    /** Replaces a node's record at time `now` (the clock only moves forward). */
    method SetNode(id: NodeId, info: NodeInfo, now: nat)
      requires Valid() && id in nodes && clock <= now
      requires forall p :: p in info.properties ==> p in identifiers.properties
      requires info.lastReimaging.Some? ==> info.lastReimaging.value <= now
      modifies this
      ensures Valid()
      ensures nodes == old(nodes)[id := info] && clock == now
      ensures nodeOrder == old(nodeOrder) && edges == old(edges)
    {
      nodes := nodes[id := info];
      clock := now;
    }

    /** Replaces a node's record without reading the clock. */
    method Update(id: NodeId, info: NodeInfo)
      requires Valid() && id in nodes
      requires forall p :: p in info.properties ==> p in identifiers.properties
      requires info.lastReimaging.Some? ==> info.lastReimaging.value <= clock
      modifies this
      ensures Valid()
      ensures nodes == old(nodes)[id := info]
      ensures nodeOrder == old(nodeOrder) && edges == old(edges) && clock == old(clock)
    {
      nodes := nodes[id := info];
    }
  }
}
