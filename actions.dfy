/**
 * The attacker's actions on the simulated network (AgentActions in
 * actions.py): what the attacker knows (discovered nodes with their tracking
 * records, gathered credentials), how nodes become owned, how leaked nodes and
 * credentials are recorded, and the guard chain of a lateral move by
 * credentials. Also the pure checks these rely on: firewall rule evaluation,
 * service authorization and edge annotation.
 */
module Actions {
  import opened Model

  // Penalties (negative rewards) of actions.py:36-71 that the modelled operations return.
  const ScanningUnopenPort: int := -10
  const Repeat: int := -20
  const MachineNotRunning: int := 0
  const WrongPassword: int := -10
  const BlockedByLocalFirewall: int := -10
  const BlockedByRemoteFirewall: int := -10
  const InvalidAction: int := -5

  /** The part of an action's result the modelled operations set: the reward and whether the outcome is a lateral move. */
  datatype ActionResult = ActionResult(reward: int, lateralMove: bool)

  /** The ValueErrors the actions raise. */
  datatype ActionError =
    | InvalidNodeId(node: NodeId)
    | SourceNotOwned(node: NodeId)
    | TargetNotDiscovered(node: NodeId)
    | CredentialNotGathered(credential: CredentialId)

  datatype ActionOutcome = Returned(result: ActionResult) | Raised(error: ActionError)

  /** An invalid action raises when the attacker was built to throw, and is penalised otherwise. */
  function InvalidActionOutcome(throws: bool, e: ActionError): ActionOutcome
  {
    if throws then Raised(e) else Returned(ActionResult(InvalidAction, false))
  }

  // ---------------------------------------------------------------- edges

  function MaxAnnotation(a: EdgeAnnotation, b: EdgeAnnotation): (r: EdgeAnnotation)
    ensures r == a || r == b
    ensures AnnotationValue(r) >= AnnotationValue(a) && AnnotationValue(r) >= AnnotationValue(b)
  {
    if AnnotationValue(a) >= AnnotationValue(b) then a else b
  }

  /** The kind an edge carries after being annotated with `annotation`, given its data before (None: no edge). */
  function AnnotatedKind(existing: Option<EdgeData>, annotation: EdgeAnnotation): (r: EdgeAnnotation)
    ensures AnnotationValue(r) >= AnnotationValue(annotation)
    ensures existing.Some? && existing.value.kind.Some? ==>
              (r == existing.value.kind.value || r == annotation) &&
              AnnotationValue(r) >= AnnotationValue(existing.value.kind.value)
    ensures !(existing.Some? && existing.value.kind.Some?) ==> r == annotation
  {
    if existing.Some? && existing.value.kind.Some? then MaxAnnotation(existing.value.kind.value, annotation)
    else annotation
  }

  function EdgeAt(edges: map<(NodeId, NodeId), EdgeData>, e: (NodeId, NodeId)): Option<EdgeData>
  {
    if e in edges then Some(edges[e]) else None
  }

  /** The edge map after annotating edge `e`; the edge is created when absent. */
  function Annotate(edges: map<(NodeId, NodeId), EdgeData>, e: (NodeId, NodeId), annotation: EdgeAnnotation): map<(NodeId, NodeId), EdgeData>
  {
    edges[e := EdgeData(Some(AnnotatedKind(EdgeAt(edges, e), annotation)))]
  }

  /** Annotating creates the edge when absent, never lowers its kind below the annotation, and touches no other edge. */
  lemma AnnotateFacts(edges: map<(NodeId, NodeId), EdgeData>, e: (NodeId, NodeId), annotation: EdgeAnnotation)
    ensures Annotate(edges, e, annotation).Keys == edges.Keys + {e}
    ensures Annotate(edges, e, annotation)[e].kind.Some?
    ensures AnnotationValue(Annotate(edges, e, annotation)[e].kind.value) >= AnnotationValue(annotation)
    ensures forall f :: f in edges && f != e ==> Annotate(edges, e, annotation)[f] == edges[f]
  {
  }

  /** Annotating twice with the same kind is the same as annotating once. */
  lemma AnnotateIdempotent(edges: map<(NodeId, NodeId), EdgeData>, e: (NodeId, NodeId), annotation: EdgeAnnotation)
    ensures Annotate(Annotate(edges, e, annotation), e, annotation) == Annotate(edges, e, annotation)
  {
  }

  /** The annotation of an edge never decreases, whatever annotations arrive and in which order. */
  lemma AnnotateOrderIrrelevant(edges: map<(NodeId, NodeId), EdgeData>, e: (NodeId, NodeId), a: EdgeAnnotation, b: EdgeAnnotation)
    ensures Annotate(Annotate(edges, e, a), e, b) == Annotate(Annotate(edges, e, b), e, a)
    ensures e in edges && edges[e].kind.Some? ==>
              AnnotationValue(Annotate(edges, e, a)[e].kind.value) >= AnnotationValue(edges[e].kind.value)
  {
  }

  // ------------------------------------------------------------ firewall

  /** Rule `i` is the first rule of the list that is about `port`. */
  ghost predicate DecidingRule(rules: seq<FirewallRule>, port: PortName, i: int)
  {
    0 <= i < |rules| && rules[i].port == port && forall j :: 0 <= j < i ==> rules[j].port != port
  }

  lemma DecidingRuleShift(rules: seq<FirewallRule>, port: PortName)
    requires rules != [] && rules[0].port != port
    ensures forall i :: DecidingRule(rules, port, i) <==> i >= 1 && DecidingRule(rules[1..], port, i - 1)
  {
    forall i ensures DecidingRule(rules, port, i) <==> i >= 1 && DecidingRule(rules[1..], port, i - 1) {
      if i >= 1 && DecidingRule(rules[1..], port, i - 1) {
        forall j | 0 <= j < i ensures rules[j].port != port {
          if j > 0 { assert rules[j] == rules[1..][j - 1]; }
        }
      }
    }
  }

  /**
   * Whether traffic on `port` passes a list of rules: the first rule for the
   * port decides (Allow passes, anything else blocks); with no rule for the
   * port the traffic is blocked.
   */
  function IsPassingFirewallRules(rules: seq<FirewallRule>, port: PortName): (r: bool)
    ensures r <==> exists i :: DecidingRule(rules, port, i) && rules[i].permission == Allow
    ensures (forall i :: 0 <= i < |rules| ==> rules[i].port != port) ==> !r
  {
    if rules == [] then false
    else if rules[0].port == port then
      assert DecidingRule(rules, port, 0);
      rules[0].permission == Allow
    else
      DecidingRuleShift(rules, port);
      IsPassingFirewallRules(rules[1..], port)
  }

  // ------------------------------------------------------------ services

  ghost predicate Authorizes(s: ListeningService, port: PortName, credential: CredentialId)
  {
    s.running && s.name == port && credential in s.allowedCredentials
  }

  /** A connection on `port` with `credential` is authorized iff some running service of that name accepts it. */
  function CheckServiceRunningAndAuthorized(services: seq<ListeningService>, port: PortName, credential: CredentialId): (r: bool)
    ensures r <==> exists i :: 0 <= i < |services| && Authorizes(services[i], port, credential)
  {
    if services == [] then false
    else if services[0].running && services[0].name == port && credential in services[0].allowedCredentials then true
    else
      assert forall i :: 1 <= i < |services| ==> services[i] == services[1..][i - 1];
      CheckServiceRunningAndAuthorized(services[1..], port, credential)
  }

  /** The port is listed by some service, running or not. */
  function IsListening(services: seq<ListeningService>, port: PortName): (r: bool)
    ensures r <==> exists i :: 0 <= i < |services| && services[i].name == port
  {
    if services == [] then false
    else if services[0].name == port then true
    else
      assert forall i :: 1 <= i < |services| ==> services[i] == services[1..][i - 1];
      IsListening(services[1..], port)
  }

  // ------------------------------------------------- tracking information

  datatype AttackKey = AttackKey(vulnerability: VulnerabilityId, local: bool, precondition: string, succeeded: bool)

  /** What the attacker tracks about a discovered node. */
  datatype NodeTracking = NodeTracking(
    lastAttack: map<AttackKey, nat>,
    lastOwnedAt: Option<nat>,
    discoveredProperties: set<nat>)

  const NewTracking: NodeTracking := NodeTracking(map[], None, {})

  /** The tracking record with more property indices recorded. */
  function Learn(t: NodeTracking, indices: set<nat>): NodeTracking
  {
    t.(discoveredProperties := t.discoveredProperties + indices)
  }

  /** A node is currently owned iff it was owned at some time no earlier than its last reimaging. */
  function CurrentlyOwned(lastOwnedAt: Option<nat>, lastReimaging: Option<nat>): bool
  {
    lastOwnedAt.Some? && (lastReimaging.None? || lastOwnedAt.value >= lastReimaging.value)
  }

  lemma ReimagingRevokesOwnership(ownedAt: nat, reimagedAt: nat)
    requires ownedAt < reimagedAt
    ensures !CurrentlyOwned(Some(ownedAt), Some(reimagedAt))
    ensures CurrentlyOwned(Some(reimagedAt), Some(reimagedAt))
  {
  }

  /** Entries only gain property indices; their other fields stay. */
  ghost predicate TrackingGrows(a: map<NodeId, NodeTracking>, b: map<NodeId, NodeTracking>)
  {
    && a.Keys <= b.Keys
    && forall n :: n in a ==>
         b[n].lastAttack == a[n].lastAttack && b[n].lastOwnedAt == a[n].lastOwnedAt &&
         a[n].discoveredProperties <= b[n].discoveredProperties
  }

  // ---------------------------------------------------- property indices

  /**
   * The indices in `names` of the properties that are not privilege tags.
   * Every caller's properties are known names, so the filter on `names` only
   * makes the function total.
   */
  function IndexSet(names: seq<PropertyName>, tags: seq<PropertyName>, props: set<PropertyName>): set<nat>
  {
    set p | p in props && p !in tags && p in names :: IndexOf(names, p)
  }

  /**
   * The index list actions.py:282-284 builds: the position in the identifier
   * table of each property that is not a privilege tag, in list order.
   */
  function PropertyIndices(names: seq<PropertyName>, tags: seq<PropertyName>, props: seq<PropertyName>): seq<nat>
    requires forall p :: p in props && p !in tags ==> p in names
  {
    if props == [] then []
    else
      var rest := PropertyIndices(names, tags, props[1..]);
      if props[0] in tags then rest else [IndexOf(names, props[0])] + rest
  }

  /**
   * The index list holds exactly the indices of the non-tag properties, each
   * a valid position, no more entries than properties, and no repetition
   * when the properties have none.
   */
  lemma {:induction false} PropertyIndicesFacts(names: seq<PropertyName>, tags: seq<PropertyName>, props: seq<PropertyName>)
    requires forall p :: p in props && p !in tags ==> p in names
    ensures Elems(PropertyIndices(names, tags, props)) == IndexSet(names, tags, Elems(props))
    ensures |PropertyIndices(names, tags, props)| <= |props|
    ensures forall k :: 0 <= k < |PropertyIndices(names, tags, props)| ==> PropertyIndices(names, tags, props)[k] < |names|
    ensures Distinct(props) ==> Distinct(PropertyIndices(names, tags, props))
  {
    if props != [] {
      var rest := PropertyIndices(names, tags, props[1..]);
      PropertyIndicesFacts(names, tags, props[1..]);
      assert Elems(props) == {props[0]} + Elems(props[1..]);
      if props[0] !in tags {
        var i := IndexOf(names, props[0]);
        assert PropertyIndices(names, tags, props) == [i] + rest;
        assert Elems([i] + rest) == {i} + Elems(rest);
        assert IndexSet(names, tags, Elems(props)) == {i} + IndexSet(names, tags, Elems(props[1..]));
        if Distinct(props) {
          assert Distinct(props[1..]);
          assert props[0] !in props[1..] by {
            forall k | 0 <= k < |props| - 1 ensures props[1..][k] != props[0] {
              assert props[1..][k] == props[k + 1];
            }
          }
          forall q | q in Elems(props[1..]) && q !in tags ensures IndexOf(names, q) != i {
            assert names[IndexOf(names, q)] == q;
          }
          assert i !in Elems(rest);
          forall a, b | 0 <= a < b < |[i] + rest| ensures ([i] + rest)[a] != ([i] + rest)[b] {
            if a > 0 { assert ([i] + rest)[a] == rest[a - 1]; }
            assert ([i] + rest)[b] == rest[b - 1];
          }
        }
      } else {
        assert IndexSet(names, tags, Elems(props)) == IndexSet(names, tags, Elems(props[1..]));
      }
    }
  }

  /** The index list of an enumeration of a property set holds each index of the set once. */
  lemma RecordedIndices(names: seq<PropertyName>, tags: seq<PropertyName>, props: set<PropertyName>, listed: seq<PropertyName>)
    requires Elems(listed) == props && Distinct(listed)
    requires forall p :: p in props ==> p in names
    ensures forall p :: p in listed && p !in tags ==> p in names
    ensures Elems(PropertyIndices(names, tags, listed)) == IndexSet(names, tags, props)
    ensures |PropertyIndices(names, tags, listed)| == |IndexSet(names, tags, props)|
  {
    assert forall p :: p in listed ==> p in Elems(listed);
    PropertyIndicesFacts(names, tags, listed);
    DistinctCard(PropertyIndices(names, tags, listed));
  }

  lemma MapOverwrite<K, V>(m: map<K, V>, k: K, a: V, b: V)
    ensures m[k := a][k := b] == m[k := b]
  {
  }

  lemma {:induction false} SubsetCard(a: set<nat>, b: set<nat>)
    requires a <= b
    ensures |a| <= |b|
  {
    assert b == a + (b - a);
    assert a !! (b - a);
  }

  /** A dry run over a tracked node counts exactly the growth a propagating call causes. */
  lemma {:induction false} DryRunCountMatchesGrowth(known: set<nat>, found: set<nat>)
    ensures |found - known| == |known + found| - |known|
  {
    assert known + found == known + (found - known);
    assert known !! (found - known);
  }

  /**
   * A dry run over an untracked node counts the index list with repetitions:
   * it never undercounts the indices a propagating call records, and counts
   * them exactly when the list has no repetition.
   */
  lemma UntrackedDryRunCount(indices: seq<nat>)
    ensures |Elems(indices)| <= |indices|
    ensures Distinct(indices) ==> |Elems(indices)| == |indices|
  {
    ElemsCard(indices);
    if Distinct(indices) { DistinctCard(indices); }
  }

  /** Iterates a set in some order, as Python's list(set) does. */
  method SetToSeq(s: set<PropertyName>) returns (r: seq<PropertyName>)
    ensures Elems(r) == s && Distinct(r)
  {
    r := [];
    var rest := s;
    while rest != {}
      invariant Elems(r) + rest == s && Elems(r) !! rest
      invariant Distinct(r)
      decreases rest
    {
      var p :| p in rest;
      r := r + [p];
      rest := rest - {p};
    }
  }

  // ------------------------------------ first discovered node's globals

  /**
   * As written, actions.py:269 intersects the first tracked node's discovered
   * property INDICES with the global property NAMES. Python values of the two
   * kinds never compare equal, which this type of values makes explicit.
   */
  datatype PyValue = PyInt(i: int) | PyStr(s: string)

  function FirstNodeGlobalsAsWritten(firstDiscovered: set<nat>, globals: seq<PropertyName>): (r: set<PyValue>)
    ensures r == {}
  {
    var ints := set i | i in firstDiscovered :: PyInt(i);
    var strs := set p | p in globals :: PyStr(p);
    assert forall v :: v in ints ==> v.PyInt?;
    ints * strs
  }

  /** Whatever global properties the first node has discovered, the as-written intersection hands none on. */
  lemma FirstNodeGlobalsLost(names: seq<PropertyName>, firstDiscovered: set<nat>, globals: seq<PropertyName>, i: nat)
    requires i in firstDiscovered && i < |names| && names[i] in globals
    ensures names[i] in FirstNodeGlobals(names, firstDiscovered, globals)
    ensures FirstNodeGlobalsAsWritten(firstDiscovered, globals) == {}
  {
  }

  /** The corrected reading: the names of the first node's discovered properties that are global. */
  function FirstNodeGlobals(names: seq<PropertyName>, firstDiscovered: set<nat>, globals: seq<PropertyName>): (r: set<PropertyName>)
    ensures r <= Elems(globals)
  {
    (set i | i in firstDiscovered && i < |names| :: names[i]) * Elems(globals)
  }

  /** The strings among Python values. */
  function StrValues(vs: set<PyValue>): set<PropertyName>
  {
    set v | v in vs && v.PyStr? :: v.s
  }

  /** A node's tracking record, a fresh one when it has none. */
  function TrackingIn(tracked: map<NodeId, NodeTracking>, n: NodeId): NodeTracking
  {
    if n in tracked then tracked[n] else NewTracking
  }

  /**
   * The indices `__mark_node_as_discovered` records for `node` as written:
   * those of the node's initial properties, the first node's globals being
   * always empty (FirstNodeGlobalsAsWritten).
   */
  function InitialIndices(ids: Identifiers, tags: seq<PropertyName>, node: NodeInfo): set<nat>
  {
    IndexSet(ids.properties, tags, Elems(node.properties) * Elems(ids.initialProperties))
  }

  // --------------------------------------------------------- the outcomes

  datatype CachedCredential = CachedCredential(node: NodeId, port: PortName, credential: CredentialId)

  /** The outcomes whose discoveries are modelled; every other outcome kind discovers nothing here. */
  datatype DiscoveryOutcome =
    | LeakedCredentials(credentials: seq<CachedCredential>)
    | LeakedNodesId(nodes: seq<NodeId>)
    | OtherOutcome

  datatype Discoveries = Discoveries(nodes: nat, nodesValue: int, properties: nat, credentials: nat)

  /** The credentials among the first `n` entries of a leak. */
  function CredentialIds(cs: seq<CachedCredential>, n: nat): set<CredentialId>
    requires n <= |cs|
  {
    if n == 0 then {} else CredentialIds(cs, n - 1) + {cs[n - 1].credential}
  }

  /** The number of the first `n` entries whose credential is not in `known`, repetitions included. */
  function CountUnknown(cs: seq<CachedCredential>, n: nat, known: set<CredentialId>): nat
    requires n <= |cs|
  {
    if n == 0 then 0 else CountUnknown(cs, n - 1, known) + (if cs[n - 1].credential in known then 0 else 1)
  }

  /** The edge map after every edge from `reference` to one of `targets` is annotated KNOWS. */
  function KnowsEdges(edges: map<(NodeId, NodeId), EdgeData>, reference: NodeId, targets: set<NodeId>): map<(NodeId, NodeId), EdgeData>
  {
    map e | e in edges.Keys + (set t | t in targets :: (reference, t)) ::
      if e.0 == reference && e.1 in targets then EdgeData(Some(AnnotatedKind(EdgeAt(edges, e), Knows))) else edges[e]
  }

  lemma {:induction false} KnowsEdgesStep(edges: map<(NodeId, NodeId), EdgeData>, reference: NodeId, targets: set<NodeId>, t: NodeId)
    ensures Annotate(KnowsEdges(edges, reference, targets), (reference, t), Knows) == KnowsEdges(edges, reference, targets + {t})
  {
    var a := Annotate(KnowsEdges(edges, reference, targets), (reference, t), Knows);
    var b := KnowsEdges(edges, reference, targets + {t});
    assert a.Keys == b.Keys;
    forall e | e in a.Keys ensures a[e] == b[e] {
      if e == (reference, t) && t in targets {
        assert EdgeAt(KnowsEdges(edges, reference, targets), e) == Some(EdgeData(Some(AnnotatedKind(EdgeAt(edges, e), Knows))));
      }
    }
    assert a == b;
  }

  /** The edge map after the edges from `reference` to the first `n` targets are annotated KNOWS one after the other. */
  function KnowsAlong(edges: map<(NodeId, NodeId), EdgeData>, reference: NodeId, targets: seq<NodeId>, n: nat): map<(NodeId, NodeId), EdgeData>
    requires n <= |targets|
  {
    if n == 0 then edges else Annotate(KnowsAlong(edges, reference, targets, n - 1), (reference, targets[n - 1]), Knows)
  }

  /** One more step of the fold. */
  lemma KnowsAlongStep(edges: map<(NodeId, NodeId), EdgeData>, reference: NodeId, targets: seq<NodeId>, i: nat)
    requires i < |targets|
    ensures Annotate(KnowsAlong(edges, reference, targets, i), (reference, targets[i]), Knows) == KnowsAlong(edges, reference, targets, i + 1)
  {
  }

  /**
   * Annotating the targets one after the other gives the same edges as
   * annotating the set of targets at once: the order and the repetitions do
   * not matter, and every annotated edge keeps the highest kind it has seen.
   */
  lemma {:induction false} KnowsAlongClosedForm(edges: map<(NodeId, NodeId), EdgeData>, reference: NodeId, targets: seq<NodeId>, n: nat)
    requires n <= |targets|
    ensures KnowsAlong(edges, reference, targets, n) == KnowsEdges(edges, reference, Elems(targets[..n]))
  {
    if n == 0 {
      assert Elems(targets[..0]) == {};
      KnowsEdgesEmpty(edges, reference);
    } else {
      KnowsAlongClosedForm(edges, reference, targets, n - 1);
      KnowsAlongClosedFormStep(edges, reference, targets, n - 1, KnowsAlong(edges, reference, targets, n - 1));
    }
  }

  lemma KnowsAlongClosedFormStep(edges: map<(NodeId, NodeId), EdgeData>, reference: NodeId, targets: seq<NodeId>, i: nat,
                                 before: map<(NodeId, NodeId), EdgeData>)
    requires i < |targets|
    requires before == KnowsAlong(edges, reference, targets, i) == KnowsEdges(edges, reference, Elems(targets[..i]))
    ensures KnowsAlong(edges, reference, targets, i + 1) == KnowsEdges(edges, reference, Elems(targets[..i + 1]))
  {
    ElemsPrefixStep(targets, i);
    KnowsEdgesStep(edges, reference, Elems(targets[..i]), targets[i]);
  }

  /** The nodes a leak names, in order. */
  function NodesOf(cs: seq<CachedCredential>): (r: seq<NodeId>)
    ensures |r| == |cs| && forall k :: 0 <= k < |cs| ==> r[k] == cs[k].node
  {
    seq(|cs|, k requires 0 <= k < |cs| => cs[k].node)
  }


  lemma KnowsEdgesEmpty(edges: map<(NodeId, NodeId), EdgeData>, reference: NodeId)
    ensures KnowsEdges(edges, reference, {}) == edges
  {
  }

  /** How the count of new credentials grows by one leaked credential. */
  lemma {:induction false} CredentialsStep(cs: seq<CachedCredential>, n: nat, known: set<CredentialId>)
    requires n < |cs|
    ensures |CredentialIds(cs, n + 1) - known| ==
              |CredentialIds(cs, n) - known| + (if cs[n].credential in known + CredentialIds(cs, n) then 0 else 1)
  {
    if cs[n].credential !in known + CredentialIds(cs, n) {
      assert CredentialIds(cs, n + 1) - known == (CredentialIds(cs, n) - known) + {cs[n].credential};
    } else {
      assert CredentialIds(cs, n + 1) - known == CredentialIds(cs, n) - known;
    }
  }

  /**
   * After the first `i` entries of a leak: a propagating call has gathered
   * their credentials and counted the distinct new ones; a dry run has
   * gathered nothing and counted every entry whose credential was unknown.
   */
  ghost predicate CredentialProgress(cs: seq<CachedCredential>, i: nat, known: set<CredentialId>, propagate: bool,
                                     gathered: set<CredentialId>, count: nat)
    requires i <= |cs|
  {
    if propagate then gathered == known + CredentialIds(cs, i) && count == |CredentialIds(cs, i) - known|
    else gathered == known && count == CountUnknown(cs, i, known)
  }

  lemma CredentialProgressStep(cs: seq<CachedCredential>, i: nat, known: set<CredentialId>, propagate: bool,
                               gathered: set<CredentialId>, count: nat, counted: bool)
    requires i < |cs| && CredentialProgress(cs, i, known, propagate, gathered, count)
    requires counted <==> cs[i].credential !in gathered
    ensures CredentialProgress(cs, i + 1, known, propagate, if propagate then gathered + {cs[i].credential} else gathered,
                               if counted then count + 1 else count)
  {
    CredentialsStep(cs, i, known);
    if propagate {
      UnionStep(known, CredentialIds(cs, i), gathered, cs[i].credential);
    }
  }

  lemma LearnGrows(m: map<NodeId, NodeTracking>, k: NodeId, t: NodeTracking, found: set<nat>)
    requires t == if k in m then m[k] else NewTracking
    ensures TrackingGrows(m, m[k := Learn(t, found)])
    ensures m[k := Learn(t, found)].Keys == m.Keys + {k}
  {
  }

  lemma UnionStep<T>(a: set<T>, b: set<T>, c: set<T>, x: T)
    requires c == a + b
    ensures c + {x} == a + (b + {x})
  {
  }

  lemma TrackingGrowsTrans(a: map<NodeId, NodeTracking>, b: map<NodeId, NodeTracking>, c: map<NodeId, NodeTracking>)
    requires TrackingGrows(a, b) && TrackingGrows(b, c)
    ensures TrackingGrows(a, c)
  {
  }

  // ------------------------------------------------- leaked nodes, as written

  /**
   * The tracking map once every node of `leaked` has been discovered as
   * written: each has learned the indices of its initial properties, every
   * other entry is untouched.
   */
  function LearnAll(ids: Identifiers, tags: seq<PropertyName>, nodes: map<NodeId, NodeInfo>,
                    tracked: map<NodeId, NodeTracking>, leaked: set<NodeId>): map<NodeId, NodeTracking>
    requires leaked <= nodes.Keys
  {
    map n | n in tracked.Keys + leaked ::
      if n in leaked then Learn(TrackingIn(tracked, n), InitialIndices(ids, tags, nodes[n])) else tracked[n]
  }

  /** The tracking map after the first `i` nodes of `targets` are discovered one after the other, as written. */
  function LearnAlong(ids: Identifiers, tags: seq<PropertyName>, nodes: map<NodeId, NodeInfo>,
                      tracked: map<NodeId, NodeTracking>, targets: seq<NodeId>, i: nat): map<NodeId, NodeTracking>
    requires i <= |targets| && forall n :: n in targets ==> n in nodes
  {
    if i == 0 then tracked
    else
      var m := LearnAlong(ids, tags, nodes, tracked, targets, i - 1);
      var n := targets[i - 1];
      m[n := Learn(TrackingIn(m, n), InitialIndices(ids, tags, nodes[n]))]
  }

  /** The discovered-node order after the first `i` nodes of `targets` are tracked one after the other. */
  function OrderAlong(order: seq<NodeId>, targets: seq<NodeId>, i: nat): seq<NodeId>
    requires i <= |targets|
  {
    if i == 0 then order
    else
      var o := OrderAlong(order, targets, i - 1);
      if targets[i - 1] in o then o else o + [targets[i - 1]]
  }

  /**
   * The number of properties the `i`-th node of a leak reveals as written:
   * the indices of its initial properties not tracked before the leak, and
   * none when a propagating leak already discovered the node earlier on.
   */
  function LeakFound(ids: Identifiers, tags: seq<PropertyName>, nodes: map<NodeId, NodeInfo>,
                     tracked: map<NodeId, NodeTracking>, targets: seq<NodeId>, i: nat, propagate: bool): nat
    requires i < |targets| && targets[i] in nodes
  {
    var n := targets[i];
    if propagate && n in targets[..i] then 0
    else |InitialIndices(ids, tags, nodes[n]) - TrackingIn(tracked, n).discoveredProperties|
  }

  /**
   * The totals `__mark_discovered_entities` reports for the first `i` nodes
   * of a leak as written: every node revealing a property counts once, with
   * its value and the number of properties it reveals.
   */
  function LeakTotals(ids: Identifiers, tags: seq<PropertyName>, nodes: map<NodeId, NodeInfo>,
                      tracked: map<NodeId, NodeTracking>, targets: seq<NodeId>, i: nat, propagate: bool): (r: Discoveries)
    requires i <= |targets| && forall n :: n in targets ==> n in nodes
    ensures r.credentials == 0 && r.nodes <= i && r.nodes <= r.properties
  {
    if i == 0 then Discoveries(0, 0, 0, 0)
    else
      var prev := LeakTotals(ids, tags, nodes, tracked, targets, i - 1, propagate);
      AddLeak(prev, LeakFound(ids, tags, nodes, tracked, targets, i - 1, propagate), nodes[targets[i - 1]].value)
  }

  /** The totals grown by one leaked node worth `value` that reveals `found` properties. */
  function AddLeak(before: Discoveries, found: nat, value: int): (r: Discoveries)
    ensures r.credentials == before.credentials
    ensures found == 0 ==> r == before
    ensures found > 0 ==> r.nodes == before.nodes + 1 && r.properties == before.properties + found
  {
    if found > 0 then Discoveries(before.nodes + 1, before.nodesValue + value, before.properties + found, before.credentials)
    else before
  }

  /** One more node of a leak: the totals grow by it exactly when it reveals a property. */
  lemma LeakTotalsStep(ids: Identifiers, tags: seq<PropertyName>, nodes: map<NodeId, NodeInfo>,
                       tracked: map<NodeId, NodeTracking>, targets: seq<NodeId>, i: nat, propagate: bool,
                       before: Discoveries, found: nat, value: int, after: Discoveries)
    requires i < |targets| && forall n :: n in targets ==> n in nodes
    requires before == LeakTotals(ids, tags, nodes, tracked, targets, i, propagate)
    requires found == LeakFound(ids, tags, nodes, tracked, targets, i, propagate) && value == nodes[targets[i]].value
    requires after == AddLeak(before, found, value)
    ensures after == LeakTotals(ids, tags, nodes, tracked, targets, i + 1, propagate)
  {
  }

  /**
   * Discovering the nodes one after the other gives the same tracking as
   * discovering the set of them at once: order and repetitions do not matter.
   */
  lemma {:induction false} LearnAlongClosedForm(ids: Identifiers, tags: seq<PropertyName>, nodes: map<NodeId, NodeInfo>,
                                                tracked: map<NodeId, NodeTracking>, targets: seq<NodeId>, i: nat)
    requires i <= |targets| && forall n :: n in targets ==> n in nodes
    ensures LearnAlong(ids, tags, nodes, tracked, targets, i) == LearnAll(ids, tags, nodes, tracked, Elems(targets[..i]))
  {
    if i == 0 {
      assert Elems(targets[..0]) == {};
      var a := LearnAll(ids, tags, nodes, tracked, {});
      assert a.Keys == tracked.Keys;
      assert a == tracked;
    } else {
      LearnAlongClosedForm(ids, tags, nodes, tracked, targets, i - 1);
      var seen := Elems(targets[..i - 1]);
      var n := targets[i - 1];
      assert targets[..i] == targets[..i - 1] + [n];
      assert Elems(targets[..i]) == seen + {n};
      LearnAllStep(ids, tags, nodes, tracked, seen, n);
    }
  }

  lemma LearnAllStep(ids: Identifiers, tags: seq<PropertyName>, nodes: map<NodeId, NodeInfo>,
                     tracked: map<NodeId, NodeTracking>, seen: set<NodeId>, n: NodeId)
    requires seen <= nodes.Keys && n in nodes
    ensures var m := LearnAll(ids, tags, nodes, tracked, seen);
            m[n := Learn(TrackingIn(m, n), InitialIndices(ids, tags, nodes[n]))] == LearnAll(ids, tags, nodes, tracked, seen + {n})
  {
    var found := InitialIndices(ids, tags, nodes[n]);
    var t := TrackingIn(tracked, n);
    var m := LearnAll(ids, tags, nodes, tracked, seen);
    if n in seen {
      assert TrackingIn(m, n) == Learn(t, found);
      assert Learn(Learn(t, found), found) == Learn(t, found);
    } else {
      assert TrackingIn(m, n) == t;
    }
    var a := m[n := Learn(TrackingIn(m, n), found)];
    var b := LearnAll(ids, tags, nodes, tracked, seen + {n});
    assert a.Keys == b.Keys;
    assert a == b;
  }

  /** Discovering leaked nodes only adds tracking entries and recorded properties. */
  lemma LearnAllGrows(ids: Identifiers, tags: seq<PropertyName>, nodes: map<NodeId, NodeInfo>,
                      tracked: map<NodeId, NodeTracking>, leaked: set<NodeId>)
    requires leaked <= nodes.Keys
    ensures LearnAll(ids, tags, nodes, tracked, leaked).Keys == tracked.Keys + leaked
    ensures TrackingGrows(tracked, LearnAll(ids, tags, nodes, tracked, leaked))
  {
  }

  /**
   * The number of properties the `i`-th node of a leak reveals against the
   * tracking built so far is what LeakFound says.
   */
  lemma LeakNodeStep(ids: Identifiers, tags: seq<PropertyName>, nodes: map<NodeId, NodeInfo>,
                     tracked: map<NodeId, NodeTracking>, targets: seq<NodeId>, i: nat, propagate: bool,
                     before: map<NodeId, NodeTracking>)
    requires i < |targets| && forall n :: n in targets ==> n in nodes
    requires before == if propagate then LearnAlong(ids, tags, nodes, tracked, targets, i) else tracked
    ensures |InitialIndices(ids, tags, nodes[targets[i]]) - TrackingIn(before, targets[i]).discoveredProperties| ==
              LeakFound(ids, tags, nodes, tracked, targets, i, propagate)
  {
    if propagate {
      var n := targets[i];
      LearnAlongClosedForm(ids, tags, nodes, tracked, targets, i);
      if n in targets[..i] {
        var found := InitialIndices(ids, tags, nodes[n]);
        assert n in Elems(targets[..i]);
        assert TrackingIn(before, n) == Learn(TrackingIn(tracked, n), found);
        assert found - (TrackingIn(tracked, n).discoveredProperties + found) == {};
      } else {
        assert n !in Elems(targets[..i]);
        assert TrackingIn(before, n) == TrackingIn(tracked, n);
      }
    }
  }

  lemma ElemsPrefixStep<T>(s: seq<T>, i: nat)
    requires i < |s|
    ensures Elems(s[..i + 1]) == Elems(s[..i]) + {s[i]}
  {
    assert s[..i + 1] == s[..i] + [s[i]];
  }

  /**
   * The discovered-node order after a leak extends the order before it by
   * the leaked nodes not yet in it, each once.
   */
  lemma {:induction false} OrderAlongFacts(order: seq<NodeId>, targets: seq<NodeId>, i: nat)
    requires i <= |targets|
    ensures order <= OrderAlong(order, targets, i)
    ensures Elems(OrderAlong(order, targets, i)) == Elems(order) + Elems(targets[..i])
    ensures Distinct(order) ==> Distinct(OrderAlong(order, targets, i))
  {
    if i == 0 {
      assert targets[..0] == [];
    } else {
      var n := targets[i - 1];
      OrderAlongFacts(order, targets, i - 1);
      assert targets[..i] == targets[..i - 1] + [n];
      assert Elems(targets[..i]) == Elems(targets[..i - 1]) + {n};
      var o := OrderAlong(order, targets, i - 1);
      if n !in o {
        assert Elems(o + [n]) == Elems(o) + {n};
        if Distinct(order) {
          forall a, b | 0 <= a < b < |o + [n]| ensures (o + [n])[a] != (o + [n])[b] {
            if b == |o| { assert (o + [n])[a] == o[a]; }
          }
        }
      }
    }
  }

  /**
   * Leaking the same nodes again after a propagating leak, as written,
   * reveals nothing: every count is zero.
   */
  lemma LeakTwiceFindsNothing(ids: Identifiers, tags: seq<PropertyName>, nodes: map<NodeId, NodeInfo>,
                              tracked: map<NodeId, NodeTracking>, targets: seq<NodeId>, propagate: bool)
    requires forall n :: n in targets ==> n in nodes
    ensures LeakTotals(ids, tags, nodes, LearnAll(ids, tags, nodes, tracked, Elems(targets)), targets, |targets|, propagate) == Discoveries(0, 0, 0, 0)
  {
    var learned := LearnAll(ids, tags, nodes, tracked, Elems(targets));
    forall k | 0 <= k < |targets| ensures LeakFound(ids, tags, nodes, learned, targets, k, propagate) == 0 {
      LearnedRevealsNothing(ids, tags, nodes, tracked, Elems(targets), targets[k]);
    }
    NothingFoundTotals(ids, tags, nodes, learned, targets, |targets|, propagate);
  }

  /** A leak whose every node reveals nothing reports nothing. */
  lemma {:induction false} NothingFoundTotals(ids: Identifiers, tags: seq<PropertyName>, nodes: map<NodeId, NodeInfo>,
                                              tracked: map<NodeId, NodeTracking>, targets: seq<NodeId>, i: nat, propagate: bool)
    requires i <= |targets| && forall n :: n in targets ==> n in nodes
    requires forall k :: 0 <= k < i ==> LeakFound(ids, tags, nodes, tracked, targets, k, propagate) == 0
    ensures LeakTotals(ids, tags, nodes, tracked, targets, i, propagate) == Discoveries(0, 0, 0, 0)
  {
    if i > 0 {
      NothingFoundTotals(ids, tags, nodes, tracked, targets, i - 1, propagate);
    }
  }

  /** A node discovered as written has no initial property left to reveal. */
  lemma LearnedRevealsNothing(ids: Identifiers, tags: seq<PropertyName>, nodes: map<NodeId, NodeInfo>,
                              tracked: map<NodeId, NodeTracking>, leaked: set<NodeId>, n: NodeId)
    requires leaked <= nodes.Keys && n in leaked
    ensures InitialIndices(ids, tags, nodes[n]) - TrackingIn(LearnAll(ids, tags, nodes, tracked, leaked), n).discoveredProperties == {}
  {
    var found := InitialIndices(ids, tags, nodes[n]);
    assert TrackingIn(LearnAll(ids, tags, nodes, tracked, leaked), n) == Learn(TrackingIn(tracked, n), found);
  }

  datatype NodeStatusTag = Owned | Discovered

  datatype DiscoveredNodeInfo = DiscoveredNodeInfo(id: NodeId, status: NodeStatusTag)

  /** The nodes of `order` whose privilege level is at least `level`, in order. */
  function NodesAtLeast(order: seq<NodeId>, nodes: map<NodeId, NodeInfo>, level: PrivilegeLevel): (r: seq<NodeId>)
    requires forall n :: n in order ==> n in nodes
    ensures forall n :: n in r <==> n in order && PrivilegeRank(nodes[n].privilegeLevel) >= PrivilegeRank(level)
    ensures |r| <= |order|
    ensures Distinct(order) ==> Distinct(r)
  {
    if order == [] then []
    else
      var last := order[|order| - 1];
      var init := order[..|order| - 1];
      assert order == init + [last];
      var rest := NodesAtLeast(init, nodes, level);
      if PrivilegeRank(nodes[last].privilegeLevel) >= PrivilegeRank(level) then rest + [last] else rest
  }

  /** The nodes of `order` with an installed agent, in order. */
  function InstalledNodes(order: seq<NodeId>, nodes: map<NodeId, NodeInfo>): (r: seq<NodeId>)
    requires forall n :: n in order ==> n in nodes
    ensures forall n :: n in r <==> n in order && nodes[n].agentInstalled
    ensures Distinct(order) ==> Distinct(r)
  {
    if order == [] then []
    else
      var last := order[|order| - 1];
      var init := order[..|order| - 1];
      assert order == init + [last];
      var rest := InstalledNodes(init, nodes);
      if nodes[last].agentInstalled then rest + [last] else rest
  }

  /** What the constructor makes of a node record: installed nodes are escalated to at least LocalUser. */
  function InitialOwnership(node: NodeInfo): NodeInfo
  {
    if node.agentInstalled then node.(privilegeLevel := Escalate(node.privilegeLevel, LocalUser)) else node
  }

  /** The tracking record the constructor leaves for an owned node with properties `props`. */
  function InitialTracking(names: seq<PropertyName>, tags: seq<PropertyName>, props: seq<PropertyName>, shared: set<nat>, now: nat): NodeTracking
    requires forall p :: p in props && p !in tags ==> p in names
  {
    NodeTracking(map[], Some(now), IndexSet(names, tags, Elems(props)) + shared)
  }

  /** The constructor's node map after handling one more node of the network order. */
  lemma InitialNodesStep(done: seq<NodeId>, id: NodeId, original: map<NodeId, NodeInfo>, before: map<NodeId, NodeInfo>, after: map<NodeId, NodeInfo>)
    requires id in original && before.Keys == original.Keys
    requires forall n :: n in before ==> before[n] == if n in done then InitialOwnership(original[n]) else original[n]
    requires after == if original[id].agentInstalled then before[id := InitialOwnership(original[id])] else before
    ensures after.Keys == original.Keys
    ensures forall n :: n in after ==> after[n] == if n in done + [id] then InitialOwnership(original[n]) else original[n]
  {
  }

  /** The first `i + 1` nodes of the network order, and the installed ones among them. */
  lemma InitialOrderStep(order: seq<NodeId>, i: nat, original: map<NodeId, NodeInfo>)
    requires i < |order| && forall n :: n in order ==> n in original
    ensures order[..i + 1] == order[..i] + [order[i]]
    ensures InstalledNodes(order[..i + 1], original) ==
            if original[order[i]].agentInstalled then InstalledNodes(order[..i], original) + [order[i]] else InstalledNodes(order[..i], original)
    ensures Distinct(order) ==> order[i] !in order[..i]
  {
    var next := order[..i + 1];
    assert next[..i] == order[..i];
  }

  /** The constructor's tracking map after handling one more node of the network order. */
  lemma InitialTrackingStep(names: seq<PropertyName>, tags: seq<PropertyName>, shared: set<nat>, now: nat, id: NodeId,
                            original: map<NodeId, NodeInfo>, before: map<NodeId, NodeTracking>, after: map<NodeId, NodeTracking>)
    requires forall n, p :: n in original && p in original[n].properties ==> p in names
    requires id in original && before.Keys <= original.Keys
    requires forall n :: n in before ==> before[n] == InitialTracking(names, tags, original[n].properties, shared, now)
    requires after == if original[id].agentInstalled then before[id := InitialTracking(names, tags, original[id].properties, shared, now)] else before
    ensures after.Keys <= original.Keys
    ensures forall n :: n in after ==> after[n] == InitialTracking(names, tags, original[n].properties, shared, now)
  {
  }

  /** What `__process_outcome` (not part of this model) reports back to an exploit. */
  datatype ProcessedOutcome = ProcessedOutcome(succeeded: bool, result: ActionResult)

  // ------------------------------------------------------------ the agent

  class AgentActions {
    const env: Environment
    const throwsOnInvalidActions: bool
    /** The tags marking a reached privilege level (computed from model.PrivilegeEscalation, not part of this model). */
    const privilegeTags: seq<PropertyName>
    /**
     * Whether discovery hands on the global properties the first tracked node
     * has discovered (the evidently intended reading of actions.py:269) rather
     * than the empty set the code as written computes.
     */
    const correctsFirstNodeGlobals: bool
    var gatheredCredentials: set<CredentialId>
    /** The keys of the discovered-nodes ordered dictionary, in insertion order. */
    var discoveredOrder: seq<NodeId>
    var discovered: map<NodeId, NodeTracking>

    ghost predicate Valid()
      reads this, env
    {
      && env.Valid()
      && Distinct(discoveredOrder)
      && (forall n :: n in discoveredOrder <==> n in discovered)
      && (forall n :: n in discovered ==> n in env.nodes)
      && (forall n :: n in discovered && discovered[n].lastOwnedAt.Some? ==> discovered[n].lastOwnedAt.value <= env.clock)
    }

    function TrackingOf(nodeId: NodeId): NodeTracking
      reads this
    {
      TrackingIn(discovered, nodeId)
    }

    /** The discovered-node order once `nodeId` has a tracking entry. */
    function OrderAfterTracking(nodeId: NodeId): seq<NodeId>
      reads this
    {
      if nodeId in discovered then discoveredOrder else discoveredOrder + [nodeId]
    }

    /** The time the node was last owned, and whether that ownership survives its last reimaging. */
    function IsNodeOwnedHistory(nodeId: NodeId, node: NodeInfo): (r: (Option<nat>, bool))
      reads this
      ensures r.0 == TrackingOf(nodeId).lastOwnedAt
      ensures r.1 ==> r.0.Some?
      ensures r.1 <==> nodeId in discovered && discovered[nodeId].lastOwnedAt.Some? &&
                       forall t :: node.lastReimaging == Some(t) ==> t <= discovered[nodeId].lastOwnedAt.value
    {
      var last := if nodeId in discovered then discovered[nodeId].lastOwnedAt else None;
      (last, CurrentlyOwned(last, node.lastReimaging))
    }

    function IsNodeDiscovered(nodeId: NodeId): (r: bool)
      reads this, env
      requires Valid()
      ensures r <==> nodeId in discoveredOrder
    {
      nodeId in discovered
    }

    /** The discovered nodes in discovery order, each tagged owned when its agent is installed. */
    function ListNodes(): (r: seq<DiscoveredNodeInfo>)
      reads this, env
      requires Valid()
      ensures |r| == |discoveredOrder|
      ensures forall i :: 0 <= i < |r| ==>
                r[i].id == discoveredOrder[i] && (r[i].status == Owned <==> env.nodes[discoveredOrder[i]].agentInstalled)
    {
      var order, nodes := discoveredOrder, env.nodes;
      seq(|order|, i requires 0 <= i < |order| =>
        DiscoveredNodeInfo(order[i], if nodes[order[i]].agentInstalled then Owned else Discovered))
    }

    function GetNodesWithAtLeastPrivilegeLevel(level: PrivilegeLevel): (r: seq<NodeId>)
      reads env
      requires env.Valid()
      ensures forall n :: n in r <==> n in env.nodes && PrivilegeRank(env.nodes[n].privilegeLevel) >= PrivilegeRank(level)
      ensures Distinct(r)
    {
      NodesAtLeast(env.nodeOrder, env.nodes, level)
    }

    /**
     * The global properties `__mark_node_as_discovered` takes from the first
     * tracked node: as written none (actions.py:269), corrected the global
     * properties that node has discovered.
     */
    function FirstDiscoveredGlobals(): (r: set<PropertyName>)
      reads this
      requires discoveredOrder != [] && discoveredOrder[0] in discovered
      ensures !correctsFirstNodeGlobals ==> r == {}
      ensures r <= Elems(env.identifiers.globalProperties)
    {
      var first := discovered[discoveredOrder[0]].discoveredProperties;
      if correctsFirstNodeGlobals then FirstNodeGlobals(env.identifiers.properties, first, env.identifiers.globalProperties)
      else StrValues(FirstNodeGlobalsAsWritten(first, env.identifiers.globalProperties))
    }

    /**
     * The property indices `__mark_node_as_discovered` records for a node; as
     * written those of the node's initial properties, whatever is tracked.
     */
    function DiscoveryIndices(nodeId: NodeId): (r: set<nat>)
      reads this, env
      requires Valid() && nodeId in env.nodes && discoveredOrder != []
      ensures !correctsFirstNodeGlobals ==> r == InitialIndices(env.identifiers, privilegeTags, env.nodes[nodeId])
    {
      IndexSet(env.identifiers.properties, privilegeTags,
               FirstDiscoveredGlobals() + (Elems(env.nodes[nodeId].properties) * Elems(env.identifiers.initialProperties)))
    }

    constructor (environment: Environment, throwsOnInvalid: bool, tags: seq<PropertyName>, correctGlobals: bool, now: nat)
      requires environment.Valid() && environment.clock <= now
      modifies environment
      ensures Valid()
      ensures env == environment && throwsOnInvalidActions == throwsOnInvalid && privilegeTags == tags
      ensures correctsFirstNodeGlobals == correctGlobals
      ensures gatheredCredentials == {}
      ensures discoveredOrder == InstalledNodes(old(environment.nodeOrder), old(environment.nodes))
      ensures forall n :: n in discovered ==>
                discovered[n] == NodeTracking(map[], Some(now),
                  IndexSet(env.identifiers.properties, tags, Elems(old(environment.nodes)[n].properties)) +
                  IndexSet(env.identifiers.properties, tags, Elems(env.identifiers.globalProperties) * Elems(env.identifiers.initialProperties)))
      ensures env.nodeOrder == old(environment.nodeOrder) && env.edges == old(environment.edges)
      ensures env.nodes.Keys == old(environment.nodes).Keys
      ensures forall n :: n in env.nodes ==> env.nodes[n] == InitialOwnership(old(environment.nodes)[n])
      ensures env.clock <= now
    {
      env := environment;
      throwsOnInvalidActions := throwsOnInvalid;
      privilegeTags := tags;
      correctsFirstNodeGlobals := correctGlobals;
      gatheredCredentials := {};
      discoveredOrder := [];
      discovered := map[];
      new;
      ghost var order := env.nodeOrder;
      ghost var original := env.nodes;
      ghost var names := env.identifiers.properties;
      ghost var shared := IndexSet(names, tags, Elems(env.identifiers.globalProperties) * Elems(env.identifiers.initialProperties));
      var i := 0;
      while i < |env.nodeOrder|
        invariant Valid() && i <= |order| && env.nodeOrder == order && gatheredCredentials == {}
        invariant forall n, p :: n in original && p in original[n].properties ==> p in env.identifiers.properties
        invariant env.nodes.Keys == original.Keys && discoveredOrder == InstalledNodes(order[..i], original)
        invariant forall n :: n in env.nodes ==>
                    env.nodes[n] == if n in order[..i] then InitialOwnership(original[n]) else original[n]
        invariant forall n :: n in discovered ==>
                    discovered[n] == InitialTracking(env.identifiers.properties, tags, original[n].properties, shared, now)
        invariant env.edges == old(environment.edges) && env.clock <= now
      {
        InitialStep(i, order, original, shared, now);
        i := i + 1;
      }
      assert order[..i] == order;
    }

    /** One pass of the constructor's loop. */
    method InitialStep(i: nat, ghost order: seq<NodeId>, ghost original: map<NodeId, NodeInfo>, ghost shared: set<nat>, now: nat)
      requires i < |order| && env.clock <= now
      requires Valid() && env.nodeOrder == order && gatheredCredentials == {}
      requires forall n, p :: n in original && p in original[n].properties ==> p in env.identifiers.properties
      requires env.nodes.Keys == original.Keys && discoveredOrder == InstalledNodes(order[..i], original)
      requires forall n :: n in env.nodes ==>
                  env.nodes[n] == if n in order[..i] then InitialOwnership(original[n]) else original[n]
      requires forall n :: n in discovered ==>
                  discovered[n] == InitialTracking(env.identifiers.properties, privilegeTags, original[n].properties, shared, now)
      requires shared == IndexSet(env.identifiers.properties, privilegeTags,
                                  Elems(env.identifiers.globalProperties) * Elems(env.identifiers.initialProperties))
      modifies this, env
      ensures Valid() && i + 1 <= |order| && env.nodeOrder == order && gatheredCredentials == {}
      ensures env.nodes.Keys == original.Keys && discoveredOrder == InstalledNodes(order[..i + 1], original)
      ensures forall n :: n in env.nodes ==>
                env.nodes[n] == if n in order[..i + 1] then InitialOwnership(original[n]) else original[n]
      ensures forall n :: n in discovered ==>
                discovered[n] == InitialTracking(env.identifiers.properties, privilegeTags, original[n].properties, shared, now)
      ensures env.edges == old(env.edges) && env.clock <= now
    {
      var id := env.nodeOrder[i];
      ghost var done := order[..i];
      InitialOrderStep(order, i, original);
      assert id !in discovered;
      ghost var nodesBefore := env.nodes;
      ghost var trackedBefore := discovered;
      if env.nodes[id].agentInstalled {
        OwnInitially(id, now, shared);
      }
      InitialNodesStep(done, id, original, nodesBefore, env.nodes);
      InitialTrackingStep(env.identifiers.properties, privilegeTags, shared, now, id, original, trackedBefore, discovered);
    }

    /** What the constructor does for a node with an installed agent. */
    method OwnInitially(id: NodeId, now: nat, ghost shared: set<nat>)
      requires Valid() && id in env.nodes && id !in discovered && env.nodes[id].agentInstalled && env.clock <= now
      requires shared == IndexSet(env.identifiers.properties, privilegeTags,
                                  Elems(env.identifiers.globalProperties) * Elems(env.identifiers.initialProperties))
      modifies this, env
      ensures Valid()
      ensures env.nodes == old(env.nodes)[id := InitialOwnership(old(env.nodes[id]))]
      ensures discovered == old(discovered)[id := InitialTracking(env.identifiers.properties, privilegeTags, old(env.nodes[id]).properties, shared, now)]
      ensures discoveredOrder == old(discoveredOrder) + [id]
      ensures gatheredCredentials == old(gatheredCredentials)
      ensures env.nodeOrder == old(env.nodeOrder) && env.edges == old(env.edges) && env.clock == now
    {
      ghost var node := env.nodes[id];
      PropertyIndicesFacts(env.identifiers.properties, privilegeTags, node.properties);
      var _, _ := MarkNodeAsOwned(id, LocalUser, true, now);
      ghost var owned := discovered[id];
      assert owned == NodeTracking(map[], Some(now), IndexSet(env.identifiers.properties, privilegeTags, Elems(node.properties)));
      RecordGlobalInitial(id, shared);
      MapOverwrite(old(discovered), id, owned, discovered[id]);
    }

    /** Records, for a tracked node, the global properties that are also initial properties. */
    method RecordGlobalInitial(id: NodeId, ghost shared: set<nat>)
      requires Valid() && id in discovered
      requires shared == IndexSet(env.identifiers.properties, privilegeTags,
                                  Elems(env.identifiers.globalProperties) * Elems(env.identifiers.initialProperties))
      modifies this
      ensures Valid()
      ensures discovered == old(discovered)[id := Learn(old(discovered[id]), shared)]
      ensures discoveredOrder == old(discoveredOrder) && gatheredCredentials == old(gatheredCredentials)
    {
      var globalInitial := SetToSeq(Elems(env.identifiers.globalProperties) * Elems(env.identifiers.initialProperties));
      RecordedIndices(env.identifiers.properties, privilegeTags,
                      Elems(env.identifiers.globalProperties) * Elems(env.identifiers.initialProperties), globalInitial);
      var _ := MarkNodePropertiesAsDiscovered(id, globalInitial, true);
    }

    /**
     * Records property indices for a node. Without `propagate` nothing changes
     * and the call counts what would be new: for a tracked node the indices not
     * yet recorded, for an untracked node the index list's length.
     */
    method MarkNodePropertiesAsDiscovered(nodeId: NodeId, properties: seq<PropertyName>, propagate: bool) returns (newly: nat)
      requires Valid() && nodeId in env.nodes
      requires forall p :: p in properties && p !in privilegeTags ==> p in env.identifiers.properties
      modifies this
      ensures Valid()
      ensures gatheredCredentials == old(gatheredCredentials)
      ensures var indices := PropertyIndices(env.identifiers.properties, privilegeTags, properties);
              var known := old(TrackingOf(nodeId)).discoveredProperties;
              newly == if !propagate && nodeId !in old(discovered) then |indices| else |Elems(indices) - known|
      ensures propagate ==>
                && discovered == old(discovered)[nodeId := Learn(old(TrackingOf(nodeId)), Elems(PropertyIndices(env.identifiers.properties, privilegeTags, properties)))]
                && discoveredOrder == old(OrderAfterTracking(nodeId))
      ensures !propagate ==> discovered == old(discovered) && discoveredOrder == old(discoveredOrder)
    {
      var indices := PropertyIndices(env.identifiers.properties, privilegeTags, properties);
      var tracking := TrackingOf(nodeId);
      if !propagate {
        newly := if nodeId in discovered then |Elems(indices) - tracking.discoveredProperties| else |indices|;
      } else {
        // The growth of the recorded set, which DryRunCountMatchesGrowth relates to the dry-run count.
        newly := |Elems(indices) - tracking.discoveredProperties|;
        discoveredOrder := OrderAfterTracking(nodeId);
        discovered := discovered[nodeId := Learn(tracking, Elems(indices))];
      }
    }

    /**
     * Marks a node as discovered: a propagating call tracks it and records the
     * global properties the first tracked node has discovered together with the
     * node's initial properties; a dry run changes nothing and counts.
     */
    method MarkNodeAsDiscovered(nodeId: NodeId, propagate: bool) returns (newlyProperties: nat)
      requires Valid() && nodeId in env.nodes && discoveredOrder != []
      modifies this
      ensures Valid() && discoveredOrder != []
      ensures gatheredCredentials == old(gatheredCredentials)
      ensures newlyProperties == |old(DiscoveryIndices(nodeId)) - old(TrackingOf(nodeId)).discoveredProperties|
      ensures propagate ==>
                && discovered == old(discovered)[nodeId := Learn(old(TrackingOf(nodeId)), old(DiscoveryIndices(nodeId)))]
                && discoveredOrder == old(OrderAfterTracking(nodeId))
      ensures !propagate ==> discovered == old(discovered) && discoveredOrder == old(discoveredOrder)
    {
      var props := DiscoveryProperties(nodeId);
      ghost var found := DiscoveryIndices(nodeId);
      ghost var before := discovered;
      ghost var tracking := TrackingOf(nodeId);
      if propagate {
        StartTracking(nodeId);
      }
      ghost var entered := discovered;
      newlyProperties := MarkNodePropertiesAsDiscovered(nodeId, props, propagate);
      if propagate {
        assert discovered == entered[nodeId := Learn(tracking, found)];
        if entered != before {
          MapOverwrite(before, nodeId, NewTracking, Learn(tracking, found));
        }
      }
    }

    /** Gives a node a fresh tracking record and a place in the discovery order unless it has one. */
    method StartTracking(nodeId: NodeId)
      requires Valid() && nodeId in env.nodes
      modifies this
      ensures Valid() && discoveredOrder == old(OrderAfterTracking(nodeId))
      ensures discovered == if nodeId in old(discovered) then old(discovered) else old(discovered)[nodeId := NewTracking]
      ensures TrackingOf(nodeId) == old(TrackingOf(nodeId)) && gatheredCredentials == old(gatheredCredentials)
    {
      if nodeId !in discovered {
        discovered := discovered[nodeId := NewTracking];
        discoveredOrder := discoveredOrder + [nodeId];
      }
    }

    /** The properties `__mark_node_as_discovered` hands on, listed without repetition. */
    method DiscoveryProperties(nodeId: NodeId) returns (props: seq<PropertyName>)
      requires Valid() && nodeId in env.nodes && discoveredOrder != []
      ensures Distinct(props)
      ensures forall p :: p in props && p !in privilegeTags ==> p in env.identifiers.properties
      ensures Elems(PropertyIndices(env.identifiers.properties, privilegeTags, props)) == DiscoveryIndices(nodeId)
      ensures |PropertyIndices(env.identifiers.properties, privilegeTags, props)| == |DiscoveryIndices(nodeId)|
    {
      var globals := FirstDiscoveredGlobals();
      var initial := Elems(env.nodes[nodeId].properties) * Elems(env.identifiers.initialProperties);
      props := SetToSeq(globals + initial);
      assert forall p :: p in globals + initial ==> p in env.identifiers.properties;
      RecordedIndices(env.identifiers.properties, privilegeTags, globals + initial, props);
    }

    /**
     * Marks a node as owned at time `now`. Only a propagating call on a node
     * that is not currently owned changes anything: the node gets a tracking
     * entry, its agent is installed, its privilege escalated, all its properties
     * recorded and its ownership stamped. Returns the ownership history from
     * before the call.
     */
    method MarkNodeAsOwned(nodeId: NodeId, privilege: PrivilegeLevel, propagate: bool, now: nat)
      returns (lastOwnedAt: Option<nat>, isCurrentlyOwned: bool)
      requires Valid() && nodeId in env.nodes && env.clock <= now
      modifies this, env
      ensures Valid()
      ensures (lastOwnedAt, isCurrentlyOwned) == old(IsNodeOwnedHistory(nodeId, env.nodes[nodeId]))
      ensures gatheredCredentials == old(gatheredCredentials)
      ensures env.edges == old(env.edges) && env.nodeOrder == old(env.nodeOrder)
      ensures !propagate || isCurrentlyOwned ==>
                && discovered == old(discovered) && discoveredOrder == old(discoveredOrder)
                && env.nodes == old(env.nodes) && env.clock == old(env.clock)
      ensures propagate && !isCurrentlyOwned ==>
                var node := old(env.nodes[nodeId]);
                var indices := Elems(PropertyIndices(env.identifiers.properties, privilegeTags, node.properties));
                && env.nodes == old(env.nodes)[nodeId := node.(agentInstalled := true, privilegeLevel := Escalate(node.privilegeLevel, privilege))]
                && discovered == old(discovered)[nodeId := Learn(old(TrackingOf(nodeId)), indices).(lastOwnedAt := Some(now))]
                && discoveredOrder == old(OrderAfterTracking(nodeId))
                && env.clock == now
                && CurrentlyOwned(discovered[nodeId].lastOwnedAt, env.nodes[nodeId].lastReimaging)
    {
      var history := IsNodeOwnedHistory(nodeId, env.nodes[nodeId]);
      lastOwnedAt, isCurrentlyOwned := history.0, history.1;
      if propagate && !isCurrentlyOwned {
        ghost var before := discovered;
        ghost var tracking := TrackingOf(nodeId);
        Track(nodeId);
        ghost var entered := discovered;
        TakeOver(nodeId, privilege, now);
        if entered != before {
          MapOverwrite(before, nodeId, NewTracking, discovered[nodeId]);
        }
      }
    }

    /** Gives the node a tracking entry when it has none. */
    method Track(nodeId: NodeId)
      requires Valid() && nodeId in env.nodes
      modifies this
      ensures Valid() && nodeId in discovered
      ensures discovered == if nodeId in old(discovered) then old(discovered) else old(discovered)[nodeId := NewTracking]
      ensures discoveredOrder == old(OrderAfterTracking(nodeId))
      ensures gatheredCredentials == old(gatheredCredentials)
    {
      if nodeId !in discovered {
        discovered := discovered[nodeId := NewTracking];
        discoveredOrder := discoveredOrder + [nodeId];
      }
    }

    /** The part of `__mark_node_as_owned` that takes a tracked node over. */
    method TakeOver(nodeId: NodeId, privilege: PrivilegeLevel, now: nat)
      requires Valid() && nodeId in discovered && env.clock <= now
      modifies this, env
      ensures Valid()
      ensures var node := old(env.nodes[nodeId]);
              var indices := Elems(PropertyIndices(env.identifiers.properties, privilegeTags, node.properties));
              && env.nodes == old(env.nodes)[nodeId := node.(agentInstalled := true, privilegeLevel := Escalate(node.privilegeLevel, privilege))]
              && discovered == old(discovered)[nodeId := Learn(old(discovered[nodeId]), indices).(lastOwnedAt := Some(now))]
      ensures discoveredOrder == old(discoveredOrder) && gatheredCredentials == old(gatheredCredentials)
      ensures env.clock == now && env.edges == old(env.edges) && env.nodeOrder == old(env.nodeOrder)
    {
      var node := env.nodes[nodeId];
      env.SetNode(nodeId, node.(agentInstalled := true, privilegeLevel := Escalate(node.privilegeLevel, privilege)), now);
      var _ := MarkNodePropertiesAsDiscovered(nodeId, node.properties, true);
      ghost var learned := discovered[nodeId];
      MarkOwned(nodeId);
      MapOverwrite(old(discovered), nodeId, learned, learned.(lastOwnedAt := Some(now)));
    }

    /** Stamps a discovered node as owned at the current time. */
    method MarkOwned(nodeId: NodeId)
      requires Valid() && nodeId in discovered
      modifies this
      ensures Valid()
      ensures discovered == old(discovered)[nodeId := old(discovered[nodeId]).(lastOwnedAt := Some(env.clock))]
      ensures discoveredOrder == old(discoveredOrder) && gatheredCredentials == old(gatheredCredentials)
    {
      discovered := discovered[nodeId := discovered[nodeId].(lastOwnedAt := Some(env.clock))];
    }

    /** Annotates the edge from `source` to `target`, creating it when absent. */
    method AnnotateEdge(source: NodeId, target: NodeId, annotation: EdgeAnnotation)
      modifies env
      ensures env.edges == Annotate(old(env.edges), (source, target), annotation)
      ensures env.nodes == old(env.nodes) && env.nodeOrder == old(env.nodeOrder) && env.clock == old(env.clock)
    {
      env.edges := Annotate(env.edges, (source, target), annotation);
    }

    /**
     * One leaked node: discovered (for real when `discoverPropagate`), its
     * relation to the reference node annotated KNOWS when `annotate`.
     */
    method DiscoverLeakedNode(reference: NodeId, nodeId: NodeId, discoverPropagate: bool, annotate: bool) returns (newProperties: nat)
      requires Valid() && discoveredOrder != [] && nodeId in env.nodes
      modifies this, env
      ensures Valid() && discoveredOrder != []
      ensures env.nodes == old(env.nodes) && env.nodeOrder == old(env.nodeOrder) && env.clock == old(env.clock)
      ensures gatheredCredentials == old(gatheredCredentials)
      ensures env.edges == if annotate then Annotate(old(env.edges), (reference, nodeId), Knows) else old(env.edges)
      ensures newProperties == |old(DiscoveryIndices(nodeId)) - old(TrackingOf(nodeId)).discoveredProperties|
      ensures discoverPropagate ==>
                && discovered == old(discovered)[nodeId := Learn(old(TrackingOf(nodeId)), old(DiscoveryIndices(nodeId)))]
                && discoveredOrder == old(OrderAfterTracking(nodeId))
                && TrackingGrows(old(discovered), discovered)
                && discovered.Keys == old(discovered).Keys + {nodeId}
                && old(discoveredOrder) <= discoveredOrder
      ensures !discoverPropagate ==> discovered == old(discovered) && discoveredOrder == old(discoveredOrder)
    {
      ghost var tracking := TrackingOf(nodeId);
      ghost var found := DiscoveryIndices(nodeId);
      ghost var order := discoveredOrder;
      newProperties := MarkNodeAsDiscovered(nodeId, discoverPropagate);
      if discoverPropagate {
        LearnGrows(old(discovered), nodeId, tracking, found);
        assert order <= discoveredOrder by {
          if discoveredOrder != order { assert discoveredOrder == order + [nodeId]; }
        }
      }
      if annotate {
        AnnotateEdge(reference, nodeId, Knows);
      }
    }

    /**
     * The state of the loop over leaked credentials after its first `i`
     * passes, relative to the state it started from.
     */
    ghost predicate CredentialLeakProgress(reference: NodeId, credentials: seq<CachedCredential>, i: nat, propagate: bool,
                                           discoverPropagate: bool, targets: seq<NodeId>, totals: Discoveries, count: nat,
                                           edges: map<(NodeId, NodeId), EdgeData>, known: set<CredentialId>,
                                           tracked: map<NodeId, NodeTracking>, order: seq<NodeId>,
                                           ids: Identifiers, nodes: map<NodeId, NodeInfo>)
      reads this, env
    {
      && i <= |credentials| == |targets|
      && (forall n :: n in targets ==> n in nodes)
      && Valid() && discoveredOrder != []
      && ids == env.identifiers && nodes == env.nodes
      && CredentialProgress(credentials, i, known, propagate, gatheredCredentials, count)
      && env.edges == (if propagate then KnowsAlong(edges, reference, targets, i) else edges)
      && (discoverPropagate ==>
            && TrackingGrows(tracked, discovered)
            && discovered.Keys == tracked.Keys + Elems(targets[..i])
            && order <= discoveredOrder)
      && (!correctsFirstNodeGlobals && discoverPropagate ==>
            discovered == LearnAlong(ids, privilegeTags, nodes, tracked, targets, i) && discoveredOrder == OrderAlong(order, targets, i))
      && (!discoverPropagate ==> discovered == tracked && discoveredOrder == order)
      && totals.nodes <= i && totals.credentials == 0
      && (!correctsFirstNodeGlobals ==> totals == LeakTotals(ids, privilegeTags, nodes, tracked, targets, i, discoverPropagate))
    }

    /**
     * The credential branch of `__mark_discovered_entities`. `discoverPropagate`
     * is the flag passed on to `__mark_node_as_discovered`: the corrected model
     * passes `propagate`, the code as written passes true.
     */
    method MarkLeakedCredentials(reference: NodeId, credentials: seq<CachedCredential>, propagate: bool, discoverPropagate: bool)
      returns (d: Discoveries)
      requires Valid() && discoveredOrder != []
      requires forall c :: c in credentials ==> c.node in env.nodes
      modifies this, env
      ensures Valid() && discoveredOrder != []
      ensures env.nodes == old(env.nodes) && env.nodeOrder == old(env.nodeOrder) && env.clock == old(env.clock)
      ensures propagate ==> gatheredCredentials == old(gatheredCredentials) + CredentialIds(credentials, |credentials|)
      ensures !propagate ==> gatheredCredentials == old(gatheredCredentials)
      ensures d.credentials == if propagate then |CredentialIds(credentials, |credentials|) - old(gatheredCredentials)|
                               else CountUnknown(credentials, |credentials|, old(gatheredCredentials))
      ensures d.nodes <= |credentials|
      ensures env.edges == if propagate then KnowsAlong(old(env.edges), reference, NodesOf(credentials), |credentials|) else old(env.edges)
      ensures discoverPropagate ==>
                && TrackingGrows(old(discovered), discovered)
                && discovered.Keys == old(discovered).Keys + Elems(NodesOf(credentials))
                && old(discoveredOrder) <= discoveredOrder
      ensures !correctsFirstNodeGlobals ==>
                d.(credentials := 0) == LeakTotals(env.identifiers, privilegeTags, env.nodes, old(discovered), NodesOf(credentials), |credentials|, discoverPropagate)
      ensures !correctsFirstNodeGlobals && discoverPropagate ==>
                && discovered == LearnAll(env.identifiers, privilegeTags, env.nodes, old(discovered), Elems(NodesOf(credentials)))
                && discoveredOrder == OrderAlong(old(discoveredOrder), NodesOf(credentials), |credentials|)
      ensures !discoverPropagate ==> discovered == old(discovered) && discoveredOrder == old(discoveredOrder)
    {
      ghost var known := gatheredCredentials;
      ghost var edges := env.edges;
      ghost var tracked := discovered;
      ghost var order := discoveredOrder;
      ghost var ids, nodes := env.identifiers, env.nodes;
      var targets := NodesOf(credentials);
      assert forall n :: n in targets ==> n in nodes by {
        forall n | n in targets ensures n in env.nodes {
          var k :| 0 <= k < |targets| && targets[k] == n;
          assert credentials[k] in credentials;
        }
      }
      assert targets[..0] == [];
      var totals, newCredentials := LeakCredentials(reference, credentials, propagate, discoverPropagate, targets,
                                                edges, known, tracked, order, ids, nodes);
      assert targets[..|credentials|] == targets;
      if !correctsFirstNodeGlobals && discoverPropagate {
        LearnAlongClosedForm(ids, privilegeTags, nodes, tracked, targets, |credentials|);
      }
      d := totals.(credentials := newCredentials);
    }

    /**
     * One pass of the loop over leaked nodes: the `i`-th node discovered (for
     * real when `discoverPropagate`), its edge annotated when `annotate`, and
     * the totals grown by it when it reveals a property. The ghost parameters
     * carry the loop's progress from step `i` to step `i + 1`.
     */
    method LeakNode(reference: NodeId, targets: seq<NodeId>, i: nat, discoverPropagate: bool, annotate: bool, before: Discoveries,
                    ghost edges: map<(NodeId, NodeId), EdgeData>, ghost tracked: map<NodeId, NodeTracking>, ghost order: seq<NodeId>,
                    ghost ids: Identifiers, ghost nodes: map<NodeId, NodeInfo>)
      returns (after: Discoveries)
      requires Valid() && discoveredOrder != []
      requires ids == env.identifiers && nodes == env.nodes
      requires i < |targets| && forall n :: n in targets ==> n in nodes
      requires env.edges == if annotate then KnowsAlong(edges, reference, targets, i) else edges
      requires discoverPropagate ==>
                 && TrackingGrows(tracked, discovered)
                 && discovered.Keys == tracked.Keys + Elems(targets[..i])
                 && order <= discoveredOrder
      requires !correctsFirstNodeGlobals && discoverPropagate ==>
                 discovered == LearnAlong(ids, privilegeTags, nodes, tracked, targets, i) && discoveredOrder == OrderAlong(order, targets, i)
      requires !discoverPropagate ==> discovered == tracked && discoveredOrder == order
      requires before.nodes <= i && before.credentials == 0
      requires !correctsFirstNodeGlobals ==> before == LeakTotals(ids, privilegeTags, nodes, tracked, targets, i, discoverPropagate)
      modifies this, env
      ensures Valid() && discoveredOrder != []
      ensures ids == env.identifiers && nodes == env.nodes
      ensures env.nodes == old(env.nodes) && env.nodeOrder == old(env.nodeOrder) && env.clock == old(env.clock)
      ensures gatheredCredentials == old(gatheredCredentials)
      ensures env.edges == if annotate then KnowsAlong(edges, reference, targets, i + 1) else edges
      ensures discoverPropagate ==>
                && TrackingGrows(tracked, discovered)
                && discovered.Keys == tracked.Keys + Elems(targets[..i + 1])
                && order <= discoveredOrder
      ensures !correctsFirstNodeGlobals && discoverPropagate ==>
                discovered == LearnAlong(ids, privilegeTags, nodes, tracked, targets, i + 1) && discoveredOrder == OrderAlong(order, targets, i + 1)
      ensures !discoverPropagate ==> discovered == tracked && discoveredOrder == order
      ensures after.nodes <= i + 1 && after.credentials == 0
      ensures !correctsFirstNodeGlobals ==> after == LeakTotals(ids, privilegeTags, nodes, tracked, targets, i + 1, discoverPropagate)
    {
      ghost var prev := LeakTotals(ids, privilegeTags, nodes, tracked, targets, i, discoverPropagate);
      assert !correctsFirstNodeGlobals ==> before == prev;
      var n := targets[i];
      ghost var seen := Elems(targets[..i]);
      ElemsPrefixStep(targets, i);
      ghost var beforeTracking := discovered;
      ghost var beforeOrder := discoveredOrder;
      ghost var revealed := DiscoveryIndices(n);
      ghost var known := TrackingIn(beforeTracking, n).discoveredProperties;
      var found := DiscoverLeakedNode(reference, n, discoverPropagate, annotate);
      assert found == |revealed - known|;
      var value := env.nodes[n].value;
      assert value == nodes[targets[i]].value;
      after := AddLeak(before, found, value);
      if discoverPropagate {
        TrackingGrowsTrans(tracked, beforeTracking, discovered);
        UnionStep(tracked.Keys, seen, beforeTracking.Keys, n);
      }
      if !correctsFirstNodeGlobals {
        assert revealed == InitialIndices(ids, privilegeTags, nodes[n]);
        LeakNodeStep(ids, privilegeTags, nodes, tracked, targets, i, discoverPropagate, beforeTracking);
        assert found == LeakFound(ids, privilegeTags, nodes, tracked, targets, i, discoverPropagate);
        LeakTotalsStep(ids, privilegeTags, nodes, tracked, targets, i, discoverPropagate, before, found, value, after);
        if discoverPropagate {
          assert n in beforeOrder <==> n in beforeTracking;
        }
      }
      KnowsAlongStep(edges, reference, targets, i);
    }

    /** The loop of the credential branch, one leaked credential per pass. */
    method LeakCredentials(reference: NodeId, credentials: seq<CachedCredential>, propagate: bool, discoverPropagate: bool,
                           targets: seq<NodeId>, ghost edges: map<(NodeId, NodeId), EdgeData>, ghost known: set<CredentialId>,
                           ghost tracked: map<NodeId, NodeTracking>, ghost order: seq<NodeId>,
                           ghost ids: Identifiers, ghost nodes: map<NodeId, NodeInfo>)
        returns (totals: Discoveries, newCredentials: nat)
      requires targets == NodesOf(credentials)
      requires CredentialLeakProgress(reference, credentials, 0, propagate, discoverPropagate, targets, Discoveries(0, 0, 0, 0), 0,
                                      edges, known, tracked, order, ids, nodes)
      modifies this, env
      ensures env.nodes == old(env.nodes) && env.nodeOrder == old(env.nodeOrder) && env.clock == old(env.clock)
      ensures CredentialLeakProgress(reference, credentials, |credentials|, propagate, discoverPropagate, targets, totals, newCredentials,
                                     edges, known, tracked, order, ids, nodes)
    {
      totals, newCredentials := Discoveries(0, 0, 0, 0), 0;
      var i := 0;
      while i < |credentials|
        invariant 0 <= i <= |credentials|
        invariant env.nodes == old(env.nodes) && env.nodeOrder == old(env.nodeOrder) && env.clock == old(env.clock)
        invariant CredentialLeakProgress(reference, credentials, i, propagate, discoverPropagate, targets, totals, newCredentials,
                                         edges, known, tracked, order, ids, nodes)
      {
        totals, newCredentials := LeakCredential(reference, credentials, i, propagate, discoverPropagate, targets, totals, newCredentials,
                                                 edges, known, tracked, order, ids, nodes);
        i := i + 1;
      }
    }

    /**
     * One pass of the loop over leaked credentials: the `i`-th credential's
     * node handled as a leaked node, the credential counted unless already
     * gathered and gathered when `propagate`.
     */
    method LeakCredential(reference: NodeId, credentials: seq<CachedCredential>, i: nat, propagate: bool, discoverPropagate: bool,
                          targets: seq<NodeId>, before: Discoveries, count: nat,
                          ghost edges: map<(NodeId, NodeId), EdgeData>, ghost known: set<CredentialId>,
                          ghost tracked: map<NodeId, NodeTracking>, ghost order: seq<NodeId>,
                          ghost ids: Identifiers, ghost nodes: map<NodeId, NodeInfo>)
        returns (after: Discoveries, count': nat)
      requires CredentialLeakProgress(reference, credentials, i, propagate, discoverPropagate, targets, before, count,
                                      edges, known, tracked, order, ids, nodes)
      requires i < |credentials| && targets[i] == credentials[i].node
      modifies this, env
      ensures env.nodes == old(env.nodes) && env.nodeOrder == old(env.nodeOrder) && env.clock == old(env.clock)
      ensures CredentialLeakProgress(reference, credentials, i + 1, propagate, discoverPropagate, targets, after, count',
                                     edges, known, tracked, order, ids, nodes)
    {
      var c := credentials[i];
      after := LeakNode(reference, targets, i, discoverPropagate, propagate, before, edges, tracked, order, ids, nodes);
      ghost var held := gatheredCredentials;
      var counted := GatherCredential(c.credential, propagate);
      count' := if counted then count + 1 else count;
      CredentialProgressStep(credentials, i, known, propagate, held, count, counted);
    }

    /** Counts a leaked credential unless already gathered, and gathers it when `propagate`. */
    method GatherCredential(credential: CredentialId, propagate: bool) returns (counted: bool)
      requires Valid()
      modifies this
      ensures Valid()
      ensures counted <==> credential !in old(gatheredCredentials)
      ensures gatheredCredentials == if propagate then old(gatheredCredentials) + {credential} else old(gatheredCredentials)
      ensures discovered == old(discovered) && discoveredOrder == old(discoveredOrder)
    {
      counted := credential !in gatheredCredentials;
      if counted && propagate {
        gatheredCredentials := gatheredCredentials + {credential};
      }
    }

    /** The node branch of `__mark_discovered_entities`. */
    method MarkLeakedNodes(reference: NodeId, nodeIds: seq<NodeId>, propagate: bool) returns (d: Discoveries)
      requires Valid() && discoveredOrder != []
      requires forall n :: n in nodeIds ==> n in env.nodes
      modifies this, env
      ensures Valid() && discoveredOrder != []
      ensures env.nodes == old(env.nodes) && env.nodeOrder == old(env.nodeOrder) && env.clock == old(env.clock)
      ensures gatheredCredentials == old(gatheredCredentials)
      ensures d.nodes <= |nodeIds| && d.credentials == 0
      ensures env.edges == if propagate then KnowsAlong(old(env.edges), reference, nodeIds, |nodeIds|) else old(env.edges)
      ensures propagate ==>
                && TrackingGrows(old(discovered), discovered)
                && discovered.Keys == old(discovered).Keys + Elems(nodeIds)
                && old(discoveredOrder) <= discoveredOrder
      ensures !correctsFirstNodeGlobals ==>
                d == LeakTotals(env.identifiers, privilegeTags, env.nodes, old(discovered), nodeIds, |nodeIds|, propagate)
      ensures !correctsFirstNodeGlobals && propagate ==>
                && discovered == LearnAll(env.identifiers, privilegeTags, env.nodes, old(discovered), Elems(nodeIds))
                && discoveredOrder == OrderAlong(old(discoveredOrder), nodeIds, |nodeIds|)
      ensures !propagate ==> discovered == old(discovered) && discoveredOrder == old(discoveredOrder)
    {
      var totals := Discoveries(0, 0, 0, 0);
      ghost var edges := env.edges;
      ghost var tracked := discovered;
      ghost var order := discoveredOrder;
      ghost var ids, nodes := env.identifiers, env.nodes;
      assert nodeIds[..0] == [];
      var i := 0;
      while i < |nodeIds|
        invariant 0 <= i <= |nodeIds|
        invariant Valid() && discoveredOrder != []
        invariant ids == env.identifiers && nodes == env.nodes
        invariant env.nodes == old(env.nodes) && env.nodeOrder == old(env.nodeOrder) && env.clock == old(env.clock)
        invariant gatheredCredentials == old(gatheredCredentials)
        invariant env.edges == if propagate then KnowsAlong(edges, reference, nodeIds, i) else edges
        invariant propagate ==>
                    && TrackingGrows(tracked, discovered)
                    && discovered.Keys == tracked.Keys + Elems(nodeIds[..i])
                    && order <= discoveredOrder
        invariant !correctsFirstNodeGlobals && propagate ==>
                    discovered == LearnAlong(ids, privilegeTags, nodes, tracked, nodeIds, i) && discoveredOrder == OrderAlong(order, nodeIds, i)
        invariant !propagate ==> discovered == tracked && discoveredOrder == order
        invariant totals.nodes <= i && totals.credentials == 0
        invariant !correctsFirstNodeGlobals ==> totals == LeakTotals(ids, privilegeTags, nodes, tracked, nodeIds, i, propagate)
      {
        totals := LeakNode(reference, nodeIds, i, propagate, propagate, totals, edges, tracked, order, ids, nodes);
        i := i + 1;
      }
      assert nodeIds[..i] == nodeIds;
      if !correctsFirstNodeGlobals && propagate {
        LearnAlongClosedForm(ids, privilegeTags, nodes, tracked, nodeIds, i);
      }
      d := totals;
    }

    /**
     * The credential and node branches of `__mark_discovered_entities`, with
     * the dry run honoured in both (corrected reading of actions.py:343).
     * Without `propagate`, nothing the attacker knows changes.
     */
    method MarkDiscoveredEntities(reference: NodeId, outcome: DiscoveryOutcome, propagate: bool) returns (d: Discoveries)
      requires Valid() && discoveredOrder != []
      requires outcome.LeakedCredentials? ==> forall c :: c in outcome.credentials ==> c.node in env.nodes
      requires outcome.LeakedNodesId? ==> forall n :: n in outcome.nodes ==> n in env.nodes
      modifies this, env
      ensures Valid()
      ensures env.nodes == old(env.nodes) && env.clock == old(env.clock)
      ensures !propagate ==>
                && discovered == old(discovered) && discoveredOrder == old(discoveredOrder)
                && gatheredCredentials == old(gatheredCredentials) && env.edges == old(env.edges)
      ensures propagate && outcome.LeakedCredentials? ==>
                && gatheredCredentials == old(gatheredCredentials) + CredentialIds(outcome.credentials, |outcome.credentials|)
                && discovered.Keys == old(discovered).Keys + Elems(NodesOf(outcome.credentials))
                && d.credentials == |CredentialIds(outcome.credentials, |outcome.credentials|) - old(gatheredCredentials)|
                && env.edges == KnowsEdges(old(env.edges), reference, Elems(NodesOf(outcome.credentials)))
      ensures propagate && outcome.LeakedNodesId? ==>
                && gatheredCredentials == old(gatheredCredentials)
                && discovered.Keys == old(discovered).Keys + Elems(outcome.nodes)
                && env.edges == KnowsEdges(old(env.edges), reference, Elems(outcome.nodes))
      ensures propagate ==> TrackingGrows(old(discovered), discovered)
      ensures outcome.LeakedCredentials? ==>
                d.credentials == if propagate then |CredentialIds(outcome.credentials, |outcome.credentials|) - old(gatheredCredentials)|
                                 else CountUnknown(outcome.credentials, |outcome.credentials|, old(gatheredCredentials))
      ensures !correctsFirstNodeGlobals && outcome.LeakedCredentials? ==>
                var targets := NodesOf(outcome.credentials);
                && d.(credentials := 0) == LeakTotals(env.identifiers, privilegeTags, env.nodes, old(discovered), targets, |targets|, propagate)
                && (propagate ==>
                      && discovered == LearnAll(env.identifiers, privilegeTags, env.nodes, old(discovered), Elems(targets))
                      && discoveredOrder == OrderAlong(old(discoveredOrder), targets, |targets|))
      ensures !correctsFirstNodeGlobals && outcome.LeakedNodesId? ==>
                && d == LeakTotals(env.identifiers, privilegeTags, env.nodes, old(discovered), outcome.nodes, |outcome.nodes|, propagate)
                && (propagate ==>
                      && discovered == LearnAll(env.identifiers, privilegeTags, env.nodes, old(discovered), Elems(outcome.nodes))
                      && discoveredOrder == OrderAlong(old(discoveredOrder), outcome.nodes, |outcome.nodes|))
      ensures outcome.OtherOutcome? ==>
                d == Discoveries(0, 0, 0, 0) && discovered == old(discovered) &&
                gatheredCredentials == old(gatheredCredentials) && env.edges == old(env.edges)
    {
      ghost var edges := env.edges;
      match outcome
      case LeakedCredentials(cs) =>
        d := MarkLeakedCredentials(reference, cs, propagate, propagate);
        KnowsAlongClosedForm(edges, reference, NodesOf(cs), |cs|);
        assert NodesOf(cs)[..|cs|] == NodesOf(cs);
      case LeakedNodesId(ns) =>
        d := MarkLeakedNodes(reference, ns, propagate);
        KnowsAlongClosedForm(edges, reference, ns, |ns|);
        assert ns[..|ns|] == ns;
      case OtherOutcome =>
        d := Discoveries(0, 0, 0, 0);
    }

    /** `__mark_discovered_entities` as written: the credential branch always discovers the leaked nodes. */
    method MarkDiscoveredEntitiesAsWritten(reference: NodeId, outcome: DiscoveryOutcome, propagate: bool) returns (d: Discoveries)
      requires Valid() && discoveredOrder != []
      requires outcome.LeakedCredentials? ==> forall c :: c in outcome.credentials ==> c.node in env.nodes
      requires outcome.LeakedNodesId? ==> forall n :: n in outcome.nodes ==> n in env.nodes
      modifies this, env
      ensures Valid()
      ensures env.nodes == old(env.nodes) && env.clock == old(env.clock)
      ensures outcome.LeakedCredentials? ==> discovered.Keys == old(discovered).Keys + Elems(NodesOf(outcome.credentials))
      ensures !propagate ==> gatheredCredentials == old(gatheredCredentials) && env.edges == old(env.edges)
      ensures !correctsFirstNodeGlobals && outcome.LeakedCredentials? ==>
                var targets := NodesOf(outcome.credentials);
                && d.(credentials := 0) == LeakTotals(env.identifiers, privilegeTags, env.nodes, old(discovered), targets, |targets|, true)
                && discovered == LearnAll(env.identifiers, privilegeTags, env.nodes, old(discovered), Elems(targets))
                && discoveredOrder == OrderAlong(old(discoveredOrder), targets, |targets|)
      ensures !correctsFirstNodeGlobals && outcome.LeakedNodesId? ==>
                && d == LeakTotals(env.identifiers, privilegeTags, env.nodes, old(discovered), outcome.nodes, |outcome.nodes|, propagate)
                && (propagate ==>
                      && discovered == LearnAll(env.identifiers, privilegeTags, env.nodes, old(discovered), Elems(outcome.nodes))
                      && discoveredOrder == OrderAlong(old(discoveredOrder), outcome.nodes, |outcome.nodes|))
      ensures outcome.OtherOutcome? ==>
                d == Discoveries(0, 0, 0, 0) && discovered == old(discovered) &&
                gatheredCredentials == old(gatheredCredentials) && env.edges == old(env.edges)
    {
      match outcome
      case LeakedCredentials(cs) =>
        d := MarkLeakedCredentials(reference, cs, propagate, true);
      case LeakedNodesId(ns) =>
        d := MarkLeakedNodes(reference, ns, propagate);
      case OtherOutcome =>
        d := Discoveries(0, 0, 0, 0);
    }

    /** All checks of a lateral move pass. */
    ghost predicate ConnectChecksPass(sourceId: NodeId, targetId: NodeId, port: PortName, credential: CredentialId)
      reads this, env
    {
      && sourceId in env.nodes && targetId in env.nodes
      && env.nodes[sourceId].agentInstalled
      && targetId in discovered
      && credential in gatheredCredentials
      && IsPassingFirewallRules(env.nodes[sourceId].firewall.outgoing, port)
      && IsPassingFirewallRules(env.nodes[targetId].firewall.incoming, port)
      && IsListening(env.nodes[targetId].services, port)
      && env.nodes[targetId].status == Running
      && CheckServiceRunningAndAuthorized(env.nodes[targetId].services, port, credential)
    }

    /**
     * The checks of a lateral move, in the order they run; the first that
     * fails decides the outcome, and None means the move goes ahead. A failed
     * check never yields a reward nor a lateral move, and only invalid node
     * ids raise when the attacker was not built to throw.
     */
    function ConnectGuard(sourceId: NodeId, targetId: NodeId, port: PortName, credential: CredentialId): (r: Option<ActionOutcome>)
      reads this, env
      ensures r.None? <==> ConnectChecksPass(sourceId, targetId, port, credential)
      ensures r.Some? && r.value.Returned? ==> r.value.result.reward <= 0 && !r.value.result.lateralMove
      ensures r.Some? && r.value.Raised? ==> throwsOnInvalidActions || r.value.error.InvalidNodeId?
    {
      if sourceId !in env.nodes then Some(Raised(InvalidNodeId(sourceId)))
      else if targetId !in env.nodes then Some(Raised(InvalidNodeId(targetId)))
      else
        var source, target := env.nodes[sourceId], env.nodes[targetId];
        if !source.agentInstalled then Some(InvalidActionOutcome(throwsOnInvalidActions, SourceNotOwned(sourceId)))
        else if targetId !in discovered then Some(InvalidActionOutcome(throwsOnInvalidActions, TargetNotDiscovered(targetId)))
        else if credential !in gatheredCredentials then Some(InvalidActionOutcome(throwsOnInvalidActions, CredentialNotGathered(credential)))
        else if !IsPassingFirewallRules(source.firewall.outgoing, port) then Some(Returned(ActionResult(BlockedByLocalFirewall, false)))
        else if !IsPassingFirewallRules(target.firewall.incoming, port) then Some(Returned(ActionResult(BlockedByRemoteFirewall, false)))
        else if !IsListening(target.services, port) then Some(Returned(ActionResult(ScanningUnopenPort, false)))
        else if target.status != Running then Some(Returned(ActionResult(MachineNotRunning, false)))
        else if !CheckServiceRunningAndAuthorized(target.services, port, credential) then Some(Returned(ActionResult(WrongPassword, false)))
        else None
    }

    /**
     * Connects from an owned node to a discovered one with a gathered
     * credential. A move that fails a check changes nothing; one that passes
     * them all takes the target over, worth the node's value the first time
     * and nothing after a reimaging, while a move onto a node already owned
     * is penalised as a repeat.
     */
    method ConnectToRemoteMachine(sourceId: NodeId, targetId: NodeId, port: PortName, credential: CredentialId, now: nat)
      returns (r: ActionOutcome)
      requires Valid() && env.clock <= now
      modifies this, env
      ensures Valid()
      ensures gatheredCredentials == old(gatheredCredentials) && env.nodeOrder == old(env.nodeOrder)
      ensures old(ConnectGuard(sourceId, targetId, port, credential)).Some? ==>
                && r == old(ConnectGuard(sourceId, targetId, port, credential)).value
                && discovered == old(discovered) && discoveredOrder == old(discoveredOrder)
                && env.nodes == old(env.nodes) && env.edges == old(env.edges) && env.clock == old(env.clock)
      ensures old(ConnectGuard(sourceId, targetId, port, credential)).None? ==>
                var target := old(env.nodes[targetId]);
                var history := old(IsNodeOwnedHistory(targetId, target));
                if history.1 then
                  && r == Returned(ActionResult(Repeat, true))
                  && discovered == old(discovered) && discoveredOrder == old(discoveredOrder)
                  && env.nodes == old(env.nodes) && env.edges == old(env.edges) && env.clock == old(env.clock)
                else
                  && r == Returned(ActionResult(if history.0.None? then target.value else 0, true))
                  && env.nodes == old(env.nodes)[targetId := target.(agentInstalled := true, privilegeLevel := Escalate(target.privilegeLevel, LocalUser))]
                  && env.edges == Annotate(old(env.edges), (sourceId, targetId), LateralMove)
                  && discovered == old(discovered)[targetId := Learn(old(TrackingOf(targetId)),
                       Elems(PropertyIndices(env.identifiers.properties, privilegeTags, target.properties))).(lastOwnedAt := Some(now))]
                  && discoveredOrder == old(OrderAfterTracking(targetId))
                  && env.clock == now
                  && CurrentlyOwned(discovered[targetId].lastOwnedAt, env.nodes[targetId].lastReimaging)
    {
      var guard := ConnectGuard(sourceId, targetId, port, credential);
      if guard.Some? {
        return guard.value;
      }
      var value := env.nodes[targetId].value;
      var lastOwnedAt, isAlreadyOwned := MarkNodeAsOwned(targetId, LocalUser, true, now);
      if isAlreadyOwned {
        return Returned(ActionResult(Repeat, true));
      }
      // The target is tracked by now (actions.py:894-895 re-checks it).
      AnnotateEdge(sourceId, targetId, LateralMove);
      r := Returned(ActionResult(if lastOwnedAt.None? then value else 0, true));
    }

    /**
     * The guards `exploit_remote_vulnerability` runs before handing over to
     * `__process_outcome`; None means the exploit goes ahead.
     */
    function RemoteExploitGuard(nodeId: NodeId, targetId: NodeId): (r: Option<ActionOutcome>)
      reads this, env
      ensures r.None? <==> nodeId in env.nodes && targetId in env.nodes && env.nodes[nodeId].agentInstalled && targetId in discovered
      ensures r.Some? && r.value.Returned? ==> !throwsOnInvalidActions && r.value.result == ActionResult(InvalidAction, false)
      ensures nodeId !in env.nodes ==> r == Some(Raised(InvalidNodeId(nodeId)))
      ensures nodeId in env.nodes && targetId !in env.nodes ==> r == Some(Raised(InvalidNodeId(targetId)))
    {
      if nodeId !in env.nodes then Some(Raised(InvalidNodeId(nodeId)))
      else if targetId !in env.nodes then Some(Raised(InvalidNodeId(targetId)))
      else if !env.nodes[nodeId].agentInstalled then Some(InvalidActionOutcome(throwsOnInvalidActions, SourceNotOwned(nodeId)))
      else if targetId !in discovered then Some(InvalidActionOutcome(throwsOnInvalidActions, TargetNotDiscovered(targetId)))
      else None
    }

    /**
     * A remote exploit: the guards, then the result `__process_outcome`
     * reports (a parameter here), with the edge annotated REMOTE_EXPLOIT when
     * the exploit succeeded.
     */
    method ExploitRemoteVulnerability(nodeId: NodeId, targetId: NodeId, processed: ProcessedOutcome) returns (r: ActionOutcome)
      modifies env
      ensures env.nodes == old(env.nodes) && env.clock == old(env.clock) && env.nodeOrder == old(env.nodeOrder)
      ensures old(RemoteExploitGuard(nodeId, targetId)).Some? ==>
                r == old(RemoteExploitGuard(nodeId, targetId)).value && env.edges == old(env.edges)
      ensures old(RemoteExploitGuard(nodeId, targetId)).None? ==>
                && r == Returned(processed.result)
                && env.edges == if processed.succeeded then Annotate(old(env.edges), (nodeId, targetId), RemoteExploit) else old(env.edges)
    {
      var guard := RemoteExploitGuard(nodeId, targetId);
      if guard.Some? {
        return guard.value;
      }
      if processed.succeeded {
        AnnotateEdge(nodeId, targetId, RemoteExploit);
      }
      r := Returned(processed.result);
    }

    /**
     * The guards `exploit_local_vulnerability` runs before handing over to
     * `__process_outcome`; None means the exploit goes ahead.
     */
    function LocalExploitGuard(nodeId: NodeId): (r: Option<ActionOutcome>)
      reads this, env
      ensures r.None? <==> nodeId in env.nodes && env.nodes[nodeId].agentInstalled
      ensures r.Some? && r.value.Returned? ==> !throwsOnInvalidActions && r.value.result == ActionResult(InvalidAction, false)
      ensures r.Some? && r.value.Raised? ==> r.value.error == InvalidNodeId(nodeId) || (throwsOnInvalidActions && r.value.error == SourceNotOwned(nodeId))
      ensures nodeId !in env.nodes ==> r == Some(Raised(InvalidNodeId(nodeId)))
    {
      if nodeId !in env.nodes then Some(Raised(InvalidNodeId(nodeId)))
      else if !env.nodes[nodeId].agentInstalled then Some(InvalidActionOutcome(throwsOnInvalidActions, SourceNotOwned(nodeId)))
      else None
    }

    /**
     * A local exploit: the guards, then the result `__process_outcome`
     * reports (a parameter here). Only a node the agent owns reaches the
     * exploit; a missing node always raises, an unowned one is penalised
     * unless the attacker was built to throw.
     */
    function ExploitLocalVulnerability(nodeId: NodeId, processed: ProcessedOutcome): (r: ActionOutcome)
      reads this, env
      ensures LocalExploitGuard(nodeId).Some? ==> r == LocalExploitGuard(nodeId).value
      ensures LocalExploitGuard(nodeId).None? ==> r == Returned(processed.result)
      ensures r != Returned(processed.result) ==>
                r == Raised(InvalidNodeId(nodeId)) || r == InvalidActionOutcome(throwsOnInvalidActions, SourceNotOwned(nodeId))
    {
      var guard := LocalExploitGuard(nodeId);
      if guard.Some? then guard.value else Returned(processed.result)
    }
  }

  /** An attacker on a network of an owned node "a" and an undiscovered node "b". */
  method TwoNodeAttacker() returns (agent: AgentActions)
    ensures fresh(agent) && fresh(agent.env)
    ensures agent.Valid() && agent.discoveredOrder == ["a"] && "b" in agent.env.nodes
  {
    var noFirewall := FirewallConfiguration([], []);
    var a := NodeInfo([], noFirewall, 0, [], true, LocalUser, Running, None, true);
    var b := NodeInfo([], noFirewall, 10, [], false, NoAccess, Running, None, true);
    var ids := Identifiers([], [], []);
    assert WellFormedNetwork(ids, ["a", "b"], map["a" := a, "b" := b], 0);
    var network := new Environment(ids, ["a", "b"], map["a" := a, "b" := b], map[], 0);
    agent := new AgentActions(network, false, [], false, 0);
    assert agent.discoveredOrder == ["a"] by {
      assert ["a", "b"][..1] == ["a"];
      assert InstalledNodes(["a"], map["a" := a, "b" := b]) == ["a"];
    }
  }

  /**
   * A dry run over a credential leak, as written, discovers the leaked node:
   * leaking a credential for the undiscovered node "b" with propagate false
   * leaves "b" discovered.
   */
  method DryRunLeakDiscoversAsWritten() returns (before: bool, after: bool)
    ensures !before && after
  {
    var agent := TwoNodeAttacker();
    before := agent.IsNodeDiscovered("b");
    var leak := [CachedCredential("b", "SSH", "pw")];
    assert "b" in Elems(NodesOf(leak)) by {
      assert NodesOf(leak)[0] == "b";
    }
    var _ := agent.MarkDiscoveredEntitiesAsWritten("a", LeakedCredentials(leak), false);
    after := agent.IsNodeDiscovered("b");
  }
}
