/**
 * The defender's actions of cyberbattle/simulation/actions.py: reimaging a
 * node and counting the reimaging down on every attacker step, rewriting a
 * node's firewall rules, and stopping or starting its services.
 */
module Defender {
  import opened Model
  import opened Actions

  /** The number of attacker steps a reimaging takes (actions.py:985). */
  const ReimagingDuration: nat := 15

  // ------------------------------------------------------ firewall rules

  /** A rule the override touches becomes a rule on its port with the new permission and the default empty reason. */
  function PatchRule(r: FirewallRule, port: PortName, permission: RulePermission): FirewallRule
  {
    if r.port == port then FirewallRule(r.port, permission, "") else r
  }

  /** Some rule of the list is about `port`. */
  function HasRuleFor(rules: seq<FirewallRule>, port: PortName): (r: bool)
    ensures r <==> exists i :: 0 <= i < |rules| && rules[i].port == port
  {
    if rules == [] then false
    else if rules[0].port == port then true
    else
      assert forall i :: 1 <= i < |rules| ==> rules[i] == rules[1..][i - 1];
      HasRuleFor(rules[1..], port)
  }

  /**
   * The rule list `add_or_patch_rule` builds: every rule is patched in place,
   * and a rule for the port is appended when none was there.
   */
  function PatchedRules(rules: seq<FirewallRule>, port: PortName, permission: RulePermission): seq<FirewallRule>
  {
    var patched := seq(|rules|, i requires 0 <= i < |rules| => PatchRule(rules[i], port, permission));
    if HasRuleFor(rules, port) then patched else patched + [FirewallRule(port, permission, "")]
  }

  /**
   * Every rule on the port carries the new permission, every other rule is
   * kept where it was, and exactly one rule is appended, at the end, when no
   * rule was on the port.
   */
  lemma PatchedRulesShape(rules: seq<FirewallRule>, port: PortName, permission: RulePermission)
    ensures var r := PatchedRules(rules, port, permission);
            && |r| == (if HasRuleFor(rules, port) then |rules| else |rules| + 1)
            && (forall i :: 0 <= i < |rules| && rules[i].port == port ==> r[i] == FirewallRule(port, permission, ""))
            && (forall i :: 0 <= i < |rules| && rules[i].port != port ==> r[i] == rules[i])
            && (!HasRuleFor(rules, port) ==> r[|rules|] == FirewallRule(port, permission, ""))
  {
  }

  /** A list has at most one deciding rule for a port. */
  lemma DecidingRuleUnique(rules: seq<FirewallRule>, port: PortName, i: int, j: int)
    requires DecidingRule(rules, port, i) && DecidingRule(rules, port, j)
    ensures i == j
  {
  }

  /** The first rule on `port` in a list that has one. */
  lemma FirstRuleFor(rules: seq<FirewallRule>, port: PortName) returns (i: nat)
    requires HasRuleFor(rules, port)
    ensures DecidingRule(rules, port, i)
  {
    i := 0;
    while rules[i].port != port
      invariant 0 <= i < |rules|
      invariant forall j :: 0 <= j < i ==> rules[j].port != port
      invariant exists k :: i <= k < |rules| && rules[k].port == port
      decreases |rules| - i
    {
      i := i + 1;
    }
  }

  /** After the override, traffic on the port passes exactly when the new permission is Allow. */
  lemma PatchedRulesDecide(rules: seq<FirewallRule>, port: PortName, permission: RulePermission)
    ensures IsPassingFirewallRules(PatchedRules(rules, port, permission), port) <==> permission == Allow
  {
    var r := PatchedRules(rules, port, permission);
    PatchedRulesShape(rules, port, permission);
    var d: nat;
    if HasRuleFor(rules, port) {
      d := FirstRuleFor(rules, port);
    } else {
      d := |rules|;
    }
    assert DecidingRule(r, port, d);
    assert r[d].permission == permission;
    forall i | DecidingRule(r, port, i) ensures i == d {
      DecidingRuleUnique(r, port, i, d);
    }
  }

  /** The override does not change what happens on any other port. */
  lemma PatchedRulesKeepOtherPorts(rules: seq<FirewallRule>, port: PortName, permission: RulePermission, other: PortName)
    requires other != port
    ensures IsPassingFirewallRules(PatchedRules(rules, port, permission), other) == IsPassingFirewallRules(rules, other)
  {
    var r := PatchedRules(rules, port, permission);
    PatchedRulesShape(rules, port, permission);
    assert forall i :: 0 <= i < |rules| ==> (r[i].port == other <==> rules[i].port == other);
    assert forall i :: 0 <= i < |rules| && rules[i].port == other ==> r[i] == rules[i];
    forall i ensures DecidingRule(r, other, i) <==> DecidingRule(rules, other, i) {
      if DecidingRule(r, other, i) {
        assert i < |rules|;
      }
    }
  }

  /** Applying the same override twice gives the rules of one application. */
  lemma PatchedRulesIdempotent(rules: seq<FirewallRule>, port: PortName, permission: RulePermission)
    ensures PatchedRules(PatchedRules(rules, port, permission), port, permission) == PatchedRules(rules, port, permission)
  {
    var once := PatchedRules(rules, port, permission);
    PatchedRulesShape(rules, port, permission);
    PatchedRulesShape(once, port, permission);
    if !HasRuleFor(rules, port) {
      assert once[|rules|].port == port;
    }
    assert HasRuleFor(once, port);
    var twice := PatchedRules(once, port, permission);
    assert |twice| == |once|;
    forall i | 0 <= i < |once| ensures twice[i] == once[i] {
      if i < |rules| && rules[i].port == port {
        assert once[i].port == port;
      }
    }
  }

  /** The loop of `add_or_patch_rule` (actions.py:1051-1063). */
  method AddOrPatchRule(rules: seq<FirewallRule>, port: PortName, permission: RulePermission) returns (newRules: seq<FirewallRule>)
    ensures newRules == PatchedRules(rules, port, permission)
  {
    newRules := [];
    var hasMatchingRule := false;
    var i := 0;
    while i < |rules|
      invariant 0 <= i <= |rules|
      invariant |newRules| == i
      invariant forall k :: 0 <= k < i ==> newRules[k] == PatchRule(rules[k], port, permission)
      invariant hasMatchingRule <==> exists k :: 0 <= k < i && rules[k].port == port
    {
      var r := rules[i];
      if r.port == port {
        hasMatchingRule := true;
        newRules := newRules + [FirewallRule(r.port, permission, "")];
      } else {
        newRules := newRules + [r];
      }
      i := i + 1;
    }
    if !hasMatchingRule {
      newRules := newRules + [FirewallRule(port, permission, "")];
    }
  }

  // ------------------------------------------------------------ services

  /** The services after every service named `port` is set to `running`. */
  function SetServiceRunning(services: seq<ListeningService>, port: PortName, running: bool): seq<ListeningService>
  {
    seq(|services|, i requires 0 <= i < |services| => if services[i].name == port then services[i].(running := running) else services[i])
  }

  /** Once the port's services are stopped, no credential is authorized on that port. */
  lemma StoppedServiceRefuses(services: seq<ListeningService>, port: PortName, credential: CredentialId)
    ensures !CheckServiceRunningAndAuthorized(SetServiceRunning(services, port, false), port, credential)
  {
    var s := SetServiceRunning(services, port, false);
    forall i | 0 <= i < |s| ensures !Authorizes(s[i], port, credential) {
      assert s[i].name == port ==> !s[i].running;
    }
  }

  /** Once the port's services are started, a credential is authorized iff some service of that name accepts it. */
  lemma StartedServiceAuthorizes(services: seq<ListeningService>, port: PortName, credential: CredentialId)
    ensures CheckServiceRunningAndAuthorized(SetServiceRunning(services, port, true), port, credential) <==>
            exists i :: 0 <= i < |services| && services[i].name == port && credential in services[i].allowedCredentials
  {
    var s := SetServiceRunning(services, port, true);
    assert forall i :: 0 <= i < |services| && services[i].name == port ==> Authorizes(s[i], port, credential) == (credential in services[i].allowedCredentials);
  }

  /** Toggling the services of one port changes neither which ports listen nor what any other port authorizes. */
  lemma ToggleKeepsOtherPorts(services: seq<ListeningService>, port: PortName, running: bool, other: PortName, credential: CredentialId)
    ensures IsListening(SetServiceRunning(services, port, running), other) == IsListening(services, other)
    ensures other != port ==>
              CheckServiceRunningAndAuthorized(SetServiceRunning(services, port, running), other, credential) ==
              CheckServiceRunningAndAuthorized(services, other, credential)
  {
    var s := SetServiceRunning(services, port, running);
    assert forall i :: 0 <= i < |s| ==> s[i].name == services[i].name;
    if other != port {
      assert forall i :: 0 <= i < |s| ==> (Authorizes(s[i], other, credential) <==> Authorizes(services[i], other, credential));
    }
  }

  /** The loop of `stop_service` and `start_service` (actions.py:1076-1088), over the node's service list. */
  method ToggleServices(services: seq<ListeningService>, port: PortName, running: bool) returns (toggled: seq<ListeningService>)
    ensures toggled == SetServiceRunning(services, port, running)
  {
    toggled := services;
    var i := 0;
    while i < |toggled|
      invariant 0 <= i <= |toggled| == |services|
      invariant forall k :: 0 <= k < i ==> toggled[k] == if services[k].name == port then services[k].(running := running) else services[k]
      invariant forall k :: i <= k < |toggled| ==> toggled[k] == services[k]
    {
      if toggled[i].name == port {
        toggled := toggled[i := toggled[i].(running := running)];
      }
      i := i + 1;
    }
  }

  // ----------------------------------------------------------- reimaging

  /** A node record once reimaging starts at time `now`. */
  function Reimaged(node: NodeInfo, now: nat): NodeInfo
  {
    node.(agentInstalled := false, privilegeLevel := NoAccess, status := Imaging, lastReimaging := Some(now))
  }

  /** One attacker step of the countdown: positive counters drop by one, counters at zero leave the table. */
  function Countdown(progress: map<NodeId, nat>): map<NodeId, nat>
  {
    map n | n in progress && progress[n] > 0 :: progress[n] - 1
  }

  /** The nodes once the reimagings whose counter reached zero are complete. */
  function Restarted(nodes: map<NodeId, NodeInfo>, progress: map<NodeId, nat>): map<NodeId, NodeInfo>
  {
    map n | n in nodes :: if n in progress && progress[n] == 0 then nodes[n].(status := Running) else nodes[n]
  }

  /** The table after `k` attacker steps without a new reimaging. */
  function AfterSteps(progress: map<NodeId, nat>, k: nat): map<NodeId, nat>
  {
    if k == 0 then progress else Countdown(AfterSteps(progress, k - 1))
  }

  /** A countdown step keeps every counter within the bound it had and removes exactly the finished nodes. */
  lemma CountdownBounded(progress: map<NodeId, nat>, bound: nat)
    requires forall n :: n in progress ==> progress[n] <= bound
    ensures forall n :: n in Countdown(progress) ==> Countdown(progress)[n] < bound
    ensures forall n :: n in Countdown(progress) <==> n in progress && progress[n] > 0
  {
  }

  /**
   * A node entered with counter `v` stays in the table for `v` steps,
   * its counter going down by one each step, and leaves it at step `v + 1`.
   */
  lemma {:induction false} ReimagingTimeline(progress: map<NodeId, nat>, n: NodeId, k: nat)
    requires n in progress
    ensures k <= progress[n] ==> n in AfterSteps(progress, k) && AfterSteps(progress, k)[n] == progress[n] - k
    ensures k > progress[n] ==> n !in AfterSteps(progress, k)
  {
    if k > 0 {
      ReimagingTimeline(progress, n, k - 1);
      if k - 1 > progress[n] {
        assert n !in AfterSteps(progress, k - 1);
      }
    }
  }

  /** A node just reimaged is still in the table after 15 attacker steps and leaves it at the 16th. */
  lemma LeavesAfterSixteenSteps(progress: map<NodeId, nat>, n: NodeId)
    requires n in progress && progress[n] == ReimagingDuration
    ensures forall k :: 0 <= k <= ReimagingDuration ==> n in AfterSteps(progress, k)
    ensures n !in AfterSteps(progress, ReimagingDuration + 1)
  {
    forall k | 0 <= k <= ReimagingDuration ensures n in AfterSteps(progress, k) {
      ReimagingTimeline(progress, n, k);
    }
    ReimagingTimeline(progress, n, ReimagingDuration + 1);
  }

  /** The table part-way through a countdown step: the nodes still `pending` are untouched. */
  ghost predicate CountingDown(start: map<NodeId, nat>, pending: set<NodeId>, progress: map<NodeId, nat>)
  {
    && (forall n :: n in progress <==> n in start && (n in pending || start[n] > 0))
    && (forall n :: n in progress ==> progress[n] == if n in pending then start[n] else start[n] - 1)
  }

  /** The nodes part-way through a countdown step: only handled nodes whose counter was zero are running again. */
  ghost predicate RestartingNodes(nodes: map<NodeId, NodeInfo>, start: map<NodeId, nat>, pending: set<NodeId>, current: map<NodeId, NodeInfo>)
  {
    && current.Keys == nodes.Keys
    && forall n :: n in current ==>
         current[n] == if n in start && n !in pending && start[n] == 0 then nodes[n].(status := Running) else nodes[n]
  }

  lemma CountingDownStep(start: map<NodeId, nat>, pending: set<NodeId>, progress: map<NodeId, nat>, n: NodeId)
    requires n in pending && pending <= start.Keys && CountingDown(start, pending, progress)
    ensures CountingDown(start, pending - {n}, if start[n] > 0 then progress[n := start[n] - 1] else progress - {n})
  {
  }

  lemma RestartingStep(nodes: map<NodeId, NodeInfo>, start: map<NodeId, nat>, pending: set<NodeId>, current: map<NodeId, NodeInfo>, n: NodeId)
    requires n in pending && n in start && n in current && RestartingNodes(nodes, start, pending, current)
    ensures RestartingNodes(nodes, start, pending - {n}, if start[n] == 0 then current[n := current[n].(status := Running)] else current)
  {
  }

  lemma CountdownDone(start: map<NodeId, nat>, progress: map<NodeId, nat>)
    requires CountingDown(start, {}, progress)
    ensures progress == Countdown(start)
  {
  }

  lemma RestartDone(nodes: map<NodeId, NodeInfo>, start: map<NodeId, nat>, current: map<NodeId, NodeInfo>)
    requires RestartingNodes(nodes, start, {}, current)
    ensures current == Restarted(nodes, start)
  {
  }

  // ------------------------------------------------------- the defender

  class DefenderAgentActions {
    const env: Environment
    /** The nodes being reimaged, each with the number of steps left. */
    var nodeReimagingProgress: map<NodeId, nat>

    ghost predicate Valid()
      reads this, env
    {
      && env.Valid()
      && forall n :: n in nodeReimagingProgress ==> n in env.nodes && nodeReimagingProgress[n] <= ReimagingDuration
    }

    constructor (environment: Environment)
      requires environment.Valid()
      ensures Valid() && env == environment && nodeReimagingProgress == map[]
    {
      env := environment;
      nodeReimagingProgress := map[];
    }

    /** Starts reimaging a node at time `now`: the attacker loses it and it is down for the countdown. */
    method ReimageNode(nodeId: NodeId, now: nat)
      requires Valid() && nodeId in env.nodes && env.clock <= now
      requires env.nodes[nodeId].reimagable
      modifies this, env
      ensures Valid()
      ensures nodeReimagingProgress == old(nodeReimagingProgress)[nodeId := ReimagingDuration]
      ensures env.nodes == old(env.nodes)[nodeId := Reimaged(old(env.nodes[nodeId]), now)]
      ensures env.clock == now && env.nodeOrder == old(env.nodeOrder) && env.edges == old(env.edges)
    {
      nodeReimagingProgress := nodeReimagingProgress[nodeId := ReimagingDuration];
      var node := env.nodes[nodeId];
      env.SetNode(nodeId, Reimaged(node, now), now);
    }

    /** The reimaging countdown of `on_attacker_step_taken` (actions.py:1012-1020). */
    method OnAttackerStepTaken()
      requires Valid()
      modifies this, env
      ensures Valid()
      ensures nodeReimagingProgress == Countdown(old(nodeReimagingProgress))
      ensures env.nodes == Restarted(old(env.nodes), old(nodeReimagingProgress))
      ensures env.clock == old(env.clock) && env.nodeOrder == old(env.nodeOrder) && env.edges == old(env.edges)
    {
      ghost var start := nodeReimagingProgress;
      ghost var nodes := env.nodes;
      var pending := nodeReimagingProgress.Keys;
      while pending != {}
        invariant Valid() && pending <= start.Keys
        invariant env.clock == old(env.clock) && env.nodeOrder == old(env.nodeOrder) && env.edges == old(env.edges)
        invariant CountingDown(start, pending, nodeReimagingProgress)
        invariant RestartingNodes(nodes, start, pending, env.nodes)
        decreases pending
      {
        var nodeId :| nodeId in pending;
        CountdownOne(nodeId, start, nodes, pending);
        pending := pending - {nodeId};
      }
      CountdownDone(start, nodeReimagingProgress);
      RestartDone(nodes, start, env.nodes);
    }

    /** The loop body of `on_attacker_step_taken` for one node of the table. */
    method CountdownOne(nodeId: NodeId, ghost start: map<NodeId, nat>, ghost nodes: map<NodeId, NodeInfo>, ghost pending: set<NodeId>)
      requires Valid() && nodeId in pending && pending <= start.Keys
      requires CountingDown(start, pending, nodeReimagingProgress)
      requires RestartingNodes(nodes, start, pending, env.nodes)
      modifies this, env
      ensures Valid()
      ensures CountingDown(start, pending - {nodeId}, nodeReimagingProgress)
      ensures RestartingNodes(nodes, start, pending - {nodeId}, env.nodes)
      ensures env.clock == old(env.clock) && env.nodeOrder == old(env.nodeOrder) && env.edges == old(env.edges)
    {
      var remaining := nodeReimagingProgress[nodeId];
      CountingDownStep(start, pending, nodeReimagingProgress, nodeId);
      RestartingStep(nodes, start, pending, env.nodes, nodeId);
      if remaining > 0 {
        nodeReimagingProgress := nodeReimagingProgress[nodeId := remaining - 1];
      } else {
        var node := env.nodes[nodeId];
        env.Update(nodeId, node.(status := Running));
        nodeReimagingProgress := nodeReimagingProgress - {nodeId};
      }
    }

    /** Rewrites the incoming or outgoing rules of a node so that `port` gets `permission`. */
    method OverrideFirewallRule(nodeId: NodeId, port: PortName, incoming: bool, permission: RulePermission)
      requires Valid() && nodeId in env.nodes
      modifies env
      ensures Valid()
      ensures var node := old(env.nodes[nodeId]);
              var firewall := node.firewall;
              env.nodes == old(env.nodes)[nodeId := node.(firewall :=
                if incoming then firewall.(incoming := PatchedRules(firewall.incoming, port, permission))
                else firewall.(outgoing := PatchedRules(firewall.outgoing, port, permission)))]
      ensures env.clock == old(env.clock) && env.nodeOrder == old(env.nodeOrder) && env.edges == old(env.edges)
    {
      var node := env.nodes[nodeId];
      var firewall := node.firewall;
      if incoming {
        var rules := AddOrPatchRule(firewall.incoming, port, permission);
        firewall := firewall.(incoming := rules);
      } else {
        var rules := AddOrPatchRule(firewall.outgoing, port, permission);
        firewall := firewall.(outgoing := rules);
      }
      env.Update(nodeId, node.(firewall := firewall));
    }

    /** Blocks `port` on a node: afterwards traffic on it no longer passes in that direction. */
    method BlockTraffic(nodeId: NodeId, port: PortName, incoming: bool)
      requires Valid() && nodeId in env.nodes
      modifies env
      ensures Valid() && nodeId in env.nodes
      ensures !IsPassingFirewallRules(if incoming then env.nodes[nodeId].firewall.incoming else env.nodes[nodeId].firewall.outgoing, port)
      ensures var firewall := old(env.nodes[nodeId].firewall);
              env.nodes == old(env.nodes)[nodeId := old(env.nodes[nodeId]).(firewall :=
                if incoming then firewall.(incoming := PatchedRules(firewall.incoming, port, Block))
                else firewall.(outgoing := PatchedRules(firewall.outgoing, port, Block)))]
      ensures env.clock == old(env.clock) && env.nodeOrder == old(env.nodeOrder) && env.edges == old(env.edges)
    {
      ghost var firewall := env.nodes[nodeId].firewall;
      OverrideFirewallRule(nodeId, port, incoming, Block);
      PatchedRulesDecide(if incoming then firewall.incoming else firewall.outgoing, port, Block);
    }

    /** Allows `port` on a node: afterwards traffic on it passes in that direction. */
    method AllowTraffic(nodeId: NodeId, port: PortName, incoming: bool)
      requires Valid() && nodeId in env.nodes
      modifies env
      ensures Valid() && nodeId in env.nodes
      ensures IsPassingFirewallRules(if incoming then env.nodes[nodeId].firewall.incoming else env.nodes[nodeId].firewall.outgoing, port)
      ensures var firewall := old(env.nodes[nodeId].firewall);
              env.nodes == old(env.nodes)[nodeId := old(env.nodes[nodeId]).(firewall :=
                if incoming then firewall.(incoming := PatchedRules(firewall.incoming, port, Allow))
                else firewall.(outgoing := PatchedRules(firewall.outgoing, port, Allow)))]
      ensures env.clock == old(env.clock) && env.nodeOrder == old(env.nodeOrder) && env.edges == old(env.edges)
    {
      ghost var firewall := env.nodes[nodeId].firewall;
      OverrideFirewallRule(nodeId, port, incoming, Allow);
      PatchedRulesDecide(if incoming then firewall.incoming else firewall.outgoing, port, Allow);
    }

    /** Stops the services named `port` on a running node; no credential is accepted on that port afterwards. */
    method StopService(nodeId: NodeId, port: PortName)
      requires Valid() && nodeId in env.nodes && env.nodes[nodeId].status == Running
      modifies env
      ensures Valid() && nodeId in env.nodes
      ensures env.nodes == old(env.nodes)[nodeId := old(env.nodes[nodeId]).(services := SetServiceRunning(old(env.nodes[nodeId].services), port, false))]
      ensures forall c :: !CheckServiceRunningAndAuthorized(env.nodes[nodeId].services, port, c)
      ensures env.clock == old(env.clock) && env.nodeOrder == old(env.nodeOrder) && env.edges == old(env.edges)
    {
      var node := env.nodes[nodeId];
      var services := ToggleServices(node.services, port, false);
      env.Update(nodeId, node.(services := services));
      forall c ensures !CheckServiceRunningAndAuthorized(services, port, c) {
        StoppedServiceRefuses(node.services, port, c);
      }
    }

    /** Starts the services named `port` on a running node. */
    method StartService(nodeId: NodeId, port: PortName)
      requires Valid() && nodeId in env.nodes && env.nodes[nodeId].status == Running
      modifies env
      ensures Valid() && nodeId in env.nodes
      ensures env.nodes == old(env.nodes)[nodeId := old(env.nodes[nodeId]).(services := SetServiceRunning(old(env.nodes[nodeId].services), port, true))]
      ensures env.clock == old(env.clock) && env.nodeOrder == old(env.nodeOrder) && env.edges == old(env.edges)
    {
      var node := env.nodes[nodeId];
      var services := ToggleServices(node.services, port, true);
      env.Update(nodeId, node.(services := services));
    }
  }
}
