# CyberBattleSim action model in Dafny

This project models two parts of CyberBattleSim and proves properties of them.

The first part is the action layer of the simulation, `cyberbattle/simulation/actions.py`.
- **The attacker (`AgentActions`).** Its state is:
  - the discovered nodes, in discovery order, each with its tracking record (discovered property indices and the time it was last owned);
  - the set of gathered credentials.

  It acts on a shared `Environment`: node records in the graph's node order, annotated edges, and a monotone clock.
- **The defender (`DefenderAgentActions`).** Its state is the reimaging countdown table. It can reimage nodes, rewrite firewall rules and stop or start services.

The second part is the bookkeeping of the training and evaluation loops in `cyberbattle/agents/baseline/learner.py`:
- step counters, episode lengths and cumulative rewards;
- the twelve action counters;
- the detection-point table, stored as compressed sparse rows;
- the running-mean best and the epsilon decay.

The learner, the gym environment and the random draws become *oracles*. These are function-valued parameters indexed by (episode, step).

Layout:
- `model.dfy` (`Model`) holds the node records, firewall rules, services and edge data that actions.py reads and writes, plus the `Environment` class. `cyberbattle/simulation/model.py` is not part of this model. Each record keeps the fields actions.py uses.
- `actions.dfy` (`Actions`) holds the attacker class and the pure checks it relies on.
- `defender.dfy` (`Defender`) holds the defender class, with the firewall-rewrite and countdown specifications.
- `learner.dfy` (`Learner`) holds the episode loop, the search loop, the evaluation loop and their specification functions.

The attacker carries a constant flag `correctsFirstNodeGlobals`. When it is false, the discovery of a node follows actions.py:269 as written, where the first node's global properties come out empty. When it is true, the discovery uses the corrected reading of that line (see Findings). The exact leak totals and tracking are stated for the code as written.

`Actions.TwoNodeAttacker` is a fixture: it builds the two-node network on which `Actions.DryRunLeakDiscoversAsWritten` exhibits the actions.py:343 finding.

Time is modelled as follows. `datetime.now()` becomes a parameter `now` with `now >= env.clock`. Stamping a node advances `env.clock` to `now`, so time stamps only need comparing.

## Model

| member | source | states |
|---|---|---|
| Model.Escalate | cyberbattle/simulation/actions.py:320 | The escalated level is one of current and requested, and it ranks at least as high as both. |
| Actions.MaxAnnotation | cyberbattle/simulation/actions.py:257 | The combined annotation is one of the two, and its value is at least each of their values. |
| Actions.AnnotatedKind | cyberbattle/simulation/actions.py:249-258 | The new kind is at least the requested annotation. If the edge has a kind, the new kind is also at least that kind and is one of the two. Otherwise it is the requested annotation. |
| Actions.AnnotateFacts | cyberbattle/simulation/actions.py:249-260 | After annotating, the edge exists even if it was absent before, and its kind is at least the annotation. No other edge changes. |
| Actions.AnnotateIdempotent | cyberbattle/simulation/actions.py:249-260 | Annotating the same edge twice with the same annotation equals annotating it once. |
| Actions.AnnotateOrderIrrelevant | cyberbattle/simulation/actions.py:249-260 | Two annotations of one edge commute. The kind an edge already had never decreases. |
| Actions.IsPassingFirewallRules | cyberbattle/simulation/actions.py:797-808 | Traffic passes iff the first rule on the port exists and allows. With no rule for the port, traffic is blocked. |
| Actions.CheckServiceRunningAndAuthorized | cyberbattle/simulation/actions.py:907-918 | True iff some service is running, has the port's name and lists the credential. |
| Actions.IsListening | cyberbattle/simulation/actions.py:870 | True iff some service has the port's name. |
| Actions.ReimagingRevokesOwnership | cyberbattle/simulation/actions.py:810-816 | Ownership taken strictly before a reimaging is no longer current. Ownership taken at the reimaging time is current. |
| Actions.PropertyIndicesFacts | cyberbattle/simulation/actions.py:281-283 | The index list is the set of positions of the non-tag properties. It is no longer than the property list, every index is in range, and it has no repeats when the properties have none. |
| Actions.RecordedIndices | cyberbattle/simulation/actions.py:281-283 | The indices of a listing of a property set are that set's index set, without repeats. |
| Actions.DryRunCountMatchesGrowth | cyberbattle/simulation/actions.py:285-300 | The dry-run count of indices not yet known equals the growth in size of the known set under the union. |
| Actions.UntrackedDryRunCount | cyberbattle/simulation/actions.py:292-293 | For an untracked node, the dry-run count (the length of the index list) is at least the number of distinct indices. It is equal to it when the list has no repeats. |
| Actions.SetToSeq | cyberbattle/simulation/actions.py:174 | A listing of a set contains exactly its elements, each once. |
| Actions.FirstNodeGlobalsAsWritten | cyberbattle/simulation/actions.py:269 | As written, the global properties taken from the first discovered node are always empty. |
| Actions.FirstNodeGlobalsLost | cyberbattle/simulation/actions.py:269 | A global property that the first node discovered is in the corrected set, but not in the set as written. |
| Actions.FirstNodeGlobals | cyberbattle/simulation/actions.py:269 | The corrected set contains only global property names. |
| Actions.AgentActions.FirstDiscoveredGlobals | cyberbattle/simulation/actions.py:269 | As written, the set is empty. In both readings it holds only global property names. |
| Actions.AgentActions.DiscoveryIndices | cyberbattle/simulation/actions.py:269-275 | As written, the indices recorded for a node are those of its own initial properties, whatever the first tracked node has discovered. |
| Actions.KnowsAlongClosedForm | cyberbattle/simulation/actions.py:352 | Annotating KNOWS edges one target at a time equals annotating the set of targets seen so far. |
| Actions.LeakTotals | cyberbattle/simulation/actions.py:341-348 | The totals of the first i leaked nodes report no new credential and at most i new nodes. The property total is at least the node total, because a node counts only when it reveals a property. |
| Actions.LearnAlongClosedForm | cyberbattle/simulation/actions.py:341-343 | Discovering the leaked nodes one after the other gives the same tracking as discovering the set of them at once, so order and repeats do not matter. |
| Actions.OrderAlongFacts | cyberbattle/simulation/actions.py:272-274 | After a leak, the discovery order extends the old one, holds exactly the old and the leaked nodes, and stays without repeats. |
| Actions.LeakTwiceFindsNothing | cyberbattle/simulation/actions.py:341-348 | Leaking the same nodes again after a propagating leak, as written, reports no new node, value, property or credential. |
| Actions.NodesAtLeast | cyberbattle/simulation/actions.py:408-410 | Exactly the listed nodes at or above the privilege level, no more of them than listed, and without repeats. |
| Actions.InstalledNodes | cyberbattle/simulation/actions.py:171-173 | Exactly the listed nodes that have the agent installed, without repeats. |
| Actions.AgentActions.IsNodeOwnedHistory | cyberbattle/simulation/actions.py:810-816 | Returns the last ownership time. The node is currently owned iff that time is set and is no earlier than the last reimaging, if there was one. |
| Actions.AgentActions.IsNodeDiscovered | cyberbattle/simulation/actions.py:412-414 | True iff the node is in the discovery order. |
| Actions.AgentActions.ListNodes | cyberbattle/simulation/actions.py:920-926 | One entry per discovered node, in discovery order. Each entry's status is owned iff the agent is installed. |
| Actions.AgentActions.GetNodesWithAtLeastPrivilegeLevel | cyberbattle/simulation/actions.py:408-410 | Exactly the network's nodes at or above the level, each once. |
| Actions.AgentActions.constructor | cyberbattle/simulation/actions.py:150-176 | No credentials are gathered. The owned nodes are discovered in network order and marked owned now, with their own properties and the global-and-initial ones. Every other node record is unchanged. |
| Actions.AgentActions.MarkNodePropertiesAsDiscovered | cyberbattle/simulation/actions.py:278-300 | About the count: an untracked node gives the length of the index list, and otherwise the number of new indices. A dry run changes nothing. Otherwise the indices are unioned in and the node is tracked. |
| Actions.AgentActions.MarkNodeAsDiscovered | cyberbattle/simulation/actions.py:265-276 | Returns the number of the node's discovery indices its tracking does not know yet. With propagate, the node is tracked (joining the discovery order when new) and exactly those indices are added. Without it, nothing changes. |
| Actions.AgentActions.DiscoveryProperties | cyberbattle/simulation/actions.py:269-275 | The properties handed on are distinct, and their indices are exactly the node's discovery indices. As written, those are the indices of the node's initial properties; the first node's globals add none. |
| Actions.AgentActions.MarkNodeAsOwned | cyberbattle/simulation/actions.py:306-328 | Returns the ownership history from before the call. State changes only with propagate on a node not currently owned. Then the node is tracked, the agent is installed, the privilege is escalated, all of the node's properties are discovered, the node is stamped now and it is currently owned. |
| Actions.AgentActions.AnnotateEdge | cyberbattle/simulation/actions.py:249-260 | The edge map becomes the max-annotated map of the specification. Nothing else changes. |
| Actions.AgentActions.DiscoverLeakedNode | cyberbattle/simulation/actions.py:341-363 | Returns the number of the node's discovery indices not yet known, the count that decides whether the leak counts the node. With discovery propagated, the node's tracking learns exactly those indices and the node joins the order when new. Otherwise tracking is unchanged. The KNOWS edge is added only when annotating. |
| Actions.AgentActions.MarkLeakedCredentials | cyberbattle/simulation/actions.py:341-356 | With propagate, the gathered set becomes the old set plus the leaked ids, and the ids not gathered before are counted. Without it, every leaked credential not gathered is counted, repeats included. The KNOWS edges follow the leak order. As written, the node, value and property totals are those of the leak specification, and the tracking is every leaked node having learned its initial properties, with the order extended in leak order. |
| Actions.AgentActions.GatherCredential | cyberbattle/simulation/actions.py:349-352 | Counted iff the credential is new. It is added only with propagate. |
| Actions.AgentActions.MarkLeakedNodes | cyberbattle/simulation/actions.py:357-363 | No credentials change. With propagate, the listed nodes are discovered and their KNOWS edges are added. A dry run changes nothing. As written, the totals are those of the leak specification, and the tracking is every listed node having learned its initial properties, with the order extended in list order. |
| Actions.AgentActions.MarkDiscoveredEntities | cyberbattle/simulation/actions.py:330-367 | For a credential or node leak with propagate, it gives the gathered set, the discovered keys, the new-credential count and the KNOWS edges. Without propagate, nothing the attacker knows changes. As written, the node, value and property totals are those of the leak specification, and so is the new tracking. Any other outcome reports nothing and changes nothing. |
| Actions.AgentActions.MarkDiscoveredEntitiesAsWritten | cyberbattle/simulation/actions.py:343 | As written, a credential leak discovers the leaked nodes even in a dry run. The tracking becomes that of the leaked nodes having learned their initial properties, and the totals are those of a propagating leak, whatever propagate says. |
| Actions.DryRunLeakDiscoversAsWritten | cyberbattle/simulation/actions.py:343 | The concrete counterexample: node "b" is undiscovered before a dry-run credential leak and discovered after it. |
| Actions.AgentActions.ConnectGuard | cyberbattle/simulation/actions.py:829-886 | The checks run in the source's order, each with its penalty. The move goes ahead iff all pass. A failed check never rewards or moves. Only invalid node ids raise when not throwing. |
| Actions.AgentActions.ConnectToRemoteMachine | cyberbattle/simulation/actions.py:818-905 | A failed check returns its outcome and changes nothing. An owned target gives REPEAT with a lateral move and changes nothing. Otherwise the target is taken over. Its record is escalated, its properties are learned, it is stamped owned now and joins the discovery order when new. The clock moves to now, and the edge is annotated LATERAL_MOVE. The reward is the node value on first ownership and 0 after a reimaging. |
| Actions.AgentActions.RemoteExploitGuard | cyberbattle/simulation/actions.py:729-746 | The exploit goes ahead iff both nodes exist, the source is owned and the target is discovered. Invalid ids raise. The other failures give INVALID_ACTION or raise. |
| Actions.AgentActions.ExploitRemoteVulnerability | cyberbattle/simulation/actions.py:718-765 | A guard failure returns and changes nothing. Otherwise it returns the processed result, and the edge is annotated REMOTE_EXPLOIT only on success. |
| Actions.AgentActions.LocalExploitGuard | cyberbattle/simulation/actions.py:775-785 | The exploit goes ahead iff the node exists and has the agent installed. A missing node always raises. An unowned node raises when throwing, and otherwise gives INVALID_ACTION without a lateral move. |
| Actions.AgentActions.ExploitLocalVulnerability | cyberbattle/simulation/actions.py:767-795 | When the guard fails, the result is the guard's outcome. Otherwise it is the processed result. A result other than the processed one is either the invalid-node raise or the not-owned outcome (a raise or INVALID_ACTION). |
| Defender.HasRuleFor | cyberbattle/simulation/actions.py:1053-1056 | True iff some rule is on the port. |
| Defender.PatchedRulesShape | cyberbattle/simulation/actions.py:1051-1063 | Every rule on the port gets the new permission, and every other rule is kept in place. If none matched, one rule is appended, so the length grows by at most one. |
| Defender.PatchedRulesDecide | cyberbattle/simulation/actions.py:1048-1068 | After the rewrite, traffic on the port passes iff the permission is ALLOW. |
| Defender.PatchedRulesKeepOtherPorts | cyberbattle/simulation/actions.py:1051-1063 | The firewall decision for every other port is unchanged. |
| Defender.PatchedRulesIdempotent | cyberbattle/simulation/actions.py:1051-1063 | Applying the same override twice equals applying it once. |
| Defender.AddOrPatchRule | cyberbattle/simulation/actions.py:1051-1063 | The loop builds exactly the patched rule list of the specification. |
| Defender.StoppedServiceRefuses | cyberbattle/simulation/actions.py:1076-1081 | After stopping a port, no credential is authorized on it. |
| Defender.StartedServiceAuthorizes | cyberbattle/simulation/actions.py:1083-1088 | After starting a port, a credential is authorized iff some service of that name lists it. |
| Defender.ToggleKeepsOtherPorts | cyberbattle/simulation/actions.py:1076-1088 | Toggling never changes which ports are listened on. Authorization on other ports is unchanged. |
| Defender.ToggleServices | cyberbattle/simulation/actions.py:1079-1081 | The loop sets `running` exactly on services named by the port. |
| Defender.CountdownBounded | cyberbattle/simulation/actions.py:1014-1024 | One step keeps exactly the nodes whose counter was positive. Counters that were at most a bound are then strictly below it. |
| Defender.ReimagingTimeline | cyberbattle/simulation/actions.py:1014-1024 | After k steps a counter that started at c reads c - k while k is at most c. After that it is gone. |
| Defender.LeavesAfterSixteenSteps | cyberbattle/simulation/actions.py:985 | A freshly reimaged node stays in the table for steps 0 to 15 and leaves at step 16. |
| Defender.DefenderAgentActions.constructor | cyberbattle/simulation/actions.py:987-995 | The countdown table starts empty. |
| Defender.DefenderAgentActions.ReimageNode | cyberbattle/simulation/actions.py:1000-1012 | The counter is set to 15. The node becomes uninstalled, NoAccess and Imaging, with its reimaging stamped now. |
| Defender.DefenderAgentActions.OnAttackerStepTaken | cyberbattle/simulation/actions.py:1014-1024 | The table becomes its one-step countdown. Nodes whose counter was 0 are set to Running. |
| Defender.DefenderAgentActions.OverrideFirewallRule | cyberbattle/simulation/actions.py:1048-1068 | Only the chosen direction's rule list is rewritten, into the patched list. |
| Defender.DefenderAgentActions.BlockTraffic | cyberbattle/simulation/actions.py:1070-1071 | Afterwards the port is blocked in that direction. |
| Defender.DefenderAgentActions.AllowTraffic | cyberbattle/simulation/actions.py:1073-1074 | Afterwards the port passes in that direction. |
| Defender.DefenderAgentActions.StopService | cyberbattle/simulation/actions.py:1076-1081 | Only the node's services change, into the stopped ones. No credential is authorized on the port. |
| Defender.DefenderAgentActions.StartService | cyberbattle/simulation/actions.py:1083-1088 | Only the node's services change, into the started ones. |
| Learner.Count | cyberbattle/agents/baseline/learner.py:601-608 | Exactly one of the twelve counters grows by one, so the total grows by one. The deflection counter is unchanged. |
| Learner.Ratio | cyberbattle/agents/baseline/learner.py:161-167 | It is NaN iff both counts are 0. Otherwise it is the rewarded fraction, which lies in [0, 1]. |
| Learner.StatsStep | cyberbattle/agents/baseline/learner.py:591-608 | One step adds one to the sum of the twelve counters, and adds one to the deflection counter exactly when the step deflects. |
| Learner.StatsTotal | cyberbattle/agents/baseline/learner.py:601-608 | After n steps the twelve counters sum to n. |
| Learner.DeflectionsCounted | cyberbattle/agents/baseline/learner.py:591-595 | Deflections are at most the step count. They stay 0 when exploit never comes back empty, and each grows by one exactly when it does. |
| Learner.FirstDone | cyberbattle/agents/baseline/learner.py:640-646 | The first done step from t on is at least t and at most the iteration count. |
| Learner.EpisodeLength | cyberbattle/agents/baseline/learner.py:700 | The episode length is at most the iteration count, and at least 1 when there is a step to take. |
| Learner.EpisodeLengthFacts | cyberbattle/agents/baseline/learner.py:640-646 | No step before the length is done. The episode ends at the first done step, or it runs the full iteration count when no step is done. |
| Learner.RewardsOf | cyberbattle/agents/baseline/learner.py:613 | The recorded rewards are the oracle's rewards at steps 1 to n. |
| Learner.RunEpisode | cyberbattle/agents/baseline/learner.py:582-646 | The loop stops at the first done step or after the full count. The steps done grow by one per step. The total reward equals the sum of the recorded rewards. The counters match the specification. |
| Learner.TakeStep | cyberbattle/agents/baseline/learner.py:586-608 | One step's counters, reward and done flag are the specification's at that step. |
| Learner.DetectKeepsCsr | cyberbattle/agents/baseline/learner.py:655-661 | Appending an episode keeps the row-offset invariants and adds one episode length. The invariants are: offsets start at 0, never decrease and end at the index count, and there is one length per row. |
| Learner.DetectAll | cyberbattle/agents/baseline/learner.py:655-661 | Every entry of the updated table still has row offsets. |
| Learner.DetectAllKeepsCsr | cyberbattle/agents/baseline/learner.py:655-661 | Recording trackers keeps every entry of the table a valid compressed sparse row table. |
| Learner.DetectAllKeys | cyberbattle/agents/baseline/learner.py:656 | The table keeps its old names, gains every tracker's name and nothing else. |
| Learner.RecordDetections | cyberbattle/agents/baseline/learner.py:655-661 | The loop over the trackers yields the specified table, and the table stays valid. |
| Learner.DetectOne | cyberbattle/agents/baseline/learner.py:656-661 | After recording one tracker, every entry still has row offsets. The table keeps every name and gains exactly the tracker's name. |
| Learner.DetectionsAfterValid | cyberbattle/agents/baseline/learner.py:655-661 | After any number of recorded episodes, every entry of the table is in compressed sparse row form. |
| Learner.DetectionsAfterKeys | cyberbattle/agents/baseline/learner.py:656 | The table has an entry exactly for each tracker name of the recorded episodes. |
| Learner.Tail | cyberbattle/agents/baseline/learner.py:687 | The window over a non-empty list is non-empty. |
| Learner.Improve | cyberbattle/agents/baseline/learner.py:688-690 | The best never decreases. It changes only to a strictly larger window mean, and it stays put iff the mean is not larger. |
| Learner.BestOverMonotone | cyberbattle/agents/baseline/learner.py:683-690 | The best after k episodes is at most the final best. Every window mean seen, and the initial best, is at most the final best. |
| Learner.RecordReturn | cyberbattle/agents/baseline/learner.py:683-690 | Appends the episode return and updates the best as specified. The best never decreases and only jumps to the new window mean. |
| Learner.Decay | cyberbattle/agents/baseline/learner.py:707-708 | With multiplicative decay, epsilon is the multiplied value or the minimum, and never below the minimum. Without it, epsilon is unchanged. |
| Learner.EpsilonStaysAboveMinimum | cyberbattle/agents/baseline/learner.py:707-708 | After every episode with decay, epsilon is at least the minimum. |
| Learner.DecayEpsilon | cyberbattle/agents/baseline/learner.py:707-708 | Computes the specified decay. |
| Learner.StepsMonotone | cyberbattle/agents/baseline/learner.py:584 | The step count after k episodes is no larger than after n ≥ k. |
| Learner.StopsWhenBudgetReached | cyberbattle/agents/baseline/learner.py:527 | Under the strict budget test, a run whose previous count was under budget and whose count now reaches it stops after exactly n episodes. |
| Learner.FullLengthSteps | cyberbattle/agents/baseline/learner.py:582 | When no episode ends early, n episodes take n times the iteration count steps. |
| Learner.ExtraEpisodeAsWritten | cyberbattle/agents/baseline/learner.py:527 | As written (`<=`), with full-length episodes the loop runs episode_count + 1 episodes and spends an extra iteration count of steps. |
| Learner.EpisodeCountCorrected | cyberbattle/agents/baseline/learner.py:527 | With the strict test and the same oracles, it runs exactly episode_count episodes and episode_count times the iteration count steps. |
| Learner.NoStepsNeverStopAsWritten | cyberbattle/agents/baseline/learner.py:527 | With iteration_count 0 no episode takes a step. The loop as written then stops after no number of episodes, while the corrected test stops before the first one. |
| Learner.ReturnsOf | cyberbattle/agents/baseline/learner.py:683 | The recorded returns are the episode returns of episodes 1 to n. |
| Learner.RewardListsOf | cyberbattle/agents/baseline/learner.py:684 | There is one reward list per episode, in order. List k holds the rewards of episode k + 1 at steps 1 to its length. |
| Learner.ReturnsAreSums | cyberbattle/agents/baseline/learner.py:683-684 | Each summed reward is the sum of its episode's reward list, and that list has one reward per step the episode ran. |
| Learner.TrainingEpisode | cyberbattle/agents/baseline/learner.py:528-708 | One training episode: the steps grow by its length, its reward list and return are appended, the best is improved and epsilon is decayed. The detection table becomes the one recorded after this episode, and stays empty without logging. |
| Learner.EpsilonGreedySearch | cyberbattle/agents/baseline/learner.py:527-733 | The run stops exactly when the step budget is spent, and overshoots it by less than one episode. The steps, per-episode reward lists, returns, best running mean, epsilon and detection table are those of the specification functions. |
| Learner.EvaluationEpisode | cyberbattle/agents/baseline/learner.py:229-339 | One evaluation episode: steps, reward lists, returns and best go from the values after `done` episodes to those after `done + 1`. The episode's detections are added when recording. |
| Learner.EvaluationEpisodes | cyberbattle/agents/baseline/learner.py:228-339 | Exactly the given number of episodes are run. The steps, reward lists, returns, best and, when recording, the detection table are those of the specification functions. |
| Learner.EvaluateModel | cyberbattle/agents/baseline/learner.py:228-366 | Runs exactly the evaluation episodes, with the specified steps, reward lists, returns and best. The detection table is the recorded one when results are logged and the training episode count is a multiple of 5 · eval_freq, and it is empty otherwise. |

## Left out

- Preconditions and profiles (`_check_profile`, `_check_properties_after_profile_check`) need the external `boolean` expression library, so they are not modelled.
- The body of `__process_outcome` depends on that library, breaks ties at random and relies on outcome classes from model.py. The exploit guards take its result as a parameter (`ProcessedOutcome`).
- The LeakedProfiles branch of `__mark_discovered_entities` is not modelled. It depends on `model.profile_str_to_dict` and `Profile.update`, which are not part of this model. Such outcomes are `OtherOutcome` and change nothing.
- `list_vulnerabilities_in_target` and the `list_*_attacks` helpers are not modelled. They depend on model.py's vulnerability naming.
- `print_all_attacks`, logging, printing, plots, progress bars, tensorboard writers, `np.savez`, model saving and seeding are output only, so they are not modelled.
- Model.Escalate: `model.escalate` is not part of this model. It is taken to keep the higher of the two levels.
- A firewall rule built from a port and a permission alone is given an empty reason. The default reason of model.py is not part of this model.
- The defender's network-availability average is float arithmetic over SLA weights, so it is not modelled.
- Defender.DefenderAgentActions.OnAttackerStepTaken visits the countdown table in an unspecified order, where Python follows dict insertion order. The result does not depend on the order.
- Python `assert`s and lookups that raise KeyError are `requires`. Examples are a reimagable node, a running machine for service toggles, and known node ids inside the attacker's bookkeeping.
- Actions.AgentActions.MarkNodeAsDiscovered and the leak operations require a non-empty discovery order. With nothing discovered, actions.py:269 raises IndexError on `list(...)[0]`; an attacker always owns at least one node, so this is not a reachable state.
- Learner.EpsilonGreedySearch: exponential epsilon decay (`math.exp`) is taken as unset. Only the multiplicative decay is modelled.
- Learner.EpsilonGreedySearch: the evaluation nested inside training, every `5 * eval_freq` episodes, is not modelled. The model states the main loop without this evaluation's effect on the detection table and the evaluation best.
- Rewards, epsilon and window means are exact reals rather than floats. `np.mean` is the exact arithmetic mean.
- The learner and the gym environment are oracles indexed by (episode, step). A reward therefore does not depend on the action chosen, and the learner's `on_step`/`end_of_episode` updates are not modelled.
- Actions.AgentActions.MarkLeakedCredentials: with `correctsFirstNodeGlobals` set, the node, value and property totals are only bounded (at most one new node per leak), and the new tracking is only stated to grow. The exact totals and tracking are stated for the code as written.
- Actions.AgentActions.MarkLeakedNodes: the same as above. With `correctsFirstNodeGlobals` set, the totals are only bounded and the tracking is only stated to grow.
- Actions.AgentActions.MarkDiscoveredEntities: the same as above, for both leak kinds.
- Actions.AgentActions.MarkDiscoveredEntitiesAsWritten: with `correctsFirstNodeGlobals` set, only the discovered keys, the frame and the dry-run effects are stated; the totals are not.
- Learner.Ratio returns the exact fraction. Its formatting to two decimals is not modelled.
- Learner.EvaluateModel requires `evalFreq >= 1`. Python raises on a zero or missing `eval_freq` in the modulus.
- cyberbattle/agents/baseline/notebooks/notebook_debug_tinymicro.py is not modelled. It is notebook glue without its own logic.

## Findings

| source | as written | input that shows it | evidently intended | confidence | as-written member | corrected member |
|---|---|---|---|---|---|---|
| cyberbattle/simulation/actions.py:269 | The first node's discovered property *indices* are intersected with the global property *names*, so the intersection is always empty. | Any first node that has discovered a global property: its index is never a name. | The global property names whose indices the first node has discovered. | high (not executed) | Actions.FirstNodeGlobalsAsWritten, Actions.FirstNodeGlobalsLost, Actions.AgentActions.DiscoveryIndices | Actions.FirstNodeGlobals, Actions.AgentActions.FirstDiscoveredGlobals |
| cyberbattle/simulation/actions.py:343 | The LeakedCredentials branch calls `__mark_node_as_discovered` without passing `propagate`, so a dry run discovers the leaked nodes. | An owned node "a", an undiscovered node "b", and a credential for "b" leaked with propagate false: "b" becomes discovered. | A dry run changes nothing, as the node branch at line 359 does. | high (not executed) | Actions.AgentActions.MarkDiscoveredEntitiesAsWritten, Actions.DryRunLeakDiscoversAsWritten | Actions.AgentActions.MarkDiscoveredEntities |
| cyberbattle/agents/baseline/learner.py:527 | `while steps_done <= episode_count * iteration_count` starts another episode once the budget is exactly spent. With iteration_count = 0 no episode takes a step, so the loop never ends. | episode_count = 1, iteration_count = 1, no early `done`: two episodes run. Any episode_count with iteration_count = 0: the budget 0 is never exceeded. | Run episode_count episodes when none ends early, as the replaced `for` loop at line 526 did, i.e. a strict `<`. | medium (not executed) | Learner.ExtraEpisodeAsWritten, Learner.NoStepsNeverStopAsWritten | Learner.EpisodeCountCorrected, Learner.EpsilonGreedySearch |
