# Fleet protocol, chain reconstruction, PID index and parsers: a verified model

This project models the parts of an endpoint-detection fleet whose correctness is hardest to see by reading:

* **The fleet protocol** (`FleetModel`, `FleetServer`, `Orchestrator`, `FleetAgent`, `FleetProtocol`, `FleetHistory`,
  `FleetIncidents`, `FleetBatches`, `FleetPulls`, `FleetSurveillance`). One server, any number of agents, lossy heartbeats,
  incidents that move from detected to closed, and incremental surveillance pulls. The classes are the server's and the
  agent's code; each method is proved equal to a function of the tables. `FleetProtocol` composes those functions into a
  step system, and the theorems speak about every run of it.
* **The agent's recorder and the distributed pull** (`FlightRecorder`, `TopK`, `DescendantBfs`, `SurveillancePull`).
* **Attack chains** (`ChainBuilder`, `ChainProofs`, `OnePass`, `XdrChain`, on the stable sort of `StableSort`).
* **The PID index and the graph reaper** (`PidIndex`, `Reaper`).
* **The Sigma compiler** (`RuleCompiler`, `RuleTranslator`, `ConditionText`, `ChainFilter`, its meaning in `RuleMeaning`,
  `RuleProofs`, `RuleConditions`, `RulePasses`, and exactly when it keeps a meaning in `RuleNames`, `RuleSamples`,
  `RuleExactness`, `RuleLosses`).
* **The wire parsers** (`ClientHello`, `ClientHelloProofs`, `Ja3Collisions`, `DnsName`, `Netlink`), each with an encoder.
* **Shared vocabulary** (`Numbers`, `Options`, `Sets`, `Text`, `Words`).

`dafny verify dfyconfig.toml` checks everything.

## Conventions

* SQLite, Neo4j and Kuzu are maps, sets and sequences. Rows are only appended, so a row's position stands for the fresh
  uuid of a query or an incident, and table order stands for `created_at` order with ties to the newest.
* Clocks are real numbers that do not run backwards; `int(time.time())` is the floor. A handler reads one clock value.
* A handler for one incident and the treatment of one finding are atomic. The network is a set of messages that only
  grows: a message never received is lost, one received twice is repeated, and order is free.
* `get_incidents_by_status` gives one row per source finding, so an incident is visited once per finding, with the
  incident as it was when the rows were read; traces are therefore "at least one", never "exactly one".
* What the host graph answers (hosts that own an address, ports, source addresses, chains, vertical movement) is an input.
* What an incident's chains name is an input of every visit and may differ between visits; the agent resolves a pull's
  anchor PIDs anew each time. Result keys such as `<incident>:surv_dst` are a datatype, not text.
* A visit of the orchestrator can happen to an incident of any status: the code tests the status when it reads a batch
  of rows, not when it writes. `Orderly` names the visits that find what the batch saw.
* Config signatures are valid and every agent that sends heartbeats is registered, except in `Heartbeat` itself, which
  models both cases.
* An agent appends rows in timestamp order and may prune old ones; `history` remembers all of them.
* Scans of a node table have a stable order in which deletions close gaps; `stuck` are the nodes whose queries raise.
* The id of a Process node fixes its PID. The start time in a node id is read by a function that is a parameter.
* A process chain is a list of entries, root first. An entry has an image path; which prefixed filter steps match it
  through a command line, a container or a regular expression is an input. The text found in an audit message by UTF-8
  decoding, and the key=value pairs in it, are inputs, too.
* Every host that an incident names is registered.
* Characters are case-folded over ASCII only.

## Where the code departs from its comments or from what one would expect

* `server/neo4j_client.py:202-204` says a single forward pass suffices. It does in particular without equal timestamps
  (`OnePassOverRows`). Where each PID is named by one process event, it does for all anchors if and only if no child event
  stands before its parent's at the same instant, the parent's own parent being a third process (`OnePassExact`).
* The reaper corrects its cursor for deletions only for Process nodes. That sweep is exact (`CountedSweepIsExact`). The
  other labels' sweep jumps over as many nodes behind each full page as the page lost; it is exact for given orphans if and
  only if it jumps over none of them (`UncountedSweepIsExactFor`), and for all orphans if and only if the list fits one page
  (`UncountedSweepIsExactIff`).
* A pull with more wanted rows than its limit drops the oldest ones; `PullCoversIff` says exactly when nothing is lost.
* A chain filter is text, split at `>` and stripped when it is read, and a step may start with a prefix that makes it a test
  of something else. A filter reads back as written if and only if no name in it holds a `>` or begins or ends in a blank
  (`FilterReadsBack`). A selection keeps its meaning if and only if, with a parent in play, each parent name and some
  spelling of each image name is free of that and of the prefixes (`SelectionKeptExact`).
* The Sigma compiler reads `and` by merging mappings. The conjunction is kept if and only if every value a key ends up
  with ends in some value of each entry it replaced, or some entry that is left has no values (`MergeExact`); for two
  selections on one image key, if and only if each later value is among the earlier ones (`ClashExact`).
* `selection_*` also covers names such as `selectionx` (`SelectionXFires`), which changes the meaning if and only if such a
  block holds somewhere the blocks that are meant do not (`UnderscoreExact`).
* `and not` keeps only its first half. The rules still mean the condition if and only if the selection and what is taken
  away have no sample in common, or, when the selection compiles to nothing, all of it is taken away (`MeaningExact`);
  `AndNotOverfires` shows rules firing where the condition does not hold.
* Whatever follows `1 of` or `all of` a target is not read (`ConditionRoundTrip`).
* For every condition on the two image fields whose names filters can carry, `MeaningExact` and `NothingMissedExact` decide on a list of
  processes made of the rule's own values (`SamplesExact`) whether the compiled rules mean the same or miss something.
* The blast shield compares patterns literally. An unscoped rule fires on a danger binary if and only if its pattern, as a
  glob, matches one of the listed names (`UnscopedLeaksExact`); of the plain patterns the shield stops exactly those
  (`ShieldStopsPlain`, `ShieldProtects`), but a glob such as `rm*` passes it (`GlobSlipsThrough`).
* A visit writes its status without looking at the present one. It moves a status back if and only if it finds the
  incident further on than its batch could have left it (`StepStatusExact`), which happens (`BackwardVisitHappens`);
  undisturbed batches contain no such visit (`OrchestratorTurn`).
* The JA3 mask drops more than the values reserved by section 2 of RFC 8701: those, and the values whose high nibbles differ
  (`ReservedIsGrease`). The text is the intended one if and only if no such value is among a hello's ciphers, extension types
  and groups (`IntendedExact`).

## Model

| member | source | states |
|---|---|---|
| FleetServer.SettingsDb.EnqueueXdrQuery | server/settings_db.py:730-739 | The query table gains exactly one pending row at its end. |
| FleetServer.SettingsDb.GetPendingQueriesForAgent | server/settings_db.py:741-756 | The agent's unfinished queries, oldest first; what that list contains is `PendingExact`. |
| FleetServer.SettingsDb.CompleteXdrQuery | server/settings_db.py:758-777 | Only a pending query is completed, once; the returned row tells whether it was. |
| FleetServer.SettingsDb.UpsertSurveillanceLogs | server/settings_db.py:789-828 | Rows new under their unique key are stored, known ones are left as they are, and the number stored is returned. |
| FleetServer.SettingsDb.SetSurveillancePullState | server/settings_db.py:872-893 | The enqueue time is overwritten when given, the watermark only raised. |
| FleetServer.IncidentStore.FindActiveCampaign | server/neo4j_client.py:1479-1508 | The newest open incident inside the window that shares an agent or an address, and None only when there is none. |
| FleetServer.IncidentStore.AppendFindingToIncident | server/neo4j_client.py:1510-1580 | The finding joins the incident once, its hosts and address are linked, a third host makes it a campaign, and nothing else changes but the update time. |
| FleetServer.IncidentStore.CheckFindingForFollowOn | server/neo4j_client.py:1454-1477 | Every active incident whose target reports a serious finding is tagged with it, no other is touched. |
| FleetServer.FleetServicer.SendFinding | server/grpc_service.py:160-235 | The incident table after one finding, loop by loop: grouped into a campaign, or opened, or neither. |
| FleetServer.FleetServicer.IngestSurveillanceLogs | server/grpc_service.py:262-296 | The records are stored and the side's watermark is raised to their greatest timestamp when that is positive. |
| FleetServer.FleetServicer.Heartbeat | server/grpc_service.py:323-376 | A registered agent's results are taken in order, up to one that cannot be read, and its pending queries returned; an unknown agent changes nothing. |
| FleetAgent.FleetForwarder.TakeResults | agent/fleet/forwarder.py:423-428 | The whole buffer is taken and cleared before the call. |
| FleetAgent.FleetForwarder.ExecutePendingQueries | agent/fleet/forwarder.py:363-381 | Every query that executes leaves its result in the buffer, one that raises leaves none. |
| FleetAgent.ExecutedExact | agent/fleet/forwarder.py:363-381 | The results are exactly those of the delivered queries that have an outcome. |
| FleetProtocol.PendingExact | server/settings_db.py:741-756 | Pending for an agent are exactly its queries without a result. |
| FleetProtocol.HandoutExact | server/grpc_service.py:361-367 | A response hands out exactly the agent's unfinished queries, with their kind and parameters. |
| FleetHistory.ReceiveResultEvolves | server/settings_db.py:758-777 | Accepting a result never changes an accepted one, a stored row or lowers a watermark. |
| FleetHistory.StepEvolves | server/xdr_orchestrator.py:78-237 | No single action changes an incident's identity, drops a finding, alters a finished query or a stored row, or lowers a watermark. |
| FleetHistory.StatusAfter | server/neo4j_client.py:1718-1731 | The status of every incident after any action: only visits and closings change one. |
| FleetHistory.StepStatusExact | server/neo4j_client.py:1718-1731 | An action moves a status back if and only if it is a visit that finds its incident further on than its batch could have left it. |
| FleetHistory.BackwardVisitHappens | server/neo4j_client.py:1718-1731 | A run from the start in which a visit sweeps an incident that was closed after its batch was read. |
| FleetHistory.RunStatus | server/xdr_orchestrator.py:78-237 | Along every run without such visits no status moves back. |
| FleetHistory.RunEvolves | server/settings_db.py:741-777 | What no single action does, no run does: a query completes at most once and keeps its first accepted result. |
| FleetHistory.ReceivedAreComplete | server/grpc_service.py:332-345 | A heartbeat that arrives completes every query whose result it carries. |
| FleetHistory.DeliveredBuffers | agent/fleet/forwarder.py:417-456 | After a heartbeat that got through both ways, with any actions in between, a query of the agent that did not raise is complete or its result is buffered. |
| FleetHistory.TwoHeartbeatsComplete | agent/fleet/forwarder.py:423-456 | When the agent's next heartbeat is served, every query it had at the first and that did not raise there is complete, whatever other queries do and whatever else acts before, between and during the two. |
| FleetHistory.UnfinishedIsHandedOut | server/grpc_service.py:361-367 | A served heartbeat answers with every unfinished query of the agent, so a lost request is repaired by redelivery. |
| FleetIncidents.StepGrouped | server/grpc_service.py:175-235 | Every action but a reopening one keeps open campaigns apart. |
| FleetIncidents.StepClosedExact | server/neo4j_client.py:1718-1731 | An action opens a closed incident again if and only if it is a backward visit of one. |
| FleetIncidents.CampaignsStayApart | server/neo4j_client.py:1479-1508 | In every state reached without reopening an incident, two open incidents created less than 12 hours apart share no host and no pivot address. |
| FleetIncidents.StepTracedExact | server/xdr_orchestrator.py:133-169 | Where every sweep has its traces, an action breaks that if and only if it is a sweeping visit that activates an incident never swept. |
| FleetIncidents.SweepsAreTraced | server/xdr_orchestrator.py:78-131 | In every state reached without such a visit, a sweeping or active incident has a victim trace, a source trace that asks about its pivot address, and an evidence pull at either host. |
| FleetIncidents.SweptHasTraces | server/xdr_orchestrator.py:78-131 | Once an incident is swept its traces and pulls stay in the table, whatever happens to it. |
| FleetIncidents.SeriousFindingIsFiled | server/grpc_service.py:175-235 | For each match of a serious finding some incident holds the finding and links both hosts and the address, or was opened for that address. |
| FleetIncidents.VerticalFindingIsFiled | server/grpc_service.py:200-230 | A serious finding without matches that escalates a user is held by an incident of its own host. |
| FleetIncidents.CampaignsAreWide | server/neo4j_client.py:1564-1580 | In every reachable state an incident involves its own hosts and is a campaign if and only if it involves more than two. |
| Orchestrator.IncidentRowsExact | server/neo4j_client.py:1697-1716 | Exactly the incidents with the status have rows, each row showing its incident. |
| Orchestrator.XdrOrchestrator.ProcessDetected | server/xdr_orchestrator.py:78-131 | The tables after visiting every detected row in order. |
| Orchestrator.XdrOrchestrator.ProcessSweeping | server/xdr_orchestrator.py:133-169 | The tables after visiting every sweeping row in order. |
| Orchestrator.XdrOrchestrator.VisitActive | server/xdr_orchestrator.py:183-237 | A stale row closes its incident; otherwise each due side without a pending pull gets one for what the chains now name, from the current watermark. |
| Orchestrator.XdrOrchestrator.ProcessActive | server/xdr_orchestrator.py:171-237 | The tables after visiting every active row in order. |
| Orchestrator.DetectedRunSettles | server/xdr_orchestrator.py:78-131 | The handler moves exactly the visited incidents to sweeping. |
| Orchestrator.SweepingRunSettles | server/xdr_orchestrator.py:133-169 | It activates exactly the visited incidents whose traces are both in or whose time is up. |
| Orchestrator.ActiveRunSettles | server/xdr_orchestrator.py:171-185 | It closes exactly the visited incidents that are stale, and changes no other. |
| Orchestrator.NoneLeftDetected | server/xdr_orchestrator.py:78-131 | After the first handler no incident is detected. |
| Orchestrator.SweepingSettled | server/xdr_orchestrator.py:133-169 | After the second, each sweeping incident is inside the timeout with an unfinished trace. |
| Orchestrator.ActiveSettled | server/xdr_orchestrator.py:171-185 | After the third, each active incident is inside the auto-close time, and the first two facts still hold. |
| Orchestrator.XdrOrchestrator.RunOnce | server/xdr_orchestrator.py:63-76 | All three together after one full turn in which no handler raises. |
| FleetBatches.DetectedBatch | server/xdr_orchestrator.py:78-131 | The detected loop is a run of visits, each finding its incident detected or swept by the same batch. |
| FleetBatches.SweepingBatch | server/xdr_orchestrator.py:133-169 | The sweeping loop is a run of visits, each finding its incident sweeping or activated by the same batch. |
| FleetBatches.ActiveBatch | server/xdr_orchestrator.py:171-237 | The active loop is a run of visits. |
| FleetBatches.OrderlySkipsNothing | server/xdr_orchestrator.py:133-169 | Where every sweep has its traces, no visit that finds what its batch saw skips one. |
| FleetBatches.OrchestratorTurn | server/xdr_orchestrator.py:63-76 | An undisturbed turn is a run of the step system in which no visit moves a status back or skips a sweep, and it settles all incidents. |
| FleetPulls.StepAgents | agent/flight_recorder.py:110-173 | Agent tables stay consistent with their history, and a new row is at least as new as all older history. |
| FleetSurveillance.PulledOk | agent/graph/federated_queries.py:499-534 | A pull below its limit returns a result with no wanted row missing below its newest. |
| FleetSurveillance.StepPullInv | server/grpc_service.py:280-291 | Every action keeps the pull invariant of tables, buffers and messages in flight. |
| FleetSurveillance.SurveillanceIsGapFree | server/xdr_orchestrator.py:194-237 | In every state reached without a capped pull of the side, every row below the watermark that the agent still has and that all pulls of the side asked for is stored, however chains and descendants change and despite loss, delay and repetition. |
| FleetSurveillance.WatermarkIsGreatestStored | server/grpc_service.py:284-291 | In every reachable state, when source and target differ, the watermark is the greatest stored timestamp of the side. |
| FleetSurveillance.PullsAreSerialized | server/settings_db.py:974-980 | Without manual pulls at most one pull of a side is pending, and two enqueues of a side are at least 60 seconds apart. |
| FlightRecorder.Recorder.Record | agent/flight_recorder.py:103-108 | An event is queued unless the queue is full, then dropped. |
| FlightRecorder.Recorder.DrainQueue | agent/flight_recorder.py:206-214 | A batch is a prefix of the queue, as long as the limit allows. |
| FlightRecorder.Recorder.WriterCycle | agent/flight_recorder.py:182-204 | A turn drains a batch in order, inserts it unless the insert fails, and prunes when due; only a failed insert loses events, exactly its batch. |
| FlightRecorder.Recorder.Prune | agent/flight_recorder.py:242-250 | Exactly the rows at or after the cutoff stay, in order. |
| FlightRecorder.MergeQueries | agent/graph/federated_queries.py:508-534 | The merge loops compute the pull of the specification. |
| TopK.PulledSound | agent/graph/federated_queries.py:508-534 | A pull returns only wanted rows, each once, newest first, at most `limit` of them. |
| TopK.UncappedPullIsComplete | agent/graph/federated_queries.py:508-534 | A pull that returns fewer than `limit` rows returns every wanted row, ties or not. |
| TopK.PullShowsTopTimes | agent/graph/federated_queries.py:508-534 | Ties or not, the merge of per-filter lists shows the same timestamps, position by position, as the newest `limit` rows of the union. |
| TopK.PullIsTopOfUnion | agent/graph/federated_queries.py:508-534 | Without equal timestamps it is exactly those rows. |
| TopK.PullCoversIff | agent/flight_recorder.py:110-173 | A pull misses nothing if and only if at most `limit` rows are wanted, ties or not. |
| DescendantBfs.ReachIsPaths | agent/graph/federated_queries.py:342-383 | Being within `n` steps is having a path of at most `n` child links from an anchor. |
| DescendantBfs.Expand | agent/graph/federated_queries.py:365-378 | One level of the search, in whatever order sets are iterated. |
| DescendantBfs.Search | agent/graph/federated_queries.py:358-383 | The search is sound, and complete below the cap. |
| DescendantBfs.ResolveDescendantPids | agent/graph/federated_queries.py:342-383 | Anchors included, nothing beyond 10 steps, at most max(200, anchors), and below the cap exactly what 10 steps reach. |
| SurveillancePull.PullFromFlightRecorder | agent/graph/federated_queries.py:499-534 | The whole pull: anchors are resolved to descendants, and the result is the pull for those PIDs, the addresses and the users. |
| SurveillancePull.PullReachesDescendants | agent/graph/federated_queries.py:342-383 | Below both caps a pull returns every row of every process within ten steps of an anchor. |
| StableSort.SortStable | server/neo4j_client.py:256 | Two elements in key order keep their order, so an earlier inserted parent stays before its child. |
| StableSort.SortIgnoresInputOrder | server/neo4j_client.py:140-142 | With distinct keys sorting forgets the input order. |
| ChainBuilder.CollectAnchors | server/neo4j_client.py:144-180 | The anchor loop, with the last anchor time per PID. |
| ChainBuilder.SeedProcesses | server/neo4j_client.py:186-196 | The seed loop. |
| ChainBuilder.WalkChildren | server/neo4j_client.py:198-244 | The forward pass over process events. |
| ChainBuilder.Assemble | server/neo4j_client.py:258-284 | The user goes behind the first process that runs as that user, or to the end. |
| ChainBuilder.UserSlotIsFirst | server/neo4j_client.py:270-284 | That position is the first such process. |
| ChainBuilder.BuildChainFromOcsfEvidence | server/neo4j_client.py:101-290 | The whole builder, including every way it returns nothing. |
| ChainProofs.WalkTable | server/neo4j_client.py:182-244 | Each process in the table is an anchor or is backed by an event whose parent stands before it; each PID once. |
| ChainProofs.ChainIsOrdered | server/neo4j_client.py:246-289 | Step numbers are positions, process times never decrease, no PID occurs twice. |
| ChainProofs.ChainIsCausal | server/neo4j_client.py:198-256 | Every process step that is no anchor comes after the step of the parent its event names. |
| ChainProofs.UserAppearsOnce | server/neo4j_client.py:258-284 | A known user has exactly one step, an unknown user none. |
| OnePass.OnePassSuffices | server/neo4j_client.py:198-244 | One pass reaches the fixpoint, whatever the pivots, when no tied child event precedes its parent's. |
| OnePass.PairIsLost | server/neo4j_client.py:198-244 | Every such pair of events, each the only one of its PID, loses its child under some anchor. |
| OnePass.OnePassExact | server/neo4j_client.py:202-204 | Where each PID is named once, one pass is complete for all anchors if and only if there is no such pair. |
| OnePass.OnePassOverRows | server/neo4j_client.py:140-245 | Distinct timestamps are enough for that. |
| OnePass.OnePassMissesTies | server/neo4j_client.py:202-204 | An instance: three events for which the pass loses a child. |
| ChainProofs.ChainIgnoresRowOrder | server/neo4j_client.py:140-142 | With distinct timestamps the chain does not depend on the order of the rows. |
| XdrChain.CollectProcesses | server/neo4j_client.py:42-61 | The loop that keeps the first usable record of each PID. |
| XdrChain.AssembleReversed | server/neo4j_client.py:74-90 | The target order, user behind the first process of that name or last. |
| XdrChain.BuildChainFromXdrRecords | server/neo4j_client.py:18-98 | The whole builder in both directions. |
| XdrChain.FirstPerPidExact | server/neo4j_client.py:42-61 | The processes are exactly the first usable record of each PID, each PID once. |
| XdrChain.ChainFaithful | server/neo4j_client.py:21-31 | Both directions show the same processes in the same order of time, one user step, and positions as numbers. |
| XdrChain.UserFollowsItsProcess | server/neo4j_client.py:74-88 | In the target order a known user stands right behind the first process that runs as that user. |
| PidIndex.PidIndex.OnUpsert | agent/graph/pid_index.py:76-86 | The four dictionaries after an upsert. |
| PidIndex.PidIndex.RemoveNodes | agent/graph/pid_index.py:88-119 | Emptied PIDs leave every dictionary, emptied families go, nothing else changes, and the entries removed are counted. |
| PidIndex.PidIndex.GetNodeIdAtTime | agent/graph/pid_index.py:129-146 | The latest incarnation that had started by then; None exactly when none had. |
| PidIndex.UpsertAgrees | agent/graph/pid_index.py:76-86 | An upsert keeps the index in agreement with the Process table. |
| PidIndex.RemoveAgrees | agent/graph/pid_index.py:88-119 | So does a removal. |
| PidIndex.IndexAlwaysAgrees | agent/graph/pid_index.py:76-119 | After any sequence of upserts and deletions the index groups exactly the live nodes and mentions no dead PID. |
| Reaper.ChecksCoverSchema | agent/graph/reaper.py:48-81 | The probes of a label find an edge exactly if some edge of any table touches the node. |
| Reaper.OrphanLosesNoEdge | agent/graph/reaper.py:321-330 | Deleting a node the probes found free takes no edge with it. |
| Reaper.ExaminePage | agent/graph/reaper.py:304-333 | A page loses exactly its orphans and no edge goes. |
| Reaper.CleanLabel | agent/graph/reaper.py:287-339 | The paging loop of one label ends, also when its page query raises, and leaves the list swept that far. |
| Reaper.CountedSweepIsExact | agent/graph/reaper.py:335-339 | With the corrected cursor each node is probed exactly once, in order, and every orphan goes. |
| Reaper.UncountedSweepIsExactFor | agent/graph/reaper.py:335-339 | Without the correction a sweep is exact for given orphans if and only if none of them is among the nodes it jumps over. |
| Reaper.UncountedSweepIsExactIff | agent/graph/reaper.py:335-339 | It is exact for all orphans if and only if the list fits one page. |
| Reaper.CleanedProcesses | agent/graph/reaper.py:277-345 | After a cleanup that no page query cut short a Process survives exactly if it has an edge or its queries raise. |
| Reaper.Graph.PruneEdges | agent/graph/reaper.py:154-175 | Exactly the edges older than the cutoff go from the tables that answer, and their number is returned; a table that raises keeps its edges. |
| Reaper.Graph.CleanupOrphanedNodesBatched | agent/graph/reaper.py:277-345 | All labels are swept as far as their page queries answer, no edge is touched, the count is the number of nodes gone, and the index agrees with the processes that are left. |
| Reaper.Graph.PruneOldEdges | agent/graph/reaper.py:190-213 | Pruning edges and then the nodes this isolates, with the summed count, and the index in agreement with the processes that are left. |
| Reaper.Graph.PurgeProcessName | agent/graph/cleanup.py:54-72 | Exactly the matching processes go, with the edges that touch them and no others; the count and the index agree. |
| RuleCompiler.TranslateSelection | tools/rule_compiler.py:238-323 | The loops over a selection build exactly the rules of the specification, or none when a field has no pattern. |
| RuleTranslator.TranslateRule | tools/rule_compiler.py:393-484 | Every condition type, with its skip reason. |
| RuleTranslator.Deduplicate | tools/rule_compiler.py:620-628 | The loop with its set of seen keys keeps the first rule of each key. |
| RuleTranslator.BlastShield | tools/rule_compiler.py:630-650 | The loop splits the rules into kept and dropped ones, in order. |
| RuleTranslator.CompileRules | tools/rule_compiler.py:595-650 | The main loop with its filters, deduplication and shield in sequence. |
| RuleMeaning.LastTwoSteps | README.md:210-215 | The steps `**`, parent, child look exactly at the last two entries of a chain. |
| ChainFilter.FilterReadsBack | tools/rule_compiler.py:209-211 | The text of a filter is split and stripped into its two names if and only if neither holds a separator or begins or ends in a blank. |
| RuleMeaning.FilterFromRoot | agent/response/baseline.py:36-58 | A filter that starts with `**` fits the whole chain when it fits from any start. |
| RuleMeaning.EndIsBasename | tools/rule_compiler.py:168-206 | A path with a slash ends in "/name" exactly when its base name is that name, case ignored. |
| RuleProofs.SelectionExact | tools/rule_compiler.py:238-323 | In the fragment the rules of a selection, their filters read from text, fire exactly when it names an image and holds, slashless paths read as in the root. |
| RuleNames.SelectionKeptExact | tools/rule_compiler.py:238-323 | On the two image fields that is so for every process, whatever its command line and container, if and only if filters can carry the selection's names. |
| RuleConditions.MergedHolds | tools/rule_compiler.py:443-453 | A merge whose last values are within those they replaced is the conjunction of its mappings. |
| RuleConditions.MergeExact | tools/rule_compiler.py:443-484 | The compiled `and` is the conjunction on every process if and only if the merge keeps every entry's condition. |
| RuleConditions.CompiledMeansSigma | tools/rule_compiler.py:393-484 | For simple, or, 1 of, and, all of the rules fire exactly when the condition holds; for `and not` whenever it does. |
| RuleConditions.AbsolutePathsStand | tools/rule_compiler.py:168-206 | Where every path has a slash, nothing is reread, so the equivalence is on the process itself. |
| RulePasses.DedupedUnique | tools/rule_compiler.py:620-628 | No two kept rules share a key. |
| RulePasses.DedupKeepsMeaning | tools/rule_compiler.py:620-628 | Deduplication changes nothing about what fires. |
| RulePasses.ShieldExact | tools/rule_compiler.py:630-650 | Exactly the unscoped danger binaries are dropped; kept and dropped together are the input. |
| RulePasses.UnscopedLeaksExact | tools/rule_compiler.py:39-51 | An unscoped rule fires on some danger binary if and only if its pattern as a glob matches one of the listed names. |
| RulePasses.ShieldStopsPlain | tools/rule_compiler.py:630-650 | Whatever the shield stops reaches danger, and of the plain patterns it stops all that do. |
| RulePasses.ShieldProtects | tools/rule_compiler.py:39-51 | No plain unscoped rule that passes fires on a danger binary. |
| RulePasses.GlobSlipsThrough | tools/rule_compiler.py:630-650 | An instance: an unscoped `rm*` passes and fires on some danger binary. |
| RulePasses.ShippedRulesExact | tools/rule_compiler.py:595-650 | For the whole compiler, over sources in the fragment or skipped: a shipped rule fires only where the condition of a selected source holds, its `and not` left out, and away from the danger binaries wherever one does. |
| ConditionText.ConditionRoundTrip | tools/rule_compiler.py:330-363 | The text of any of the six readable condition forms reads back; what follows a target is never read. |
| ConditionText.AnySpacingReads | tools/rule_compiler.py:330-363 | So does any text with the same words, however they are spaced. |
| RuleSamples.SamplesExact | tools/rule_compiler.py:238-323 | The list of a conjunction's samples holds exactly the processes made of its own values on which it holds. |
| RuleSamples.ContainedExact | tools/rule_compiler.py:238-323 | One alternative of conjunctions holds wherever another does if and only if it holds on the other's sample processes. |
| RuleExactness.MeaningExact | tools/rule_compiler.py:393-484 | Any condition on the two image fields with names filters can carry, `and not` and lists of mappings included, keeps its meaning if and only if what is compiled, what is meant and what is taken away agree on their samples. |
| RuleExactness.NothingMissedExact | tools/rule_compiler.py:393-484 | The compiled rules miss nothing if and only if they fire on the samples of what is meant, or, where nothing is compiled under `and not`, all of those are taken away. |
| RuleLosses.AndExact | tools/rule_compiler.py:464-484 | An `and` of mappings keeps its meaning if and only if merging them keeps every entry's condition. |
| RuleLosses.ClashExact | tools/rule_compiler.py:464-484 | For two selections on one image key: if and only if each later value is among the earlier ones, case ignored. |
| RuleLosses.ClashInstances | tools/rule_compiler.py:464-484 | Instances: `/y` after `/x` loses the conjunction, `/x` after both keeps it. |
| RuleLosses.AndNotOverfires | tools/rule_compiler.py:412-418 | An image taken away from itself: the rules fire where the condition never holds. |
| RuleLosses.ExtraFires | tools/rule_compiler.py:420-460 | A lone block such as `selectionx` compiles under `1 of selection_*` to rules that fire where it holds; the condition never does. |
| RuleLosses.UnderscoreExact | tools/rule_compiler.py:420-460 | The wider coverage changes the meaning if and only if such a block has a sample on which no meant block holds. |
| ClientHello.ExtractSniFromClientHello | agent/collectors/connection_metadata.py:63-140 | Total on all byte strings, every read in bounds, equal to the specification. |
| ClientHello.ComputeJa3 | agent/collectors/connection_metadata.py:143-233 | The text before hashing, and None exactly where a read runs off the end. |
| ClientHello.ReservedIsGrease | agent/collectors/connection_metadata.py:172-176 | The reserved values are exactly the masked ones with equal high nibbles; 0x0A1A is masked and not reserved. |
| ClientHelloProofs.SniRoundTrip | agent/collectors/connection_metadata.py:63-140 | For every well-formed hello the walker returns the name of the first server_name extension, None without one. |
| ClientHelloProofs.Ja3OfHello | agent/collectors/connection_metadata.py:143-233 | The text of a well-formed hello is the five lists of what it carries. |
| ClientHelloProofs.GreaseInvariance | agent/collectors/connection_metadata.py:168-233 | Hellos that differ only in reserved ciphers, extensions or groups have the same text. |
| Ja3Collisions.TextInjective | agent/collectors/connection_metadata.py:222-231 | The joined text determines the version and the four lists. |
| Ja3Collisions.SameFingerprintIff | agent/collectors/connection_metadata.py:168-233 | Two hellos share a text if and only if they agree on version, unmasked ciphers, types and groups, and formats. |
| Ja3Collisions.MaskExact | agent/collectors/connection_metadata.py:172-176 | The mask leaves of a list what dropping reserved values leaves if and only if every masked value in it is reserved. |
| Ja3Collisions.IntendedExact | agent/collectors/connection_metadata.py:168-233 | A well-formed hello has the text that dropping reserved values gives if and only if its ciphers, types and groups are such lists. |
| DnsName.ParseDnsQname | agent/collectors/ebpf_collector.py:498-521 | The loop returns the dotted labels of the specification, for any bytes. |
| DnsName.NameRoundTrip | agent/collectors/ebpf_collector.py:498-521 | An encoded name reads back as its first 32 labels, the whole name when it has no more. |
| DnsName.TruncatedName | agent/collectors/ebpf_collector.py:498-521 | Any truncation of any message yields a prefix made of whole labels. |
| Netlink.AuditdCollector.ParseNetlinkMessages | agent/collectors/auditd_collector.py:137-202 | Each message is handled in order, its pairs get their common names, and the bounded buffer keeps the newest events, for any bytes. |
| Netlink.SplitRoundTrip | agent/collectors/auditd_collector.py:137-151 | Splitting concatenated padded messages yields exactly those messages, the last padded or not. |
| Netlink.SplitIsMaximal | agent/collectors/auditd_collector.py:137-151 | For any bytes the messages read re-encode to a prefix, behind which no whole message stands. |

## Left out

- The transport (gRPC, TLS, HMAC checks), threads, capture of packets and processes, and all text of SQL, Cypher and Kuzu queries.
- Registration, agent configuration, rule distribution and enforcement stages; dashboards, the analyzer, metrics and logging.
- The OCSF evidence store behind pull results of that kind and the diamond assessment it triggers; the pulls themselves are queries like the others.
- The ledger path of pulls (agent/graph/federated_queries.py:136-290) and the fallback that asks the operating system for child processes.
- Interleavings inside one handler, such as an administrator's close between a handler's read and its write.
- Rows below a watermark that only later pulls of a side ask for, because its chains have grown since.
- The high-degree prune, `PidIndex.build` and its simple lookups.
- Sigma fields and modifiers outside `Image|endswith` and `ParentImage|endswith` are compiled by the model but have no meaning assigned, nor do character classes in globs, nor two keys of one selection that differ only in case.
- The MD5 of the JA3 text.
- FleetServer.FleetServicer.Heartbeat: does not model the evidence ingest of OCSF results, nor an exception inside an ingest after its query was completed.
- FleetSurveillance.WatermarkIsGreatestStored: is about different agents; when source and target are the same agent, its two sides share log rows.
- Orchestrator.XdrOrchestrator.VisitActive: does not model the assessment trigger at its end, which changes none of the tables here.
- Orchestrator.XdrOrchestrator.ProcessActive: does not model the assessment trigger either.
- OnePass.OnePassExact: is about events in which each PID is named once; with a PID named twice a later event may introduce the child.
- PidIndex.PidIndex.OnUpsert: states the dictionaries directly, because their meaning is the agreement of `UpsertAgrees`.
- DescendantBfs.ResolveDescendantPids: the result is a set, because the order of the returned list depends on set iteration.
