# Verification of the validation app engine

A Dafny model of the agent-based traffic validation engine: the parallel work protocol of the client
library, the compilation of traffic rules into per-endpoint records and their deployment, the
connected state each service keeps, the data-center variant of the controller, the record accounting
pipeline, the life cycle of server processes, the round-robin traffic client, and the topology
generators. `dafny verify dfyconfig.toml` checks everything.

What is proved, in short:

* **Parallel work.** A run of `ParallelWork` is any interleaving of the calling thread and the
  workers, one atomic queue operation at a time. With at least one worker every run has the same
  length, 4n + 4c + 3 steps for n jobs and c workers, never stops earlier, and ends with the results of
  the sequential map, each job having been executed exactly once. `Do` can return exactly when there is
  no job or the requested count is absent or positive.
* **Rules to stores.** Compiled records mean what deploying the rules one by one means; pushes commute;
  after any run with any pushes lost each host's row means exactly the deployment of the rules the host
  knows, those up to the last call that reached it; one complete register call leaves every endpoint
  with the deployment of all rules of all calls; a complete unregister call empties every row. The fleet
  is closed (each client finds its server) exactly when each rule its source knows is served by what
  its destination knows. Run by the parallel work protocol, a call the caller takes for a success is
  complete, and so converges.
* **Stored lists.** Clients ping the stored list entry by entry. A row created by a request keeps
  repeated keys; a merge leaves one entry per key. After any run the list a host stores is given
  exactly; all its entries carry the last matching rule's policy if and only if not just one register
  call reached the host or no rule overrides another. Otherwise overridden policies are pinged and
  misreported, as a concrete run shows. Batching, registering twice and unregistering leave the store
  as expected under exact conditions of the same kind.
* **Data center.** Grouping by workload host, with record lists shared between list entries, deploys
  the same rows as the basic controller, each on its own host only; what lost and truncated requests
  leave is characterised as well, down to the stored lists.
* **Accounting.** The counting thread flushes only inside the handling of a record, so counts stay
  pending until another record arrives. What is pending of a protocol is exactly what was counted since
  its last commit. In every reachable state of writers, counting thread and failing commits, the raw
  tables and the aggregated counts account for the same records, and every ping of every traffic client
  of a service is in the statistics with the outcome its list entry asked for, pending, or under way.
  Without a further record every run is bounded and can stop only when quiet. A quiet pipeline is
  drained exactly when every protocol counted was committed; whatever the interleaving, the last
  record counted drains it exactly if the interval had passed, provided no commit and no insert fails.
* **Round robin.** After any number of rounds the trace of a client's pings visits every destination
  equally often up to one, with the exact count given; no round repeats one, and any ceil(n/r) rounds
  in a row visit all. The ping threads of a round queue their records in any order.
* **Servers.** No running process is ever outside the registry in runs that respect the start
  discipline, and the discipline is exact. Starting is complete and idempotent up to processes still
  shutting down; after any run of either controller, the processes that a start brings up are those the
  known rules ask for. Stopping and at once starting again a live server in namespace mode
  does not bring it back: the entry of the process being terminated blocks the start. The exact
  condition under which a server serves again is proved for both modes, with a run that shows it.

## Layout

| module | content |
|---|---|
| `WorkProtocol`, `WorkManager` | threads, queue, mailboxes as a transition system; the work manager object |
| `TrafficElements` | rules, servers, clients, and what a row of lists means (a set and a last-wins map) |
| `ConnectedState`, `TrafficApp` | the connected-state processor, the service's requests, their laws |
| `RuleCompiler`, `Deployment` | rules to records, pushes to a fleet, runs of the controller |
| `HostLists`, `InterfaceLists` | the client lists stored after any run of either controller, entry by entry |
| `ParallelPushes` | the pushes of a call under the parallel work protocol |
| `TrafficRecords`, `Network`, `BasicController` | the basic controller as an object pushing to service objects |
| `DataCenterDeployment`, `DataCenterController` | the data-center controller, as runs and as an object |
| `RecordCounting`, `CountingThread` | counters and what they conserve; the counting thread and its handler object |
| `Repository`, `RecordPipeline`, `Recorder` | window queries; the pipeline of all threads; a writer's turn as an object |
| `ReportedCounts`, `PipelineProgress` | what is reported of the records emitted; bounded runs, quiet and drained states |
| `TrafficClient`, `EndToEnd` | pings, rounds, fairness; from rules and stored lists to the statistics |
| `ServerLifecycle`, `ServerOperations`, `ServerManagers`, `ServerAgent` | processes, registries, agent operations |
| `Serving` | from the rules of a run to the processes that serve them |
| `Topology` | mesh and neighbour-window generators |

## Modelling choices

* A job is what calling it does: return a value or raise. A remote push may be lost before it takes
  effect, or take effect and lose its answer. A database commit happens as a whole or not at all.
  Clock readings, the network's behaviour and which commits fail are parameters of the methods; only the
  order in which threads move and dictionaries are walked is left open inside them.
* The duplicate check of `add_client` never rejects: it looks a three-tuple up in a list of five-tuples.
  The model appends unconditionally, so client lists carry repeated keys. `Listing` is a row as stored,
  up to the order of its servers; `Config` is what the row means if the last entry of a key wins, which
  is how a later merge reads it. Deployment theorems speak of the latter unless they say "list".
* The lists of servers written by an update come out of a Python set, in no particular order; the
  model leaves the order open.
* `unregister_traffic` of the basic controller first adds its rules to the accumulated records, so a
  later register call deploys them again; the convergence theorem ranges over the rules of all calls,
  and `UnregisteredRulesReturn` states the consequence.
* `all(resp)` counts an exception object among the results as true. The push functions turn every
  exception into False, and success means delivery because they do; `ParallelPushes` states it so.
* A namespace manager files servers under its namespace, but `stop_all_servers`, and `stop_server` for
  a dead process, remove under "localhost". The model keeps this.
* The how-to document speaks of ten destinations per host; the code takes up to five on either side,
  which is what is modelled.

## Model

| member | source | states |
|---|---|---|
| WorkProtocol.InitInv | AXON/axon/client/utils.py:181-192 | queueing all jobs before any thread starts establishes the protocol invariant, for every job list and worker count |
| WorkProtocol.NextKeepsInv | AXON/axon/client/utils.py:290-336 | every atomic action of every thread keeps: FIFO suffix with sentinels behind all jobs, each taken job held once or executed once, mailbox contents, unfinished count = queue + in flight, sentinels taken = retired workers |
| WorkProtocol.StepLemma | AXON/axon/client/utils.py:290-360 | each action uses up exactly one unit of the remaining work, so there is no livelock |
| WorkProtocol.Progress | AXON/axon/client/utils.py:290-360 | with a worker, some thread can move until the caller has read the last mailbox: no deadlock |
| WorkProtocol.AllTakenOnceJoined | AXON/axon/client/utils.py:334-360 | when the join returns every job has been executed and every worker has exited, so none touches the queue that is then deleted |
| WorkProtocol.MailboxReady | AXON/axon/client/utils.py:200-206 | reading the mailboxes after the join never blocks |
| WorkProtocol.ScheduleKeepsInv | AXON/axon/client/utils.py:290-360 | the invariant and the exact step count hold after every schedule |
| WorkProtocol.FinishedMeans | AXON/axon/client/utils.py:200-210 | at the end: results of the sequential map, execution order a permutation of the jobs, queue empty |
| WorkProtocol.StuckIffFinished | AXON/axon/client/utils.py:290-360 | no thread can move exactly when the caller is finished |
| WorkProtocol.ParallelWorkIsSequentialMap | AXON/axon/client/utils.py:224-229 | for every job list, count and interleaving: runs are bounded, stop exactly at that bound, and yield the sequential map with raised exceptions as values, each job once |
| WorkProtocol.DoReturnsIff | AXON/axon/client/utils.py:181-192 | `Do` can return exactly when there are no jobs or the requested count is absent or positive |
| WorkManager.ParallelWork.constructor | AXON/axon/client/utils.py:181-192 | the constructor's loop queues the jobs in order, one mailbox each |
| WorkManager.ParallelWork.Run | AXON/axon/client/utils.py:280-284 | queues one job with a fresh mailbox and touches nothing else |
| WorkManager.ParallelWork.Turn | AXON/axon/client/utils.py:290-307 | one worker action on the shared fields is the transition of the protocol |
| WorkManager.ParallelWork.Start | AXON/axon/client/utils.py:265-276 | starts the threads one by one while those started already run |
| WorkManager.ParallelWork.StopThreads | AXON/axon/client/utils.py:322-336 | queues one sentinel per worker while the workers run |
| WorkManager.ParallelWork.Join | AXON/axon/client/utils.py:354-360 | waiting for the unfinished count terminates |
| WorkManager.ParallelWork.Get | AXON/axon/client/utils.py:200-210 | stop, then the mailboxes in submission order: the sequential map |
| WorkManager.Do | AXON/axon/client/utils.py:224-229 | results equal the sequential map whatever the scheduler did; every job executed once |
| TrafficElements.LastWinsIsLastEntry | AXON/axon/traffic/connected_state.py:182-189 | the policy a client list assigns to a key is that of the last entry with the key |
| TrafficElements.MeaningConcat | AXON/axon/traffic/connected_state.py:168-193 | the meaning of concatenated lists is the merge of their meanings |
| ConnectedState.FirstOccurrencesOrdered | AXON/axon/traffic/connected_state.py:182-193 | first-occurrence order characterised: same keys, by increasing first position |
| ConnectedState.ConnectedStateProcessor.UpdateServers | AXON/axon/traffic/connected_state.py:168-176 | a listing without repetition of exactly the union or difference |
| ConnectedState.DictMeans | AXON/axon/traffic/connected_state.py:182-193 | the dictionary built from a list has one entry per key, where the key occurs first, with the policy written last |
| ConnectedState.DictUnchangedIff | AXON/axon/traffic/connected_state.py:182-193 | a list comes out of the dictionary as it went in exactly if its keys are unique |
| ConnectedState.ConnectedStateProcessor.UpdateClients | AXON/axon/traffic/connected_state.py:178-193 | unique keys in order of first occurrence with last-written policies, or the named keys removed whatever their policy |
| ConnectedState.ConnectedStateProcessor.CreateOrUpdateConnectedState | AXON/axon/traffic/connected_state.py:195-214 | stores the raw lists in a missing row, the union and the dictionary's values in an existing one; touches no other row |
| ConnectedState.RecordedRead | AXON/axon/traffic/connected_state.py:195-214 | under the last-wins reading both branches merge the configuration into the row |
| ConnectedState.ConnectedStateProcessor.DeleteConnectedState | AXON/axon/traffic/connected_state.py:251-261 | removes servers and client keys from an existing row, whose list goes through the dictionary; creates and deletes none |
| ConnectedState.ErasedRead | AXON/axon/traffic/connected_state.py:251-261 | under the reading this removes the servers and keys and nothing else |
| TrafficApp.TrafficApp.RegisterTraffic | AXON/axon/apps/traffic.py:67-75 | the loop over configurations is the fold of the single registrations |
| TrafficApp.TrafficApp.UnregisterTraffic | AXON/axon/apps/traffic.py:77-84 | the loop over configurations is the fold of the single removals |
| TrafficApp.BatchingIff | AXON/axon/traffic/connected_state.py:195-214 | splitting a configuration into requests stores what one request stores exactly if the row existed, no client key repeats, or there is one request |
| TrafficApp.BatchingIsConcatenation | AXON/axon/traffic/connected_state.py:195-214 | under the last-wins reading no split can be told from one request |
| TrafficApp.RegisterIdempotentIff | AXON/axon/traffic/connected_state.py:195-214 | registering the same again changes nothing exactly if the row existed before or no client key repeats |
| TrafficApp.SecondRequestChanges | AXON/axon/traffic/connected_state.py:195-214 | a new row with two policies for one key, changed by the same request once more |
| TrafficApp.SplitRequestChanges | AXON/axon/traffic/connected_state.py:195-214 | two policies for one key in one request and in two: different lists |
| TrafficApp.UnregisterAbsorbsRegister | AXON/axon/traffic/connected_state.py:195-261 | register then unregister stores what unregister alone stores if the row existed, and leaves an empty row if not |
| TrafficApp.UnregisterUndoesIff | AXON/axon/traffic/connected_state.py:195-261 | register then unregister restores the store exactly if the row existed, had no repeated key, and shared no server and no client key |
| RuleCompiler.CompileConcat | AXON/axon/client/basic_traffic_controller.py:104-115 | compiling in several calls is compiling the concatenated rules |
| RuleCompiler.CompiledRecord | AXON/axon/client/basic_traffic_controller.py:104-115 | a record exists exactly for the endpoints mentioned; its servers are the protocol and port of each rule addressed to it, once each; its clients are its outgoing rules in order, each with the rule's protocol, port, destination, connected flag and action |
| RuleCompiler.OutgoingPolicy | AXON/axon/client/basic_traffic_controller.py:104-115 | a client key has a policy exactly if that is the connected flag and action of the last rule of the endpoint with these key fields |
| RuleCompiler.CompileRuleMeaning | AXON/axon/client/basic_traffic_controller.py:104-115 | compiling one rule denotes deploying that rule |
| RuleCompiler.CompileMeaning | AXON/axon/client/basic_traffic_controller.py:104-115 | compiled records denote the rule-by-rule deployment, from any records at hand |
| RuleCompiler.CompileGrows | AXON/axon/client/basic_traffic_controller.py:104-115 | accumulated records never lose a server or client key |
| Deployment.PushAllListings | AXON/axon/client/basic_traffic_controller.py:124-142 | what a broadcast stores at a host depends on the host's own push only |
| Deployment.PushOrderIrrelevant | AXON/axon/client/basic_traffic_controller.py:117-132 | any two delivery orders of the same pushes leave the same fleet |
| Deployment.RunConsistent | AXON/axon/client/basic_traffic_controller.py:104-142 | after any calls with any pushes lost, each host has at most its own row, covered by the controller's record, and the records are the compilation of all rules |
| Deployment.RegisterConverges | AXON/axon/client/basic_traffic_controller.py:124-132 | after any such history one complete register call leaves at every endpoint what reads as the rule-by-rule deployment of all rules |
| Deployment.DeployedRow | AXON/axon/client/basic_traffic_controller.py:104-132 | in the rules' own fields: a server is listed exactly if a rule addresses it; under the last-wins reading a client key has exactly the connected flag and action of the last matching rule |
| Deployment.UnregisterEmpties | AXON/axon/client/basic_traffic_controller.py:134-142 | a complete unregister call leaves every row empty and creates none |
| Deployment.UnregisteredRulesReturn | AXON/axon/client/basic_traffic_controller.py:134-135 | every rule of an unregister call is deployed again, server and client, by the next complete register call |
| Deployment.CompleteCallCloses | AXON/axon/client/basic_traffic_controller.py:104-142 | after a complete call every deployed client has its server deployed at its destination |
| Deployment.RowAfterRun | AXON/axon/client/basic_traffic_controller.py:124-142 | after any run, any pushes lost, a host's row reads as the deployment of all rules up to the last call that reached it, or empty if that was an unregister call |
| Deployment.RowClients | AXON/axon/client/basic_traffic_controller.py:104-142 | after any run a host pings exactly what its known rules send it to |
| Deployment.RowServers | AXON/axon/client/basic_traffic_controller.py:104-142 | after any run a host is configured with exactly the servers its known rules address to it |
| Deployment.ClosedIff | AXON/axon/client/basic_traffic_controller.py:124-142 | after any run the fleet is closed exactly if each rule known to its source has an equal server among the rules its destination knows |
| Deployment.FirstRegisterClosedIff | AXON/axon/client/basic_traffic_controller.py:124-132 | for a first register call: closed exactly if no reached source has an unreached destination |
| Deployment.LostServerNotClosed | AXON/axon/client/basic_traffic_controller.py:124-132 | one rule whose push to the destination is lost: a run that is not closed |
| HostLists.ListAfterRun | AXON/axon/traffic/connected_state.py:195-261 | after any run a host stores exactly its known outgoing rules in order if one register call reached it, else one entry per key with the last policy; a row exists exactly if one ever did |
| HostLists.StoredEntries | AXON/axon/traffic/connected_state.py:195-261 | that list entry by entry: each entry stands where the first rule with its key stands and carries the protocol, port, destination, connected flag and action of the last |
| HostLists.AllCurrentIff | AXON/axon/traffic/agents.py:246-257 | after any run every stored entry carries the last matching rule's policy exactly if not just one register call reached the host or no known rule overrides another |
| HostLists.CompleteCallCurrentIff | AXON/axon/client/basic_traffic_controller.py:124-132 | after a complete register call: exactly if the host had a row before or no rule overrides another |
| HostLists.OverriddenRuleKept | AXON/axon/traffic/connected_state.py:195-214 | a first call that allows and then drops the same traffic: both entries are stored |
| ParallelPushes.PushesUnderAnySchedule | AXON/axon/client/basic_traffic_controller.py:117-132 | whatever the interleaving and the losses, the pushes made are one call of the deployment runs delivering exactly what got through, with the fleet of a sequential loop; all(resp) holds exactly if every push returned True, and then the call is complete |
| ParallelPushes.ExceptionPasses | AXON/axon/client/basic_traffic_controller.py:117-122 | an exception object among the results passes for a success, False does not |
| ParallelPushes.SuccessConverges | AXON/axon/client/basic_traffic_controller.py:117-132 | a register call taken for a success leaves the deployment of all rules at every endpoint and the fleet closed |
| Network.Request | AXON/axon/client/datacenter_traffic_controller.py:22-29 | a request changes the addressed host's store and no other |
| BasicController.BasicTrafficController.CreateRules | AXON/axon/client/basic_traffic_controller.py:104-115 | the loop over rules on shared record objects is the compilation |
| BasicController.BasicTrafficController.Push | AXON/axon/client/basic_traffic_controller.py:16-33 | the push takes effect exactly if the host is there and the request gets through, and answers exactly if the answer gets back as well |
| BasicController.BasicTrafficController.PushRecords | AXON/axon/client/basic_traffic_controller.py:124-142 | pushes every record once, in any order, and delivers exactly those the network lets through; success means exactly that all were answered |
| BasicController.BasicTrafficController.RegisterTraffic | AXON/axon/client/basic_traffic_controller.py:124-132 | is the register step of the deployment runs that delivers exactly what gets through; it reports success exactly if every push was answered, and is complete then |
| BasicController.BasicTrafficController.UnregisterTraffic | AXON/axon/client/basic_traffic_controller.py:134-142 | the same for an unregister step |
| DataCenterDeployment.RegisteredListAt | AXON/axon/client/datacenter_traffic_controller.py:167-179 | a host list with repeated entries has the effect of one entry per interface |
| DataCenterDeployment.RunConsistent | AXON/axon/client/datacenter_traffic_controller.py:152-179 | after any calls with any requests lost or cut short, hosts hold only rows of interfaces they carry, covered by the records |
| DataCenterDeployment.RegisterConverges | AXON/axon/client/datacenter_traffic_controller.py:167-179 | one complete call puts every interface's row, with the contents of the rule-by-rule deployment, on the host the workload map names for it, or on the interface's own address if it names none, and nowhere else |
| DataCenterDeployment.RefinesBasic | AXON/axon/client/datacenter_traffic_controller.py:148-179 | for the same rules each endpoint's row has the contents the basic controller deploys on the mapped host, and does not exist on any other |
| DataCenterDeployment.SharedHost | AXON/axon/client/datacenter_traffic_controller.py:169-172 | two interfaces mapped to one host: both rows there, none under their own addresses |
| DataCenterDeployment.RowAfterRun | AXON/axon/client/datacenter_traffic_controller.py:152-179 | after any run, requests lost or cut short, a row reads as the deployment of all rules up to the last call in which its host took the interface |
| InterfaceLists.ListAfterRun | AXON/axon/client/datacenter_traffic_controller.py:152-179 | the stored client list of an interface after any run: raw while one list entry ever named it, one entry per key afterwards |
| InterfaceLists.StoredEntries | AXON/axon/client/datacenter_traffic_controller.py:152-179 | that list entry by entry, in the rules' own fields |
| InterfaceLists.AllCurrentIff | AXON/axon/traffic/agents.py:295-316 | after any run every entry carries the last matching rule's policy exactly if more than one list entry was taken or no rule overrides another |
| DataCenterController.ClientFirst | AXON/axon/client/datacenter_traffic_controller.py:160-165 | adding the client before the server compiles to the same records |
| DataCenterController.DataCenterTrafficController.CreateRules | AXON/axon/client/datacenter_traffic_controller.py:152-165 | the loop over rules compiles them without detaching any earlier list entry from its record |
| DataCenterController.DataCenterTrafficController.AppendRecords | AXON/axon/client/datacenter_traffic_controller.py:169-172 | every record is appended once more to the list of its host |
| DataCenterController.DataCenterTrafficController.PayloadIsCurrent | AXON/axon/client/traffic_controller.py:58-60 | all entries of a list, however old, carry the present lists of their records |
| DataCenterController.DataCenterTrafficController.RegisterTraffic | AXON/axon/client/datacenter_traffic_controller.py:167-179 | is the data-center step for the rules given, every record listed once more and every host taking what comes through; it reports success exactly if every host took its whole list |
| RecordCounting.TalliedConserves | AXON/axon/db/record_count.py:40-46 | counting a record keeps the law: flushed plus pending is what was processed, pending is what was processed since the last commit |
| RecordCounting.CommittedConserves | AXON/axon/db/record_count.py:60-70 | committing one protocol's counts keeps the law, leaves none of it pending and no other protocol touched |
| RecordCounting.FlushedLatencyConserves | AXON/axon/db/record_count.py:72-78 | committing the latency sum keeps the conservation law |
| RecordCounting.LatencyConserved | AXON/axon/db/record_count.py:40-78 | flushed plus pending latency is the latency of all successes, with one sample per success |
| RecordCounting.CountIs | AXON/axon/db/record_count.py:40-46 | the count of a protocol and outcome is the number of records processed with them |
| RecordCounting.SuccessLatenciesAre | AXON/axon/db/record_count.py:41-44 | the latencies conserved are those of the successful records, in order |
| RecordCounting.SumsAre | AXON/axon/db/sql/repository.py:122-165 | every sum over rows, latencies and batches adds each of them once |
| CountingThread.CountNextKeepsInv | AXON/axon/db/record_count.py:40-78 | receiving, committing, failing: every step keeps the law, writes no empty row, and leaves nothing pending of the protocols a flush has visited |
| CountingThread.SqlRecordCountHandler.CreateRecordCount | AXON/axon/db/record_count.py:60-70 | writes one row per protocol with counts pending, with those counts and the stamp, in any order; raises exactly if one of these commits fails, at the first of them |
| CountingThread.SqlRecordCountHandler.CreateLatencyStats | AXON/axon/db/record_count.py:72-78 | commits the sum with its samples and resets both, or leaves everything as it was |
| CountingThread.SqlRecordCountHandler.UpdateCounters | AXON/axon/db/record_count.py:40-51 | is a run of the counting thread that starts with the record; before 30 seconds have passed nothing is flushed; otherwise a row for each protocol pending, then the latency row, stamped; it raises exactly if a commit fails, and then leaves the timer alone; a flush without an exception leaves nothing pending |
| RecordPipeline.UpdateLifts | AXON/axon/db/record_count.py:31-38 | such a run for the head of the queue is a run of the pipeline that touches that queue and the thread only |
| RecordPipeline.NextKeepsInv | AXON/axon/db/recorder.py:85-92 | every step of writers and counting thread keeps the balance of raw rows and counted records |
| RecordPipeline.RawEqualsCounted | AXON/axon/db/recorder.py:85-92 | per protocol and outcome: rows + inserts under way + failed inserts = flushed + pending + queued |
| ReportedCounts.EveryRunBalances | AXON/axon/db/db_pool_manager.py:11-22 | after every run of any number of writers: flushed + pending = counted, pending = counted since the last commit, the raw balance, the latency law |
| ReportedCounts.EmittedCounts | AXON/axon/db/sql/repository.py:157-165 | in every reachable state the count query, what is pending and what is under way make up the records emitted |
| ReportedCounts.QuietCounts | AXON/axon/db/sql/repository.py:122-165 | with queues and writers empty: count query + pending = emitted = raw table + failed inserts, per outcome |
| ReportedCounts.DrainedRunAgrees | AXON/axon/db/sql/repository.py:122-165 | once drained, aggregated counts equal raw row counts on covering windows and the records emitted |
| PipelineProgress.WorkGoesOn | AXON/axon/db/recorder.py:81-92 | while a record or a flush is under way some thread can advance it without a failure: the bounded counting queue never blocks for good |
| PipelineProgress.QuietIffOnlyEmits | AXON/axon/db/db_pool_manager.py:11-22 | with a writer, the threads can go no further by themselves exactly in the quiet states |
| PipelineProgress.EveryRunQuietens | AXON/axon/db/db_pool_manager.py:11-22 | every run without a further record, failures included, is bounded and stops only in a quiet state |
| PipelineProgress.QuietWaits | AXON/axon/db/record_count.py:31-38 | a quiet pipeline moves only by a further record: pending counts wait for it |
| PipelineProgress.QuietDrainedIff | AXON/axon/db/record_count.py:47-51 | a quiet state without failed inserts is drained exactly if no record was counted after its protocol's last commit |
| PipelineProgress.LastRecordDecides | AXON/axon/db/record_count.py:40-51 | after a record is counted every run that counts no other, without failing commits, and ends quiet without a failed insert is drained exactly if the interval had passed |
| PipelineProgress.SomeRunDrains | AXON/axon/db/record_count.py:40-51 | from a quiet state such a run exists |
| PipelineProgress.CountsCanStayPending | AXON/axon/db/record_count.py:47-51 | one record counted before the interval: a reachable state that is quiet and not drained |
| Recorder.SqlDbRecorder.CreateRecord | AXON/axon/db/sql/repository.py:83-93 | the outcome selects the table; a failed commit changes neither |
| Recorder.SqlDbRecorder.RecordTraffic | AXON/axon/db/recorder.py:85-92 | with all other threads moving before the wait for room and between put and insert: the writer's own steps are exactly queueing and inserting, and the record ends in its table or among the failed |
| Recorder.SqlDbRecorder.AwaitRoom | AXON/axon/db/recorder.py:81-86 | the counting thread, flushing and failing as it may, makes room on the bounded queue once no other writer takes the place |
| Recorder.SqlDbRecorder.ProcessNext | AXON/axon/db/db_pool_manager.py:11-22 | one turn of the writer loop among all other threads is a run of the pipeline with the writer's own steps take, queue, insert, or none when there is nothing to take; it keeps the accounting |
| Repository.RequestCountIs | AXON/axon/db/sql/repository.py:157-165 | for every window the count is the sum over exactly the rows stamped from start to end, over all protocols |
| Repository.RecordCountIs | AXON/axon/db/sql/repository.py:122-125 | the raw count is the number of records stamped from start to end |
| Repository.LatencyIs | AXON/axon/db/sql/repository.py:143-151 | latency sum and samples of a window are those of exactly the rows stamped from start to end |
| Repository.OutsideIsZero | AXON/axon/db/sql/repository.py:122-165 | with every stamp outside the window all queries report 0 |
| Repository.EdgesAreCounted | AXON/axon/db/sql/repository.py:122-165 | rows stamped exactly at start or end are reported |
| Repository.WindowSplits | AXON/axon/db/sql/repository.py:157-165 | counts over [s,e] are those over [s,m] plus [m,e] minus [m,m] |
| Repository.CoveringWindow | AXON/axon/db/sql/repository.py:157-165 | a covering window counts all rows of all protocols |
| Repository.AverageIsMean | AXON/axon/db/sql/repository.py:143-151 | the average latency is the mean of the latencies behind the rows stamped from start to end, 0 if there are none |
| Repository.AverageBetween | AXON/axon/db/sql/repository.py:143-151 | with a sample in the window it lies between any bounds of the latencies behind those rows |
| TrafficClient.Ping | AXON/axon/traffic/clients/clients.py:101-174 | through retry and exception path one record with the client's own fields: without connection a success exactly if no try got through, with connection exactly if (a try got through) equals (the action is ALLOW), per protocol |
| TrafficClient.TrafficClient.SendTraffic | AXON/axon/traffic/clients/clients.py:299-328 | one round pings min(rate, n) destinations, none twice, and adds one record for each behind those of earlier rounds |
| TrafficClient.TrafficClient.JoinAll | AXON/axon/traffic/clients/clients.py:323-328 | the ping threads of a round end in any order; after the join every started ping has its record queued |
| TrafficClient.TrafficClient.Run | AXON/axon/traffic/clients/clients.py:330-333 | after k rounds: k times min(rate, n) pings, as many records, those of the pings made; position i pinged floor((k*r + n - 1 - i) / n) times, no repeat in a round, all positions in any ceil(n/r) rounds in a row |
| TrafficClient.RecordsFollowTrace | AXON/axon/traffic/clients/clients.py:299-328 | the records of a cyclic trace of pings are those of the destinations at the positions pinged |
| TrafficClient.OccurrencesFormula | AXON/axon/traffic/clients/clients.py:295-304 | position i occurs floor((t + n - 1 - i) / n) times in a trace of t pings |
| TrafficClient.RoundRobinIsFair | AXON/axon/traffic/clients/clients.py:295-304 | any two positions occur equally often in a trace, up to one |
| TrafficClient.NoRepeatInRound | AXON/axon/traffic/clients/clients.py:299-304 | the part of the trace a round made has no repetition |
| TrafficClient.EveryDestinationInTime | AXON/axon/traffic/clients/clients.py:295-304 | the part of the trace made by any ceil(n/r) rounds in a row has every position |
| EndToEnd.EveryPingIsCounted | AXON/axon/apps/traffic.py:29-45 | for any number of clients of a service and at any moment of any run: reported + pending + under way are exactly the pings that ended as their list entries want, and likewise the others |
| EndToEnd.OneSourceMore | AXON/axon/apps/traffic.py:29-45 | each client adds its own records and pings |
| EndToEnd.QuietPingsReported | AXON/axon/db/sql/repository.py:122-165 | once quiet, counts up to the pending ones and raw tables up to failed inserts both report exactly those pings |
| EndToEnd.HostPingsJudged | AXON/axon/traffic/agents.py:246-257 | a host's client pings the stored list; unless a single register call brought overridden rules, each ping is a success exactly if it ended as the last matching rule's connected flag and action want |
| EndToEnd.InterfacePingsJudged | AXON/axon/traffic/agents.py:295-316 | the same for the client of an interface under the data-center controller |
| EndToEnd.OverriddenRuleMisreported | AXON/axon/traffic/clients/clients.py:297-304 | after a first call that allows and then drops the same traffic, of any two pings in a row treated alike one is reported as wrong |
| ServerLifecycle.OneServerPerSlot | AXON/axon/traffic/manager.py:171-191 | at most one running server per manager, port and protocol |
| ServerLifecycle.StartKeepsNoLeakIff | AXON/axon/traffic/agents.py:44-60 | a start loses a process exactly when a manager not yet in the map is abandoned by an unknown protocol after a first successful start |
| ServerLifecycle.StopKeepsNoLeak | AXON/axon/traffic/manager.py:193-214 | stopping one server, alive or dead, in either kind of manager loses no process |
| ServerLifecycle.StopAllKeepsNoLeak | AXON/axon/traffic/manager.py:216-236 | stopping all servers loses no process, although entries of namespace managers stay |
| ServerLifecycle.DeathKeepsNoLeak | AXON/axon/traffic/workers.py:108-112 | a death at any time keeps the registry property |
| ServerOperations.StartAllSlots | AXON/axon/traffic/agents.py:129-157 | a start call fills exactly the demanded slots that were vacant or dead |
| ServerOperations.StartServesIff | AXON/axon/traffic/agents.py:129-157 | a demanded server serves afterwards exactly if its slot was not held by a process still shutting down |
| ServerOperations.StartAgainIsNoOp | AXON/axon/traffic/agents.py:129-157 | a second start call changes nothing, interfaces listed twice included |
| ServerOperations.StopAllStops | AXON/axon/traffic/agents.py:159-167 | afterwards exactly the formerly running processes of the managers named are terminating, all others as before |
| ServerOperations.RootStopLeavesNothing | AXON/axon/traffic/agents.py:62-68 | the root agent's stop leaves no process running |
| ServerOperations.RestartServesIff | AXON/axon/traffic/manager.py:216-284 | stop-all then start serves a server exactly in root mode, in a namespace called "localhost", or if the slot had no live process |
| ServerOperations.RootRestartServes | AXON/axon/traffic/manager.py:216-236 | start, stop, start in root mode: a run that ends with a new process serving |
| ServerOperations.ServingIff | AXON/axon/traffic/manager.py:171-191 | a slot serves exactly if a process of its manager runs for its port and protocol |
| ServerOperations.RestartBlocked | AXON/axon/traffic/manager.py:216-284 | start, stop, start in a namespace: a run that ends with the slot still held by the process shutting down |
| ServerOperations.AbandonedProcess | AXON/axon/traffic/agents.py:44-60 | a first start with a known and an unknown protocol: a running process no manager in the map knows |
| ServerOperations.StartedSlots | AXON/axon/traffic/manager.py:263-284 | starting a list of servers in one manager fills exactly the vacant or dead slots named in it |
| ServerOperations.StopServerEffect | AXON/axon/traffic/manager.py:286-310 | a live server is told to stop and its slot vacated; a dead one's slot is vacated in a root manager only; other slots show what they showed |
| ServerOperations.NoProcessLostIff | AXON/axon/traffic/manager.py:171-310 | in any run of starts, stops and deaths no running process is ever unregistered exactly if every start respects the discipline |
| ServerManagers.ServerManager.StartServer | AXON/axon/traffic/manager.py:263-284 | starts one process unless a live one is filed; raises exactly for a protocol other than TCP, UDP and HTTP |
| ServerManagers.ServerManager.StopAllServers | AXON/axon/traffic/manager.py:216-236 | the walk over the registry terminates every live server and empties the file of a root manager only |
| ServerAgent.VethContainsEth | AXON/axon/traffic/agents.py:139-141 | an interface name containing "veth" contains "eth", so it is listed twice |
| ServerAgent.ContainsPart | AXON/axon/traffic/agents.py:139-141 | the interface test holds wherever the part occurs in the name |
| ServerAgent.ContainsMeans | AXON/axon/traffic/agents.py:139-141 | and nowhere else |
| ServerAgent.PlanMembers | AXON/axon/traffic/agents.py:136-153 | a call demands exactly the configured servers of valid addresses on interfaces whose name contains "eth" |
| ServerAgent.ConfiguredServersServeIff | AXON/axon/traffic/agents.py:129-157 | from configuration to processes: such a server serves exactly if its slot was not shutting down |
| ServerAgent.ServerAgent.StartServersAt | AXON/axon/traffic/agents.py:151-157 | a new manager enters the map only if no start raised; a known one keeps what it started |
| ServerAgent.ServerAgent.StartServers | AXON/axon/traffic/agents.py:129-157 | the nested loops are the start of the plan; supported protocols never raise; an exception leaves the start of the plan up to the demand that raised |
| ServerAgent.ServerAgent.StopServers | AXON/axon/traffic/agents.py:159-167 | stops the managers of the namespaces given, each once at least and no other |
| Serving.StartedFromRules | AXON/axon/traffic/agents.py:129-157 | after any run of the controller, a start from a host's store fills exactly the free slots some rule known to the host asks for |
| Serving.KnownServerServesIff | AXON/axon/traffic/agents.py:129-157 | a server some known rule asks for serves at its host exactly if its slot was not still shutting down |
| Serving.RuleServesIff | AXON/axon/traffic/agents.py:129-157 | after a complete register call and the start, the server of every rule of every call serves at its destination, up to slots still shutting down |
| Serving.InterfacesStartedFromRules | AXON/axon/traffic/agents.py:129-157 | after any run of the data-center controller, a start from a host's store fills exactly the free slots the rules behind each interface's row ask for |
| Serving.InterfaceRuleServesIff | AXON/axon/traffic/agents.py:129-157 | after a complete data-center call and the start on the destination's host, the server of every rule serves at its interface, up to slots still shutting down |
| Topology.CreateMeshPingTopo | AXON/axon/client/utils.py:39-56 | the nested loops build the mesh |
| Topology.MeshIsComplete | AXON/axon/client/utils.py:39-56 | for n distinct hosts exactly one TCP and one UDP rule per ordered pair, 2n(n-1) in all |
| Topology.MeshDeployment | AXON/axon/client/basic_traffic_controller.py:104-115 | compiled, every host has exactly 2 servers and the 2(n-1) client keys towards the others |
| Topology.CreateRulesWithGivenHosts | AXON/axon/client/test.py:44-60 | the loop builds the neighbour windows |
| Topology.NeighboursIff | AXON/axon/client/test.py:54-56 | host j is in host i's window exactly if they are one to five positions apart, a symmetric relation |
| Topology.WindowMembers | AXON/axon/client/test.py:25-60 | a rule is generated exactly if it joins two hosts one to five positions apart over one of two ports and two protocols |
| Topology.WindowDistinct | AXON/axon/client/test.py:44-60 | no rule is generated twice |
| Topology.WindowRuleCount | AXON/axon/client/test.py:44-60 | 8 rules per unordered pair at distance 1 to min(5, n-1): 40n - 120 for more than five hosts, 4n(n-1) for fewer |

## Left out

- `abort=True` of the work manager: the worker raises before `task_done`, because `AbortException` is built without a required argument.
- `run` racing with `stop`, restarting a work manager, `raise_exceptions=True`, the `_exceptions` log, and jobs without a function: the model follows the discipline of `ParallelWork.Do` with callable jobs.
- Falsy endpoint strings, which the stores read as "every row", and deleting whole rows through `delete_traffic_rules`.
- Calls that omit the server or the client list; the service always passes both.
- The Wavefront and Elasticsearch handlers, the stream and log recorders, and resource records: delivery to a foreign client library.
- A writer whose queue put raises, and a row lost between the counting queue and a crash of the process.
- Concurrent remote calls into one manager or one service; operations on one agent run one at a time.
- Entering a namespace or an invalid source address failing during a start; the exception modelled is the unknown protocol.
- `AxonNameSpaceClientAgent.stop_client`, which compares a namespace with an interface list, and the client managers, which repeat the server managers with one slot.
- Configuration files, RPC wrappers, sockets, iperf, tcpdump, scapy, installers, logging and argument parsing.
- Recorder.SqlDbRecorder.AwaitRoom: other writers may go on taking the freed places; any finite contention comes before the wait that is modelled, and fairness among writers is not.
- A traffic client that keeps running while its host's list changes; a client pings the list it was started with.
