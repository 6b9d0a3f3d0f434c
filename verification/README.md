# FineVision runtime: a verified model

FineVision runs dataflow graphs. A node publishes messages into bounded pipes; a listener thread per input port takes
them out and calls the next node, inline or through a worker pool. This project models the parts of the runtime whose
correctness rests on invariants over many steps and threads, and proves those invariants for every input and every
interleaving.

| file | what it models |
|---|---|
| `SpscQueue.dfy` | the ring buffer, one call at a time |
| `SpscInterleaving.dfy` | the ring at the grain of single loads and stores, with the overflow branch of `Pipe::push`, and what holds whatever the threads do |
| `SpscSafety.dfy` | exactly which of its runs keep the ring a FIFO that drops its oldest message |
| `SpscOverflowRace.dfy` | runs that do not, and runs that lose a push, for every capacity |
| `Pipe.dfy`, `PipeFactory.dfy`, `PipeNames.dfy` | the drop-oldest pipe, the registry of pipes, and when their ids differ |
| `PipeWakeup.dfy` | the mutex and condition-variable protocol of `pop_wait`, `push`, `stop` and `notify` |
| `ThreadManager.dfy` | the worker pool with per-step affinity |
| `MessageLine.dfy`, `MessagePath.dfy`, `EndToEnd.dfy` | pipes, listeners, the inline-to-pool latch and the pool together, end to end |
| `StopThreads.dfy` | `stop_threads` against live listeners and the pipe factory |
| `Topology.dfy`, `NodeLib.dfy`, `Studio.dfy` | graph loading, Kahn's algorithm, start, pause, clear and remove |
| `AoiAnalyzer.dfy` | the Age-of-Information window and its one-pass integration |
| `Text.dfy`, `ParameterServer.dfy`, `VectorText.dfy` | parameter texts, lookup, and int vectors as text |
| `ActionSession.dfy`, `ActionManager.dfy`, `ActionThreads.dfy` | action sessions and the manager's critical sections |
| `ActionCompletion.dfy` | whose session a completion ends |
| `ActionWorker.dfy` | the sleep of the action manager's worker, against goals and the destructor |
| `ServiceManager.dfy`, `ServiceThreads.dfy` | service calls, promises, the worker and the destructor |
| `Wrappers.dfy`, `Sequences.dfy` | a value that may be missing; reversing and concatenation |

Two forms appear side by side. What one thread does between two points where others may interfere is written as a class
with methods, each proved against a function on the abstract state. What several threads do together is a state machine:
`Step` maps a state and an event to the next state, an event that is not possible changes nothing, and `Exec` runs any
sequence of events, so a lemma about `Exec` speaks of every interleaving. Atomics are sequentially consistent.

## What the code does not keep

The proofs follow the code. Where a promise one would expect fails, the model has the run that breaks it and the
condition under which it holds.

- `Pipe::push` pops from the producer side when the ring is full, so `tail_` has two writers. Whatever they do, the ring
  reads as the published messages from some position on (`AlwaysSound`), but it may be the wrong position. Call a store
  stale if it changes `tail_` although the message it took is not the oldest in the ring; an overtaken store that comes
  out where `tail_` stands is not. Throughout a run the ring holds exactly the messages that nobody took if and only if
  no store is stale (`StaleStoreIff` for one step, `SafeRunIff` for runs); runs that never overflow have none
  (`PrefixRun`). A stale store moves `tail_` forward past a message that nobody took, or back to messages that were
  taken (`StaleStoreEffect`). Both happen: two overflow pushes inside one consumer pop make a full ring read as empty,
  for every positive capacity (`BacklogLost`); two pops inside one overflow push deliver a message twice, for every
  capacity above one (`DuplicateDelivered`).
- A push loses its message in two cases and in no other (`PushLostIff`). If the consumer empties the ring between the
  producer's failed push and its overflow pop, that pop finds nothing and the second push is not tried, although the
  ring is empty (`PushLostOnEmptyRing`). If a stale store of the consumer undoes the overflow pop, the second push finds
  the ring full (`PushLostOnFullRing`); that takes a stale store (`SafePushLostIff`).
- `Pipe::notify` clears `started_` and nothing sets it again, so a stopped pipe object stays dead (`StopThreads.StoppedForGood`).
- A pool queue takes a task while it has at most 2048, so the bound on its length is 2049 (`WorkerConserves`).
- The manager's action session does not guard `succeed` and `abort`: a finished session can commit another result, and it
  does exactly when one of them is called after it finished (`ToldTwiceIff`).
- Two goals created before the first is dispatched get mixed up, and the completion of the first session then removes the
  second while its goal runs (`MixedUp`, `StaleCompletion`). Throughout a run every due completion is due once, and to
  the active session of its action, if and only if no session is created while a completion is due for its action, and
  no result is committed except to an active session that owes no completion (`DueToActiveIff` for one step,
  `CompletionsAreOwnIff` for runs). Callers that wait for an action to have no active session and finish a session once
  keep to that (`CompletionIsOwn`).
- The destructor of the service manager stores `stop_` and notifies without the mutex. The notify is missed exactly when
  the worker has read the flag and is on its way to sleep (`StopIsSeen`, `StopIsMissed`); `MissedStopRun` is a run that
  ends with the worker asleep and the destructor waiting for it.
- The destructor of the action manager does the same, but its worker reads the queue first and the flag last, so only a
  notify between that read and the sleep is missed (`ActionWorker.StopIsSeen`, `StopIsMissed`, `MissedStopRun`).
- Pipe ids are concatenated without escaping. Two connections share a pipe if and only if their texts can be split in
  another place, at a slash inside a node id or an arrow inside a connection (`SameIdIff`, `SharedPipe`).
- `get_impl` compares suffixes of keys, not of dotted segments: `a.c` is answered by a parameter `bc` if no `a.c` exists
  (`AnswerInsideSegment`). A lookup by suffix is answered by whole segments if and only if a parameter that ends in them
  comes, in map order, before every parameter that has the suffix inside a segment (`AnswersWholeSegmentsIff`).

## Model

| member | source | states |
|---|---|---|
| SpscQueue.LiveAppend | sdk/fins/spsc_queue.hpp:26-37 | writing the slot at head and moving head on appends one item to what the ring holds, unless it is full |
| SpscQueue.LiveRemove | sdk/fins/spsc_queue.hpp:39-49 | moving tail on removes exactly the oldest item |
| SpscQueue.FullIffAtCapacity | sdk/fins/spsc_queue.hpp:30-32 | the full test is true exactly when Capacity items are held |
| SpscQueue.SPSCQueue.Push | sdk/fins/spsc_queue.hpp:26-37 | appends in place, or refuses and changes nothing exactly when Capacity items are held |
| SpscQueue.SPSCQueue.Pop | sdk/fins/spsc_queue.hpp:39-49 | gives and removes the oldest item, or refuses exactly when the ring is empty |
| SpscQueue.SPSCQueue.Empty | sdk/fins/spsc_queue.hpp:51 | true exactly when no item is held |
| SpscQueue.SPSCQueue.ReadAvailable | sdk/fins/spsc_queue.hpp:53-59 | the number of items held, head behind tail included |
| SpscInterleaving.StepSound | sdk/fins/spsc_queue.hpp:26-49 | every atomic action of either thread, overtaken stores included, keeps head_ at the number of published messages, the last lap of them in their slots, and what was delivered equal to what was pushed |
| SpscInterleaving.RingContents | sdk/fins/spsc_queue.hpp:26-49 | the cyclic slots from tail to head hold exactly the published messages from one position on |
| SpscInterleaving.AlwaysSound | sdk/fins/spsc_queue.hpp:26-49 | so in every reachable state, without any condition; the ring never reads as more than Capacity messages, and never as one that was not pushed |
| SpscSafety.StepKeeps | sdk/fins/spsc_queue.hpp:26-49 | every action but a stale store keeps the ring holding exactly the messages not yet taken, and deliveries in push order |
| SpscSafety.StaleStoreIff | sdk/fins/spsc_queue.hpp:39-49 | a step ends that if and only if it is a stale store: one that changes tail_ although the message it took is not the oldest in the ring |
| SpscSafety.SafeRunIff | sdk/fins/spsc_queue.hpp:26-49 | throughout a run, overflow pops included, the ring holds exactly the untaken messages if and only if no store of the run is stale |
| SpscSafety.StaleStoreEffect | sdk/fins/spsc_queue.hpp:39-49 | a stale store moves tail_ forward, and the oldest message is gone without having been taken, or back, and only taken messages are offered again |
| SpscSafety.RingMeaning | sdk/fins/spsc_queue.hpp:26-49 | occupancy never exceeds Capacity, and the slot being written is not the slot being read unless tail_ has moved on twice since the reader loaded it |
| SpscSafety.StepRefinesFifo | sdk/fins/pipe.hpp:40-45 | each action refines a FIFO: head_'s store appends, a store that changes tail_ removes the oldest message, which is the one it took, and nothing else matters |
| SpscSafety.VerdictsAreFifo | sdk/fins/pipe.hpp:40-45 | the full and empty tests are those of the FIFO, those of the overflow branch included |
| SpscSafety.PushLostIff | sdk/fins/pipe.hpp:40-45 | in every reachable state a push ends without its message in the ring if and only if its overflow pop found nothing to pop or its second try finds the ring full |
| SpscSafety.SafePushLostIff | sdk/fins/pipe.hpp:40-45 | as long as no store was stale only the first happens, and then the ring is empty |
| SpscSafety.PrefixRun | sdk/fins/spsc_queue.hpp:26-49 | without overflow no store is stale and the popped items are a prefix of the pushed ones, the ring holding the rest |
| SpscOverflowRace.FillRing | sdk/fins/pipe.hpp:40-45 | a ring holding any messages, up to its capacity, is reachable |
| SpscOverflowRace.BacklogLost | sdk/fins/pipe.hpp:40-45 | for every positive capacity some run makes a full ring read as empty and all its messages vanish |
| SpscOverflowRace.DuplicateDelivered | sdk/fins/pipe.hpp:40-45 | for every capacity above one and any messages some run delivers the second message twice |
| SpscOverflowRace.PushLostOnEmptyRing | sdk/fins/pipe.hpp:40-45 | a push lost because its overflow pop finds the ring empty, for every positive capacity |
| SpscOverflowRace.PushLostOnFullRing | sdk/fins/pipe.hpp:40-45 | a push lost because its second try finds the ring full, for every positive capacity |
| Pipe.PushKeepsWindow | sdk/fins/pipe.hpp:35-51 | a push keeps the window property |
| Pipe.RunHoldsWindow | sdk/fins/pipe.hpp:35-93 | after any calls the ring holds the most recent min(k, 32) of the k messages accepted after the last one delivered or drained, in order |
| Pipe.RunConserves | sdk/fins/pipe.hpp:35-93 | accepted = delivered + overwritten + drained + queued after any calls |
| Pipe.Pipe.constructor | sdk/fins/pipe.hpp:31 | a new pipe is started and empty |
| Pipe.Pipe.Enqueue | sdk/fins/pipe.hpp:40-45 | push, and on a full ring pop and push again, appends and drops at most the oldest |
| Pipe.Pipe.Push | sdk/fins/pipe.hpp:35-51 | a stopped pipe ignores the message; else it is queued last and a full ring loses its oldest |
| Pipe.Pipe.TryPop | sdk/fins/pipe.hpp:71 | delivers the oldest message, or nothing exactly when the pipe is empty |
| Pipe.Pipe.Stop | sdk/fins/pipe.hpp:76-80 | clears started_ and nothing else |
| Pipe.Pipe.Notify | sdk/fins/pipe.hpp:82-86 | clears started_ and nothing else |
| Pipe.Pipe.Reset | sdk/fins/pipe.hpp:88-93 | drains every queued message and sets started_ |
| Pipe.Pipe.IsEmpty | sdk/fins/pipe.hpp:95 | true exactly when no message is queued |
| PipeFactory.PipeFactory.GetPipe | sdk/fins/pipe.hpp:123-132 | the registered pipe of the id, or a fresh started one that is registered; two ids never share a pipe |
| PipeFactory.PipeFactory.RemovePipe | sdk/fins/pipe.hpp:143-149 | stops and removes exactly the pipe of the id |
| PipeFactory.PipeFactory.StopAll | sdk/fins/pipe.hpp:159-164 | stops every registered pipe and keeps what is in them |
| PipeFactory.PipeFactory.Clear | sdk/fins/pipe.hpp:151-157 | every pipe that was registered is stopped, and none is registered |
| PipeNames.SameIdIff | sdk/fins/nodelib.hpp:404 | two connections get one pipe id if and only if they are the same or the id can be split in another place |
| PipeNames.PlainIdsAreOwn | sdk/fins/nodelib.hpp:404 | without an arrow in a connection and a slash in a node id every connection has an id of its own |
| PipeNames.SharedPipe | sdk/fins/nodelib.hpp:404 | two different connections with one id |
| PipeWakeup.StepKeeps | sdk/fins/pipe.hpp:35-86 | every load, store, lock, wait and notify of one consumer and any number of producers and stoppers keeps the sleep invariant |
| PipeWakeup.NoLostWakeup | sdk/fins/pipe.hpp:35-86 | in every reachable state a consumer asleep on a non-empty or stopped pipe is owed a notify by someone past their push or store |
| PipeWakeup.QuietSleep | sdk/fins/pipe.hpp:53-86 | once all other calls returned the consumer sleeps only on an empty, running pipe |
| PipeWakeup.EmptyHandedMeansStopped | sdk/fins/pipe.hpp:53-69 | pop_wait returns nothing only from a stopped pipe |
| PipeWakeup.SomeoneCanRun | sdk/fins/pipe.hpp:35-86 | while the consumer sleeps on work some call that is under way is not blocked |
| PipeWakeup.OwedNotifyArrives | sdk/fins/pipe.hpp:35-86 | the consumer is awake after at most the actions those calls have left |
| PipeWakeup.PushQueues | sdk/fins/pipe.hpp:35-51 | a push on a running pipe queues its message last, over the oldest of 32, and goes on to notify exactly if the consumer waits |
| PipeWakeup.StopWakes | sdk/fins/pipe.hpp:76-86 | stop clears the flag and wakes the consumer |
| PipeWakeup.PopWaitBegins | sdk/fins/pipe.hpp:53-69 | pop_wait takes the oldest message at once, or goes to sleep on an empty running pipe |
| PipeWakeup.PopWaitEnds | sdk/fins/pipe.hpp:53-69 | woken to work it takes the oldest message if there is one, and returns |
| ThreadManager.StepKeeps | sdk/fins/thread_manager.hpp:155-264 | every step of enqueuers, workers and shutdown keeps each worker's order and affinity |
| ThreadManager.RunKeeps | sdk/fins/thread_manager.hpp:136-264 | so does every interleaving |
| ThreadManager.StepsAreSerialized | sdk/fins/thread_manager.hpp:205-264 | at most one task of a step is in flight in the pool, and its executed, in-flight and queued tasks are its accepted ones in order |
| ThreadManager.RunConserves | sdk/fins/thread_manager.hpp:155-188 | each enqueue past the stop check is exactly one of pending, accepted or dropped, and the counter is the number of drops |
| ThreadManager.WorkerConserves | sdk/fins/thread_manager.hpp:155-264 | accepted = executed + in flight + queued, and no queue exceeds 2049 |
| ThreadManager.NoLostWakeup | sdk/fins/thread_manager.hpp:136-264 | no worker sleeps on a queued task or through a shutdown without a notify on its way |
| ThreadManager.StopFreezes | sdk/fins/thread_manager.hpp:158-159 | once stop is set no enqueue passes the stop check |
| ThreadManager.EnqueueEnds | sdk/fins/thread_manager.hpp:155-188 | a call past the stop check drops its task exactly if the manager is paused or the worker has more than 2048 queued; else the task is last with the worker of its step, who is awake |
| ThreadManager.StoppedEnqueue | sdk/fins/thread_manager.hpp:158-159 | a call after the stop leaves no trace |
| ThreadManager.ShutdownDrains | sdk/fins/thread_manager.hpp:136-153 | after shutdown every worker is gone, having executed all it had accepted when it left; what is left queued passed the stop check before stop was set |
| ThreadManager.WorkerThread.Enqueue | sdk/fins/thread_manager.hpp:173-185 | queues the task last, or drops it exactly when more than 2048 are queued |
| ThreadManager.WorkerThread.TakeNext | sdk/fins/thread_manager.hpp:232-246 | takes the oldest task, else leaves if told to stop, else sleeps |
| MessagePath.StepMoves | sdk/fins/step.hpp:191-356 | every event leaves a pipe's line alone, loses one message of it, or takes in the next push, and keeps the latch facts |
| MessagePath.PushEffect | sdk/fins/pipe.hpp:35-51 | a push on a running pipe queues its message last and loses exactly the oldest of 32, on a stopped pipe it loses its own, and it touches nothing else |
| MessagePath.HandedInline | sdk/fins/step.hpp:277-354 | without the latch three steps of the listener hand the oldest message of the visited pipe to on_input |
| MessagePath.HandedToPool | sdk/fins/step.hpp:277-354 | with it they queue the message last with the worker its step is bound to |
| MessagePath.HandedByWorker | sdk/fins/thread_manager.hpp:229-264 | two steps of that worker hand its oldest message to on_input |
| MessageLine.MovesKeepOrder | sdk/fins/step.hpp:191-356 | those moves keep the line in push order, and every push on exactly one of the line and the lost |
| EndToEnd.RunKeeps | sdk/fins/step.hpp:191-356 | every interleaving does |
| EndToEnd.EndToEndOrder | sdk/fins/step.hpp:277-354 | what on_input was handed is a duplicate-free subsequence of the pushes in push order, across the switch from inline to pool; every push is exactly one of handled, on its way and lost; LostIff says when it is lost |
| EndToEnd.LosslessPrefix | sdk/fins/step.hpp:277-354 | if nothing of a pipe was lost, on_input was handed exactly its first pushes, in order |
| EndToEnd.LostIff | sdk/fins/step.hpp:191-356 | in every run a message is lost if and only if it was pushed on a stopped pipe, was the oldest of 32 when another was pushed, or was refused by enqueue or found more than 2048 tasks queued |
| StopThreads.StepKeeps | sdk/fins/step.hpp:208-356 | every step of stopper, listeners, producers and factory keeps the stop invariant |
| StopThreads.HeldPipesStayInReach | sdk/fins/step.hpp:258-267 | every pipe a live listener holds is stopped, or the factory's current one for an id of its port |
| StopThreads.StoppedMeansGone | sdk/fins/step.hpp:219-239 | while joining no listener is in a pass over a running pipe; once stop_threads returned no listener is left |
| StopThreads.OwnStepsDescend | sdk/fins/step.hpp:219-356 | with the flag set every step of the stopper or a listener lowers a rank bounded by one pass over the held pipes |
| StopThreads.StopIsBounded | sdk/fins/step.hpp:219-239 | in every run the stopper and the listeners take at most that many steps before stop_threads returns, whatever the rest does |
| StopThreads.ListenerCanGoOn | sdk/fins/step.hpp:275-303 | after the notifies a listener is blocked only while another looks its pipes up |
| StopThreads.NeverStuck | sdk/fins/step.hpp:219-239 | until stop_threads returns, it or a listener can take a step |
| StopThreads.StoppedForGood | sdk/fins/pipe.hpp:76-93 | a stopped pipe stays stopped |
| Topology.LeftOverExact | sdk/fins/nodelib.hpp:418-432 | the nodes Kahn's loop leaves out are exactly those reachable from a cycle, self-loops and parallel edges included |
| Topology.CycleWarningExact | sdk/fins/nodelib.hpp:434-437 | nodes are left over exactly when the graph has a cycle |
| Topology.FallbackGivesInitializationOrder | sdk/fins/nodelib.hpp:434-444 | peeled nodes followed by the left-over ones list every node once, and an edge goes forward unless both ends lie behind a cycle |
| Topology.AcyclicOrder | sdk/fins/nodelib.hpp:418-448 | without a cycle every edge goes forward |
| NodeLib.SplitConn | sdk/fins/nodelib.hpp:610-615 | splits at the first slash, and fails exactly without one |
| NodeLib.PortId | sdk/fins/nodelib.hpp:566-582 | the id of the first port of that name, -1 if there is none |
| NodeLib.FindPortIdx | sdk/fins/nodelib.hpp:566-582 | the search loop finds that port, and -1 for an unknown class |
| NodeLib.CreatedIdsDistinct | sdk/fins/nodelib.hpp:300-318 | if the first pass succeeds the ids are unique and their classes can be created |
| NodeLib.GraphEdgesWithin | sdk/fins/nodelib.hpp:378-413 | every edge of an accepted graph joins two declared nodes |
| NodeLib.GraphEdgesExact | sdk/fins/nodelib.hpp:378-413 | an accepted graph has each edge exactly as often as an input is connected that way, counted on the declarations |
| NodeLib.EdgeOfCases | sdk/fins/nodelib.hpp:385-410 | one connection by cases, in the order of the checks: unknown source, input port, output port, port numbers out of range, port types that differ, else its edge |
| NodeLib.CreateErrorIsFirst | sdk/fins/nodelib.hpp:300-318 | the first pass fails for the first node whose class is unknown or whose id is taken, and for no other |
| NodeLib.ConnectInput | sdk/fins/nodelib.hpp:385-410 | gives the edge of one connection, or the error of the first check that fails |
| NodeLib.ConnectNode | sdk/fins/nodelib.hpp:378-413 | adds the edges of a node's inputs to adj and in_degree, up to the first error |
| NodeLib.BuildGraph | sdk/fins/nodelib.hpp:378-413 | adj and in_degree are those of the connections, or the first error is thrown |
| NodeLib.Release | sdk/fins/nodelib.hpp:427-431 | visiting the successors lowers their in_degree by the number of edges and queues those it brings to zero |
| NodeLib.Peel | sdk/fins/nodelib.hpp:418-432 | the loop ends, with sources before targets and nothing left to peel |
| NodeLib.AppendLeftOver | sdk/fins/nodelib.hpp:435-444 | appends the unvisited nodes in declaration order |
| NodeLib.CreateNodes | sdk/fins/nodelib.hpp:300-373 | collects ids, zero in-degrees and classes, or throws for the first node that cannot be created |
| NodeLib.OrderNodes | sdk/fins/nodelib.hpp:418-448 | the order is an initialization order and the cycle flag is exact |
| NodeLib.LoadJson | sdk/fins/nodelib.hpp:283-448 | throws the first error of the first pass, else of the second; else, for the connections of the declared nodes, a source comes before its target unless both lie behind a cycle, and the cycle flag is exact |
| Studio.Step.Run | sdk/fins/step.hpp:67-75 | starts a step that has a node and is not running |
| Studio.Step.Pause | sdk/fins/step.hpp:77-86 | stops a running step |
| Studio.Studio.AddStep | sdk/fins/studio.hpp:34-48 | refuses an id that is taken, else adds one idle step |
| Studio.Studio.Run | sdk/fins/studio.hpp:181-200 | starts the startable steps once each, producers first if there is a topology order that fits, in map order without one |
| Studio.Studio.Pause | sdk/fins/studio.hpp:204-227 | stops the running steps once each, consumers first if there is a topology order that fits, in map order without one |
| Studio.Studio.RemoveStep | sdk/fins/studio.hpp:50-61 | stops the step if it runs and takes it out of the steps and of the order, which keeps the rest as it was; an unknown id changes nothing |
| Studio.Studio.Clear | sdk/fins/studio.hpp:237-284 | stops what pause stops, in the same order; then no step and no order is left |
| Studio.StartAllLogs | sdk/fins/studio.hpp:186-193 | starting in order starts exactly the startable steps of the order, once each, in order |
| Studio.StopAllLogs | sdk/fins/studio.hpp:209-218 | stopping from the back stops exactly the running steps of the order, once each, in reverse |
| Studio.RunStartsProducersFirst | sdk/fins/studio.hpp:181-200 | with an order that fits, run starts every step exactly once and producers before consumers |
| Studio.PauseStopsConsumersFirst | sdk/fins/studio.hpp:204-227 | pause, and clear, stop every running step once and consumers before producers |
| Studio.RemoveKeepsFit | sdk/fins/studio.hpp:50-61 | remove_step keeps the order equal as a set to the step ids, and its edges forward |
| Studio.OpsKeepFit | sdk/fins/studio.hpp:50-227 | so does every sequence of run, pause and remove_step |
| Studio.LoadedFits | sdk/fins/nodelib.hpp:415-448 | the order of a loaded acyclic graph fits its steps |
| Studio.LoadDataflow | sdk/fins/nodelib.hpp:283-448 | what ran is stopped as clear stops it and nothing is started; a load that succeeds leaves one idle step per node, an exact cycle warning and, without one, an order that fits |
| AoiAnalyzer.ScanIsWindow | sdk/fins/analysis/aoi_analyzer.hpp:73-94 | the backward scan with its early break, reversed, is the window of the last min(n, 100) sends in log order |
| AoiAnalyzer.IntegrationExact | sdk/fins/analysis/aoi_analyzer.hpp:96-148 | the one pass gives the tick-by-tick area, violation time and peak |
| AoiAnalyzer.MetricsConsistent | sdk/fins/analysis/aoi_analyzer.hpp:150-161 | violation <= duration <= window and average <= peak |
| AoiAnalyzer.MetricsDescribe | sdk/fins/analysis/aoi_analyzer.hpp:67-161 | count, delay sum, area, violation, peak and duration are those of the window, each by its own definition on the samples |
| AoiAnalyzer.AoIAnalyzer.RecordSend | sdk/fins/analysis/aoi_analyzer.hpp:52-61 | overwrites the oldest slot, so the ring holds the last 100 sends |
| AoiAnalyzer.AoIAnalyzer.SlotHolds | sdk/fins/analysis/aoi_analyzer.hpp:77-80 | the modular index finds the i-th newest send |
| AoiAnalyzer.AoIAnalyzer.CollectSamples | sdk/fins/analysis/aoi_analyzer.hpp:77-88 | the loop over the ring is the backward scan of the send log |
| AoiAnalyzer.AoIAnalyzer.Integrate | sdk/fins/analysis/aoi_analyzer.hpp:96-152 | for samples in time order the loop gives the sum of arrival minus generation, the tick-by-tick figures, and the duration, at least 1 |
| AoiAnalyzer.AoIAnalyzer.GetMetrics | sdk/fins/analysis/aoi_analyzer.hpp:67-166 | for a clock that never goes back, the count, delay sum, area, violation, peak and duration of the window; the record flag is cleared only if it had samples |
| ParameterServer.ParameterServer.CountIndent | sdk/fins/agent/parameter_server.cpp:91-94 | counts the leading spaces |
| ParameterServer.ParameterServer.PopScopes | sdk/fins/agent/parameter_server.cpp:103-105 | leaves the scopes with a smaller indent |
| ParameterServer.ParameterServer.JoinKeys | sdk/fins/agent/parameter_server.cpp:108-113 | the dotted path of the scope stack |
| ParameterServer.ParameterServer.ReadKey | sdk/fins/agent/parameter_server.cpp:103-125 | a key line replaces the deeper scopes and writes, opens an array, or neither |
| ParameterServer.ParameterServer.ReadLine | sdk/fins/agent/parameter_server.cpp:69-126 | one line, comments, blank lines and array lines included |
| ParameterServer.ParameterServer.LoadString | sdk/fins/agent/parameter_server.cpp:54-130 | the loop is the line-by-line loader the lemmas below speak of |
| ParameterServer.ParameterServer.Get | sdk/fins/agent/parameter_server.hpp:54-84 | the exact key wins; else the first key in map order with the suffix after the first dot; else nothing |
| ParameterServer.ResolvesOne | sdk/fins/agent/parameter_server.hpp:54-84 | what is found depends on the parameters and the key alone |
| ParameterServer.ResolvesSome | sdk/fins/agent/parameter_server.hpp:54-84 | and there is always an answer, a parameter or nothing |
| ParameterServer.SubKeyIs | sdk/fins/agent/parameter_server.hpp:60-62 | the suffix looked for starts after the first dot of the key |
| ParameterServer.AnswerInsideSegment | sdk/fins/agent/parameter_server.hpp:64-80 | a lookup can be answered by a parameter that has the suffix inside a segment |
| ParameterServer.AnswersWholeSegmentsIff | sdk/fins/agent/parameter_server.hpp:64-80 | it is answered by whole segments if and only if such a parameter precedes, in map order, all that have the suffix inside a segment |
| ParameterServer.PopChain | sdk/fins/agent/parameter_server.cpp:103-106 | popping to an indent leads to the nearest earlier key line with a smaller one |
| ParameterServer.ScopeStackIsChain | sdk/fins/agent/parameter_server.cpp:91-106 | after any lines the stack is the chain of nearest previous key lines with smaller indent, indents strictly increasing |
| ParameterServer.KeyLineLoads | sdk/fins/agent/parameter_server.cpp:91-101 | a rendered key line is read back as its indent, key and value |
| ParameterServer.CommentIsIgnored | sdk/fins/agent/parameter_server.cpp:71-74 | whatever follows the first # of a line is not read |
| ParameterServer.LineIsIgnored | sdk/fins/agent/parameter_server.cpp:75-97 | blank lines, and outside an array lines without a colon, change nothing |
| ParameterServer.LoadTree | sdk/fins/agent/parameter_server.cpp:69-126 | loading a rendered tree under its parents writes its flattening |
| ParameterServer.TreesRoundTrip | sdk/fins/agent/parameter_server.cpp:54-130 | loading the rendering of any key/value trees over safe characters writes exactly their dotted paths, last write winning, other parameters kept |
| VectorText.IntRoundTrip | sdk/fins/agent/parameter_server.hpp:120-128 | stoi reads back every printed int |
| VectorText.StoiMinus | sdk/fins/agent/parameter_server.hpp:229-256 | stoi reads a negative number after white space, whatever follows its digits, and refuses it without digits or out of range |
| VectorText.StoiUnsigned | sdk/fins/agent/parameter_server.hpp:229-256 | so it does for a number without a sign |
| VectorText.StoiRefuses | sdk/fins/agent/parameter_server.hpp:229-256 | and it refuses any text that starts with something else |
| VectorText.ToString | sdk/fins/type/string_convert.hpp:19-31 | prints the bracketed, comma-separated text |
| VectorText.ConvertInts | sdk/fins/agent/parameter_server.hpp:229-256 | reads the pieces between the first brackets, skipping blank ones and those stoi refuses |
| VectorText.VectorRoundTrip | sdk/fins/type/string_convert.hpp:19-31 | printing and reading back gives every int vector, the empty one included |
| VectorText.BrokenVectorLoads | sdk/fins/agent/parameter_server.cpp:80-122 | a printed vector broken over lines at any of its spaces is loaded as it was printed |
| VectorText.VectorFileRoundTrip | sdk/fins/agent/parameter_server.cpp:80-122 | print, break, load, look up and read back gives the same vector and leaves other parameters alone |
| ActionSession.StageGrows | sdk/fins/action/action_manager.cpp:80-145 | a session call never goes back from canceling or finished |
| ActionSession.FirstResultOnly | sdk/fins/action/action_session.hpp:59-113 | Canceled is committed at most once and never after another result; in the session template only Aborted can follow a result |
| ActionSession.ToldTwiceIff | sdk/fins/action/action_manager.cpp:94-126 | a commander is told more than one result exactly when a finished session is aborted or, in the manager's session, succeeded again |
| ActionSession.ResultsCanBeOverwritten | sdk/fins/action/action_manager.cpp:94-126 | runs that do |
| ActionSession.ActionSession.Cancel | sdk/fins/action/action_session.hpp:59-64 | only an open session becomes canceling |
| ActionSession.ActionSession.Execute | sdk/fins/action/action_session.hpp:80-85 | only an accepted session becomes executing |
| ActionSession.ActionSession.Succeed | sdk/fins/action/action_session.hpp:87-95 | only an executing session succeeds and reports it |
| ActionSession.ActionSession.Abort | sdk/fins/action/action_session.hpp:97-103 | any session is aborted and reports it |
| ActionSession.ActionSession.SetCanceled | sdk/fins/action/action_session.hpp:105-113 | only a canceling session is canceled and reports it |
| ActionSession.TypeErasedActionSession.Cancel | sdk/fins/action/action_manager.cpp:80-85 | only an open session becomes canceling |
| ActionSession.TypeErasedActionSession.Succeed | sdk/fins/action/action_manager.cpp:94-109 | any session commits success, whose callbacks are then due |
| ActionSession.TypeErasedActionSession.Abort | sdk/fins/action/action_manager.cpp:111-126 | any session commits the abort, whose callbacks are then due |
| ActionSession.TypeErasedActionSession.SetCanceled | sdk/fins/action/action_manager.cpp:128-145 | only a canceling session commits Canceled |
| ActionManager.ActionManager.RegisterActor | sdk/fins/action/action_manager.cpp:38-43 | clears the executing mark and changes nothing else |
| ActionManager.ActionManager.CreateActionSession | sdk/fins/action/action_manager.cpp:45-191 | refuses in the order of its checks and then changes nothing; else replaces the active session and queues the goal last |
| ActionManager.ActionManager.CancelAction | sdk/fins/action/action_manager.cpp:193-200 | cancels the active session of that action and no other |
| ActionManager.ActionManager.OnComplete | sdk/fins/action/action_manager.cpp:168-176 | clears the mark and removes whatever session is active for the action |
| ActionManager.ActionManager.WorkerTurn | sdk/fins/action/action_manager.cpp:213-262 | hands the oldest goal to the session now active and marks the actor, or drops it |
| ActionThreads.StepKeeps | sdk/fins/action/action_manager.cpp:68-262 | every critical section and callback keeps the manager's invariant |
| ActionThreads.MarkedHasSession | sdk/fins/action/action_manager.cpp:213-262 | in every reachable state an actor marked executing has an active session for its action |
| ActionThreads.MarkKeepsSession | sdk/fins/action/action_manager.cpp:54-57 | while the mark stays set that session is not replaced |
| ActionThreads.SessionsGoForward | sdk/fins/action/action_manager.cpp:68-166 | over any run a session only goes from open to canceling to finished, and its committed results are only added to |
| ActionThreads.CanceledOnce | sdk/fins/action/action_manager.cpp:128-145 | Canceled is committed and told at most once, never after another result, and every committed result is told or still owed |
| ActionThreads.GoalsInOrder | sdk/fins/action/action_manager.cpp:183-229 | the worker takes the queued goals in order |
| ActionThreads.GoalIsGiven | sdk/fins/action/action_manager.cpp:45-262 | a goal created, queued, taken and dispatched is given to the session made for it, and marks its actor |
| ActionThreads.ResultIsTold | sdk/fins/action/action_manager.cpp:80-176 | a committed result is told to the commander, and its completion frees the actor and ends the session |
| ActionCompletion.DueToActiveIff | sdk/fins/action/action_manager.cpp:168-176 | a step keeps every due completion due, once, to the active session if and only if it creates no session while one is due for the action and commits only to an active session that owes none |
| ActionCompletion.CompletionsAreOwnIff | sdk/fins/action/action_manager.cpp:45-191 | throughout a run every due completion is due once, and to the active session of its action, if and only if every event of the run is so guarded |
| ActionCompletion.CompletionIsOwn | sdk/fins/action/action_manager.cpp:168-176 | callers that wait for no active session before creating one and finish a session once are so guarded |
| ActionCompletion.MixedUp | sdk/fins/action/action_manager.cpp:45-191 | two goals created before a dispatch: the first is given to the second session |
| ActionCompletion.StaleCompletion | sdk/fins/action/action_manager.cpp:168-176 | a completion can remove another, unfinished session whose goal runs, and free its actor |
| ActionWorker.NoGoalSleeps | sdk/fins/action/action_manager.cpp:183-229 | in every interleaving goals are taken in push order, never from an empty queue, and the worker sleeps only while none is queued |
| ActionWorker.GoalIsTaken | sdk/fins/action/action_manager.cpp:183-229 | a goal pushed to the sleeping worker is taken in the worker's next five steps |
| ActionWorker.StopIsSeen | sdk/fins/action/action_manager.cpp:22-28 | unless the destructor's notify falls between the worker's read of the flag and its sleep, the worker leaves after at most four of its own steps |
| ActionWorker.StopIsMissed | sdk/fins/action/action_manager.cpp:22-28 | if it does, the worker sleeps for good unless a goal is pushed or it wakes up by itself |
| ActionWorker.MissedStopRun | sdk/fins/action/action_manager.cpp:213-229 | a run to that point |
| ServiceManager.Promise.Resolve | sdk/fins/service/service_manager.cpp:44-119 | asks for a promise that is not resolved yet |
| ServiceManager.ServiceManager.CallService | sdk/fins/service/service_manager.cpp:44-60 | resolves at once if stopping, else queues the call last |
| ServiceManager.ServiceManager.WorkerTurn | sdk/fins/service/service_manager.cpp:62-119 | resolves the oldest call, and no other: not found iff its topic has no entry, mismatch iff the entry has another signature, else what the callback returned or threw |
| ServiceThreads.StepKeeps | sdk/fins/service/service_manager.cpp:44-119 | every step of callers, worker and destructor keeps the invariant |
| ServiceThreads.ExactlyOnce | sdk/fins/service/service_manager.cpp:44-119 | each promise is resolved at most once, and every call is exactly one of refused, resolved, held, queued |
| ServiceThreads.ResolvedInOrder | sdk/fins/service/service_manager.cpp:62-119 | calls are resolved in queue order, each with the outcome that an entry registered between the call and its resolution, and its callback, have it get; the worker never takes from an empty queue |
| ServiceThreads.NoCallSleeps | sdk/fins/service/service_manager.cpp:49-67 | a worker asleep while calls wait is owed a notify |
| ServiceThreads.AnsweredWithin | sdk/fins/service/service_manager.cpp:44-119 | without a stop a waiting call is resolved within a bounded number of worker steps and notifies |
| ServiceThreads.CallsAreNotStuck | sdk/fins/service/service_manager.cpp:62-119 | and until then there is such a step to take |
| ServiceThreads.StopIsSeen | sdk/fins/service/service_manager.cpp:25-32 | if the destructor's notify does not fall between the worker's read of the flag and its sleep, the worker never sleeps again and leaves after at most seven of its own steps |
| ServiceThreads.StopIsMissed | sdk/fins/service/service_manager.cpp:25-32 | if it does, the worker goes to sleep and only a late notify or a spurious wake-up gets it out |
| ServiceThreads.MissedStopRun | sdk/fins/service/service_manager.cpp:25-32 | a run on which it does, which ends with stop set, the notify gone and the worker asleep |

## Left out

- Weak memory: atomics are sequentially consistent; the code's acquire and release orders are not modelled.
- Several threads pushing into one ring: a step with several input ports, or one that mixes inline and pool calls, publishes from several threads (`sdk/fins/step.hpp:191-206`, `sdk/fins/step.hpp:214-216`). `PipeWakeup` has any number of producers, with atomic queue operations; the ring modules have one.
- The overflow branch of `Pipe::push` is atomic with respect to `pop` in `Pipe`, `PipeWakeup` and `MessagePath`; only `SpscInterleaving` splits it up, and `SpscSafety` says on which runs that makes no difference.
- MessagePath.StepMoves: takes the wiring as given, each pipe feeding one input port; that is what `load_json` builds when the pipe ids of its connections differ, which `PipeNames` says when they do.
- `head_` of the AoI ring is unbounded; its wrap-around after 2^64 sends, where the modulus 100 does not divide, is not modelled.
- Concurrent `record_send` and `get_metrics`, a torn record in particular.
- The floating-point divisions and unit conversions at the end of `get_metrics`; the area is kept doubled so that it is an integer.
- The occupancy measurement of the listener: the latch fires at any loop test.
- `Pipe::reset` while producers or the consumer run; nothing calls it.
- Resuming after a pause: a stopped pipe object stays stopped, so running again brings no messages on it; what `Studio::reset` and the fresh pipes made after it do is not modelled.
- Pool tasks that still run after `Step::pause`: `StoppedMeansGone` speaks of listeners only.
- Starting the pool while it shuts down, from another thread.
- Hot reload, `inject_node` and every change of a step's ports after loading.
- `ServiceManager` does not drain its queue when it stops; `AnsweredWithin` is for runs without a stop.
- A goal callback that finishes its session before it returns: it would take `map_mutex_` twice.
- `find_pipe`, `get_action_state` and `is_canceling`, which only read a map or a field.
- Goal arguments, feedback and the `std::any` casts.
- Studio.LoadDataflow: does not say which steps of its first pass a failed load leaves behind, because the model creates the steps after both passes have succeeded.
- Node parameters, topic remapping and `initialize` calls of a load.
- JSON parsing: the model starts from the list of nodes and their inputs in iteration order.
- Plugin loading, HTTP, telemetry, loggers, monitors, serial ports and network code.
- Vectors of other element types, and the scalar conversions other than int.
- `int` overflow of an indent, a port index or a counter.
