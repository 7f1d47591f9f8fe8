# A model of tf-common in Dafny

tf-common is the base library of Tungsten Fabric: a task scheduler with exclusion policies, containers, lifetime
management, TCP message streams and the configuration client. This project models the parts of it that are hard to get
right and proves what they are for. `dafny verify dfyconfig.toml` checks all of it.

Each component has a value-level model, functions from state to state over which whole runs are reasoned about, and,
where the source updates objects in place, a class with the source's loops whose methods are proved to compute those
functions or to have the stated effect on an abstract set, stream or map.

| component | files |
|---|---|
| Task scheduler (`base/task.cc`) | `TaskPolicy`, `TaskState`, `TaskInvariant`, `TaskSteps`, `TaskWalks`, `TaskOperations`, `TaskRuns`, `TaskFrames`, `TaskConservation`, `TaskMarks`, `TaskSelfExclusion`, `TaskQueues`, `TaskScheduler` |
| Patricia tree (`base/patricia.h`) | `RadixTree`, `RadixOrder`, `Patricia` |
| Lifetime manager (`base/lifetime.cc`, `base/dependency.h`) | `Lifetime`, `LifetimeSteps`, `LifetimeRuns`, `LifetimeCascade`, `LifetimeTrace`, `LifetimeDrain`, `LifetimeManager` |
| Work queue (`base/queue_task.h`) | `WorkQueue`, `WorkQueueDrain`, `WorkQueueTrace`, `WorkQueueSwitch` |
| TCP reader and writer (`io/tcp_session.cc`, `io/tcp_message_write.cc`) | `TcpFraming`, `TcpReader`, `TcpWriter` |
| Configuration cache (`config-client-mgr/config_cassandra_client.cc`) | `ColumnKeys`, `ConfigSync`, `ConfigRows`, `ConfigHistory`, `ConfigColumns`, `ConfigPartition` |
| Subset generator (`base/subset.h`) | `Subset` |
| Bit sets and allocators (`base/bitset.cc`, `base/label_block.cc`, `base/index_allocator.cc`, `base/index_map.h`) | `Word`, `BitSet`, `BitSetText`, `Allocators` |

Main results:

* Scheduler: for every configuration of rules, in every reachable state no two tasks related by a configured rule run at
  once, a task waits only because of a configured rule, nothing that waits is forgotten, and a started scheduler drains.
  Starts follow enqueue order within an instance and sequence numbers across entries. A task cancelled while it runs is
  not recycled, and a stopped scheduler holds back what it is given. A group whose policy names itself is the one
  exception to exclusion, and the exception is exact.
* Patricia tree: insertion, removal, lookup, longest prefix match and iteration refine a finite set of bit strings, with
  the threads kept in the right pointers.
* Lifetime manager: reference counts are outstanding events, each with one cause; references are where callers put them;
  actors are destroyed once, after all their dependents; on an acyclic graph the cascade terminates and destroys exactly
  the transitive dependents.
* Work queue: under every interleaving of single accesses there is one runner, no wake-up is lost and a bounded queue
  keeps its bound and refuses only what would break it; a disabled queue handles nothing; without new calls every
  interleaving is bounded and ends with every entry that was enqueued and not refused handled once, those of each thread
  in order.
* TCP streams: what is received does not depend on how the stream was cut; what is sent is what was accepted, in order,
  with one write at a time and one ready signal per blocking episode.
* Configuration cache: exactly when incremental pushes have the result of replaying the row, for every cache, consumer
  and row. It fails in three ways, each with its condition and concrete rows: the emptiness test takes one property for
  another whose name starts like it, a draft row makes the cache forget what the consumer has, and a row without type or
  name of an unknown object is cached without being pushed.
* Subset generator: all splits, each once, 2^(n-1)-1 in total.
* Bit sets: every operation on the blocks, down to the bit searches, matches its set operation; allocators are sound and
  complete.

Where code and comments disagree the model follows the code. `base/lifetime.h:44-46` says that Delete cascades at once;
in the code it cascades when the manager handles the first event of an actor. The policies of `base/task.h` are meant to
exclude tasks, but a policy that names its own group does not: the wildcard instance runs its whole queue after one
check. The list and map scan of the configuration cache compares all but the last character of a property name, so that
a property may be pushed again needlessly; that does no harm.

## Model

| member | source | states |
|---|---|---|
| TaskPolicy.ConfigureWellFormed | base/task.cc:553-577 | Whatever policies are set, the rules between groups and those between entries come out symmetric, and no rule relates two wildcard entries |
| TaskPolicy.ConfigureGroups | base/task.cc:553-565 | Two groups exclude each other if and only if some call of SetPolicy gave one of them a rule that names the other without an instance |
| TaskPolicy.ConfigureEntries | base/task.cc:566-576 | Two entries exclude each other if and only if some call gave the task id of one a rule that names the other with its instance, the one being the same instance or the wildcard of that task id |
| TaskPolicy.SetPolicyGroups | base/task.cc:560-565 | One call adds the group pairs of its rules, both ways round, and no others |
| TaskPolicy.SetPolicyEntries | base/task.cc:566-576 | One call adds the entry pairs of its rules, both ways round, and no others |
| TaskPolicy.AddRuleEntries | base/task.cc:566-576 | One rule relates the numbered instance and the wildcard of the task id to the entry it names, and no other entries |
| TaskPolicy.SetPolicyKeeps | base/task.cc:553-577 | Setting the policy of one more group keeps all rules symmetric |
| TaskPolicy.AddRuleKeeps | base/task.cc:560-576 | A single rule, between groups or between instances, keeps symmetry and relates a wildcard entry to numbered entries only |
| TaskPolicy.EntryRulesSymmetric | base/task.cc:1274-1286 | With the implicit rule of an instance the relation between entries stays symmetric; an entry excludes itself if and only if it is a numbered instance, and the stop entry has no rules |
| TaskState.FirstActiveGroup | base/task.cc:1113-1121 | Finds a running group of the policy if and only if there is one |
| TaskState.FirstActiveEntry | base/task.cc:1307-1316 | Finds a running entry of the policy if and only if there is one |
| TaskState.FirstGroupIsFirst | base/task.cc:1113-1121 | The group found is the first of the policy that runs |
| TaskState.FirstEntryIsFirst | base/task.cc:1307-1316 | The entry found is the first of the policy that runs |
| TaskState.BlockedBy | base/task.cc:1123-1137 | An entry is blocked if and only if some group or entry of its rules runs; the blocker it is given runs and is related to it by a rule, and it is an entry only if no group of its rules runs |
| TaskState.Least | base/task.cc:158-163 | The entry at which a walk begins has the smallest head sequence number of the queue |
| TaskState.Next | base/task.cc:1172-1172 | Where an iterator goes: the entry with the smallest head sequence number above the current one |
| TaskSteps.StartAll | base/task.cc:1399-1409 | The unchecked loop of a wildcard instance empties the wait queue and keeps exclusion between different groups and entries |
| TaskSteps.RunWaitQ | base/task.cc:1385-1410 | Starting the head of a numbered instance, or the whole queue of the wildcard, keeps the scheduler invariant; the source's assertions on run_task_ and run_count_ hold |
| TaskSteps.RunWaitQStarts | base/task.cc:1385-1410 | A runnable entry starts a non-empty prefix of its wait queue in order; what is left waits behind the entry itself |
| TaskSteps.RunDeferEntry | base/task.cc:1412-1432 | An entry taken out of its defer queue is in exactly one defer queue again or has an empty wait queue |
| TaskSteps.RunDeferEntryReleases | base/task.cc:1412-1432 | A released entry starts if it is runnable and otherwise waits for an owner that runs; no task appears or vanishes and no run count falls |
| TaskSteps.VisitKeepsCursor | base/task.cc:1170-1175 | Removing and reinserting an entry during a walk leaves every other iterator valid: its entry stays queued with the same key |
| TaskSteps.Walk | base/task.cc:1166-1178 | A walk over a queue into which entries are reinserted terminates and keeps the invariant |
| TaskSteps.RunDeferQ | base/task.cc:1435-1447 | The walk from the beginning of a queue terminates and keeps the invariant |
| TaskWalks.WalkBoth | base/task.cc:1476-1490 | The merged walk over the queues of a group and an entry terminates although both change under it |
| TaskWalks.RunCombinedDeferQ | base/task.cc:1466-1498 | The combined walk terminates and keeps the invariant |
| TaskWalks.WalkWakesInOrder | base/task.cc:1166-1178 | After a walk every waiting entry has an owner that runs; entries start in increasing order of their head sequence numbers |
| TaskWalks.RunDeferQWakesInOrder | base/task.cc:1435-1447 | The same for a walk that restarts a queue from its beginning while another queue is pending |
| TaskWalks.WalkBothWakesInOrder | base/task.cc:1466-1498 | The merged walk starts entries of both queues in one increasing order of head sequence numbers and leaves nothing asleep |
| TaskOperations.Enqueue | base/task.cc:587-642 | A new task joins the end of its entry's queue or, in a started scheduler, starts alone; every other task stays where it is and the invariant holds |
| TaskOperations.Place | base/task.cc:612-641 | In each of the four branches the task waits at the end of its queue or starts, and the invariant holds: it starts only if nothing it must wait for runs |
| TaskOperations.Cancel | base/task.cc:646-707 | A waiting task and no other leaves its queue, a running task and no other is marked, anything else fails; the three return codes tell which |
| TaskOperations.CancelWaiting | base/task.cc:659-699 | A cancelled head takes its entry out of the defer queue or back in at its new place; the branches that assert(0) cannot be reached |
| TaskOperations.TaskExited | base/task.cc:1500-1519 | After the counters fall and the three walks, counts, exclusion and the pairing of wait and defer queues hold again |
| TaskOperations.ExitWakesInOrder | base/task.cc:1500-1519 | One exit starts the entries it releases in increasing order of the sequence numbers at the heads of their queues, in all three walks |
| TaskOperations.Exit | base/task.cc:711-739 | An exit, with or without recycling, keeps the invariant: everything that waited for the task has been released or waits for something that runs |
| TaskFrames.ExitedKept | base/task.cc:1500-1519 | Through all walks of an exit the other tasks run on and keep their cancellation marks, and the mark of the task goes with it |
| TaskFrames.ExitedSpares | base/task.cc:1500-1519 | An exit touches only entries that waited for the task's group or entry: all others keep their defer queue and their waiting tasks |
| TaskMarks.EnqueuePlaces | base/task.cc:612-641 | Which of the four branches is taken and where the task then is: behind its entry's queue, in the queue of the stop entry, in the queue of a running group or else entry that it excludes, or running |
| TaskMarks.StepKeepsMarks | base/task.cc:581-755 | Whatever the operation, a running task runs until it exits, keeps its mark until then, and gets one only from a cancel that names it |
| TaskMarks.MarksAreCancels | base/task.cc:646-652 | In every run a marked task was named by a cancel |
| TaskMarks.CancelledNeverRecycled | base/task.cc:646-739 | In every run a task that was cancelled while running has no successor at its exit, whatever happened in between and whether or not it asks to be recycled |
| TaskMarks.CancelHome | base/task.cc:659-699 | Cancelling a waiting task leaves its entry in the same defer queue unless it was the last one waiting, and moves no other entry |
| TaskMarks.StoppedHoldsBack | base/task.cc:620-626 | A task enqueued on an idle entry of a stopped scheduler waits for the stop entry through any operations other than a start and its own cancel |
| TaskOperations.Start | base/task.cc:747-755 | Starting releases what was enqueued while stopped, and nothing waits for the stop entry afterwards |
| TaskOperations.StartWakesInOrder | base/task.cc:747-755 | What was enqueued while stopped starts in increasing order of sequence numbers |
| TaskRuns.Step | base/task.cc:581-755 | Every operation keeps the invariant |
| TaskRuns.Run | base/task.cc:581-755 | The invariant holds after any sequence of enqueues, cancels, exits, stops and starts |
| TaskRuns.NoLostTasks | base/task.cc:646-707 | In every reachable state an entry with waiting tasks is in exactly one defer queue, whose owner runs, or the scheduler is stopped and the queue is that of the stop entry |
| TaskRuns.MutualExclusion | base/task.cc:587-642 | In every reachable state no two running tasks of different groups or entries are related by a rule, and a numbered instance runs at most one task |
| TaskRuns.ConfiguredExclusion | base/task.cc:543-577 | For every configuration and every run: a task of the group or entry that was given a rule and a different group's or entry's task that the rule names never run together |
| TaskRuns.WaitsForRule | base/task.cc:1123-1137 | For every configuration and every run of a started scheduler: a task waits only while something runs that it was configured to exclude, or its own numbered instance does |
| TaskRuns.SumCountsTasks | base/task.cc:1369-1383 | Run counts of entries add up to the number of running tasks of those entries |
| TaskRuns.GroupCountIsSum | base/task.cc:1369-1383 | In every reachable state the run count of a group is the sum of the run counts of its entries |
| TaskConservation.EnqueueLive | base/task.cc:587-642 | Enqueueing makes one task live, and no other |
| TaskConservation.CancelLive | base/task.cc:646-707 | Cancelling takes away the waiting task it names, and no other |
| TaskConservation.CancelStopsRecycling | base/task.cc:711-739 | If a running task is cancelled and exits next, it leaves and no successor is enqueued, even if it asks to be recycled |
| TaskConservation.ExitLive | base/task.cc:711-739 | An exit takes away the task that ran, and adds its recycled successor if there is one |
| TaskConservation.Conservation | base/task.cc:581-755 | Each operation adds or removes exactly the tasks it names: none is lost or duplicated |
| TaskConservation.RunHistory | base/task.cc:1385-1410 | In every run each entry's started tasks precede its waiting tasks in enqueue order |
| TaskConservation.EnqueueOrder | base/task.cc:1335-1343 | In every run the tasks of one instance start in the order in which they were enqueued |
| TaskConservation.ReleaseOrder | base/task.cc:1466-1519 | In every run what one exit starts, with or without recycling, starts in increasing order of head sequence numbers; a recycled task that starts at once is last |
| TaskConservation.ExitsDrain | base/task.cc:1500-1519 | No deadlock: however running tasks exit, when a started scheduler has nothing running every task that was live has run, after exactly as many exits |
| TaskSelfExclusion.SelfExclusionFails | base/task.cc:1399-1409 | A group with a rule naming itself can run two of its tasks at once: three enqueues of the wildcard instance and one exit |
| TaskSelfExclusion.ExclusionIffNoSelfRule | base/task.cc:1399-1409 | Group exclusion of all running tasks holds in every run if and only if no group has a rule naming itself |
| TaskScheduling.TaskScheduler.ActiveGroupInPolicy | base/task.cc:1113-1121 | The loop finds the first running group of the policy |
| TaskScheduling.TaskScheduler.ActiveEntryInPolicy | base/task.cc:1307-1316 | The loop finds the first running entry of the policy |
| TaskScheduling.TaskScheduler.RunWaitQ | base/task.cc:1385-1410 | The fields change as the value-level step says |
| TaskScheduling.TaskScheduler.StartAll | base/task.cc:1399-1409 | The loop over the wait queue of a wildcard instance computes the value-level step |
| TaskScheduling.TaskScheduler.RunDeferEntry | base/task.cc:1412-1432 | The fields change as the value-level step says |
| TaskScheduling.TaskScheduler.RunDeferQ | base/task.cc:1435-1447 | The loop that deletes and reinserts while iterating computes the value-level walk |
| TaskScheduling.TaskScheduler.RunCombinedDeferQ | base/task.cc:1466-1498 | The fields change as the value-level operation says |
| TaskScheduling.TaskScheduler.RunBoth | base/task.cc:1476-1497 | The loop over two iterators computes the value-level merged walk |
| TaskScheduling.TaskScheduler.Enqueue | base/task.cc:587-642 | The fields change as the value-level operation says, and the invariant is kept |
| TaskScheduling.TaskScheduler.AddToDeferQ | base/task.cc:1353-1358 | The list of the queue stays in the order of head sequence numbers, with the entry in its place |
| TaskScheduling.TaskScheduler.DeleteFromDeferQ | base/task.cc:1361-1365 | Exactly the entry leaves the list of its queue, which is in order afterwards even if the number of the entry had changed |
| TaskScheduling.TaskScheduler.Advance | base/task.cc:1170-1175 | The iterator moves to the element behind the entry in the list, which is the next in the order, before the entry is taken out and released |
| TaskScheduling.TaskScheduler.Cancel | base/task.cc:646-707 | The fields and the return code are those of the value-level operation, and all defer queues are in order again |
| TaskScheduling.TaskScheduler.CancelWaiting | base/task.cc:659-699 | The reinsertion of an entry whose first task goes puts its defer queue back in order |
| TaskScheduling.TaskScheduler.TaskExited | base/task.cc:1500-1519 | The fields change as the value-level operation says |
| TaskScheduling.TaskScheduler.OnTaskExit | base/task.cc:711-739 | The fields change as the value-level operation says, and the invariant is kept |
| TaskScheduling.TaskScheduler.Stop | base/task.cc:741-745 | Only the flag changes |
| TaskScheduling.TaskScheduler.Start | base/task.cc:747-755 | The flag is set and the queue of the stop entry walked, as the value-level operation says |
| Patricia.PatriciaTree.Find | base/patricia.h:365-391 | Returns a data node with the key if and only if the key is in the set |
| Patricia.PatriciaTree.Insert | base/patricia.h:156-267 | Refines insertion into a finite set of bit strings: fails and changes nothing if and only if the key is there; the prefix, two-children and thread invariants are kept |
| Patricia.PatriciaTree.FindNearest | base/patricia.h:162-176 | The first loop ends at the data node that the specification names, or at null if and only if the tree is empty |
| Patricia.PatriciaTree.FindPlace | base/patricia.h:185-198 | The second loop ends where the new key belongs: above it the keys agree, below it they are longer than the common prefix |
| Patricia.PatriciaTree.Remove | base/patricia.h:269-363 | Refines removal from a finite set of bit strings; internal nodes that lose a child go, and all invariants are kept |
| Patricia.PatriciaTree.RemoveTwo | base/patricia.h:297-312 | A node with two children is replaced by an internal node with the same threads |
| Patricia.PatriciaTree.RemoveLeft | base/patricia.h:313-321 | A node with a left child only: the child takes its place and its right edge is rewired |
| Patricia.PatriciaTree.RemoveRight | base/patricia.h:322-329 | A node with a right child only: the child takes its place |
| Patricia.PatriciaTree.RemoveLeaf | base/patricia.h:330-357 | A leaf: its parent keeps a thread, or is removed with it if it is an internal node |
| Patricia.RewireRightMost | base/patricia.h:702-714 | The thread of the rightmost node of a subtree, and nothing else, is redirected; its old target is returned |
| Patricia.Equal | base/patricia.h:640-663 | Comparing whole bytes and then bits decides equality of keys |
| Patricia.CompareFrom | base/patricia.h:665-700 | Restarting at a position before which the keys agree, rounded down to a byte, still finds the length of the common prefix |
| Patricia.PatriciaTree.Count | base/patricia.h:87-89 | Size is the cardinality of the set |
| Patricia.PatriciaTree.LPMFind | base/patricia.h:481-508 | Returns exactly the longest stored key that is a prefix of the query, or null if and only if no stored key is one |
| Patricia.PatriciaTree.GetNext | base/patricia.h:510-539 | Returns the next data node in order, or the first, using only children and threads |
| Patricia.PatriciaTree.GetLast | base/patricia.h:602-629 | Returns the last data node in order |
| Patricia.PatriciaTree.Iterate | base/patricia.h:75-81 | From begin to end every stored key is visited once, in lexicographic order with a prefix before its extensions, ending at the last node |
| RadixTree.CountIsCardinality | base/patricia.h:87-89 | The number of data nodes is the number of keys |
| RadixTree.NearestIsKey | base/patricia.h:162-176 | The walk that compares nothing ends at the key itself if it is stored, so one comparison at the end decides membership |
| RadixTree.InsertedOk | base/patricia.h:205-264 | The four ways to hang a node keep prefixes and two children, and add exactly one key |
| RadixTree.PlugContents | base/patricia.h:156-267 | Replacing a subtree exchanges its keys and nodes and leaves those along the path |
| RadixTree.StepCovered | base/patricia.h:500-504 | Going down one edge loses no stored prefix of the query that is longer than the best so far |
| RadixTree.LongerCovered | base/patricia.h:497-499 | Once the bits are longer than the query nothing below is a prefix of it |
| RadixOrder.OrderIsSorted | base/patricia.h:510-539 | Preorder of a well-formed tree is strictly increasing in the lexicographic order |
| RadixOrder.OrderHasKeys | base/patricia.h:510-539 | Preorder lists exactly the stored keys |
| RadixOrder.OrderPlug | base/patricia.h:510-539 | The preorder around a subtree: what is before and after does not depend on the subtree |
| Lifetime.DeleteKeeps | base/lifetime.cc:38-46 | Delete marks the actor once and posts one event; the invariant is kept |
| Lifetime.PostKeeps | base/lifetime.cc:188-199 | Posting an event keeps the reference count equal to the outstanding events |
| Lifetime.UnlinkKeeps | base/lifetime.cc:140-148 | Removing a dependent keeps the lists and back references paired, and a deleted actor that loses its last dependent gets an event |
| Lifetime.LinkKeeps | base/lifetime.cc:126-131 | Adding a dependent to an actor that is not deleted keeps the invariant |
| LifetimeSteps.Reset | base/dependency.h:32-40 | Moving a reference from one actor to another keeps lists and back references paired |
| LifetimeTrace.ResetMoves | base/dependency.h:32-40 | Afterwards the reference points where it was told to, as the last dependent there, or nowhere, and all other references point where they did |
| LifetimeTrace.ResetThenDelete | base/dependency.h:32-40 | Once a reference was set to an actor and the actor deleted, with anything in between but another reset of the reference, an acyclic graph at rest has destroyed the reference's owner before the actor |
| LifetimeTrace.RunAgrees | base/lifetime.cc:20-163 | Over any run the state is what the callers made it less what was destroyed: the actors alive, the holder and the target of every reference, whose MayDelete is false, and who is deleted at least |
| LifetimeTrace.StateFollowsCalls | base/lifetime.cc:20-163 | The same from the start: an actor is alive if and only if it was created and is not destroyed, and a reference points where it was last set if and only if its holder is not destroyed |
| LifetimeTrace.EventLaw | base/lifetime.cc:38-199 | In any step the outstanding events and the reference count of an actor grow by one when it becomes deleted, when as a deleted actor it loses its last dependent and when it is retried, fall by one when an event is done with, and else stay |
| LifetimeTrace.EventsInOrder | base/lifetime.cc:188-212 | Events are handled first in, first out: a step other than taking the oldest only appends |
| LifetimeSteps.RetryDelete | base/lifetime.cc:71-74 | Another event for a deleted actor keeps the invariant, with the reference count equal to the events |
| LifetimeSteps.DeleteOwnersKeeps | base/lifetime.cc:57-64 | Propagation deletes every dependent of the list, and only raises deleted flags and posts events |
| LifetimeSteps.Propagate | base/lifetime.cc:217-221 | Handling the first event of an actor keeps the invariant, by which an actor that was shut down has deleted dependents only |
| LifetimeSteps.DropEventKeeps | base/lifetime.cc:158-163 | Without the event just handled the actor either may be destroyed or is kept by another event, a dependent or MayDelete |
| LifetimeSteps.Finish | base/lifetime.cc:222-231 | A deferred event is queued again without counting it twice; a handled one is given up; the invariant is kept |
| LifetimeSteps.DropRefs | base/dependency.h:26-30 | The destructors of an object's references empty its list and keep everything else paired |
| LifetimeSteps.Destroy | base/lifetime.cc:26-29 | Destruction keeps the invariant: no event, list or back reference names the destroyed actor |
| LifetimeRuns.Step | base/lifetime.cc:38-232 | Every step of callers and manager keeps the invariant |
| LifetimeRuns.RefcountCountsEvents | base/lifetime.cc:158-163 | In every reachable state the reference count of an actor is the number of its events that are queued or in progress |
| LifetimeRuns.DestroySafety | base/lifetime.cc:227-230 | An actor is destroyed only while its last event is handled, with no dependent and MayDelete true; no event for it is left and it is destroyed once |
| LifetimeRuns.FinishEffect | base/lifetime.cc:222-231 | The second half of event handling either leaves the graph alone or destroys its own actor and touches no one else's links |
| LifetimeRuns.StepEffect | base/dependency.h:32-47 | No step but the end of event handling destroys, and no step but Reset moves a link |
| LifetimeCascade.LinkOverRun | base/dependency.h:26-47 | Over any run a reference that is not reset stays linked until its own object is destroyed |
| LifetimeCascade.DependentsFirst | base/lifetime.cc:140-163 | An actor is destroyed after everything that transitively depended on it at any earlier point of the run, through references that are not reset since |
| LifetimeCascade.NothingLeft | base/lifetime.cc:214-232 | On an acyclic graph, when no event is outstanding and every MayDelete holds, no deleted actor remains undestroyed |
| LifetimeCascade.CascadeReachesAll | base/lifetime.cc:38-74 | Every transitive dependent of a deleted actor, through references that are not reset, has then been destroyed, before the actor |
| LifetimeDrain.DeleteWork | base/lifetime.cc:38-46 | Deleting trades an undeleted actor for an event: the work left stays the same |
| LifetimeDrain.HandleEventWork | base/lifetime.cc:214-232 | Handling an event makes the work left smaller: undeleted actors, links and events together |
| LifetimeDrain.Drain | base/lifetime.cc:214-232 | Handling events one after another terminates with an empty queue |
| LifetimeDrain.DrainWithin | base/lifetime.cc:57-64 | The cascade deletes nothing outside of a set that is closed under dependents |
| LifetimeDrain.DrainCloses | base/lifetime.cc:57-64 | The deleted actors end up closed under the dependencies there were at the start |
| LifetimeDrain.CascadeIsExact | base/lifetime.cc:38-232 | When the manager is done, an actor is destroyed if and only if it is in every set that has the deleted actors and, with an actor, its dependents |
| LifetimeManagement.LifetimeManager.Delete | base/lifetime.cc:38-46 | Fields change as the value-level step says |
| LifetimeManagement.LifetimeManager.DependencyAdd | base/lifetime.cc:126-131 | The reference goes to the end of the list and gets its pointer |
| LifetimeManagement.LifetimeManager.DependencyRemove | base/lifetime.cc:140-148 | The reference is found in the list and taken out; the last one of a deleted actor posts an event |
| LifetimeManagement.LifetimeManager.Reset | base/dependency.h:32-40 | Leaves the old actor before it joins the new one, as the value-level step says, about which ResetMoves tells where the reference ends up |
| LifetimeManagement.LifetimeManager.PropagateDelete | base/lifetime.cc:57-64 | The loop over the dependents deletes the owners in list order |
| LifetimeManagement.LifetimeManager.ReferenceDecrementAndTest | base/lifetime.cc:158-163 | Gives up one event; true if and only if no event, no dependent and no objection is left |
| LifetimeManagement.LifetimeManager.DropReferences | base/dependency.h:26-30 | The loop of destructors computes the value-level step |
| LifetimeManagement.LifetimeManager.DeleteExecutor | base/lifetime.cc:214-232 | Handles the next event as the value-level steps say and reports whether to go on |
| LifetimeManagement.LifetimeManager.RunQueue | base/lifetime.cc:214-232 | The loop of the manager's task terminates and computes the drained state |
| WorkQueue.StepMutex | base/queue_task.h:281-293 | Under every interleaving one thread or runner at most is inside the mutex, and the runner state is consistent |
| WorkQueue.SingleRunner | base/queue_task.h:281-293 | In every reachable state running_ holds if and only if current_runner_ is set, no other runner is live, and the assertion before a start holds |
| WorkQueue.StepWakeup | base/queue_task.h:495-511 | No step of a producer, runner or enabler loses a wake-up, even when tests and writes of RunnerDone, MayBeStartRunner and set_disable interleave |
| WorkQueue.WakeupNotLost | base/queue_task.h:319-326 | In every reachable state a non-empty enabled queue has a runner that will look at it again, or a thread about to start one |
| WorkQueue.StepCount | base/queue_task.h:431-437 | count_ is the number of entries queued, about to be queued or refused, and popped but not yet uncounted |
| WorkQueue.StepBound | base/queue_task.h:463-478 | Entries queued or admitted stay below size_ in every interleaving; what is admitted is stated by EnqueuedArePushed and RefusedWhenFull |
| WorkQueue.CapacityHolds | base/queue_task.h:463-478 | A bounded queue never holds size_ entries, and count_ is never below the number of queued entries |
| WorkQueue.AllHandled | base/queue_task.h:391-399 | Entries come out once and in the order they went in; with no call in progress and no runner an enabled queue is empty and count_ exact |
| WorkQueueTrace.RefusedWhenFull | base/queue_task.h:463-478 | A call is refused if and only if the queue is bounded and queued entries, calls in progress and an entry being taken out fill it but for one; otherwise it goes on to push its own entry |
| WorkQueueTrace.UnboundedAccepts | base/queue_task.h:446-456 | A queue without a bound refuses nothing, in any run |
| WorkQueueTrace.EnqueuedArePushed | base/queue_task.h:446-478 | In every run, for each thread: the entries it was asked to enqueue are those accepted and those refused, in order, but for one not counted yet; the accepted ones are those it pushed, in order, but for one about to be pushed; and the pushes of all threads are what went into the queue |
| WorkQueueTrace.EnqueuedAreHandled | base/queue_task.h:446-511 | However the calls of a run are left to finish, an enabled queue without a bound ends with every enqueued entry handled exactly once and those of each thread in the order of its calls; a bounded one with exactly the accepted entries handled |
| WorkQueueSwitch.NoRoundNoWork | base/queue_task.h:53-76 | Entries are handled only between a runner's test that finds the queue enabled and the end of its round |
| WorkQueueSwitch.FalseEndsRound | base/queue_task.h:66-69 | After a callback that answers false nothing is handled before the queue is tested again |
| WorkQueueSwitch.RoundsAreLimited | base/queue_task.h:70-74 | In every run a round is within max_iterations_ entries, unless that is 0 |
| WorkQueueSwitch.PutOffHandlesNothing | base/queue_task.h:37-46 | Nothing is handled while the entry callback puts the runner off |
| WorkQueueSwitch.SwitchHappens | base/queue_task.h:319-326 | Under every interleaving set_disable(v) does not return without disabled_ having been v during the call |
| WorkQueueSwitch.SwitchReturns | base/queue_task.h:319-326 | The call returns at once if and only if the flag has the value already, and goes on to start a runner if and only if it then finds the queue enabled |
| WorkQueueSwitch.DisabledHandlesNothing | base/queue_task.h:485-493 | While the queue is disabled, under every interleaving and whatever is enqueued, no runner is started and, once a round in progress is over, no entry is handled |
| WorkQueueSwitch.StartIsNeeded | base/queue_task.h:281-293 | In every run a runner is started only on an enabled queue that has entries and no runner |
| WorkQueueDrain.StepMeasure | base/queue_task.h:53-84 | Without new calls every step of a thread or the runner makes a measure over queue, thread positions and runner position smaller, whatever the entry callback answers |
| WorkQueueDrain.QuietRunBounded | base/queue_task.h:53-84 | Every run without new calls has at most as many steps as the measure was at its start |
| WorkQueueDrain.SomeoneGoesOn | base/queue_task.h:281-293 | No deadlock: while a call is in progress or a runner is live, the holder of the mutex or, if it is free, anyone can go on |
| WorkQueueDrain.QueueDrains | base/queue_task.h:495-511 | From every reachable state, every interleaving without new calls is bounded and, when nothing can go on, no call and no runner is left, count_ is exact and an enabled queue has handled everything that was pushed; disabled_ stays unless a call of set_disable was in progress |
| TcpFraming.ParseSplits | io/tcp_session.cc:706-723 | Messages followed by the rest are the stream, and every message has the length its header says |
| TcpFraming.ParseAppend | io/tcp_session.cc:668-732 | Parsing what was left over together with new bytes gives the same as parsing the whole stream |
| TcpFraming.ChunkingIndependent | io/tcp_session.cc:594-732 | However a stream is cut into buffers, the same messages come out and the same bytes are left |
| TcpReader.TcpMessageReader.AllocBufferSize | io/tcp_session.cc:583-592 | The allocation holds the message, and is 256 or less than twice the message |
| TcpReader.TcpMessageReader.QueueByteLength | io/tcp_session.cc:619-630 | The total is the number of pending bytes, although the offset is subtracted whenever the total is still 0 |
| TcpReader.TcpMessageReader.PullUp | io/tcp_session.cc:632-665 | Copies the first bytes of queue and buffer if there are as many, and never writes past the size asked for |
| TcpReader.TcpMessageReader.BufferConcat | io/tcp_session.cc:594-617 | The copied message is the pending bytes and the missing ones of the buffer; the assertions on lengths hold |
| TcpReader.TcpMessageReader.Scan | io/tcp_session.cc:706-723 | Hands over the messages of a buffer until one is refused or incomplete, and leaves remain_ right |
| TcpReader.TcpMessageReader.OnRead | io/tcp_session.cc:668-732 | A read hands over exactly the whole messages of pending bytes and buffer, up to the first refused; what is left equals the queue from offset_ on, and no assertion fails |
| TcpReader.ReadAll | io/tcp_session.cc:594-732 | Over any sequence of reads the messages handed over are those of the whole stream, up to the first refused |
| TcpWriter.TcpSession.GetBufferQueueSize | io/tcp_message_write.h:42-50 | The loop adds up the sizes of the queued buffers |
| TcpWriter.TcpSession.AsyncSend | io/tcp_message_write.cc:37-63 | The data is accepted at the end of the stream in any case; 0 is returned if and only if more than 256K are pending, which also blocks; exactly one write is posted for a queue that was empty |
| TcpWriter.TcpSession.TriggerAsyncWrite | io/tcp_message_write.cc:65-81 | The next write is of the next bytes of the head, send size of them or all that is left of it if less, and the only write |
| TcpWriter.TcpSession.UpdateBufferQueue | io/tcp_message_write.cc:83-117 | Written and pending bytes stay the accepted bytes; send_ready if and only if a blocked session falls below 64K, once per episode |
| TcpWriter.TcpSession.Send | io/tcp_session.cc:425-455 | Nothing is accepted by a session that is closed or closing |
| TcpWriter.TcpSession.AsyncWriteInternal | io/tcp_session.cc:414-423 | The posted call starts the write, of send size bytes or the rest of the head; the assertions of the writer hold |
| TcpWriter.TcpSession.AsyncWriteHandler | io/tcp_session.cc:375-412 | A completed write is followed by the next or, when draining for a close, by the close; WriteReady is called if and only if the session became unblocked and stays open; a soft error with fewer bytes written than asked for fails the writer's assertion, and nothing else does |
| TcpWriter.TcpSession.Close | io/tcp_session.cc:351-369 | A close waits for pending writes |
| TcpWriter.TcpSession.Flush | io/tcp_session.cc:375-423 | Without errors everything accepted is written in order after finitely many writes of any positive size, and the session ends unblocked |
| TcpWriter.Drive | io/tcp_session.cc:351-455 | In any interleaving of sends, closes, hard and soft errors and completions written bytes are a prefix of accepted bytes, and a clean close happens only when all are written; only a write that ends without a hard error can end the process |
| TcpWriter.UnwrittenAppend | io/tcp_message_write.cc:119-124 | Queueing a buffer appends it to the unwritten bytes |
| TcpWriter.UnwrittenAdvance | io/tcp_message_write.cc:92-99 | Completing a write takes its bytes from the front of the unwritten bytes, whether the head is finished or not |
| ColumnKeys.Between | config-client-mgr/config_cassandra_client.cc:904-913 | Everything between two keys with a common prefix has that prefix |
| ConfigRows.OutcomeIsSnapshotIff | config-client-mgr/config_cassandra_client.cc:271-326 | For any cache and any consumer, in sync or not: the adds and deletes of a usable row give the same result as replaying the row if and only if what is not sent is with the consumer already and everything else the consumer has is replaced or deleted |
| ConfigRows.IncrementalIsSnapshotIff | config-client-mgr/config_cassandra_client.cc:694-719 | For a consumer in sync with the cache, given that a changed value has a changed timestamp: the result is that of replaying the row if and only if, for every property with a cached field and no field left in the row, no key of the row starts with propl: or propm: and its name |
| ConfigRows.CachedIsRemovedIff | config-client-mgr/config_cassandra_client.cc:634-719 | A cached field that the row lacks leaves the consumer, unless its property is gone from the row and the emptiness test mistakes another property for it |
| ConfigRows.UsableKeepsSyncIff | config-client-mgr/config_cassandra_client.cc:271-326 | After a usable row cache and consumer are in sync if and only if the same condition holds |
| ConfigRows.UnusableKeepsSyncIff | config-client-mgr/config_cassandra_client.cc:286-296 | A row without type or name of an object unknown by name stays in the cache unpushed: consumer and cache are in sync afterwards if and only if the consumer had all its fields already |
| ConfigRows.KeepsSyncIff | config-client-mgr/config_cassandra_client.cc:271-326 | For every kind of row exactly when cache and consumer stay in sync; for a draft row, which empties the cache and tells the consumer nothing, if and only if nothing but type and name was cached |
| ConfigHistory.RunKeepsSyncIff | config-client-mgr/config_cassandra_client.cc:271-326 | Over any sequence of rows of all kinds cache and consumer are in sync throughout if and only if each row meets the condition of its kind at its turn |
| ConfigHistory.AfterDraftIff | config-client-mgr/config_cassandra_client.cc:280-285 | After a draft row the next usable row gives the result of replaying it if and only if every single field cached before the draft is in it and every list or map property has a field in it |
| ConfigHistory.DraftExample | config-client-mgr/config_cassandra_client.cc:280-285 | A concrete usable row, a draft and another usable row: the property that the last row lacks stays with the consumer |
| ConfigHistory.AfterUnusableIff | config-client-mgr/config_cassandra_client.cc:286-296 | After an unusable row of an unknown object the next usable row gives the result of replaying it if and only if no lost property is mistaken for another and every field that the unusable row had and the next does not send was with the consumer already |
| ConfigHistory.LostField | config-client-mgr/config_cassandra_client.cc:1000-1005 | For any cache and consumer and any such pair of rows, a single field the consumer lacks that is in both rows with the same timestamp does not reach it |
| ConfigHistory.LostFieldExample | config-client-mgr/config_cassandra_client.cc:286-296 | A concrete pair of rows after which the consumer lacks a property of the object |
| ConfigHistory.ClashExample | config-client-mgr/config_cassandra_client.cc:694-719 | A concrete row with lists a and ab, both cached and pushed, and then one with ab only: list a stays with the consumer |
| ConfigColumns.LinkColumn | config-client-mgr/config_cassandra_client.cc:945-959 | A column ref: or parent: followed by a type and a uuid is accepted if and only if the name of the object with that uuid is known, and otherwise asks for a retry; a reference carries that name, a parent none |
| ConfigColumns.SkippedKeys | config-client-mgr/config_cassandra_client.cc:930-944 | The columns that are not stored are those with the keys of perms2 and draft_mode_state, and no others |
| ConfigColumns.MapKey | config-client-mgr/config_cassandra_client.cc:960-964 | A key propm: name : index belongs to the map property of that name |
| ConfigColumns.UsableIff | config-client-mgr/config_cassandra_client.cc:271-296 | A row is usable if and only if it has a name column, a type column with something but quotes, and no draft column with a value |
| ConfigColumns.RowIs | config-client-mgr/config_cassandra_client.cc:917-959 | A row has a column under its key if and only if the column is accepted, and then that column |
| ConfigColumns.UsableCaches | config-client-mgr/config_cassandra_client.cc:983-1006 | After a usable row a column of the row is cached if and only if it is accepted |
| ConfigColumns.UsableTimestamps | config-client-mgr/config_cassandra_client.cc:983-1006 | Its timestamp is that of the row, but type and name keep the one they were first cached with |
| ConfigColumns.FirstRowConveys | config-client-mgr/config_cassandra_client.cc:271-326 | After the first row of an object the consumer has every accepted field with the value of its column, and a reference with the name of the object it leads to |
| ConfigColumns.FirstRowLinks | config-client-mgr/config_cassandra_client.cc:945-959 | After a first row a reference or parent is cached if and only if its uuid is known, and then with the consumer, with its value and for a reference the name |
| ConfigColumns.LaterRowConveys | config-client-mgr/config_cassandra_client.cc:271-326 | The same for any later row of a consumer in sync, unless a lost property is mistaken for another |
| ConfigSync.StaleIsReplaced | config-client-mgr/config_cassandra_client.cc:889-915 | A property of the row that lost a field is among those replaced as a whole |
| ConfigSync.CollectStep | config-client-mgr/config_cassandra_client.cc:917-1014 | Storing one more column collects exactly the changed single fields, the list and map fields, and the properties with changed and with unchanged fields |
| ConfigPartition.InScan | config-client-mgr/config_cassandra_client.cc:900-913 | All keys from the name of a property on that share all but its last character lie between the lower bound of the name and the first key that does not |
| ConfigPartition.ScanGoesOn | config-client-mgr/config_cassandra_client.cc:906-913 | The scan without a test for the end never leaves the map, because the type column sorts after all properties |
| ConfigPartition.CachedObject.MarkCacheDirty | config-client-mgr/config_cassandra_client.cc:1017-1036 | Every field is marked not refreshed and keeps its timestamp |
| ConfigPartition.CachedObject.StoreKeyIfUpdated | config-client-mgr/config_cassandra_client.cc:917-1014 | Tells whether a column is pushed at once, stores its timestamp, and collects lists, maps, type, name, draft and unknown references as the branches say |
| ConfigPartition.CachedObject.Parse | config-client-mgr/config_cassandra_client.cc:328-364 | The columns of a row are stored and collected one by one |
| ConfigPartition.CachedObject.HasStale | config-client-mgr/config_cassandra_client.cc:898-913 | Finds a stale field if and only if a key from the name on that shares all but its last character is stale; both assertions hold and the unguarded loop stops |
| ConfigPartition.CachedObject.ListMapPropReviseUpdateList | config-client-mgr/config_cassandra_client.cc:889-915 | The properties replaced are exactly those of the row with a changed field and those whose scan finds a stale field |
| ConfigPartition.CachedObject.EraseStale | config-client-mgr/config_cassandra_client.cc:653-681 | Erasing while iterating removes exactly the stale fields and reports their keys |
| ConfigPartition.CachedObject.IsListOrMapPropEmpty | config-client-mgr/config_cassandra_client.cc:694-719 | Two lower bounds decide whether no cached key starts with propm: or propl: and the name, whatever follows the name |
| ConfigPartition.CachedObject.ApplyDeletes | config-client-mgr/config_cassandra_client.cc:686-688 | Whatever the order in which deletes are taken up, the consumer loses the single fields and the properties that the cache calls empty |
| ConfigPartition.CachedObject.DeleteStale | config-client-mgr/config_cassandra_client.cc:634-692 | Deletes are pushed for exactly the stale fields, after they have left the cache, and the consumer drops what they say |
| ConfigPartition.CachedObject.ProcessRow | config-client-mgr/config_cassandra_client.cc:271-326 | Whatever cache and consumer have, a row of any kind does to both what the value-level step says; after a usable row the cached keys are exactly the accepted columns, and a retry is wanted if and only if a parent or reference is unknown; after a first row the consumer has every accepted field with its value and, for a reference, its name |
| Subset.SplitsAreAll | base/subset.h:29-66 | Every proper subset with element 0 is the left side of a split, at a position below 2^(n-1)-1 |
| Subset.SplitsAreProper | base/subset.h:29-66 | Every position below 2^(n-1)-1 has a proper subset with element 0, and different positions have different ones |
| Subset.RestIsComplement | base/subset.h:33-47 | The right side has exactly the indices that the left side does not have, in order |
| Subset.RankPush | base/subset.h:48-54 | Pushing the next index is the next list in the enumeration |
| Subset.RankPop | base/subset.h:56-65 | Popping the last index and moving the one below is the next list in the enumeration |
| Subset.NextStackMoves | base/subset.h:48-65 | One move of the stack advances by exactly one split, skipping the full set, and leaves element 0 after the last split |
| Subset.SubsetGenerator.Emit | base/subset.h:30-47 | The nested loops fill both sides with the elements at the indices on the stack and at the others; the assertion on the index holds |
| Subset.SubsetGenerator.Move | base/subset.h:48-65 | The stack changes as the specification says; the loop without a condition stops |
| Subset.SubsetGenerator.Next | base/subset.h:29-66 | Yields the split on the stack and advances to the next, or to the end |
| Subset.All | base/subset.h:20-66 | For any container the generator terminates after 2^(n-1)-1 results, none for fewer than two elements, and the p-th result is the p-th split |
| Word.FindFirstSet64 | base/bitset.cc:22-34 | The position, from 1, of the lowest set bit, 0 for none |
| Word.FindFirstClear64 | base/bitset.cc:36-38 | The position, from 1, of the lowest clear bit, 0 for none |
| Word.FindLastSet32 | base/bitset.cc:45-72 | Halving with five masks finds the highest set bit; as an offset, where the source adds 1 and returns 0 for none |
| Word.FindLastSet64 | base/bitset.cc:79-91 | The position, from 1, of the highest set bit, 0 for none |
| Word.NumBitsSet | base/bitset.cc:96-103 | Clearing the lowest bit until none is left counts the bits |
| Word.DropLowest | base/bitset.cc:98-101 | value & (value - 1) has exactly one bit less |
| Word.SameBits | base/bitset.cc:369-377 | Blocks with the same bits are equal |
| BitSets.CanonicalIsUnique | base/bitset.cc:363-377 | Vectors whose last block is not zero are equal if and only if they stand for the same set |
| BitSets.UnionOfBlocks | base/bitset.cc:399-422 | Or of blocks, missing ones counting as zero, is union |
| BitSets.IntersectionOfBlocks | base/bitset.cc:509-531 | And of blocks is intersection |
| BitSets.DifferenceOfBlocks | base/bitset.cc:486-498 | And with the complement of blocks is difference |
| BitSets.BitSet.Add | base/bitset.cc:125-131 | Adds the position, growing the vector, which stays canonical |
| BitSets.BitSet.Remove | base/bitset.cc:136-143 | Removes the position and shrinks the vector to canonical form |
| BitSets.BitSet.Test | base/bitset.cc:146-153 | Membership, beyond the last block too |
| BitSets.BitSet.None | base/bitset.cc:165-181 | No blocks if and only if the set is empty |
| BitSets.BitSet.Count | base/bitset.cc:194-200 | The cardinality of the set |
| BitSets.BitSet.Compact | base/bitset.cc:209-226 | Drops exactly the trailing zero blocks; the set stays the same |
| BitSets.BitSet.FindFirst | base/bitset.cc:242-249 | The least member, none if and only if the set is empty |
| BitSets.BitSet.FindNext | base/bitset.cc:255-279 | The least member above a position, across block borders |
| BitSets.BitSet.FindLast | base/bitset.cc:288-298 | The greatest member, found in the last block alone |
| BitSets.BitSet.FindFirstClear | base/bitset.cc:307-315 | The least position that is not a member, possibly beyond the last block |
| BitSets.BitSet.FindNextClear | base/bitset.cc:324-349 | The least position above a position that is not a member |
| BitSets.BitSet.Intersects | base/bitset.cc:354-361 | True if and only if there is a common member |
| BitSets.BitSet.Equals | base/bitset.cc:369-377 | Comparing sizes and blocks decides equality of the sets |
| BitSets.BitSet.Union | base/bitset.cc:399-422 | The union of two canonical vectors, built in three loops, is canonical without compaction |
| BitSets.BitSet.UnionWith | base/bitset.cc:449-457 | Union in place; the vector stays canonical without compaction |
| BitSets.BitSet.IntersectWith | base/bitset.cc:430-441 | Intersection in place, then canonical form |
| BitSets.BitSet.Subtract | base/bitset.cc:470-477 | Difference in place, then canonical form |
| BitSets.BitSet.BuildComplement | base/bitset.cc:486-498 | The members of the left operand that are not in the right one |
| BitSets.BitSet.BuildIntersection | base/bitset.cc:509-531 | Building blocks backwards gives the intersection in canonical form without compaction |
| BitSets.BitSet.Contains | base/bitset.cc:536-544 | True if and only if the other set is a subset; a longer canonical vector cannot be one |
| BitSetText.ToString | base/bitset.cc:551-561 | One digit per position up to the greatest member, 1 exactly for members |
| BitSetText.FromString | base/bitset.cc:572-585 | The set of the positions of the ones, canonical |
| BitSetText.RoundTrip | base/bitset.cc:551-585 | Reading what was written gives back the same blocks |
| BitSetText.ExtendRuns | base/bitset.cc:600-613 | The next member extends the last run or starts a new one, and the runs stay maximal |
| BitSetText.ToNumberedString | base/bitset.cc:593-619 | Lists exactly the maximal runs in increasing order, single positions as such and longer runs as first-last; reading the text gives the runs back |
| BitSetText.DecimalRoundTrip | base/bitset.cc:593-619 | Reading the digits of a number gives the number |
| BitSetText.RenderRoundTrip | base/bitset.cc:593-619 | Reading the text of any list of runs gives the list, so that the text determines the set |
| Allocators.LabelBlock.AllocateLabel | base/label_block.cc:77-96 | If some label is free the one returned is in range, was free and is the next after the last allocated, wrapping around; 0 if and only if all are in use, for blocks that start above 0 |
| Allocators.LabelBlock.ReleaseLabel | base/label_block.cc:98-104 | Exactly the released label becomes free |
| Allocators.IndexAllocator.AllocIndex | base/index_allocator.cc:7-24 | If some index is free the one returned is in range, was free and is the next one; none if and only if all are in use |
| Allocators.IndexAllocator.FreeIndex | base/index_allocator.cc:26-29 | Exactly the freed index becomes free |
| Allocators.IndexMap.Insert | base/index_map.h:50-67 | A new key gets the first free index, whatever its value; the size assertion holds; bits, slots and keys stay in one-to-one correspondence and the other keys keep their indices |
| Allocators.IndexMap.Remove | base/index_map.h:69-76 | The key goes with the slot and the bit of the index; the correspondence is kept, and the other keys keep their indices if and only if the index is that of the key, as it is whenever no value is stored under two keys |
| Allocators.SharedValue | base/index_map.h:69-76 | One value under two keys: removing the first key with the index of the second passes the assertion and moves the second key to another index |
| Allocators.IndexMap.ResetBit | base/index_map.h:78-89 | The slot is emptied and the empty slots at the end are popped, all and only those |
| Allocators.IndexMap.Locate | base/index_map.h:91-98 | Returns the value of the key, inserting the new one only if there is none |

## Left out

- Scheduler: disabling and enabling groups and entries, statistics, latency tracking, thread counts and TBB execution; a task runs from its start to its exit step.
- Scheduler: entries are identified by group and instance, and a task by its entry and sequence number, instead of by address; the two fields that say which defer queue holds an entry are one.
- Scheduler: the intrusive ordered sets that are the defer queues are lists kept in order, searched from the front instead of through a tree; policies are set before tasks are enqueued, as the source requires.
- Scheduler: while stopped, what is enqueued is held back; an exit still starts tasks that waited for a policy, as in the code.
- Patricia tree: FindNext, LowerBound and GetPrev; freeing of internal nodes; keys are sequences of bits compared in groups of eight, not bytes in memory.
- Lifetime manager: PauseDelete and ResumeDelete, time stamps and defer counts; ManagedDelete of an object is taken to call Delete of its actor, and RetryDelete to follow when MayDelete becomes true, as the header asks of users.
- Lifetime manager: actors and references are numbers and their fields maps of one manager object, so that aliasing of separately allocated objects is not modelled; several managers are not either.
- Work queue: shutdown, start predicates, watermarks, statistics and busy time; the entry and queue callbacks are arbitrary answers. It is modelled as a state machine over single accesses instead of a class, because its point is interleaving.
- TCP reader: the message length function is a parameter that is defined for every complete header and lies between header size and maximum; buffer memory and release are not modelled; after a refused message nothing is claimed about further reads.
- TCP writer: connection setup, SSL, which socket errors are hard, and statistics; Flush is about writes that complete as a whole.
- Configuration cache: one object at a time; reading of requests, retry timers beyond whether one is wanted, the name cache, JSON text, and the type string used for deletes; a row has distinct keys, as a Cassandra row does.
- Configuration cache: the parser behind the pushes is not part of the repository; the model takes it to set single fields, to replace list and map properties as a whole, and to drop a list or map property named in a delete when IsListOrMapPropEmpty says so. A list and a map of the same name, which no schema has, are two properties in the model.
- Configuration cache: SkipTimeStampCheckForTypeAndFQName is true, as in production.
- Bit sets: positions are unbounded naturals and npos is None; the right operand is passed as its blocks.
- Label blocks and index maps: reference counts, locking, reserved bits, explicit indices and removal that keeps the bit; that removal frees the value, so that a value stored under two keys leaves a dangling pointer behind, is not modelled.
- Not modelled: address arithmetic, timers, task triggers, logging, the etcd, AMQP, HTTP, SSL and UDP code, T-digest, protocol templates and Sandesh data; they are thin wrappers, vendored code or small arithmetic.
