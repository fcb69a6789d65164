# Pyon: models of its engines and proofs about them

Pyon is a Python service container. Around brokers and databases it has a number of small engines whose
behaviour can be stated exactly. Each is modelled here in a module of its own, with its branches, constants and
error paths, and proved to do what it is for:

- **Blocked reading of arrays** (`Regions`, `Reslicing`, `ArrayBlocks`, `VirtualDatasets`): an n-dimensional
  strided region is read in blocks of bounded size, from one array or from many that look like one.
- **Event routing** (`EventTopics`): type inheritance and three fields in the words of an AMQP topic.
- **Object serialization** (`ObjectSerialization`): one recursive walk in both directions.
- **Deep merge** (`DictMerge`): an explicit stack over dict objects in the heap, against the recursion on values.
- **The control loop of a process** (`ControlLoops`, `ProcessTimes`): a queue of calls with cancel, expiry,
  interrupt and stop, and three counters that stand for the log of all calls.
- **Extended resources** (`AssociationIndex`, `AssociationFill`, `StoredAssociations`): fields filled from
  associations in batches, against following associations one at a time.
- **The resource registry** (`Workflows`, `ResourceRegistry`): referential integrity and the life cycle.
- **RPC conversations** (`Conversations`), **time-ordered ids** (`IdFactory`), **the directory** (`Directories`),
  **agents and their persisted state** (`ProcessStates`, `AgentFsm`) and **the connection pool** (`Pools`).

Where the program changes objects in place, a class with the same fields does so here, and each method is proved
against a function of the old state. The main results are about those functions: over all inputs, or over all runs
from the initial state, a run being any sequence of atomic steps. Clocks are parameters, going back only where that is
said; datastores are finite maps; random choices and new ids are parameters.

Where the program does not do what it appears to be for, a lemma shows the case and another gives the exact
condition:

- `Reslicing.PartOfAxis`: a slice that stops at 0 counts as one without a stop.
- `VirtualDatasets.RecordStepIgnored`: a step in the records is not applied.
- `EventTopics.DottedOrigin`: an origin with a dot is misrouted; `RoutingExact` says for which events every
  subscription is routed right, and `DotFreeOrigins` that these are those without a dot wherever the last part of the
  origin is a word that can be asked for.
- `ProcessTimes.ClockBackwards`: on a clock that goes back the window can read as idle; `ReadsWindowExactly`.
- `ControlLoops.WrongCallHit`: an interrupt can end another call than the one it was asked for; `HitsItsCall` says when
  it ends that one. `InterruptsCurrent`: an expired call is still interrupted.
- `StoredAssociations.BatchedEqualsStore`: objects reached by way of the resource itself are repeated, and those of a
  target that is not loaded with the predicate by its plain name can be missed. A predicate with a direction sign is
  loaded by its name with the sign, so its associations are there only if they are the resource's own
  (`DirectedFindsOwn`) or another field has them loaded (`ElsewhereAgrees`).
- `ResourceRegistry.DeleteKeeps`: associations are left behind. `AssociateKeeps`: an object given is not looked up.
  `UpdateKeeps`, `RunStaysInCycle` and `Undeleted`: an update can give a resource another type, one that its
  associations do not allow, that lacks its states, or whose workflow leads out of DELETED; `DeletedIsFinal`.
- `Conversations.TablesEmptyAgain`: an entry stays for a conversation whose id was not supplied.
- `Directories.SplitOfJoin`: an entry whose key has a slash is looked for at another place.
- `AgentFsm.RunAgrees`: an agent state that a handler sets without a transition is stored after the call, as by
  `Misstored`. `RunInTurn`: entry or exit given as events break the alternation.
- `Pools.OverlappingCheckOut`: a check-out under way at a shutdown still gets its connection.
  `Pools.InterruptedCloseTwice`: a shutdown that interrupts closes connections that are closed again when returned.

The topic matching of `EventTopics` is that of section 3.1.3.3 of AMQP 0-9-1.

## Model

| member | source | states |
|---|---|---|
| Regions.TuplesSorted | prototype/hdf/hdf_array_iterator.py:398-408 | the index tuples of a region are in strictly increasing row-major order, so none is repeated |
| Regions.LexLessIs | prototype/hdf/hdf_array_iterator.py:398-408 | the order meant is that of the first position where two tuples differ |
| Regions.TuplesHas | prototype/hdf/hdf_array_iterator.py:388-389 | a tuple is among them if and only if each index is within bounds and on the step of its dimension |
| Regions.TuplesCount | prototype/hdf/hdf_array_iterator.py:404-408 | their number is the product of the shape as computed by floor division |
| Regions.ShapeCounts | prototype/hdf/hdf_array_iterator.py:404-408 | each entry of the shape is the number of positions of its dimension, also for empty ones |
| Reslicing.PartOfAxis | prototype/hdf/hdf_array_iterator.py:380-383 | on a dimension with unit step the new start, stop and step give the slice of its positions, if and only if the slice does not stop at 0 with positions left |
| Reslicing.EllipsisFills | prototype/hdf/hdf_array_iterator.py:356-370 | an ellipsis stands for as many full slices as the index is short of dimensions, wherever it stands |
| Reslicing.ShortIndexFills | prototype/hdf/hdf_array_iterator.py:369-370 | a short index is filled up with full slices at the end |
| Reslicing.PartOfRegion | prototype/hdf/hdf_array_iterator.py:373-384 | the index tuples of a part are the products of the sliced positions of all dimensions |
| ArrayBlocks.RunDimHas | prototype/hdf/hdf_array_iterator.py:427-439 | above the running dimension the count left over covers every dimension, and unless it is the first it does not cover the running one |
| ArrayBlocks.CountBounds | prototype/hdf/hdf_array_iterator.py:438-439 | the floor divisions leave a count that together with the dimensions above does not exceed the buffer |
| ArrayBlocks.BlockCount | prototype/hdf/hdf_array_iterator.py:421-439 | the number of elements of a block is the length along the running dimension times the full dimensions above it |
| ArrayBlocks.Pass | prototype/hdf/hdf_array_iterator.py:441-456 | the tuples of a block followed by those left after advancing and carrying are the tuples left before |
| ArrayBlocks.ScannedIsBlock | prototype/hdf/hdf_array_iterator.py:428-438 | what the scan fixes is a block: whole above the running dimension, one position at a time below it, within the buffer |
| ArrayBlocks.RunningFits | prototype/hdf/hdf_array_iterator.py:422-439 | the dimensions above the running one fit into a block whole, and unless it is the first, it does not too |
| ArrayBlocks.OneBlock | prototype/hdf/hdf_array_iterator.py:421-456 | with room for all elements of the region there is one block |
| ArrayBlocks.ArrayIterator.constructor | prototype/hdf/hdf_array_iterator.py:341-349 | a new iterator covers the whole variable |
| ArrayBlocks.ArrayIterator.GetItem | prototype/hdf/hdf_array_iterator.py:351-384 | a new iterator over the part given by the index, in each dimension as the slice for it says; this one stays as it is |
| ArrayBlocks.ArrayIterator.Scan | prototype/hdf/hdf_array_iterator.py:422-439 | finds the running dimension, the same on every pass, and the bounds of the next block |
| ArrayBlocks.ArrayIterator.Advance | prototype/hdf/hdf_array_iterator.py:451-456 | moves on along the running dimension and carries into the slower ones |
| ArrayBlocks.ArrayIterator.Walk | prototype/hdf/hdf_array_iterator.py:421-459 | the loop ends, and the blocks flattened are the values of the region in row-major order; every block is bounded by the buffer and runs along one dimension |
| ArrayBlocks.ArrayIterator.ReadBlock | prototype/hdf/hdf_array_iterator.py:422-456 | one pass gives a block of at most the buffer that starts at the position, and the position after it |
| ArrayBlocks.ArrayIterator.Iterate | prototype/hdf/hdf_array_iterator.py:398-459 | the same for every region, also one with an empty dimension: with a buffer size every block has at most that many elements, and as many as fit up to the end of its running dimension; with none or 0 a region comes as one block |
| ArrayBlocks.IteratePart | prototype/hdf/hdf_array_iterator.py:351-459 | the blocks of a part of an iterator, flattened, are the values of the region with every dimension sliced as a list is |
| VirtualDatasets.VirtualDataset.constructor | prototype/hdf/hdf_array_iterator.py:215-253 | datasets are assembled if and only if there are some and they agree in all dimensions but the first; their bounds add up |
| VirtualDatasets.VirtualDataset.GetItem | prototype/hdf/hdf_array_iterator.py:259-297 | a read succeeds if and only if its start is a record and before its stop and every dataset it takes a part of has all dimensions, and gives the same slice of the concatenation, over any number of datasets, empty ones included |
| VirtualDatasets.IterateVirtual | prototype/hdf/hdf_array_iterator.py:165-297 | block iteration over any part of the virtual dataset with unit step in the records, each block served by a read of at most the buffer size, or all by one read without one, gives those records flattened; it fails only if a dataset in the part lacks dimensions |
| VirtualDatasets.IterateWhole | prototype/hdf/hdf_array_iterator.py:215-297 | over the whole of it: all records of all datasets, in order |
| VirtualDatasets.RecordStepIgnored | prototype/hdf/hdf_array_iterator.py:281-294 | a step in the record dimension is not applied: a strided read is not what is returned |
| EventTopics.HashMatches | pyon/ion/event.py:64-74 | a hash in front of a pattern lets it match from any later word on, and nowhere else |
| EventTopics.ExtendsAreBases | pyon/core/object.py:206-208 | the base types published are the base classes of the event in their order, without itself and the two roots |
| EventTopics.Published | pyon/ion/event.py:88 | so the types in the key start at Event, and are all classes of the event but the roots |
| EventTopics.SplitJoin | pyon/ion/event.py:64-74 | joining dot-free words and splitting at dots gives the words back |
| EventTopics.RoutingKeyWords | pyon/ion/event.py:64-74 | the words of the published key are the base types from the root, the type, and the three fields |
| EventTopics.PatternHasWords | pyon/ion/event.py:181-198 | the words of the subscriber's pattern, in each of its forms |
| EventTopics.Routing | pyon/ion/event.py:64-74 | a subscription matches a published event if and only if its type is absent or in the event's inheritance chain, and each field it gives equals the published word |
| EventTopics.DottedOrigin | pyon/ion/event.py:64-74 | an event with a dot in its origin is received by a subscription to the part after the last dot, which it does not match |
| EventTopics.RoutingExact | pyon/ion/event.py:64-74 | for any origin, every subscription is routed right if and only if the words that the dots move change nothing that a subscription can ask for |
| EventTopics.DotFreeOrigins | pyon/ion/event.py:64-74 | where the last part of the origin can be asked for, every subscription is routed right if and only if the origin has no dot |
| EventTopics.DottedSubscription | pyon/ion/event.py:181-198 | a subscription to an origin with dots matches where its parts are the last words of the key, its two fields the words before and its type among those before these; so among events whose origins have as many parts it gets exactly what it selects |
| EventTopics.LastWords | pyon/ion/event.py:181-198 | words at the end of a pattern that are no wildcards are the last words of the key |
| ObjectSerialization.SerializeTwice | pyon/core/object.py:425-450 | the serialized form holds no object, tuple or set at any depth, and serializing it again changes nothing |
| ObjectSerialization.RoundTrip | pyon/core/object.py:356-392 | deserializing a serialized value gives it back, up to tuples and sets becoming lists, if and only if no plain dict carries a type and every object is of a known class with all and only its attributes |
| ObjectSerialization.StoredAttributes | pyon/core/object.py:425-443 | the dict of an object with its schema and any of id, revision, blame and persisted version has each of these, its type, and when persisted the type version of its class, and nothing else |
| ObjectSerialization.StoredObjectReturns | pyon/core/object.py:482-514 | it comes back with exactly these attributes, and that version |
| ObjectSerialization.RawSurvives | pyon/core/object.py:482-514 | a value that is not walked on the way back survives if and only if it holds no object |
| ObjectSerialization.ObjectReturns | pyon/core/object.py:482-514 | one object comes back if and only if its attributes are complete and each of them comes back |
| ObjectSerialization.ObjectsAreWalked | pyon/core/object.py:380-392 | an object met when deserializing stays, with its schema attributes walked, and has to have them all |
| ObjectSerialization.IonObject.SetAttributes | pyon/core/object.py:492-508 | unknown attributes are dropped and the others set, those of the framework included |
| ObjectSerialization.IonObject.WalkAttributes | pyon/core/object.py:380-390 | every schema attribute is walked in place, the others stay |
| ObjectSerialization.BuildObject | pyon/core/object.py:482-514 | building an object step by step from its dict and walking its attributes is what the recursive deserialization says |
| DictMerge.DictMerge | putil/script_util.py:50-72 | for an unshared base, in place or copied, the stack algorithm ends with the recursive merge in the heap; the update never changes, the base only in place; the result consists of objects of the base or new ones and, of the update's, of all but those merged into one of the base |
| DictMerge.MergeInto | putil/script_util.py:61-71 | the loop over the stack turns the destination into the merge |
| DictMerge.MergeEntries | putil/script_util.py:64-71 | one pass writes the merged entries of one dict and pushes exactly the pairs of dicts below it |
| DictMerge.DeepCopy | putil/script_util.py:59 | the copy is equal, consists of new objects only, and shares nothing |
| DictMerge.PassKeeps | putil/script_util.py:62-71 | the pairs on the stack stay apart, and with the dicts already written are all that changes |
| DictMerge.MergedHolds | putil/script_util.py:50-72 | when each changed dict holds its merged entries and the others what they held, the heap holds the merge |
| DictMerge.ErasesToMerge | putil/script_util.py:50-72 | the merge of the objects is the merge of the values |
| DictMerge.LeafWins | putil/script_util.py:65-71 | a leaf path set by the update takes its value |
| DictMerge.MergedAt | putil/script_util.py:65-71 | wherever the update leads, to an empty dict too, is the merge where both have a dict, else what the update has |
| DictMerge.UntouchedKept | putil/script_util.py:64-71 | a path the update does not touch leads where it did in the base, to the same value or nowhere |
| DictMerge.MergeTwice | putil/script_util.py:50-72 | merging the update twice equals merging it once |
| DictMerge.MergeAgain | putil/script_util.py:50-72 | the algorithm run again in place, now on dicts shared with the update, leaves every dict object as the first run left it |
| DictMerge.CopyAgain | putil/script_util.py:50-72 | run again into a copy it gives an equal dict |
| DictMerge.MergedAgain | putil/script_util.py:65-71 | the second merge writes nothing new into any dict object |
| DictMerge.MergedUnshared | putil/script_util.py:65-71 | dicts that are unshared and have none in common merge to an unshared one |
| DictMerge.SharesUnmerged | putil/script_util.py:66-71 | the result shares with the update exactly the dict objects that were not merged into one of the base |
| ProcessTimes.ReadsWindow | pyon/ion/process.py:150-158 | what is busy since the start of the prior interval can be told from three counters, whatever interval it is now |
| ProcessTimes.ReadsWindowExactly | pyon/ion/process.py:150-158 | on any clock it reads right if and only if the clock has not gone back before the last interval recorded, or no call that took time ended in the window |
| ProcessTimes.IdleSince | pyon/ion/process.py:418-422 | nothing is busy since a moment if and only if no call that took time ended at or after it |
| ProcessTimes.MovesWindow | pyon/ion/process.py:401-416 | moving the window on by one interval or more keeps the counters true to the log |
| ProcessTimes.LogsCall | pyon/ion/process.py:418-422 | adding a call that just ended keeps them true |
| ProcessTimes.SequentialBusy | pyon/ion/process.py:147-148 | calls one after another take no more than the time passed |
| ProcessTimes.ProcessTime.RecordProcTime | pyon/ion/process.py:401-416 | brings the window to the present interval, the log unchanged |
| ProcessTimes.ProcessTime.ComputeProcStats | pyon/ion/process.py:418-422 | logs the call with its whole duration |
| ProcessTimes.ProcessTime.TimeStats | pyon/ion/process.py:140-160 | at every moment of a clock that does not go back the fifth value is the total duration of the calls that ended at or after the start of the prior interval, and on any clock if and only if it has not gone back too far or no call ended there; idle and busy time add up and idle time is not negative |
| ProcessTimes.ClockBackwards | pyon/ion/process.py:153-158 | a log and a clock on which the window reads as idle although a call ended in it |
| ControlLoops.StepKeeps | pyon/ion/process.py:258-399 | every step keeps the queue in order of submission and every call accounted for |
| ControlLoops.InOnePlace | pyon/ion/process.py:339-399 | in every run each submitted call is in exactly one of queued, current, settled and expired |
| ControlLoops.OneAtATime | pyon/ion/process.py:339-399 | calls are made in the order submitted, at most once, each only when all made before it are done, and never when expired |
| ControlLoops.ExpiredExactly | pyon/ion/process.py:349-362 | over every run a call is dropped as expired if and only if it was taken at or after its reply-by time, and then never made; one taken in time is made unless it was cancelled before |
| ControlLoops.ResultIsReturned | pyon/ion/process.py:368-399 | what the current call returns, or None if it is interrupted, is its result whatever happens after |
| ControlLoops.NothingAfterStop | pyon/ion/process.py:339-347 | over every run no call submitted after a stop is made |
| ControlLoops.ResultsStay | pyon/ion/process.py:296-300 | a set result never changes, and the call is not made after |
| ControlLoops.CancelledNeverRuns | pyon/ion/process.py:290-300 | a call cancelled while queued is never made |
| ControlLoops.InterruptsCurrent | pyon/ion/process.py:308-315 | with no stop queued, cancelling interrupts if and only if the call is the current one or has expired without a result |
| ControlLoops.NotAfterStop | pyon/ion/process.py:280-288 | behind a queued stop the search raises, and nothing is cancelled or interrupted |
| ControlLoops.ArrivesInTurn | pyon/ion/process.py:302-306 | interrupts arrive in the order they were asked for |
| ControlLoops.HitsItsCall | pyon/ion/process.py:302-315 | the interrupt asked for the current call, when it arrives after those before it, sets the result of that call if and only if there were none before it and the call has not finished |
| ControlLoops.HitsAnother | pyon/ion/process.py:302-306 | otherwise it ends whatever call is current then, or the loop |
| ControlLoops.WrongCallHit | pyon/ion/process.py:302-306 | a run in which the interrupt asked for one call ends another |
| ControlLoops.ControlLoop.RoutingCall | pyon/ion/process.py:258-278 | queues a call and returns its async result |
| ControlLoops.ControlLoop.HasPending | pyon/ion/process.py:280-288 | whether the call is queued, or the search raises |
| ControlLoops.ControlLoop.CancelOrAbortCall | pyon/ion/process.py:308-315 | cancels, interrupts or leaves alone |
| ControlLoops.ControlLoop.ControlFlow | pyon/ion/process.py:339-366 | takes one item: expiry is checked before cancellation |
| ControlLoops.ControlLoop.CallEnds | pyon/ion/process.py:394-399 | the result is set and no call is current |
| ControlLoops.ControlLoop.InterruptArrives | pyon/ion/process.py:302-306 | ends the current call or the idle loop |
| ControlLoops.ControlLoop.NotifyStop | pyon/ion/process.py:471 | queues the stop marker |
| AssociationIndex.Context.AddAssociations | pyon/ion/resource.py:692-707 | both indexes keep giving what a linear filter over everything loaded gives |
| AssociationIndex.Context.FindAssociations | pyon/ion/resource.py:796-809 | the index lookup equals the linear filter, order included |
| AssociationIndex.AssociatedIs | pyon/ion/resource.py:765-794 | which associations are found: from the resource where its type is in the domain, or to it if there are none and no sign is given, else to it where its type is in the range, and the same for base types only if neither holds |
| AssociationIndex.AssociatedHas | pyon/ion/resource.py:796-809 | whatever is found is by the predicate and has the resource at one end, the one the sign says |
| AssociationIndex.Context.FindAssociatedResources | pyon/ion/resource.py:740-794 | finds these, exact types before base types, domain before range, with the fallback to the other side |
| AssociationFill.SetObjectFieldValues | pyon/ion/resource.py:512-665 | batched filling sets every field as following its associations by linear filter and reading objects one by one does, and fails if and only if some object needed is missing; no id is looked up that was not read |
| AssociationFill.TypeAtEnds | pyon/ion/resource.py:618 | a target has the type its association records for that end |
| AssociationFill.CollectNeeds | pyon/ion/resource.py:524-597 | the first step notes exactly the needs of the fields |
| AssociationFill.CollectSecondIds | pyon/ion/resource.py:613-621 | the second step collects exactly the ids at the second level |
| AssociationFill.IdsCollected | pyon/ion/resource.py:570-625 | an id is read if and only if some field needs it |
| AssociationFill.FollowSecond | pyon/ion/resource.py:635-651 | nested lists, filtered and joined in order |
| AssociationFill.ApplyNeeds | pyon/ion/resource.py:627-665 | the last step sets every field that had needs and leaves the others as they were |
| StoredAssociations.BatchedEqualsStore | pyon/ion/resource.py:603-665 | against the whole store, for any fields and directions, a compound field gets the value of following its associations one at a time, of those that count, if and only if: a count, as many are missed as are seen twice; a single object, the first is seen or leads where the first seen does; a list, provided no object is both missed and seen twice, each is either the resource's own or loaded by a field, and not both. In any case a list comes out the same only if the objects missed are those repeated |
| StoredAssociations.SecondLoaded | pyon/ion/resource.py:610-620 | following a predicate in what is loaded takes, of the associations it takes in the store, the resource's own and then those loaded by target and predicate |
| StoredAssociations.LostAndRepeated | pyon/ion/resource.py:610-651 | what the batches reach and what they miss is what the store reaches and what they see twice, object by object |
| StoredAssociations.CoveredLosesNothing | pyon/ion/resource.py:571-572 | nothing is missed where every target is the resource or is loaded with the predicate by its plain name |
| StoredAssociations.MissedIfUnloaded | pyon/ion/resource.py:610-651 | over all targets, something is missed if and only if some target other than the resource leads on by an association that counts and is loaded from neither of its ends |
| StoredAssociations.PairCovered | pyon/ion/resource.py:561-572 | a target is loaded with a predicate if and only if some field has the target and spells the predicate so |
| StoredAssociations.LoadedByFields | pyon/ion/resource.py:561-572 | an association is loaded at the second level if and only if some field has one of its ends as a target and spells its predicate so |
| StoredAssociations.UnsignedAgrees | pyon/ion/resource.py:603-665 | without a direction sign nothing is missed, and lists and counts are right if and only if nothing is found by way of the resource itself |
| StoredAssociations.ElsewhereAgrees | pyon/ion/resource.py:603-665 | where the resource is none of its own targets, with or without a sign, lists and counts are right if and only if every association that counts is loaded by some field |
| StoredAssociations.ListAgrees | pyon/ion/resource.py:627-651 | a list holds the same objects equally often if and only if those missed are those repeated |
| StoredAssociations.AllReachesHave | pyon/ion/resource.py:635-651 | what is followed is exactly the associations of the targets that end at an object of another type than the resource and of the final type |
| StoredAssociations.ReachedLoaded | pyon/ion/resource.py:643-651 | what the batches reach is, target by target, what of the store's associations is loaded, and for the resource itself what it reaches and that again |
| StoredAssociations.DirectedFindsOwn | pyon/ion/resource.py:571-572 | a field with a direction sign on its second predicate, of which no field loads any association by the plain name, comes out as what it reaches by way of the resource itself, so empty if that is none of its targets |
| Workflows.ChainStaysClosed | pyon/ion/resource.py:301-319 | any chain of restrictions of a closed workflow is closed and a sub-machine of it |
| Workflows.ChainIsOne | pyon/ion/resource.py:301-319 | a chain of restrictions is one restriction by all the states removed |
| Workflows.RestrictedWalks | pyon/ion/resource.py:311-326 | the walks of a restricted workflow are exactly those of the base that never visit a removed state |
| Workflows.SuccessorsAndPredecessors | pyon/ion/resource.py:335-357 | one state is a successor of another if and only if that is a predecessor of it |
| Workflows.ResourceLifeCycleSM.GetLcstateSuccessors | pyon/ion/resource.py:335-341 | every event with a transition out of a state, and where it leads: to states of the workflow if it is closed |
| Workflows.ResourceLifeCycleSM.GetLcstatePredecessors | pyon/ion/resource.py:351-357 | every state with a transition into a state, each with an event that leads there |
| Workflows.ResourceLifeCycleSM.CloneWithRestrictions | pyon/ion/resource.py:301-309 | a restricted copy, with initial states of its own; the original stays |
| Workflows.ResourceLifeCycleSM.ApplyRestrictions | pyon/ion/resource.py:311-319 | removes the states and every transition that touches them |
| ResourceRegistry.RunKeepsIntegrity | pyon/ion/resregistry.py:62-204 | at every moment of a run each association that is not retired joins existing resources of the types it records, which its predicate allows, and is the only one of its triple, if and only if no step that goes through leaves associations behind, gives an associated resource another type, or associates an object that is not stored with that type |
| ResourceRegistry.DeletingAllIsCareful | pyon/ion/resregistry.py:180-204 | runs with associations deleted along with resources, ends given by id and types kept are such runs |
| ResourceRegistry.DeleteKeeps | pyon/ion/resregistry.py:180-210 | a delete keeps integrity if and only if the resource has no associations but those to its owners, or they are deleted too |
| ResourceRegistry.AssociateKeeps | pyon/ion/resregistry.py:440-504 | a new association keeps integrity if and only if both its ends are stored with the types given, as those given by id are |
| ResourceRegistry.UpdateKeeps | pyon/ion/resregistry.py:157-178 | an update keeps integrity if and only if it keeps the type, or the resource has no associations |
| ResourceRegistry.StepKeepsIntegrity | pyon/ion/resregistry.py:62-290 | one step of any kind keeps integrity, whatever its outcome, if and only if it is careful |
| ResourceRegistry.RunStaysInCycle | pyon/ion/resregistry.py:157-290 | over a run each resource stays at every moment in the states of its workflow, retired or deleted, and its availability in those of the workflow, if and only if every update to another type finds its states there |
| ResourceRegistry.StepStaysInCycle | pyon/ion/resregistry.py:157-290 | one step does if and only if it is no update to a type without the states |
| ResourceRegistry.UpdateKeepsStates | pyon/ion/resregistry.py:157-178 | an update never changes life cycle state or availability |
| ResourceRegistry.AssociateDoes | pyon/ion/resregistry.py:440-504 | an association is made if and only if both ends are found, the predicate is known and allows their types or types they are extended from, and there is none already; it and nothing else is new |
| ResourceRegistry.CreateDoes | pyon/ion/resregistry.py:62-106 | a new resource has the content given and the initial states of its type, and is then associated with its owner |
| ResourceRegistry.UpdateDoes | pyon/ion/resregistry.py:157-178 | an update that is not outdated stores the type and content given, with the states kept and the next revision |
| ResourceRegistry.DeleteDoes | pyon/ion/resregistry.py:180-210 | which resource and which associations a delete removes, and nothing else |
| ResourceRegistry.DeleteAssociationDoes | pyon/ion/resregistry.py:590 | an association is removed, or missing |
| ResourceRegistry.LcsDeleteDoes | pyon/ion/resregistry.py:215-237 | a soft delete works once, and retires all associations of the resource and no others |
| ResourceRegistry.TransitionDoes | pyon/ion/resregistry.py:247-290 | retiring works from all states but two; any other event moves each machine that has a transition on it, and is refused if neither has |
| ResourceRegistry.DeleteEventDoes | pyon/ion/resregistry.py:247-250 | the delete event is the soft delete |
| ResourceRegistry.DeletedStays | pyon/ion/resregistry.py:247-278 | a deleted resource stays deleted on every event if and only if its workflow has no transition out of that state |
| ResourceRegistry.DeletedIsFinal | pyon/ion/resregistry.py:157-290 | over every run that does not remove it, a deleted resource stays deleted at every moment, with no event that leads out, if and only if no update that goes through gives it a type whose workflow leads out |
| ResourceRegistry.Undeleted | pyon/ion/resregistry.py:157-278 | by an update to such a type, and the event, a deleted resource leaves that state |
| ResourceRegistry.Registry.CreateResource | pyon/ion/resregistry.py:62-106 | initial states are set whatever was given; the resource stays stored if its owner is refused |
| ResourceRegistry.Registry.UpdateResource | pyon/ion/resregistry.py:157-178 | an update with an outdated revision is a conflict; both states are kept, and integrity if and only if no associated resource gets another type |
| ResourceRegistry.Registry.DeleteResource | pyon/ion/resregistry.py:180-210 | deletes the resource with all or only its owners' associations |
| ResourceRegistry.Registry.LcsDeleteResource | pyon/ion/resregistry.py:215-237 | soft delete, once, retiring all associations |
| ResourceRegistry.Registry.ExecuteLifecycleTransition | pyon/ion/resregistry.py:247-290 | both state machines move on an event, or it is refused |
| ResourceRegistry.Registry.CreateAssociation | pyon/ion/resregistry.py:440-504 | endpoints, by id or as objects, types and duplicates are checked in this order; integrity is kept if and only if both ends are stored with the types given |
| ResourceRegistry.Registry.DeleteAssociationById | pyon/ion/resregistry.py:590 | removes the association or reports it missing |
| Conversations.StepKeeps | pyon/ion/conversation.py:303-376 | every step of any interleaving succeeds and keeps tables and messages in agreement |
| Conversations.AnswersAreDue | pyon/ion/conversation.py:355-376 | an answer is sent only for an invitation received, once per conversation, and is exactly an accept with a transmission under the two masks |
| Conversations.TablesAreInFlight | pyon/ion/conversation.py:210-255 | each side's table holds exactly the conversations under way there |
| Conversations.TablesEmptyAgain | pyon/ion/conversation.py:303-316 | when all are complete both tables are empty if and only if every id was supplied |
| Conversations.NoSendBeforeAnswer | pyon/ion/conversation.py:119-145 | an originator invites with its first message and cannot send again before the answer |
| Conversations.SendDoes | pyon/ion/conversation.py:119-157 | the type and header of every message, and when sending raises |
| Conversations.ReceiveDoes | pyon/ion/conversation.py:172-193 | what each control type makes of the receiver |
| Conversations.CallIsAnswered | pyon/ion/conversation.py:303-373 | in a whole conversation the request invites, the answer accepts, then each side knows the other and further messages are plain |
| Conversations.RequestCompletes | pyon/ion/conversation.py:303-376 | whatever else is under way, a request accepted, answered and completed in turn is complete, and leaves no message |
| Conversations.StrayAnswer | pyon/ion/conversation.py:303-316 | an answer nobody waits for is dropped |
| Conversations.ConversationEndpoint.SendMessage | pyon/ion/conversation.py:119-157 | invites, accepts or just sends, by what the endpoint knows and owes |
| Conversations.ConversationEndpoint.MsgReceived | pyon/ion/conversation.py:172-193 | learns the sender's name and whether to accept, or raises on a rejection |
| Conversations.Participant.Call | pyon/ion/conversation.py:303-310 | starts the conversation and sends the request with the invitation |
| Conversations.Participant.GotAnswer | pyon/ion/conversation.py:292-316 | takes the answer and ends the conversation if its id was supplied |
| Conversations.Participant.MessageReceived | pyon/ion/conversation.py:355-361 | queues an invitation and takes up the first one queued, or waits if there is none |
| Conversations.Participant.SendAnswer | pyon/ion/conversation.py:368-373 | sends the answer and ends the conversation |
| IdFactory.IssuedIncrease | pyon/datastore/id_factory.py:38-73 | while time fits 42 bits all ids of a run are strictly increasing as strings, whatever the clock readings and salts |
| IdFactory.IssuedDecode | pyon/datastore/id_factory.py:61-69 | all ids have the same length, and their first seven characters decode to the time modulo 42 bits |
| IdFactory.LaterIsGreater | pyon/datastore/id_factory.py:61-69 | exactly when one id is less than another, also across an overflow |
| IdFactory.IdsDiffer | pyon/datastore/id_factory.py:25-34 | two ids are the same if and only if time modulo 42 bits and salt are |
| IdFactory.CharsetOrder | pyon/datastore/id_factory.py:37-38 | the characters are in the order of the digits they stand for |
| IdFactory.SaltedTimeIDFactory.CreateId | pyon/datastore/id_factory.py:49-69 | the id of the time, or of the last time plus one |
| IdFactory.SaltedTimeIDFactory.ReplaceDuplicate | pyon/datastore/id_factory.py:71-73 | a later id with a new salt |
| Directories.SplitOfJoin | pyon/ion/directory.py:70-86 | splitting a joined path gives back parent and key if and only if the key has no slash |
| Directories.JoinOfSplit | pyon/ion/directory.py:108-109 | joining a split path gives it back unless it is two slashes and a key |
| Directories.SlashedKeyIsLost | pyon/ion/directory.py:205-224 | an entry with a slash in its key is looked for at another place |
| Directories.CleaningShows | pyon/ion/directory.py:122-153 | removing all entries of a place but a newest one shows what that one holds, which is what was shown unless equally old ones differ |
| Directories.ShownOnce | pyon/ion/directory.py:122-153 | where no equally old newest entries differ, the documents show one map only |
| Directories.SettledIf | pyon/ion/directory.py:122-153 | a place whose entries were updated at different times, or hold the same, is settled |
| Directories.SeenKeeps | pyon/ion/directory.py:99-120 | what reads show at settled places, and at places not read, is what was there |
| Directories.AddShows | pyon/ion/directory.py:210-224 | an entry made by another container takes over if it is newer than those there, may show if it is as old, and does not if it is older |
| Directories.RegisterIsPut | pyon/ion/directory.py:193-226 | for a key without a slash the entry looked for is the one made, and registering is putting into the map, unless the entry is there and only to be created |
| Directories.ParentIsPut | pyon/ion/directory.py:177-191 | the parent a new entry comes with is an empty entry at the path of the parent, unless there is one |
| Directories.Directory.ReadByPath | pyon/ion/directory.py:99-120 | from any state, whatever entries there are and however old, one read leaves exactly one entry at the place, one of the newest, and changes nothing else |
| Directories.Directory.CleanupOutdatedEntries | pyon/ion/directory.py:122-153 | keeps the first of the newest of any entries and removes the others |
| Directories.Directory.Lookup | pyon/ion/directory.py:155-164 | the attributes at a place, as a map from places says, duplicates or not |
| Directories.Directory.Register | pyon/ion/directory.py:193-226 | adds or replaces in the map that the reads show, creating a missing immediate parent with a new entry; for a key with a slash the entry looked for and the one made are told apart |
| Directories.Directory.Unregister | pyon/ion/directory.py:254-269 | removes from the map and returns what was there |
| Directories.Directory.EnsureParentExists | pyon/ion/directory.py:177-191 | creates the entry of the parent itself only |
| ProcessStates.StateRepository.PutState | pyon/ion/state.py:41-77 | the vector is stored whatever the state object given, up to date, outdated or none, of this key or another, and nothing else changes |
| ProcessStates.StateRepository.GetState | pyon/ion/state.py:79-88 | what was stored last, if anything |
| ProcessStates.StatefulProcess.SetState | pyon/ion/state.py:96-109 | sets the value, and marks a change only if there is one |
| ProcessStates.StatefulProcess.FlushState | pyon/container/procs.py:704-710 | the vector in memory is the one stored, and not marked as changed |
| ProcessStates.StatefulProcess.LoadState | pyon/container/procs.py:712-725 | brings back the stored vector |
| ProcessStates.StatefulProcess.Reload | pyon/container/procs.py:712-725 | a vector not marked as changed is recovered by a reload |
| ProcessStates.StatefulProcess.constructor | pyon/container/procs.py:728-736 | a process starts again with what is stored for it |
| AgentFsm.InstrumentFSM.AddHandler | pyon/agent/instrument_fsm.py:56-70 | handlers for declared states and events only |
| AgentFsm.MovesOn | pyon/agent/instrument_fsm.py:129-136 | a transition keeps entries and exits alternating |
| AgentFsm.EntriesAndExits | pyon/agent/instrument_fsm.py:129-136 | every entry but the last is followed by the exit of the same state, every exit by an entry |
| AgentFsm.EventDoes | pyon/agent/instrument_fsm.py:91-117 | which events are unknown, not handled in the current state, or raise after firing; others change nothing |
| AgentFsm.HandledDoes | pyon/agent/instrument_fsm.py:104-136 | what a handled event leaves: the values its handler set and, after a transition, the states moved to and left, in the machine, in memory and stored |
| AgentFsm.FiredDoes | pyon/agent/agent.py:646-693 | entry and exit given as events write the current state |
| AgentFsm.RanSets | pyon/ion/state.py:96-109 | a value a handler sets is the one it sets last |
| AgentFsm.RoutedDoes | pyon/ion/endpoint.py:242-257 | a call that raises stores nothing more, after any other the vector is stored |
| AgentFsm.RanKeeps | pyon/ion/state.py:96-109 | a value that a handler does not set stays |
| AgentFsm.EventStores | pyon/agent/instrument_fsm.py:91-117 | an event by itself leaves the stored state the current one, whatever its handler sets; one that enters a state makes it so |
| AgentFsm.CallAgrees | pyon/ion/endpoint.py:252-256 | after a call that does not raise, the vector stored is the one in memory; from agreement, the agent state in both stays the current one if and only if a handler that asks for no transition leaves it as it is |
| AgentFsm.RunStaysDeclared | pyon/agent/instrument_fsm.py:91-136 | at every moment of a run the current state is declared, and a vector not marked as changed is the one stored |
| AgentFsm.RunAgrees | pyon/ion/endpoint.py:252-256 | at every moment of a run the agent states in memory and stored are the current one, if and only if every handler that asks for no transition leaves the agent state as it is |
| AgentFsm.RunInTurn | pyon/agent/instrument_fsm.py:91-136 | at every moment of a run entries and exits have alternated and the state entered last is the current one, if and only if neither was given as an event |
| AgentFsm.RunTravels | pyon/agent/instrument_fsm.py:119-136 | over such a run the handlers fired are the exits and entries of the states moved to, in order |
| AgentFsm.RunPairsUp | pyon/agent/instrument_fsm.py:119-136 | over such a run every entry but the last is followed by the exit of the same state, and every exit stands between two entries |
| AgentFsm.Misstored | pyon/ion/endpoint.py:252-256 | a handler that sets another agent state without a transition has that state stored |
| AgentFsm.ResourceAgent.constructor | pyon/agent/agent.py:821-834 | every state has the common handlers |
| AgentFsm.ResourceAgent.Start | pyon/agent/instrument_fsm.py:72-89 | enters a declared state and stores it, after which all is in agreement, or refuses |
| AgentFsm.ResourceAgent.OnEvent | pyon/agent/instrument_fsm.py:91-117 | the outcome and the whole new state; from then on the state stored is the current one if and only if it was before or a state was entered; entries and exits keep alternating if and only if neither was given as an event |
| AgentFsm.ResourceAgent.RunCommand | pyon/agent/instrument_fsm.py:104-115 | runs the handler and makes the transition it asks for |
| AgentFsm.ResourceAgent.RoutedEvent | pyon/ion/endpoint.py:236-257 | an event by a routed call: a changed vector is stored after it unless it raised; agreement is kept if and only if the handler leaves the agent state to transitions |
| AgentFsm.ResourceAgent.OnTransition | pyon/agent/instrument_fsm.py:119-136 | exit of the old state, then entry of the new |
| AgentFsm.ResourceAgent.EnterState | pyon/agent/agent.py:646-671 | writes and stores the state entered |
| Pools.EveryConnectionAccounted | pyon/datastore/pool.py:23-79 | over every run used and unused never exceed the maximum, and each connection created is in exactly one of used, unused, destroyed and closed |
| Pools.CheckOutDoes | pyon/datastore/pool.py:23-42 | a check-out is refused after a shutdown, else gives the oldest unused connection or a new one if there is room |
| Pools.ReturnDoes | pyon/datastore/pool.py:44-68 | a connection that is out goes to the unused ones, or is closed after a shutdown, or is destroyed; any other is an error |
| Pools.HandedOutInTurn | pyon/datastore/pool.py:29-35 | any number of check-outs hand out the unused connections in the order in which they came |
| Pools.ReturnedIsReused | pyon/datastore/pool.py:44-57 | a connection returned is handed out again, after those that were unused before |
| Pools.StaysShut | pyon/datastore/pool.py:70-72 | after a shutdown with an operation no check-out begun gets a connection and none is made; each connection out is still out, closed or destroyed |
| Pools.OneMayOverlap | pyon/datastore/pool.py:23-42 | a check-out pending at the shutdown may get one connection, and that is all |
| Pools.OverlappingCheckOut | pyon/datastore/pool.py:23-42 | a check-out is decided when it begins: with a shutdown in between it returns a connection if and only if there is room |
| Pools.ClosedExactly | pyon/datastore/pool.py:44-79 | over every run the operation is called on a connection once if its return closed it, and once for each interrupting shutdown that found it out |
| Pools.ClosedOnce | pyon/datastore/pool.py:44-55 | without interrupts the operation is called once on each closed connection and on no other |
| Pools.InterruptedCloseTwice | pyon/datastore/pool.py:70-79 | a connection out at a shutdown and returned after it is closed once if and only if the shutdown does not interrupt |
| Pools.Pool.BeginCheckingOut | pyon/datastore/pool.py:25-28 | takes the lock and tests for a shutdown |
| Pools.Pool.EndCheckingOut | pyon/datastore/pool.py:29-42 | the oldest unused connection, or a new one if there is room |
| Pools.Pool.CheckInConn | pyon/datastore/pool.py:44-57 | back to the unused ones, or closed |
| Pools.Pool.DestroyObject | pyon/datastore/pool.py:62-68 | taken out for good |
| Pools.Pool.ShutDownPool | pyon/datastore/pool.py:70-79 | sets or clears the closing operation, and calls it on what is out if interrupting |

## Left out

- Brokers, databases, HTTP, YAML, HDF5 and gevent themselves: they are maps, queues, sequences and steps here.
- `ArrayIterator` on variables without dimensions, with negative indices or steps, and re-slicing a dimension whose step is not one.
- ArrayBlocks.ArrayIterator.GetItem: slices with negative parts, and a step of 0, which counts as 1 there.
- VirtualDatasets.IterateVirtual: regions with another step than one in the records, as the virtual dataset ignores it.
- EventTopics.Routing: sub types and origin types with dots, and subscriptions with wildcards; origins with dots are in `EventTopics.RoutingExact` and `DottedSubscription`.
- `ObjectSerialization`: walking keys, blame attributes, unicode conversion; class defaults hold nothing that the walk changes.
- `putil/script_util.py`, `unflatten` and `parse_args`: they build nested dicts for one key each and merge them by `dict_merge`.
- DictMerge.DictMerge: bases whose own dicts are shared or contain themselves, and in place updates that share dicts with the base otherwise than by an earlier merge; iteration order is arbitrary here.
- `ControlLoops`: heartbeats, listeners and context stacks; exceptions of a call count as the result None, and how they reach the caller is not modelled.
- ProcessTimes.ProcessTime.ComputeProcStats: calls overlapping in time, which the control loop never makes, as `ControlLoops.OneAtATime` states.
- AssociationFill.SetObjectFieldValues: one association decorator per field, method and service request decorators, and undefined predicates in compound associations, which raise.
- StoredAssociations.BatchedEqualsStore: whether a list that misses and repeats the same objects also keeps their order, which the objects alone decide.
- `ResourceRegistry`: attachments, events, `set_lifecycle_state`, `create_mult` and `create_association_mult`, which skips the duplicate check.
- ResourceRegistry.Registry.DeleteAssociationById: associations given by subject, predicate and object.
- `Conversations`: timeouts, which leave the requester's entry as an id not supplied does, separate acknowledgements and rejections, which no provider sends.
- `Directories`: `register_mult`, children, finding by attribute, and deletions that fail.
- AgentFsm.ResourceAgent.OnEvent: handlers that raise or send further events; command handlers are added by subclasses through `AddHandler`.
- `Pools`: the calls an interrupting shutdown makes are taken together, though returns may come in between; a shutdown leaves the unused connections open.
- Capabilities, governance, scripts, logging, plugins and query building.
