# DiMMon, modelled and verified

DiMMon is a single-threaded runtime for a changing graph of nodes. Nodes are joined by hooks, subscribe to events
(timers, sockets, the finish of a wave), and pass data messages along the connections. Everything is reclaimed by
counting references, lists lose elements while they are walked, and buffers are measured first and filled later.
This project models those parts in Dafny and proves what the rest of the program relies on.

`dafny verify dfyconfig.toml` checks the whole project.

| files | what they model |
|---|---|
| `Lists`, `GraphState`, `GraphSteps`, `GraphRemoval`, `GraphLinks`, `GraphConnect`, `GraphEvents`, `GraphNodes`, `Runtime`, `RunSteps`, `RunFacts`, `Runs` | nodes, hooks, peer lists, event subscriptions and their reference counts; creating, connecting, disconnecting and removing; runs with nested handlers |
| `Timespec`, `TimerState`, `TimerSteps`, `TimerPass`, `Scheduler` | timespec arithmetic, the trigger list, the trigger pass, the timeout of the main loop |
| `Datanode`, `Buffers`, `Prepend`, `Demux`, `Wavebuf`, `Derivative` | the byte format of data messages and the four modules that rewrite it |
| `WaveState`, `WaveRuns`, `WaveRuntime` | waves, wave-finish events and the wavebufs that wait for them |
| `Sockevent` | socket events against epoll's interest set |
| `LinkedCells` | the LIST macros on real linked cells |

How the state is modelled. The graph, the timers and the socket events are classes whose fields map addresses or ids
to records; each class has a ghost function `S()` giving the whole state as a value, on which the invariants and the
lemmas are stated. Temporary references are counted: `nodeHolds`, `hookHolds`, `eventHolds` and a timer's `holds` are
multisets of references somebody has taken and not yet given back, and `own` holds the nodes whose creation reference
is still there. `Exact` is what holds at every point, also in the middle of an operation; `Inv` is what holds between
operations. Buffers are arrays of bytes. The LIST macros work on objects with `next` places and `prev` pointers.
Outcomes of allocations, of node callbacks, of `epoll_ctl` and of the clock are parameters.

## Main results

* **Counts are exact in every reachable state** (`GraphSteps.Exact`, kept by every method of `Runtimes.Runtime`, and by
  whole runs with nested handlers, `Runs.RunAll`). So no assertion about counts or empty lists fails, nothing is freed
  early, and with no temporary reference outstanding nothing is left over (`Runs.NothingLeftOver`). The count of an
  event is its creator's reference until it is removed, the trigger list's while it is registered, one for each
  subscriber, and the temporary holders (`Runs.EventReferences`).
* **Runs do what they are told**: every command of a run is done, in order, with the effect it has on connections,
  subscriptions, nodes and references, however deep handlers nest (`Runs.RunAll`, `RunSteps.Did`). An event tells its
  first subscriber first, and all of them once and in order when no handler changes its subscriptions; each later one is
  that of the record saved before (`Runs.Trigger`, `RunFacts.ToldAll`). Data goes to every connected in hook, in order,
  when no handler takes a connection or a node away (`Runs.Send`, `RunFacts.PassedToAll`).
* **A failed connect leaves no trace** and a successful one adds exactly one connection
  (`Runtimes.Runtime.NodeConnect`).
* **Removing a node** takes away exactly its own connections and subscriptions, although both loops delete what they
  walk (`Runtimes.Runtime.NodeRm`).
* **A trigger pass terminates, is complete and ordered**, with handlers that create, set, unset, remove and subscribe
  to timers. Timers left alone have their turns in the order of the list, in which each is put behind those that are due
  no later: first in, first out. How far the list is behind falls with every unforced firing; only a handler that sets a
  timer to a time up to the limit can raise it (`Schedulers.Scheduler.TimersTrigger`, `TimerPass.DueRaises`).
* **Deadlines do not drift**: over turns of the main loop at any times, with forced passes and with timer commands
  before, in and after them, every timer that no command touches is triggered exactly once for every deadline it was
  owed (`Schedulers.Scheduler.RunPasses`).
* **The rounded timeout fits the coalesce interval**: a full wait makes the first timer due exactly when the distance in
  milliseconds is at most `INT_MAX` (`Timespecs.WaitIsEnough`), and the wait is right to within a millisecond on both
  sides exactly when the distance fits an int or does not reach a positive timeout from below (`Timespecs.WaitIsRight`).
  A forced pass triggers something early exactly when the first timer is not due then (`Schedulers.Scheduler.RunLap`).
* **Data messages**: parsing and writing are inverse, demux undoes prepend, wavebuf's merged message is the
  concatenation and fills its buffer exactly, derivative's growing buffer always has room for the terminator.
* **Waves**: what a wavebuf has sent followed by what it still keeps is what it got, and what it gets during a finish
  is what those before it send, in the order in which they do (`WaveState.WalkFlows`, `WaveState.WalkBrings`). Each
  wavebuf for itself, whatever state the others are in: what it keeps after a finish it keeps because the last
  subscriber told forwards to it (`WaveState.FinishLeaves`, `WaveRuns.WavesLeave`), until then every wave delivers
  what arrived in it (`WavesDeliver`), and one that no wavebuf sends to always sends everything in one message
  (`UnfedWaves`). In every state of every run it is subscribed, once, exactly if it keeps something, or it is stuck
  (`RunOrderly`, `TidyThroughout`).
* **Socket events** ask epoll for just the bits asked of them, tell just those it reports, and mirror epoll's interest
  set over all runs, with nodes that go and handlers that change subscriptions while an event nobody holds is being
  delivered (`Sockevents.SockeventList.RunAll`).

Where the code does less than one may expect, that is stated exactly:

* A wavebuf that gets its first message while the last subscriber of the finish is told is dropped from the event with
  all others; its buffer is not empty, so it never subscribes again and sends nothing for ever
  (`WaveState.FinishLeaves`, `WaveRuns.TooLate`, `WaveRuns.StuckForever`; two wavebufs in a row suffice,
  `WaveRuns.ChainSticks`). The same happens to data that arrives outside of a wave (`WaveRuns.StartSticks`). It happens
  too when there is no memory for the finish message (`WaveRuns.UntoldStick`), but the main loop ends then anyway.
* A timer 2^31 milliseconds ahead or more makes the timeout wrap, and the forced pass triggers it early
  (`Timespecs.FarTimerIsEarly`). One set to a time more than 2^31 milliseconds past may wrap to a positive timeout: it
  is due, and the loop sleeps (`Timespecs.WaitIsNotTooLong`, `Timespecs.PastTimerWaits`).
* After a timeout during which the clock was set back, or advanced by less than the wait, the forced pass triggers the
  first timer before its time (`TimerPass.EarlyUnlessOnTime`).
* Changing only the interval of a timer that was never set fails the assertion in `dmm_timer_register`
  (`TimerSteps.SetKeepsAssertion`, for a timer just created `TimerSteps.NewTimerCannotSet`).
* Prepend and demux do not undo each other for sensor 0, which demux takes for no id (`Demux.DemuxUndoesPrepend`).
* A prepended datanode without sensor and payload is a terminator and hides the message (`Prepend.PrependParses`).
* Configuring another type for a sensor of the derivative node keeps the stored vector, which then may have the wrong
  size, and an output sensor of zero, which would read as the end of a message, is not refused
  (`Derivatives.DerivativeNode.MergeSensorDesc`, `Derivatives.TwoInts`).
* Without memory for its message a socket event gives back a reference it never took; with one subscriber that fails an
  assertion (`Sockevents.SockeventList.Trigger`, `Sockevents.LastSubscriberAborts`). The main loop ends at this error.
* A second LIST_REMOVE of an element changes nothing only while nothing was inserted at its place
  (`LinkedCells.InsertedBetween`).
* The loss of any hook, even an in hook, disconnects a wavebuf (`Wavebufs.WavebufNode.RmHook`).

## Model

| member | source | states |
|---|---|---|
| GraphState.LastNodeReference | dmm_base.h:152-165 | When the count of a node says the last reference goes, its hook lists and its event list are empty and it was removed: the assertions of the unref hold |
| GraphSteps.DropNodeExact | dmm_base.h:152-165 | Giving back a held node reference keeps every count, list and table of the whole state exact |
| GraphSteps.DropHookExact | dmm_base.h:225-240 | The same for a hook, also when the hook goes and takes its node reference, and perhaps the node, along |
| GraphSteps.DropEventExact | dmm_event.h:38-45 | The same for an event; one that goes has no subscribers |
| Runtimes.Runtime.NodeRef | dmm_base.h:148-150 | One more temporary holder, everything else as it was |
| Runtimes.Runtime.NodeUnref | dmm_base.h:152-165 | One holder less; the node is freed only with its last reference, then without hooks |
| Runtimes.Runtime.HookRef | dmm_base.h:216-218 | One more temporary holder of a hook |
| Runtimes.Runtime.HookUnref | dmm_base.h:225-240 | One holder less; a hook that goes has no peers, leaves its node's list and lets its node go |
| Runtimes.Runtime.HookAddPeer | dmm_base.c:233-256 | One-sided entry at the head and a reference for it, or EEXIST, or ENOMEM, with nothing changed |
| Runtimes.Runtime.HookRmPeer | dmm_base.c:259-277 | The entry and its reference are gone, or ENOENT with nothing changed |
| GraphRemoval.PartExact | dmm_base.c:170-183 | Taking two hooks apart both ways removes just that pair from the peer relation, keeps it symmetric and the counts exact, and leaves the walked list at its saved next entry |
| Runtimes.Runtime.HookRm | dmm_base.c:170-183 | No peer list names the hook any more, all other pairs are as before, the hook lives on only if somebody still holds it |
| Runtimes.Runtime.HookFind | dmm_base.c:185-217 | The only valid hook of that node, direction and name, held; or none, and then there is no such hook |
| Runtimes.Runtime.HookCreate | dmm_base.c:105-168 | Which error in which case; a new hook is listed and held, a refused one leaves no trace but an address |
| Runtimes.Runtime.HookGet | dmm_base.c:220-230 | Found or created, held either way; an error leaves the graph as it was |
| GraphConnect.UndoAddPeer | dmm_base.c:417-422 | Taking back the first entry restores the state from before it, to the last count |
| GraphConnect.Unget | dmm_base.c:398-425 | Letting go of a hook that was found restores the state; of one just made destroys it |
| GraphConnect.JoinInv | dmm_base.c:233-256 | Joining an out and an in hook both ways keeps the whole invariant |
| Runtimes.Runtime.ConnectHooks | dmm_base.c:411-422 | Both entries or neither |
| Runtimes.Runtime.NodeConnect | dmm_base.c:398-425 | On success the connections are the old ones and the new one, and nothing else changed; on any failure nodes, hooks, peer lists and counts are as before |
| Runtimes.Runtime.NodeDisconnect | dmm_base.c:432-451 | Exactly the named connection is gone; ENOENT or EINVAL just when it was not there, with nothing changed |
| GraphLinks.LinkIsPair | dmm_base.c:185-217 | A connection given by names is one pair of hooks, because names are unique within a node and direction |
| GraphLinks.OneLink | dmm_base.c:233-256 | Two states whose peer relations differ in one pair differ in one connection |
| Runtimes.Runtime.NodeCreate | dmm_base.c:296-337 | Which error in which case; a new node is valid, unconnected and owned |
| Runtimes.Runtime.NodeRmHooks | dmm_base.c:347-350 | Every hook of one direction is visited exactly once, in the order of the list, and removed; the saved next hook is still there when its turn comes |
| Runtimes.Runtime.NodeUnsubscribeAllEvents | dmm_event.c:46-51 | All subscriptions of the node are gone from both sides, no others; the saved next record is never the one freed |
| GraphNodes.LinksWithout | dmm_base.c:339-354 | If no hook of a node is left with peers and the rest is unchanged, the connections are those that do not touch it |
| GraphNodes.RemovalEnds | dmm_base.c:339-354 | The three parts of a removal together keep the invariant and give the full effect |
| Runtimes.Runtime.NodeRm | dmm_base.c:339-354 | Connections and subscriptions are exactly those of other nodes, flags and holders of other nodes are untouched, hooks of the node survive only while held |
| Runtimes.Runtime.EventInit | dmm_event.c:32-44 | A new event with its creator's reference and no subscriber |
| Runtimes.Runtime.EventRef | dmm_event.h:28-31 | One more temporary holder of an event |
| Runtimes.Runtime.EventUnref | dmm_event.h:38-45 | One holder less; an event that goes has no subscribers |
| Runtimes.Runtime.IsSubscribed | dmm_event.c:60-68 | The node's record tells the same as the event's |
| Runtimes.Runtime.EventSubscribe | dmm_event.c:87-108 | One subscription more on both sides, the node last in the list of the event, also for a node already subscribed; ENOMEM changes nothing |
| Runtimes.Runtime.EventCheckedSubscribe | dmm_event.c:74-80 | Subscribed, last in the list, only if there was no subscription |
| Runtimes.Runtime.EventUnsubscribe | dmm_event.c:110-141 | The first subscription of the node is gone from both sides and two references are given back; the assertion that both records exist holds; ENOENT changes nothing |
| GraphEvents.BothRecords | dmm_event.c:126-132 | A node is in the event's list exactly when the event is in the node's |
| GraphEvents.EmptyingStep | dmm_event.c:53-58 | One step of the walk over the subscribers removes the cell it is on, also among duplicates, so the saved rest is the rest |
| Runtimes.Runtime.EventUnsubscribeAll | dmm_event.c:53-58 | The event has no subscribers left; subscriptions to other events are untouched |
| Runs.Send | dmm_base.c:596-615 | The in hooks passed to: the first peer first, each next one read from the current entry after its handler; when the handlers take no connection and no node away, all peers, each once and in order |
| Runs.SendToPeers | dmm_base.c:609-612 | The walk over the peers, turn by turn, from the first entry until none follows |
| Runs.PassOne | dmm_base.c:609-612 | One turn: the entry that follows the current one after the handler, if the current one is still connected |
| RunFacts.PassedToAll | dmm_base.c:609-612 | A walk whose handlers part nothing passes to every peer there was at its start, in order, although new ones may be put in front meanwhile |
| Runs.PassToHook | dmm_base.c:565-589 | The in hook is held while its node handles the data, and all of the handler runs; an invalid hook is skipped |
| Runs.Trigger | dmm_event.c:146-166 | Who is told: the first subscriber first, its handler run, each later one that of the record saved before; when no handler changes the subscriptions of the event, all subscribers, each once and in order |
| Runs.TellOne | dmm_event.c:152-163 | One turn of the walk: the node told is the one at the place of its record; the next record is the one saved before the handler ran, as long as it is still there |
| Runs.TellSubscribers | dmm_event.c:152-163 | The walk over the records, turn by turn, from the first until the saved one is none or gone |
| Runs.HandleHeld | dmm_base.c:960-979 | The node is held while all of its handler runs; a removed one handles nothing |
| RunFacts.NodeOfAt | dmm_event.c:152-153 | The node of the i-th record is the i-th subscriber |
| RunFacts.ToldAll | dmm_event.c:152-163 | A walk whose handlers leave the subscriptions of the event alone tells every subscriber, each once and in order, whatever else they do |
| RunFacts.SubsDone | dmm_event.c:87-141 | No command that does not subscribe, unsubscribe, remove the event or remove a node changes who is subscribed to an event somebody holds, with all handlers it sets off |
| Runs.Deliver | dmm_base.c:960-979 | The node is held while it does what it is told; a node that was removed does nothing |
| Runs.Apply | dmm_base.c:664-955 | What each command does: removal, the connection made or cut with source and destination, subscription at the tail, unsubscription, or the whole handler |
| Runs.RemoveNode | dmm_base.c:708-718 | The node is no longer owned or valid; exactly the connections that do not touch it are left |
| Runs.ConnectTo | dmm_base.c:720-741 | The connection from the receiver to the named node is added exactly when connecting succeeds |
| Runs.DisconnectFrom | dmm_base.c:743-764 | The connection from the receiver to the named node is gone and no other |
| Runs.SubscribeOne | dmm_event.c:74-108 | The node is last in the list of the event exactly when there is memory and, if checked, it was not in it |
| Runs.UnsubscribeOne | dmm_event.c:110-141 | One entry of the node less, the others in their order |
| Runs.RegisterEvent | dmm_timer.c:123-124 | The trigger list has a reference of its own to an event that was not removed |
| Runs.DeregisterEvent | dmm_timer.c:136-138 | The reference is given back and the event stays, as its creator has not let go |
| Runs.RemoveEvent | dmm_timer.c:62-75 | A creator lets go of its event once, after the trigger list and all subscriptions |
| Runs.EventReferences | dmm_event.h:28-45 | The count of an event: its creator until it is removed, the trigger list while registered, subscribers, temporary holders |
| Runs.RunAll | dmm_base.c:664-955 | Every run of commands with nested handlers, from every state between operations: each command is done, in order, with its effect, and invariant and outstanding references are as before |
| Runs.Run | dmm_base.c:664-955 | One command has its effect, with the turns of all it made handle something |
| Runs.Change | dmm_event.c:32-58 | Nodes and events made, registrations taken and given back, an event removed with its subscriptions |
| Runs.NothingLeftOver | dmm_base.h:148-240 | Without temporary references only nodes not removed are left, each hook is connected, and all counts are those of the graph alone |
| Timespecs.Inc | timespec.h:9-18 | The sum in nanoseconds, normalised |
| Timespecs.Gt | timespec.h:30-33 | Later in nanoseconds |
| Timespecs.IsZero | timespec.h:25-28 | Zero nanoseconds |
| Timespecs.TruncationBound | dmm_base.c:1010-1012 | The rounding error is below one millisecond either way |
| Timespecs.WaitIsEnough | dmm_base.c:1010-1052 | A full wait makes the head due without forcing exactly when the distance in milliseconds is at most INT_MAX |
| Timespecs.WaitIsNotTooLong | dmm_base.c:1010-1014 | The wait exceeds the distance, or zero for a time past, by less than a millisecond exactly when the distance is not below INT_MIN or does not wrap to a positive number |
| Timespecs.WaitIsRight | dmm_base.c:1010-1014 | Both sides: within a millisecond of the distance exactly when neither end wraps |
| Timespecs.FarTimerIsEarly | dmm_base.c:1010-1014 | 2^31 milliseconds give a timeout of 0 |
| Timespecs.PastTimerWaits | dmm_base.c:1010-1014 | A timer set to the second after the epoch makes the loop sleep for nine days in November 2023 |
| TimerState.DeadlineAt | dmm_timer.c:272-280 | The deadlines owed are next, next + interval, ..., each once, up to the horizon: no drift |
| TimerState.PutSorted | dmm_timer.c:102-125 | Inserting behind the last entry that is not later keeps the list sorted |
| TimerSteps.ListedBehindEquals | dmm_timer.c:117-121 | A timer put on the list stands behind every other that is due no later: first in, first out among equals |
| Schedulers.Scheduler.TimerCreate | dmm_timer.c:38-60 | A valid timer, not set, with its creation reference |
| Schedulers.Scheduler.TimerRef | dmm_event.h:28-31 | One more temporary holder of a timer |
| Schedulers.Scheduler.TimerUnref | dmm_event.h:38-45 | A timer that goes has no subscribers |
| Schedulers.Scheduler.FindPlace | dmm_timer.c:109-122 | The place before the first later deadline |
| Schedulers.Scheduler.TimerRegister | dmm_timer.c:102-125 | Both assertions hold; the list gains the timer at its sorted place, behind its equals, and the timer a reference; an invalid timer is left alone |
| Schedulers.Scheduler.TimerDeregister | dmm_timer.c:130-139 | Off the list with its reference, or nothing if it was not on it |
| TimerSteps.SetKeepsAssertion | dmm_timer.c:152-186 | The time set is the one given, or now and the time or interval given, or for a change of interval only the old one; it is not zero exactly when this is not such a change for a timer never set |
| TimerSteps.NewTimerCannotSet | dmm_timer.c:158-159 | For a timer just created such a change leaves a zero time, which the assertion refuses |
| TimerSteps.Rearm | dmm_timer.c:152-186 | A timer whose time changes while it is linked can be unlinked and put back with the list sorted |
| Schedulers.Scheduler.TimerSet | dmm_timer.c:152-186 | EINVAL for two zeros; exactly when the assertion on the time fails; otherwise registered: an absolute time as it is, a relative one from now, no time one interval from now, a change of interval only at the old time; behind its equals, all other timers keeping their times and their order |
| Schedulers.Scheduler.TimerUnset | dmm_timer.c:191-195 | Not registered any more, all else in order |
| Schedulers.Scheduler.TimerSubscribe | dmm_timer.c:201-209 | EINVAL for an invalid node or timer, at most one subscription a node |
| Schedulers.Scheduler.TimerUnsubscribe | dmm_timer.c:214-217 | One subscription less or ENOENT |
| Schedulers.Scheduler.TimerUnsubscribeAll | dmm_event.c:53-58 | No subscribers left, the times untouched |
| Schedulers.Scheduler.TimerRm | dmm_timer.c:62-75 | Off the list, invalid, without subscribers, and freed exactly when nobody holds it |
| Schedulers.Scheduler.TimersNext | dmm_timer.c:292-299 | The minimum over all registered timers; ENOENT exactly when there is none |
| Schedulers.Scheduler.SetById | dmm_base.c:789-806 | A timer named by id is held while it is set, with the effect of TimerSet; no other timer is moved |
| Schedulers.Scheduler.SubscribeById | dmm_base.c:808-825 | Held while the node subscribes: last among the subscribers unless it was one, is invalid or there is no memory |
| Schedulers.Scheduler.UnsubscribeById | dmm_base.c:827-844 | Held while the node unsubscribes: one entry of it less |
| TimerPass.ConservedMore | dmm_timer.c:255-284 | One trigger: what was fired and what is still owed together stay what was owed |
| TimerPass.CompleteMore | dmm_timer.c:255-284 | One trigger: every timer due at the start has fired or is still ahead of the cursor, though timers are put back on either side of it |
| TimerPass.OrderedMore | dmm_timer.c:255-284 | One trigger: deadlines fired never go back |
| TimerPass.InTurnMore | dmm_timer.c:255-284 | One trigger: no timer has fired before one that was due and stood before it at the start, so equals fire in the order of the list |
| TimerPass.PassingBreaks | dmm_timer.c:257-261 | Stopping at the first timer that is not due misses none |
| TimerPass.FrameCalms | dmm_timer.c:243-287 | A step that leaves what it moves off the list, not due, or no further behind does not set the whole list back |
| TimerPass.HandlerNearer | dmm_timer.c:262-281 | A turn lowers how far the list is behind, whether the timer is put back or its handler has removed it |
| TimerPass.DueRaises | dmm_timer.c:102-125 | Putting a timer on the list for a time up to the limit sets the list back: just this has to be excluded |
| TimerPass.FrameConserves | dmm_base.c:1037-1060 | Commands between passes take away nothing that other timers are owed |
| TimerPass.AllPaid | dmm_timer.c:243-287 | With nothing due any more, what was fired is exactly what was owed |
| TimerPass.FitsOnTime | dmm_base.c:1010-1052 | After a full wait, with the distance at most INT_MAX, the first timer is due, so forcing makes no difference |
| TimerPass.EarlyUnlessOnTime | dmm_base.c:1048-1052 | The pass forced after a timeout triggers a timer early exactly when the first one is not due at the time the clock shows |
| TimerPass.PerformedBoth | dmm_base.c:772-875 | To perform two lists of commands is to perform both, one behind the other: none is left out |
| Schedulers.Scheduler.PutBackTimer | dmm_timer.c:270-281 | A periodic timer is listed for exactly one interval later, behind its equals, a one-shot is off the list, and the list is less far behind |
| Schedulers.Scheduler.RunHandler | dmm_timer.c:219-237 | The commands of a handler, all that the hypothesis of the walk allows, in order, each with its effect; they move only the timers they name, and never the saved one |
| Schedulers.Scheduler.Perform | dmm_base.c:772-875 | What each command does to a timer that is there and valid, and that it does nothing otherwise; unless it sets one to a time up to the limit the list is no further behind |
| Schedulers.Scheduler.PerformAll | dmm_base.c:1043-1047 | The same for any commands outside of a pass, all of them in order |
| Schedulers.Scheduler.TriggerOne | dmm_timer.c:219-237 | One turn of the walk under the hypothesis on handlers: the handler runs while the timer is held, then the timer is put back |
| Schedulers.Scheduler.TimersTrigger | dmm_timer.c:243-287 | The pass terminates, fires every timer that was due at entry, nothing early but a forced head that is not due, in order and in turn among equals, conserving what is owed. Unless handlers set timers to times up to the limit, firings and what is left behind together are at most what was behind |
| Schedulers.Scheduler.CatchUp | dmm_timer.c:243-287 | Passes at one time until the head is not due, with handlers at work, fire each timer they leave alone exactly once for every deadline owed |
| Schedulers.Scheduler.RunLap | dmm_base.c:1003-1060 | A turn of the main loop, forced after every timeout, however far the clock has advanced: socket commands unless forced, the pass, which fires every timer due at its start and left alone, and the commands of the finish, each with its effect; conserves what is owed, and fires nothing early exactly when the first timer is due, as after a full wait for a distance up to INT_MAX |
| Schedulers.Scheduler.RunLaps | dmm_base.c:1002-1061 | The same for any number of turns, state by state, with commands before, in and after the passes |
| Schedulers.Scheduler.RunPasses | dmm_base.c:1002-1061 | Turns of the main loop at any times, however late or often, then passes until nothing is due: each timer left alone is fired exactly once for every deadline owed, if nothing was fired early |
| Datanodes.ParseIffHolds | dmm_message.h:103-140 | What a walk reads from a buffer is exactly what was written into it: both directions |
| Datanodes.BytesOfWord | dmm_message.h:96-100 | The words of a header survive being stored |
| Buffers.At | dmm_message.h:107-112 | At the j-th offset the walk sees the j-th datanode, or the terminator behind the last, inside the buffer |
| Buffers.Fill | dmm_message.h:126-140 | Just the bytes of one datanode are written |
| Buffers.MkEnd | dmm_message.h:119-120 | Just the terminator is written |
| Buffers.Written | dmm_message.h:103-140 | Datanodes closed by a terminator parse as themselves, whatever follows |
| Prepend.PrependNode.RcvData | modules/prepend/prepend.c:61-92 | The stored datanode's bytes and the whole message, filling the new buffer exactly; what is sent and returned in every case |
| Prepend.PrependNode.Set | modules/prepend/prepend.c:119-134 | The old datanode is gone even when there is no memory for the new one |
| Prepend.PrependParses | modules/prepend/prepend.c:78-85 | The result reads as the datanode in front of the others exactly when it is not a terminator |
| Demux.CString | modules/demux/demux.cc:81-82 | The bytes before the first zero, or all |
| Demux.RoutedOneWay | modules/demux/demux.cc:74-84 | The first match alone decides hook and contents |
| Demux.LeavesWhenRouted | modules/demux/demux.cc:71-84 | Something leaves exactly when the id is set and there is a way to route the message |
| Demux.DemuxNode.Find | modules/demux/demux.cc:74-79 | The first datanode of the sensor, or the terminator if there is none |
| Demux.DemuxNode.RcvData | modules/demux/demux.cc:63-114 | What leaves reads as the message without its first match, through the hook it names; exactly when something leaves, and when ENOMEM is returned |
| Demux.DemuxNode.Route | modules/demux/demux.cc:81-113 | The payload of the match decides: its hook and the others, or nothing |
| Demux.DemuxNode.Remove | modules/demux/demux.cc:86-106 | The two copy loops write all other datanodes and a terminator within the new, smaller buffer |
| Demux.DemuxUndoesPrepend | modules/demux/demux.cc:63-114 | With the prepended sensor as id and a hook of the carried name, the message reads at that hook, and only there, as it was before prepend; it leaves exactly when the sensor is not 0 |
| Demux.PrependThenDemux | modules/prepend/prepend.c:61-92 | The two nodes one behind the other on any well-formed message: what leaves parses to the original datanodes |
| Wavebufs.WavebufNode.RcvData | modules/wavebuf/wavebuf.c:71-103 | Kept in order; the subscription is asked for exactly with the first message kept |
| Wavebufs.WavebufNode.Measure | modules/wavebuf/wavebuf.c:125-131 | The first pass: the length of all datanodes without terminators |
| Wavebufs.WavebufNode.Finish | modules/wavebuf/wavebuf.c:105-163 | One message that reads as the concatenation of all kept ones and fills its buffer exactly; without hook or memory ENOMEM; nothing is kept either way |
| WaveState.TellShrinks | dmm_event.c:146-166 | Telling a subscriber costs more than the subscriptions it causes, so the walk ends |
| WaveState.ReceiveTidy | modules/wavebuf/wavebuf.c:71-103 | A message keeps "not empty exactly when subscribed, once" for every wavebuf that is not stuck |
| WaveState.TellTidy | modules/wavebuf/wavebuf.c:105-163 | So does telling the next subscriber, and who is subscribed afterwards does not depend on the data |
| WaveState.FinishLeaves | dmm_wave.c:25-45 | A wavebuf that is not stuck keeps something after a finish exactly when the last subscriber told forwards to it |
| WaveState.WalkFlows | dmm_wave.c:25-45 | Through a whole finish, what was sent followed by what is kept is what was got, in order |
| WaveState.TellBrings | modules/wavebuf/wavebuf.c:124-158 | What a wavebuf that is told sends is all it kept, and that is what those behind it get behind what they had |
| WaveState.BringsOnce | modules/wavebuf/wavebuf.c:124-158 | Each wavebuf behind it gets it once, as the nodes in between passed it on; no others get anything |
| WaveState.WalkBrings | dmm_wave.c:25-45 | Through a whole finish, what a wavebuf gets is what those before it send, in the order in which they do |
| WaveState.SendsAreGone | dmm_wave.c:25-45 | The sends of the walk by one wavebuf are what its history gains |
| WaveState.SendersAreTold | dmm_event.c:152-163 | The wavebufs send in the order in which they are told, one message each time |
| WaveState.OneMessageAVisit | dmm_event.c:146-166 | One message for each time a wavebuf is told |
| WaveRuns.WaveDelivers | dmm_base.c:1037-1060 | A whole wave of data and subscriptions of others, from any state of the net, for each wavebuf that begins it empty: contents, order and number of its messages, and exactly when something stays behind |
| WaveRuns.WaveLeaves | dmm_base.c:1037-1060 | After a wave just those keep something that did before or that the last told forwards to |
| WaveRuns.UnfedDelivers | dmm_base.c:1037-1060 | A wavebuf that no wavebuf sends to sends all that arrived in the wave in one message and keeps nothing, whatever state the others are in |
| WaveRuns.WavesLeave | dmm_base.c:1037-1060 | Any number of waves leave a wavebuf empty exactly when it began empty and no finish told last somebody who forwards to it |
| WaveRuns.WavesSendAll | dmm_base.c:1037-1060 | They leave nothing behind anywhere exactly when that holds of every wavebuf |
| WaveRuns.WavesDeliver | dmm_base.c:1037-1060 | As long as no finish came too late for it, a wavebuf delivers in every wave what arrived in it, whatever happened to the others |
| WaveRuns.UnfedWaves | dmm_base.c:1037-1060 | One that no wavebuf sends to does so, in one message, in every wave of every run |
| WaveRuns.RunOrderly | modules/wavebuf/wavebuf.c:71-103 | In every state of every run a wavebuf is subscribed, once, exactly if it keeps something, or it is stuck |
| WaveRuns.TidyThroughout | modules/wavebuf/wavebuf.c:71-103 | In every state of waves that leave it empty a wavebuf's buffer is not empty exactly when its node is subscribed to the current wave, once |
| WaveRuns.UnfedTidy | modules/wavebuf/wavebuf.c:71-103 | So in every state of every run of waves for one that no wavebuf sends to |
| WaveRuns.AfterIsRun | dmm_base.c:1037-1060 | Wave after wave is one run of steps |
| WaveRuns.FlatWaves | dmm_base.c:1037-1060 | Where no wavebuf forwards to another, in every wave of every run each wavebuf sends all that arrived in the wave in one message |
| WaveRuns.StuckForever | modules/wavebuf/wavebuf.c:84-96 | A wavebuf that keeps something without being subscribed never sends again, whatever happens |
| WaveRuns.TooLate | dmm_event.c:152-163 | A wavebuf that the last subscriber told forwards to sends nothing more in any further run, unless it was stuck before |
| WaveRuns.ChainSticks | dmm_wave.c:25-45 | Two wavebufs in a row: data for the first leaves the second stuck |
| WaveRuns.StartSticks | dmm_wave.c:18-23 | What is kept at the start of a wave is never sent, whatever follows |
| WaveRuns.UntoldStick | dmm_wave.c:34-41 | Without memory for the message, whatever is kept is not sent then or later |
| WaveRuntime.Waves.Start | dmm_wave.c:18-23 | A new wave has no subscribers; events of earlier waves are not touched |
| WaveRuntime.Waves.FindCell | dmm_wave.c:59-69 | The event of the current wave |
| WaveRuntime.Waves.Subscribe | dmm_wave.c:71-109 | Last in the event of the current wave, made if need be, and gone again if there is no memory for the record |
| WaveRuntime.Waves.RcvData | modules/wavebuf/wavebuf.c:71-103 | The list of events and the buffers together do what the model of a wave says |
| WaveRuntime.Waves.Tell | modules/wavebuf/wavebuf.c:124-158 | Everything kept leaves in one message, and every wavebuf behind gets just that, behind what it had; no others get anything |
| WaveRuntime.Waves.SendSubscribed | dmm_event.c:146-166 | The walk with a saved next subscriber, over a list that grows meanwhile, ends in the state the model of a finish says |
| WaveRuntime.Waves.Finish | dmm_wave.c:25-45 | The whole finish refines one step of the model, and each wavebuf gets what those before it sent during it; the event is gone |
| Sockevents.Translations | dmm_sockevent.c:38-61 | Translating there and back gives the asked mask |
| Sockevents.AskedBits | dmm_sockevent.c:38-46 | epoll is asked for input exactly when the node asked for input, for output exactly when it asked for output, and for nothing else |
| Sockevents.ToldBits | dmm_sockevent.c:51-61 | Input is told exactly when epoll reports input, output exactly for output, an error exactly for any other bit |
| Sockevents.OneEventAnFd | dmm_sockevent.c:63-130 | At most one event for an fd |
| Sockevents.UnrefOk | dmm_sockevent.c:145-154 | Letting go frees the event exactly when nobody is subscribed, and list and epoll stay mirror images |
| Sockevents.SockeventList.Fd2Ref | dmm_sockevent.c:21-31 | Found exactly when epoll knows the fd, and held |
| Sockevents.SockeventList.EventUnref | dmm_sockevent.c:145-154 | An event without subscribers leaves list, epoll and memory; any other stays |
| Sockevents.SockeventList.Subscribe | dmm_sockevent.c:63-130 | The table of fds, masks and subscribers afterwards, the bits epoll then waits for, and the result, for every outcome of memory and epoll |
| Sockevents.SockeventList.SubscribeNew | dmm_sockevent.c:76-90 | A new fd is in list and epoll exactly if the node could be subscribed |
| Sockevents.SockeventList.SubscribeKnown | dmm_sockevent.c:91-122 | The new mask holds for all subscribers, even if the node itself could not be subscribed |
| Sockevents.SockeventList.Unsubscribe | dmm_sockevent.c:132-143 | One subscriber less, and with the last one the fd is gone from list and epoll |
| Sockevents.SockeventList.EventUnsubscribe | dmm_event.c:110-141 | With nobody holding the event, its last subscriber takes list entry and interest along |
| Sockevents.SockeventList.NodeGoes | dmm_event.c:46-51 | A node that goes is out of every event; what it alone was subscribed to is gone from list and epoll |
| Sockevents.SockeventList.Perform | dmm_sockevent.c:63-143 | What each command does to the table, with list and epoll mirror images |
| Sockevents.SockeventList.RunHandler | dmm_sockevent.c:175-177 | Handlers subscribe, unsubscribe and remove nodes, every command with its effect: list and epoll stay mirror images; whether the saved record stays is told exactly |
| Sockevents.SockeventList.TellOne | dmm_event.c:152-163 | One turn of the walk, with nobody holding the event: its handler runs, the next one is the one saved before |
| Sockevents.SockeventList.SendSubscribed | dmm_event.c:146-166 | The walk turn by turn from the first subscriber; list and epoll are mirror images, and with idle handlers every subscriber is told in order |
| Sockevents.IdleWalk | dmm_event.c:152-163 | Any walk whose handlers do nothing tells every subscriber, each once and in order, and changes nothing |
| Sockevents.SockeventList.Trigger | dmm_sockevent.c:159-178 | Subscribers are told of input, output and errors bit by bit as epoll reports them; the counts stay right exactly when there is memory for the message, and exactly for one subscriber without memory the program ends |
| Sockevents.LastSubscriberAborts | dmm_sockevent.c:166-170 | A sound state with one subscriber in which giving back the reference fails the assertion |
| Sockevents.SockeventList.RunAll | dmm_sockevent.c:63-154 | Every run of subscriptions, departures and reports, each step with its effect: at most one event an fd, list and epoll mirror images, each event with a subscriber, until a report finds no memory |
| Derivatives.StoredMatches | modules/derivative/derivative.cc:184-255 | The stored vector has the room its number of elements needs, at every point of the message |
| Derivatives.DerivedAt | modules/derivative/derivative.cc:179-256 | Each datanode with a stored vector of equal length has its rate in the output, in the order of the source |
| Derivatives.RatesAt | modules/derivative/derivative.cc:222-241 | The k-th float is the rate of the k-th slices, one element each |
| Derivatives.RateOfElements | modules/derivative/derivative.cc:221-241 | The output has, behind the rates of the datanodes before, one datanode of the configured output sensor whose k-th float is the rate of the k-th element of the payload and the k-th stored, over the time since it was stored |
| Derivatives.StoredLatest | modules/derivative/derivative.cc:244-255 | The stored vector is that of the last datanode of the sensor before in the message, or else the one stored before the message |
| Derivatives.DerivedFrom | modules/derivative/derivative.cc:179-256 | Every datanode of the output comes from one whose sensor is configured and has a stored vector of as many elements |
| Derivatives.DerivedFits | modules/derivative/derivative.cc:221-241 | No rate is a terminator or too long |
| Derivatives.WriteRates | modules/derivative/derivative.cc:221-242 | One datanode of rates is written, nothing else |
| Derivatives.Resize | dmm_base.c:542-557 | A buffer of the new size with the same beginning |
| Derivatives.DerivativeNode.MergeSensorDesc | modules/derivative/derivative.cc:91-106 | The configuration afterwards; the node stays in order exactly when the output sensor is not zero and no vector is stored for the sensor or its room is right for the new type |
| Derivatives.RetypedMismatch | modules/derivative/derivative.cc:91-106 | Declaring a sensor 8 bytes wide that was 4 leaves a stored vector of the wrong room, unless it has no elements |
| Derivatives.TwoInts | modules/derivative/derivative.cc:91-106 | Two int32 values, then declared int64 |
| Derivatives.DerivativeNode.MakeRoom | modules/derivative/derivative.cc:186-209 | Room for the rates and a terminator; a reallocation at least doubles, and is made only when needed |
| Derivatives.DerivativeNode.Take | modules/derivative/derivative.cc:179-256 | One datanode: output, stored vectors and room stay what they should be |
| Derivatives.DerivativeNode.DeriveAll | modules/derivative/derivative.cc:170-256 | The loop over the message: all rates owed are in the buffer, the latest vectors are stored |
| Derivatives.DerivativeNode.Close | modules/derivative/derivative.cc:257-263 | The final shrink leaves the message and no byte more |
| Derivatives.DerivativeNode.RcvData | modules/derivative/derivative.cc:155-273 | What leaves reads as exactly the rates owed and fills its buffer exactly; k reallocations from room C for S bytes satisfy 2^(k-1) C < S |
| LinkedCells.InsertHead | queue.h:420-426 | The sequence with the element in front |
| LinkedCells.InsertAfter | queue.h:403-410 | The sequence with the element behind the given one |
| LinkedCells.Remove | queue.h:434-445 | The sequence without the element, which still knows where it was |
| LinkedCells.RemoveAgain | queue.h:434-445 | A second removal with nothing in between changes nothing |
| LinkedCells.WavefinishRm | dmm_wave.c:116-131 | Unlinked twice, removed once |
| LinkedCells.InsertedBetween | queue.h:434-445 | With an insertion at the same place in between, wherever that is, the second removal takes the inserted element out |

## Left out

Assumptions, with their reason in the code:

* Handlers: constructors, `newhook`, `rmhook` and destructors of nodes do not call back into the runtime; `rcvdata` and
  `rcvmsg` may do anything, but a walk over peers or subscribers goes on only while the current entry (peers) or the
  saved record (subscribers) is still in place, since the walk would otherwise follow a freed cell.
* Timer handlers do not set or unset the timer that is triggering and do not set, unset or remove the saved next timer;
  a command that does is skipped. The pass is not bounded by what was behind when handlers set timers to times up to
  its limit, or change only an interval, which may put an old time back on the list.
* Reference counts and ids do not wrap; clock reads succeed; timespecs are normalised.
- Schedulers.Scheduler.TimerSet: a time in the past is not refused, although the comment at dmm_timer.c:145-146 says so, because the code does not refuse it.
- Schedulers.Scheduler.SetById: an id that is not found is skipped, where the code at dmm_base.c:789-806 goes on with a null pointer; the same holds for the next two. A setting whose assertion would fail is required not to be asked for, as the program would end there.
- Schedulers.Scheduler.SubscribeById: an id that is not found is skipped.
- Schedulers.Scheduler.UnsubscribeById: an id that is not found is skipped.
- Schedulers.Scheduler.Perform: a command for an id that is not found is skipped, and so is a setting whose assertion would fail.
- Schedulers.Scheduler.TimersTrigger: assumes memory for the trigger message; without it the code tells no subscriber, but puts the timer back as if it had. A one-shot timer is only taken off the list, where the comment at dmm_timer.c:149 says removed.
- Runs.Apply: timer, socket and wave-finish commands are not among the actions of these runs; they have runs of their own in Scheduler, Sockevent and WaveRuns.
- Runs.RunAll: the same; of a timer its event, its registration and its removal are part of these runs, its times are not.
- Runs.Trigger: assumes that copies of the message can be allocated; a subscriber without one is passed over, with a line in the log.
- Runs.RemoveEvent: of the trigger list only the reference; its order is in Scheduler.
- WaveRuntime.Waves.Tell: every wavebuf has its out hook and memory for its message; Wavebufs.WavebufNode.Finish states what happens otherwise.
- WaveRuntime.Waves.Finish: the references of the event and its two unlinkings are one step here; LinkedCells.WavefinishRm and the event runs of Runs have them apart.
- WaveRuntime.Waves.RcvData: assumes memory for the subscription; without it the code keeps the message unsubscribed, which is the stuck state.
- WaveRuntime.Waves.SendSubscribed: assumes that no subscriber is removed while others are told and that copies of the message can be allocated; wavebufs must not send in a circle, or the walk need not end.
- Demux.DemuxNode.RcvData: requires a well-formed message, as the code walks up to the terminator without a bound; so do wavebuf and derivative.
- Derivatives.DerivativeNode.RcvData: assumes that reallocation succeeds, that payloads are whole elements and that output sensors are not zero; after a failed reallocation the code neither records the value, as its comment says, nor remembers the old size. The difference of two elements is an arbitrary function to four bytes.
- Derivatives.Resize: reallocation succeeds, and so for MakeRoom, Take, DeriveAll and Close below.
- Derivatives.DerivativeNode.MakeRoom: reallocation succeeds.
- Derivatives.DerivativeNode.Take: reallocation succeeds.
- Derivatives.DerivativeNode.DeriveAll: reallocation succeeds.
- Derivatives.DerivativeNode.Close: reallocation succeeds.
- Sockevents.SockeventList.Subscribe: assumes that fds are not closed while registered and that epoll's MOD succeeds.
- Sockevents.SockeventList.SubscribeKnown: assumes that epoll's MOD succeeds.
- Sockevents.SockeventList.EventUnref: assumes that epoll's DEL finds the fd.
- Runtimes.Runtime.NodeConnect: the destination is given as a node, not looked up by address; node names are not modelled.

Not modelled:

* the `switch` of dmm_msg_process_generic beyond the commands above, responses and their tokens, dmm_startup
* references to messages and data buffers; dmm_data_passtohook and dmm_msg_apply return without releasing on some paths
* dmm_wavefinish_unsubscribe, TAILQ and STAILQ as linked cells (their walks are modelled on sequences), LIST_SWAP
* overlapping lives of one event in several lists: timers, wave-finish and socket events each have their own state here
* the type registry and module loading (dmm_module.c), logging
* sensors, printers, net/ip, luacontrol, starter and aggregateall
