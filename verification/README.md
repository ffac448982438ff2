# Input hand-off on the sink: a Dafny model

A *sink* device owns keyboards, mice, touchpads and touchscreens; a *source* device may borrow them. For every physical
event the sink decides whether it stays local or goes to the source, while sharing is switched on and off by commands
from several sessions. This project models that machine and proves what it keeps over every run.

| file | what it models |
|---|---|
| `InputEvents`, `SeqFacts` | raw events, what a source makes of the events sent to it, sequence facts |
| `KeyDownList`, `TouchFragments`, `SinkTransport`, `SinkState` | recorded keys, recorded touchpad frames, message batching, and the state that is replayed when sharing starts |
| `SessionSwitch`, `StringCodec`, `SharingBooks`, `SharingRoutes` | session switches, id lists in strings, the copies of "what is shared", and the session that shared devices are sent to |
| `SinkSystem` | the sink as one step machine: a sharing command or a physical event at a time |
| `Deliveries` | what each session is sent of a device, signal by signal, over every run of that machine |
| `Ledgers`, `KeyHandOff`, `TouchHandOff` | what the source at each session then shows |
| `TouchScreen`, `WordMasks`, `KeyBitmap`, `Hub`, `PollReads`, `SinkManager`, `CollectorTurn` | the in-place frame filter, bitmap scans, the polling hub and what it reads, the command handlers, and the proof that any sequence of handlers and turns is a run of the machine |
| `Decimal`, `WhiteListIndex`, `WhiteListParser` | the white list of key combinations: parser, enumeration into a hash set, lookup |

The classes carry the source's fields and loops. Each of their methods is proved equal to a function on values, and the
theorems are about those functions. A source is what one session was sent: for each session and device a set of held
keys, folded over the messages to that session in the order they were sent. The hand-off theorems compare it with the
device itself: a key is *missing* at a session if it is held and not shown there, and *stuck* if it is shown and not held.

## What the proofs found

The code differs from the intended behaviour in these cases. Each is kept as it is, with the exact condition proved.

- Everything shared is sent to one session, the earliest added one that is on. With two borrowers the second one gets
  nothing, and a key that it saw going down stays down there (`KeyHandOff.SecondBorrowerKeepsKey`,
  `FirstBorrowerGetsAll`). Devices go to the sessions that hold them in every state of a run exactly if every start fits
  the books it finds: its session becomes the open one, and no other session has an id that is or will be shared
  (`SharingRoutes.RoutedIffStartsFit`). `SharingRoutes.OpenedChangesIff` says when a device that stays shared changes its
  session.
- A key released while its device is not shared, after sharing stopped with it held, stays down at the source, unless it
  is the left button of a mouse (`KeyHandOff.StopWhileHeldLeavesKeyStuck`, `StuckFromTheStart`). With starts that fit,
  hand-off is exact in every state of a run exactly if sharing only stops with no key held
  (`KeyHandOff.ExactIffStopsWithKeysUp`).
- The release of the left button is passed on just at a mouse, while no other key is recorded, and to the session of the
  last start or stop (`KeyHandOff.ReleaseStaysIff`). So after stopping with the left button held, a press of the right
  button before the left one is released leaves the left one down at the source (`OtherPressKeepsLeft`,
  `LeftStuckFromTheStart`). `LeftKnownIffCareful` says exactly which runs may stop with the left button held.
- A touchpad press alone in its frame is dropped from the buffer. A later start then shows the finger exactly if the first
  scan found it down or the session showed it before (`TouchHandOff.BarePressShownIff`, `LostFromTheStart`).
- What a touchpad does while another session is served is not recorded: if that one stops with the finger down, the next
  session to start is not told of it (`TouchHandOff.StartAfterStop`, `StopByOtherLosesFinger`).
- The first scan files a finger found on a touchpad among the pressed keys, and no event of the touchpad takes it out, so
  a finger that is lifted before the first start is put down there (`TouchHandOff.StaleScanFromTheStart`).
- All three are one condition: for alternating touches, a start shows the finger wrong exactly if nothing retained speaks
  of it and what the scan found or the session showed is not how it is (`TouchHandOff.StartRightIff`).
- The lift of a touch that sharing left at a session is sent to the session of the last start or stop, whatever device
  that was about. It takes the touch away exactly if the two are the same and the first frame retained presses no finger
  (`TouchHandOff.ResetReachesIff`).
- With starts that fit, a touchpad is handed off right in every state of a run exactly if every step avoids these cases
  (`TouchHandOff.FingerKnownIffCareful`).
- A stop can take an id from the shared set that only another session has; exactly then the sets of the sessions cover
  more than is shared (`SharingRoutes.CommandLeavesStaleIff`).
- A start command that names an id of no attached device makes the copies of "what is shared" differ, exactly then, and
  the id can stay shared without any session (`SharingBooks.StartKeepsCopiesIff`, `UnattachedStartIsOrphaned`).
- A start that names no id turns its session on although nothing is shared (`SharingBooks.EmptyStartOpens`). In every
  state of a run a session is on only while something is shared exactly if no start does that while nothing is shared
  (`QuietIffStartsNameIds`).
- A device that is not shared is read only as far as the shared devices before it have left room in the collected
  buffer, and the call then passes on: its events are all recorded exactly if they fit, and the rest waits for the next
  poll (`PollReads.RecordedWholeIff`). Of shared devices no event is passed over (`CallsCollectAll`).
- The window offset casts the quotient before scaling it, so it is zero for every window inside the screen
  (`TouchScreen.OffsetIsPositionIff`).
- The frame scan collects a frame twice when an event behind it starts no frame and ends none
  (`TouchScreen.PairsRepeatIff`). Its inner scan takes a closing SYN_REPORT for the X event, which is then never
  rewritten (`SynTakesX`).
- Resetting a virtual device leaves the key KEY_MAX pressed (`KeyBitmap.ResetLeavesOnlyLast`).
- A physical path too long for the buffer of the node manager is read back with its dhId cut
  (`StringCodec.LongPathIsCut`).
- White-list hashes are never taken back (`WhiteListIndex.HashesAreOfAllSyncs`, `ClearedListStillFilters`), and codes of
  different widths can share a text (`TextsOfDifferentWidthsCollide`). A line whose last column has several codes loses
  that column (`WhiteListParser.PrintParse`).
- A comment above `GetSwitchOpenedSession` promises -1 when no session is open
  (`services/sink/transport/src/distributed_input_sink_switch.cpp:172`); the code returns -64003, and so does the model.

## Model

| member | source | states |
|---|---|---|
| Deliveries.LogIsTold | services/state/src/dinput_sink_state.cpp:100-171 | for any run and any events: what a session was sent of a keyboard, mouse or touchpad, signal by signal and in order, is what the story of the steps says: forwarded events at the open session, replays at the starting one, sent-back frames and left-button releases at the session of the last start or stop, and nothing else |
| Deliveries.StartTells | services/state/src/dinput_sink_state.cpp:118-171 | a start adds to what its session was sent the recorded keys in the order they last went down or repeated, each followed by a SYN, and then everything retained of the touchpad's events since its buffer was emptied; nothing to any other session |
| KeyHandOff.SourceShowsHeldKeys | common/include/input_hub.cpp:203-210 | in every reachable state, and for every session, the source shows the held keys without the missing and with the stuck ones; a key gets missing or stuck just by going down or up without that session being told |
| KeyHandOff.ExactIffStopsWithKeysUp | services/sink/sinkmanager/src/distributed_input_sink_manager.cpp:319-360 | for runs whose starts fit: in every state the open session shows exactly the held keys of the shared device, any other session none, and the recorded list is complete while it is not shared, exactly if sharing of the device only stops with its keys up |
| KeyHandOff.HandOffExactWhenStartsFit | common/include/input_hub.cpp:265-285 | under that condition the session that holds the shared device shows exactly its held keys and every other one shows none, in every reachable state |
| KeyHandOff.LeftKnownIffCareful | common/include/input_hub.cpp:271-279 | the same with stops that leave the left button held: in every state the hand-off is exact but for a left button that is still held, exactly if every step is careful: stops leave no other key held, and a left-over button comes up at a mouse with no key recorded, before another session is the last to start or stop |
| KeyHandOff.HandOffExactButLeft | common/include/input_hub.cpp:265-285 | under that condition the holder of the shared device shows exactly its held keys, every other session none, and while it is not shared a session shows at most the left button, and only as long as that is held |
| KeyHandOff.ReleaseStaysIff | common/include/input_hub.cpp:271-279 | a release while not shared leaves the key shown at a session exactly if it was, unless it is the left button of a mouse, no key is recorded and the session was the last to start or stop |
| KeyHandOff.HoldersServedIff | services/sink/transport/src/distributed_input_sink_transport.cpp:91-96 | a fresh press on a shared device reaches every session that holds it exactly if each of them is the open one |
| KeyHandOff.SecondBorrowerKeepsKey | services/sink/transport/src/distributed_input_sink_switch.cpp:173-187 | from the beginning: one session has a device, another one borrows a second device with a key down, and the release goes to the first |
| KeyHandOff.FirstBorrowerGetsAll | services/sink/transport/src/distributed_input_sink_switch.cpp:173-187 | a key pressed after the second start reaches the session that never borrowed its device, and not the one that did |
| KeyHandOff.StopWhileHeldLeavesKeyStuck | services/sink/sinkmanager/src/distributed_input_sink_manager.cpp:319-360 | from any reachable shared state, after stopping while a key is held, releasing it and starting again, the source shows it exactly if it did before and it is not the left button of a mouse |
| KeyHandOff.StuckFromTheStart | services/sink/sinkmanager/src/distributed_input_sink_manager.cpp:319-360 | the same as a run from the beginning, for any keyboard or mouse and any key but the left button |
| KeyHandOff.OtherPressKeepsLeft | common/include/input_hub.cpp:271-279 | from any reachable shared state with the left button held and shown: stopping, pressing another key and releasing the left button leaves it down at the source, at a mouse too |
| KeyHandOff.LeftStuckFromTheStart | common/include/input_hub.cpp:271-279 | the same as a run from the beginning |
| KeyHandOff.RunKeepsKeyInv | services/state/src/dinput_sink_state.cpp:118-240 | the recorded list of a device is at every moment the distinct keys seen going down or repeating since it was last shared |
| KeyHandOff.KeyEventRecorded | common/include/input_hub.cpp:265-285 | one recorded event changes list and source as an observer expects; the release of the left mouse button is passed on to the session of the last start or stop |
| KeyHandOff.KeyCommand | services/sink/sinkmanager/src/distributed_input_sink_manager.cpp:288-360 | a start that names the device tells its own session the recorded keys and erases them; no other command tells a source anything |
| TouchHandOff.SourceShowsTouchpad | services/state/src/touchpad_event_fragment_mgr.cpp:46-113 | in every reachable state, for every key of a touchpad and every session, whatever the events, the source shows the held keys without the missing and with the stuck ones |
| TouchHandOff.StartShows | services/state/src/dinput_sink_state.cpp:118-171 | a start shows of each key the last word retained of the record, and without one whether the first scan found it or the session showed it |
| TouchHandOff.FingerKnownIffCareful | services/state/src/touchpad_event_fragment_mgr.cpp:46-113 | for alternating touches and starts that fit, wherever in a frame sharing is switched: in every state the open session shows the finger as it is, any other one none, and while not shared a start would make it so, exactly if every step is careful |
| TouchHandOff.HandOffExactWhenCareful | services/state/src/dinput_sink_state.cpp:112-171 | if no scan that is over is replayed, other sessions start with no touch left at this one and stop with the finger up, press frames have three events unless the scan still speaks for the finger, and a left-over touch is lifted while the session is the last to start or stop: the holder of the shared touchpad shows the finger as it is, every other session none, and while not shared at most a touch left over whose lifting frame is not complete |
| TouchHandOff.StartAfterStop | services/sink/sinkmanager/src/distributed_input_sink_manager.cpp:288-360 | from any reachable shared state a stop by any session and a start leave the starting session with what it showed before |
| TouchHandOff.StopByOtherLosesFinger | services/sink/sinkmanager/src/distributed_input_sink_manager.cpp:288-360 | from the beginning: one session borrows the touchpad, the finger goes down, that session stops, another one starts and is not told |
| TouchHandOff.StartRightIff | services/state/src/dinput_sink_state.cpp:118-171 | in every state of alternating touches a start shows the finger right exactly if something retained speaks of it, or else the scan or the session agree with it |
| TouchHandOff.StaleScanFromTheStart | common/include/input_hub.cpp:245-263 | from the beginning: the scan finds the finger, it lifts, and the first start puts it down at the source |
| TouchHandOff.ResetReachesIff | services/state/src/dinput_sink_state.cpp:112-116 | in every state of alternating touches a lifting frame takes a touch from a session exactly if that was the last one to start or stop and the first retained frame presses no finger |
| TouchHandOff.BarePressShownIff | services/state/src/touchpad_event_fragment_mgr.cpp:84-88 | from any reachable unshared state between frames with the finger up, a press alone in its frame and a start show the finger exactly if the first scan found it or the session showed it |
| TouchHandOff.LostFromTheStart | services/state/src/touchpad_event_fragment_mgr.cpp:84-88 | from the beginning: prepare, a press alone in its frame and a start leave the finger down at the device and up at the source |
| TouchHandOff.RunKeepsTouchInv | common/include/input_hub.cpp:203-215 | the buffer always stands for the events recorded since it was emptied, and each source for what its session was told |
| TouchFragments.PushFollowsHistory | services/state/src/touchpad_event_fragment_mgr.cpp:46-89 | a push against the history of events: a lifting frame empties the buffer and hands out exactly the retained events unless the first retained frame presses; anything else joins the history |
| TouchFragments.BufferHoldsRetained | services/state/src/touchpad_event_fragment_mgr.cpp:46-113 | after any run of pushes, takes and clears the buffer joins to the events since it was emptied without position events and two-event frames, and every device's list has the frame shape |
| TouchFragments.LiftReturnsRetained | services/state/src/touchpad_event_fragment_mgr.cpp:64-82 | what a push returns in any reachable state |
| TouchFragments.PushKeepsShape | services/state/src/touchpad_event_fragment_mgr.cpp:52-88 | closed fragments end in their only SYN_REPORT, lift no finger and are not of size two; the last one has no SYN_REPORT |
| TouchFragments.RetainedIsOffAxis | services/state/src/touchpad_event_fragment_mgr.cpp:46-50 | no event of the four position codes is retained, and of a frame that is still open every other one is |
| TouchFragments.ScanTouch | services/state/src/touchpad_event_fragment.cpp:29-53 | the start and finish tests find a touch event of their value exactly if there is one |
| TouchFragments.JoinAll | services/state/src/touchpad_event_fragment_mgr.cpp:105-109 | the fragments joined in order |
| TouchFragments.TouchPadEventFragmentMgr.PushEvent | services/state/src/touchpad_event_fragment_mgr.cpp:46-62 | the class's buffer and result are those of one push; a refused position event makes no entry |
| TouchFragments.TouchPadEventFragmentMgr.DealSynEvent | services/state/src/touchpad_event_fragment_mgr.cpp:64-89 | the finish test comes before the drop test; what is returned and what is left |
| TouchFragments.TouchPadEventFragmentMgr.GetAndClearEvents | services/state/src/touchpad_event_fragment_mgr.cpp:97-113 | all fragments joined in order, and the entry is gone |
| KeyDownList.ListFollowsCounter | services/state/src/dinput_sink_state.cpp:180-240 | over any stream a key is listed as often as the counter "down adds one, up removes one, repeat raises to one" says, and no empty list is kept |
| KeyDownList.RepeatMovesItsKeyLast | services/state/src/dinput_sink_state.cpp:206-240 | a repeat leaves its key last, all others in order, and loses no entry |
| KeyDownList.ReleaseTakesOldest | services/state/src/dinput_sink_state.cpp:186-204 | a release takes the oldest entry of its key if there is one, keeps all others of the device in order and the lists of other devices, and an emptied list goes |
| KeyDownList.ReleaseMatches | common/include/constants_dinput.h:256-260 | a release finds a key by kind, code, device and node, whatever its time and value, and leaves every other entry |
| SinkState.DInputSinkState.AddKeyDownState | services/state/src/dinput_sink_state.cpp:180-184 | appends without looking for the key |
| SinkState.DInputSinkState.RemoveKeyDownState | services/state/src/dinput_sink_state.cpp:186-204 | removes the first entry of the key, and the list when it gets empty |
| SinkState.DInputSinkState.CheckAndSetLongPressedKeyOrder | services/state/src/dinput_sink_state.cpp:206-240 | the four cases of a repeat as one function of the old lists |
| SinkState.DInputSinkState.SimulateKeyDownEvents | services/state/src/dinput_sink_state.cpp:133-150 | sends each recorded key down and a SYN, in order, and drops the entry |
| SinkState.DInputSinkState.SimulateKeyDownEvent | services/state/src/dinput_sink_state.cpp:152-159 | adds exactly two signals, for a positive session |
| SinkState.DInputSinkState.SimulateTouchPadEvents | services/state/src/dinput_sink_state.cpp:161-171 | sends the joined fragments and drops them |
| SinkState.DInputSinkState.SimulateEventInjectToSrc | services/state/src/dinput_sink_state.cpp:118-131 | replays the named devices in turn, keys before touch |
| SinkState.DInputSinkState.Record | services/state/src/dinput_sink_state.cpp:58-72 | replays only on a start, and remembers the session in any case |
| SinkState.DInputSinkState.MatchAndDealEvent | common/include/input_hub.cpp:245-285 | what recording one event sends and stores, for touchpads and for others |
| SinkTransport.DistributedInputSinkTransport.SendKeyStateNodeMsgBatch | services/sink/transport/src/distributed_input_sink_transport.cpp:235-259 | the batches carry the events in order, all full but the last, which is not empty |
| SinkTransport.DistributedInputSinkTransport.SendInBatches | services/sink/transport/src/distributed_input_sink_transport.cpp:244-258 | the loop keeps every batch but the last full and loses no event |
| SinkTransport.CarriesDelivers | services/sink/transport/src/distributed_input_sink_transport.cpp:245-258 | cutting into batches is invisible to the receiver |
| SinkTransport.BatchCount | services/sink/transport/src/distributed_input_sink_transport.cpp:245-258 | there are as many batches as twenty events each require |
| SharingBooks.SharingNeverOrphaned | services/sink/sinkmanager/src/distributed_input_sink_manager.cpp:288-437 | over every run of prepare, unprepare, start and stop from any sessions, all four copies of the shared set agree, every shared id is held by a session that is on, and while anything is shared a session is open |
| SharingBooks.CommandKeepsCoherent | services/sink/sinkmanager/src/distributed_input_sink_manager.cpp:533-575 | each command keeps that, unprepare through its joined and split id list |
| SharingBooks.CoherentIsOpen | services/sink/transport/src/distributed_input_sink_transport.cpp:91-96 | while anything is shared the forwarding step finds a positive session |
| SharingBooks.StartKeepsCopiesIff | common/include/input_hub.cpp:1231-1254 | a start keeps the copies equal just when every id it names is attached |
| SharingBooks.UnattachedStartIsOrphaned | common/include/input_hub.cpp:1239-1250 | an unattached id stays shared with no session open after prepare, start and unprepare |
| SharingBooks.QuietIffStartsNameIds | services/sink/sinkmanager/src/distributed_input_sink_manager.cpp:335-359 | over every run, no session is ever on while nothing is shared, exactly if no start names no id while nothing is shared |
| SharingBooks.OpenIffShared | services/sink/transport/src/distributed_input_sink_switch.cpp:173-187 | under that condition a session is open exactly while something is shared, and otherwise every switch is off |
| SharingBooks.LastStopTurnsOff | services/sink/sinkmanager/src/distributed_input_sink_manager.cpp:335-359 | after a stop that leaves nothing shared no session is on; after an unprepare none either if anything was shared before it, and otherwise the others stay as they were |
| SharingBooks.EmptyStartOpens | services/sink/sinkmanager/src/distributed_input_sink_manager.cpp:288-317 | from any state with nothing shared and no session on, a start without ids leaves its session on and nothing shared |
| SharingBooks.EntriesStayFull | services/sink/sinkmanager/src/distributed_input_sink_manager.cpp:533-575 | a session has an empty entry only after a start without ids |
| SharingBooks.StopsOnlyHolders | services/sink/sinkmanager/src/distributed_input_sink_manager.cpp:533-558 | without empty entries a stop takes all that it names from what is shared if its session has any id, and otherwise nothing |
| SharingBooks.KnownIffPrepared | services/sink/transport/src/distributed_input_sink_switch.cpp:50-160 | over every run a session is known exactly if it was prepared since it was last unprepared |
| SharingRoutes.RoutedIffStartsFit | services/sink/transport/src/distributed_input_sink_switch.cpp:173-187 | a run keeps every session that holds a shared id the open one exactly if every start finds books that it fits |
| SharingRoutes.CommandRoutedIff | services/sink/sinkmanager/src/distributed_input_sink_manager.cpp:288-437 | of all commands only a start that does not fit breaks that |
| SharingRoutes.OpenedChangesIff | services/sink/transport/src/distributed_input_sink_switch.cpp:50-160 | a device that stays shared changes its session exactly when one added before the open one starts, or the open one is unprepared after its set is gone |
| SharingRoutes.RouteOfSharing | services/sink/sinkmanager/src/distributed_input_sink_manager.cpp:288-360 | while the routing is kept, a shared device keeps its session, and a new one goes to the session that started it |
| SharingRoutes.CommandLeavesStaleIff | services/sink/sinkmanager/src/distributed_input_sink_manager.cpp:533-558 | the sets of the sessions stay within what is shared exactly until a session with an entry stops an id that another one has |
| SharingRoutes.NoneStaleIsUnion | services/sink/sinkmanager/src/distributed_input_sink_manager.cpp:533-575 | until then the shared set is the union of the sets of the sessions |
| SinkManager.DistributedInputSinkManager.StoreStartDhids | services/sink/sinkmanager/src/distributed_input_sink_manager.cpp:560-575 | adds the ids to the totals and to the session's set |
| SinkManager.DistributedInputSinkManager.DeleteStopDhids | services/sink/sinkmanager/src/distributed_input_sink_manager.cpp:533-558 | a session without entry stops nothing; otherwise the ids go from both, and an empty set goes with its entry |
| SinkManager.DistributedInputSinkManager.ReportDhIdSharingState | services/sink/inputcollector/src/distributed_input_collector.cpp:189-210 | the client's set gains the shared ids and loses the others |
| SinkManager.DistributedInputSinkManager.OnPrepareRemoteInput | services/sink/sinkmanager/src/distributed_input_sink_manager.cpp:131-149 | the handler is one step of the machine |
| SinkManager.DistributedInputSinkManager.OnStartRemoteInputDhid | services/sink/sinkmanager/src/distributed_input_sink_manager.cpp:288-317 | the handler, over hub, switches, recorded state and client, is one step of the machine |
| SinkManager.DistributedInputSinkManager.Share | services/sink/sinkmanager/src/distributed_input_sink_manager.cpp:314-316 | hub, manager and client take the ids; only attached ones reach manager and client |
| SinkManager.DistributedInputSinkManager.OnStopRemoteInputDhid | services/sink/sinkmanager/src/distributed_input_sink_manager.cpp:319-360 | the handler is one step of the machine |
| SinkManager.DistributedInputSinkManager.Unshare | services/sink/sinkmanager/src/distributed_input_sink_manager.cpp:327-334 | all four copies lose the ids that the session may stop |
| SinkManager.DistributedInputSinkManager.OnUnprepareRemoteInput | services/sink/sinkmanager/src/distributed_input_sink_manager.cpp:151-165 | the handler, with its id list joined and split again, is one step of the machine |
| SinkManager.DistributedInputSinkManager.StopSwitches | services/sink/sinkmanager/src/distributed_input_sink_manager.cpp:335-359 | all switches go off just when nothing is shared any more |
| SinkManager.DistributedInputSinkManager.CollectAndForward | services/sink/inputcollector/src/distributed_input_collector.cpp:117-152 | a turn polls once and sends what was collected to the open session, changes no book, and is the run of the machine over the events recorded and those collected |
| SinkManager.DistributedInputSinkManager.CheckTargetKeyState | common/include/input_hub.cpp:1542-1591 | the keys found by the first scan are where every later run starts |
| SinkManager.DistributedInputSinkManager.KeysShown | services/sink/sinkmanager/src/distributed_input_sink_manager.cpp:288-437 | after any calls of handlers and turns, the source at each session shows of a keyboard or mouse what the hand-off theorem says |
| SinkManager.DistributedInputSinkManager.TouchpadShown | services/sink/sinkmanager/src/distributed_input_sink_manager.cpp:288-437 | the same for a touchpad |
| SinkManager.DistributedInputSinkManager.SentIsTold | services/sink/sinkmanager/src/distributed_input_sink_manager.cpp:288-437 | after any calls of handlers and turns, what each session was sent of a device is what the story of that history says |
| SinkManager.DistributedInputSinkManager.SharingSurvivesJoin | services/sink/sinkmanager/src/distributed_input_sink_manager.cpp:154-157 | the ids of the shared devices survive joining and splitting |
| CollectorTurn.TurnIsSteps | common/include/input_hub.cpp:180-222 | a whole turn leaves the sink where single events lead, those recorded of unshared devices first, then those collected of shared ones; of a touchscreen they are the projected events that pass the frame filter |
| CollectorTurn.RecordedBurstIsSteps | common/include/input_hub.cpp:287-307 | recording a read buffer is taking its events one at a time |
| CollectorTurn.SharedStepsAreSent | services/sink/transport/src/distributed_input_sink_transport.cpp:83-96 | events of shared devices arrive in order at the open session |
| SinkSystem.SimulateAllSeen | services/state/src/dinput_sink_state.cpp:118-171 | replaying several devices, with repeats, is for each one of them a single replay of its own state |
| SinkSystem.CommandSeen | services/state/src/dinput_sink_state.cpp:118-131 | a command sends a session something of a device just if it is a start of that session that names the device, and then the recorded state of that device once |
| SinkSystem.ForwardedSeen | services/sink/transport/src/distributed_input_sink_transport.cpp:91-96 | an event of a shared device changes what the source at the open session shows, and no other |
| SinkSystem.OthersLeaveAlone | common/include/input_hub.cpp:203-215 | an event of another device changes nothing that is recorded for this one, nor what any source shows of it |
| SessionSwitch.RunRefinesMap | services/sink/transport/src/distributed_input_sink_switch.cpp:50-160 | over any run the vector is an insertion-ordered map with unique sessions |
| SessionSwitch.CallRefinesMap | services/sink/transport/src/distributed_input_sink_switch.cpp:50-160 | each call changes only its own session, or all for stop all |
| SessionSwitch.OpenedIsEarliest | services/sink/transport/src/distributed_input_sink_switch.cpp:173-187 | the open session is the earliest added one that is on; the error stands for none |
| SessionSwitch.DistributedInputSinkSwitch.StartSwitch | services/sink/transport/src/distributed_input_sink_switch.cpp:50-74 | succeeds exactly for added sessions |
| SessionSwitch.DistributedInputSinkSwitch.StopSwitch | services/sink/transport/src/distributed_input_sink_switch.cpp:76-97 | only the session's switch goes off |
| SessionSwitch.DistributedInputSinkSwitch.StopAllSwitch | services/sink/transport/src/distributed_input_sink_switch.cpp:99-110 | every switch goes off, no session goes |
| SessionSwitch.DistributedInputSinkSwitch.AddSession | services/sink/transport/src/distributed_input_sink_switch.cpp:112-136 | a new session is last and off; a known one is left alone |
| SessionSwitch.DistributedInputSinkSwitch.RemoveSession | services/sink/transport/src/distributed_input_sink_switch.cpp:138-160 | the session goes, the others keep order and switch |
| SessionSwitch.DistributedInputSinkSwitch.GetSwitchOpenedSession | services/sink/transport/src/distributed_input_sink_switch.cpp:173-187 | the loop returns the first session that is on, or the error |
| StringCodec.SplitJoinRoundTrip | utils/src/dinput_utils_tool.cpp:465-479 | splitting a joined list gives it back exactly if no element has the separator and the list is not one empty string |
| StringCodec.JoinOfSplit | utils/src/dinput_utils_tool.cpp:286-300 | joining what was split restores any string |
| StringCodec.JointDhIds | utils/src/dinput_utils_tool.cpp:465-472 | the fold joins with dots |
| StringCodec.SplitStringToVector | utils/src/dinput_utils_tool.cpp:286-300 | the loop appends exactly the stretches between separators, and nothing for the empty string |
| StringCodec.GetDevDhUniqueId | services/source/inputinject/src/distributed_input_node_manager.cpp:253-281 | the decoder, with its cut at the buffer size and its three refusals |
| StringCodec.PhysRoundTrip | services/source/inputinject/src/virtual_device.cpp:113-123 | a path that fits the buffer is read back exactly if no part has a bar and neither id is empty |
| StringCodec.LongPathIsCut | services/source/inputinject/src/distributed_input_node_manager.cpp:253-281 | of a longer path without bars in its parts the dhId is read back cut to the room that is left, and nothing without room |
| TouchScreen.CalculateTransformInfo | utils/src/dinput_context.cpp:157-189 | succeeds exactly if the extents are not zero, and writes only then |
| TouchScreen.AcceptedPointsStayOnScreen | common/include/input_hub.cpp:1484-1499 | with a computed transform every accepted point maps into the source's screen, and the mapping keeps order on each axis |
| TouchScreen.TransformIs | utils/src/dinput_context.cpp:164-173 | offsets and extents of a computed transform as quotients over naturals |
| TouchScreen.ComputableIff | utils/src/dinput_context.cpp:157-177 | a transform is computed exactly if the screen has extents and the window is at least one physical unit wide and high |
| TouchScreen.PointLands | common/include/input_hub.cpp:1493-1494 | an accepted point lands, on each axis, on the whole part of its distance from the window's edge, scaled from the window to the source's screen |
| TouchScreen.EdgesLand | common/include/input_hub.cpp:1490-1494 | the window is accepted up to its edges, which go to the edges of the source's screen |
| TouchScreen.OffsetIsPositionIff | utils/src/dinput_context.cpp:164-167 | the offset is the window's physical position exactly if the rest of the division scales to less than one unit |
| TouchScreen.PairsExact | common/include/input_hub.cpp:1436-1448 | the collected pairs are exactly the stretches from an X event to a SYN without another X event between |
| TouchScreen.PairsRepeatIff | common/include/input_hub.cpp:1443-1445 | a pair is collected twice exactly if a stray event follows a collected frame |
| TouchScreen.PairsAscend | common/include/input_hub.cpp:1443-1445 | the pairs are collected in the order of their ends |
| TouchScreen.OnlyPairsTouched | common/include/input_hub.cpp:1456-1481 | only values of coordinate-coded events inside pairs change, and only indices inside pairs get flagged |
| TouchScreen.FlaggedIff | common/include/input_hub.cpp:1470-1480 | an event ends up flagged exactly if it was before, or if a pair around it lacks a coordinate or is accepted by no screen when its turn comes |
| TouchScreen.TakenLands | common/include/input_hub.cpp:1484-1499 | the last coordinates of an accepted pair land on the first screen that accepts them, whose id becomes the touch id, and no other event or flag changes |
| TouchScreen.SynTakesX | common/include/input_hub.cpp:1460-1463 | in a frame closed by SYN_REPORT no X event is rewritten, and the value of the SYN decides whether a screen accepts it |
| TouchScreen.CollectPairs | common/include/input_hub.cpp:1432-1446 | the scan with its two indices that are never reset |
| TouchScreen.ScanPair | common/include/input_hub.cpp:1459-1468 | the last X and Y coded events of a pair |
| TouchScreen.FlagPair | common/include/input_hub.cpp:1470-1480 | exactly the indices of the pair are flagged besides those already flagged |
| TouchScreen.CheckTouchPointRegion | common/include/input_hub.cpp:1484-1499 | the first accepting screen rewrites two values in place; without one nothing changes |
| TouchScreen.PassInPlace | common/include/input_hub.cpp:1455-1481 | one pass over a pair: flagged if a coordinate or a screen is missing, rewritten otherwise |
| TouchScreen.HandleTouchScreenEvent | common/include/input_hub.cpp:1429-1482 | buffer and flags after the in-place passes are those of the passes on values |
| KeyBitmap.IsLengthExceeds | common/include/input_hub.cpp:1533-1540 | the length check refuses exactly the keys without a bit |
| KeyBitmap.TestBit | utils/src/dinput_utils_tool.cpp:281-284 | the word of the bit is in range |
| KeyBitmap.WithKeyAdds | utils/src/dinput_utils_tool.cpp:281-284 | in any bitmap, or-ing the doubled-up mask of a key into its word sets that key and no other |
| KeyBitmap.BitmapHasKeys | utils/src/dinput_utils_tool.cpp:281-284 | the set keys of a bitmap built that way from keys are exactly those that it has a word for |
| KeyBitmap.RangeSavesSetBits | common/include/input_hub.cpp:1569-1577 | a range scan records exactly its set bits below the limit, in ascending order |
| KeyBitmap.ResetPressedKeys | utils/src/dinput_utils_tool.cpp:409-433 | the events written are the release and SYN of each set key below KEY_MAX |
| KeyBitmap.ReleaseAll | utils/src/dinput_utils_tool.cpp:425-432 | one release and one SYN for each collected key |
| KeyBitmap.ReleasesAre | utils/src/dinput_utils_tool.cpp:425-432 | what is written is, for each key in turn, its release and then a SYN |
| KeyBitmap.ResetOfKeys | utils/src/dinput_utils_tool.cpp:409-433 | for a bitmap built from held keys the reset writes up each of them but KEY_MAX, in ascending order, and only KEY_MAX stays held |
| KeyBitmap.ResetLeavesOnlyLast | utils/src/dinput_utils_tool.cpp:391-437 | after the reset no key below KEY_MAX is held, and KEY_MAX is as it was |
| Hub.InputHub.SetSharingDevices | common/include/input_hub.cpp:1231-1254 | the shared map takes all ids, the flags and the report only those of attached devices |
| Hub.InputHub.SetSharing | common/include/input_hub.cpp:1236-1251 | one id: the map entry, and the flag of the first device that has it |
| Hub.InputHub.GetSharingDevices | common/include/input_hub.cpp:1256-1267 | the descriptors of exactly the flagged devices |
| Hub.InputHub.IsAllDevicesStoped | common/include/input_hub.cpp:1351-1361 | no entry of the shared map is true |
| Hub.InputHub.RecordDeviceChangeStates | common/include/input_hub.cpp:287-307 | a read buffer is recorded event by event |
| Hub.InputHub.CollectEvent | common/include/input_hub.cpp:309-341 | the output is the events that were not flagged, in order; written and remaining capacity add up |
| Hub.InputHub.CopyEvents | common/include/input_hub.cpp:320-340 | the copy loop with its early end at a full buffer loses nothing |
| Hub.InputHub.GetEvents | common/include/input_hub.cpp:180-222 | written and remaining capacity add up to the buffer size; output, indices and recorded state are those of serving the ready descriptors in order |
| Hub.InputHub.ServeNext | common/include/input_hub.cpp:184-219 | one ready descriptor, with the step back of the index at a full buffer |
| Hub.InputHub.DispatchRead | common/include/input_hub.cpp:203-218 | what was read is recorded if the device is not shared and collected if it is; a device asked for the first time gets a false entry, which shares nothing |
| PollReads.CallConserves | common/include/input_hub.cpp:180-222 | one call, touchscreens included: each item keeps the end of what it had, and items outside the two indices keep everything |
| PollReads.CallReads | common/include/input_hub.cpp:180-222 | without touchscreens, one call returns and records exactly what it read of each item, in order |
| PollReads.CallPasses | common/include/input_hub.cpp:208-215 | without touchscreens, a call passes an item only with room left, having read as much as fits, and of a shared device all; it stops early only at a shared device that filled the buffer |
| PollReads.CallsConserve | common/include/input_hub.cpp:180-222 | without touchscreens, over any number of calls what was read of each item followed by what is left is what it had, and exactly what was read is returned and recorded |
| PollReads.CallsCollectAll | common/include/input_hub.cpp:180-222 | without touchscreens, calls with any buffer but an empty one come to the end and have then returned every event of the shared devices once, in order |
| PollReads.RecordedWholeIff | common/include/input_hub.cpp:203-207 | a device that is not shared is read whole exactly if its events fit the room left where the call passes it |
| Hub.InputHub.CheckTargetKeyState | common/include/input_hub.cpp:1542-1591 | the keys recorded by the first scan, up to where the bitmap ends |
| Hub.InputHub.SavePressed | common/include/input_hub.cpp:1533-1591 | the length check, bit test and save over a stretch of keys; the first key without a bit ends the scan |
| Hub.CollectedWhole | common/include/input_hub.cpp:309-341 | devices other than touchscreens are collected whole and unchanged |
| Hub.UnflaggedInOrder | common/include/input_hub.cpp:320-340 | each event that is not flagged comes out once, behind those before it, and nothing else does |
| Hub.ScanRecordsOnce | common/include/input_hub.cpp:1542-1591 | with the classes that MakeDevice gives, the first scan records each set key that it asks for and the bitmap reaches once, in ascending order |
| Hub.ScanStartsKeyHandOff | common/include/input_hub.cpp:873-881 | the first scan of any device without a touch class, mice included, is a state from which key hand-off holds |
| Hub.ScanFindsFinger | common/include/input_hub.cpp:1581-1590 | the first scan of a touch device files the touch among its keys exactly if its bit is set and there |
| Hub.ScanOfKeys | common/include/input_hub.cpp:1542-1591 | for a bitmap built from keys, the first scan files one down event for each of them that has a word and is asked for: the three buttons of a mouse, the keys below KEY_MAX of a keyboard, the touch of a touch device |
| WhiteListIndex.GetAllComb | common/include/white_list_util.cpp:247-264 | terminates, and inserts exactly the texts of one code per column in some order of columns that reach the target length |
| WhiteListIndex.PickIsArrangement | common/include/white_list_util.cpp:247-264 | the recursion's picks are exactly one code per column over an ordering of all columns |
| WhiteListIndex.GetCombKeysHash | common/include/white_list_util.cpp:218-245 | adds exactly the index of the item, nothing for an item without a single last key and action |
| WhiteListIndex.GetBusinessEventHash | common/include/white_list_util.cpp:298-308 | the text of the pressed keys, the key and the action |
| WhiteListIndex.WhiteListUtil.SyncWhiteList | common/include/white_list_util.cpp:205-216 | the list is replaced and its index added to the hashes |
| WhiteListIndex.WhiteListUtil.ClearWhiteList | common/include/white_list_util.cpp:266-273 | the list goes, the hashes stay |
| WhiteListIndex.WhiteListUtil.ClearAllWhiteLists | common/include/white_list_util.cpp:275-280 | all lists go, the hashes stay |
| WhiteListIndex.WhiteListUtil.IsNeedFilterOut | common/include/white_list_util.cpp:310-330 | filtered exactly if some list the device was ever synced with has the event's text in its index |
| WhiteListIndex.HashesAreOfAllSyncs | common/include/white_list_util.cpp:205-216 | after any run a device's hashes are the index of every list it was ever synced with |
| WhiteListIndex.CurrentListIsHashed | common/include/white_list_util.cpp:205-216 | the list that the device has now is covered after any run |
| WhiteListIndex.OneSyncIndexIsCurrent | common/include/white_list_util.cpp:266-280 | with at most one sync and no clear the hashes are exactly the index of the current list |
| WhiteListIndex.FilterIsMatching | common/include/white_list_util.cpp:298-330 | an event that matches a synced item is always filtered; with one width for key codes and one for actions only such events are |
| WhiteListIndex.TextsOfDifferentWidthsCollide | common/include/white_list_util.cpp:298-308 | without that an event that matches nothing can be filtered |
| WhiteListIndex.ClearedListStillFilters | common/include/white_list_util.cpp:266-280 | an event that a list filtered is filtered after the list was cleared |
| WhiteListParser.ReadLineDataStepOne | common/include/white_list_util.cpp:162-190 | the loop over bars yields the codes of all pieces, or no column |
| WhiteListParser.SplitCombinationKey | common/include/white_list_util.cpp:192-203 | the loop over commas yields all columns but the last, and leaves the last piece |
| WhiteListParser.PushCode | common/include/white_list_util.cpp:172-177 | a piece adds its code if it is a number of at most four digits and not zero |
| WhiteListParser.PaddedCode | common/include/white_list_util.cpp:172-177 | a code from 1 to 9999 may be written with leading zeros up to four digits, and not beyond |
| WhiteListParser.NoCode | common/include/white_list_util.cpp:172-177 | a piece that is empty, all zeros or has another character gives no code |
| WhiteListParser.ReadLine | common/include/white_list_util.cpp:102-120 | one valid line adds its item, or nothing if no column is left |
| WhiteListParser.ReadLines | common/include/white_list_util.cpp:97-121 | reading stops at the first invalid line or after a hundred, and keeps every item that has columns |
| WhiteListParser.ParsedIsProper | common/include/white_list_util.cpp:102-120 | any line yields only non-empty columns of codes from 1 to 9999 |
| WhiteListParser.PrintParse | common/include/white_list_util.cpp:147-203 | printing an item and parsing it gives it back exactly if it is empty or has proper columns and one code in the last |
| WhiteListParser.PrintParseAll | common/include/white_list_util.cpp:97-121 | a printed file reads back as the list, as far as it is read |
| WhiteListParser.ReadWholeIff | common/include/white_list_util.cpp:130-145 | a printed file is read whole exactly if every line and their number stay within the limits |
| WhiteListParser.PrintedLineValidIff | common/include/white_list_util.cpp:130-145 | a printed item with proper columns is within the limits of a line exactly if it has at most five columns and at most twelve codes more than columns |
| WhiteListParser.ProperFileReadWholeIff | common/include/white_list_util.cpp:97-121 | a printed file of such items is read whole exactly if it has at most a hundred, all of them so |

## Left out

- WhiteListIndex.FilterIsMatching: uniform widths are enough for exact filtering, not necessary; without them the exact rule is equality of texts, as `HashesAreOfAllSyncs` states.
- TouchScreen.CalculateTransformInfo: exact rationals, as for the lemmas about it.
- TouchScreen.AcceptedPointsStayOnScreen: exact rationals; neither the rounding of doubles nor 32-bit wrap-around of sizes is modelled. Only the cast of a read coordinate to 32 unsigned bits is.
- TouchScreen.CheckTouchPointRegion: the source walks its screens in the order of a hash map; the model takes them in the order of a list.
- Hub.InputHub.GetEvents: what can be read is a sequence of events per descriptor, empty where a read fails; the closing of a device that was removed or hung up is not modelled.
- Hub.InputHub.ServeNext: the same; a failed read that does not close the device is an empty one.
- Hub.InputHub.DispatchRead: a hang-up without input leaves the device open here.
- SinkManager.DistributedInputSinkManager.ReportDhIdSharingState: one listener, the client's, registered from the start.
- SinkManager.DistributedInputSinkManager.CollectAndForward: what was collected is sent at once, while the source posts it to an event handler that picks the open session when it gets to it; commands between the two are not modelled.
- SinkManager.DistributedInputSinkManager.OnStartRemoteInputDhid: a command is one step, so an event between the replay and the switching of the hub is not modelled; the same holds for the other handlers.
- PollReads.CallsCollectAll: hubs without touchscreens; a touchscreen's events may be filtered, so a call can pass one with events unread, which `CallConserves` allows.
- KeyHandOff.SourceShowsHeldKeys: the device has one node, and its id is not the id of a screen; keys are pressed when up and released or repeated when down.
- Relay forms of the four commands: they do the same under the session towards the sink, so the commands stand for both.
- Type-based start and stop, session-closed cleanup, Release and hot-plug of devices: they update only some of the copies of what is shared.
- inputTypes_, isStartTrans_ and dhIdStateMap_: written by the modelled handlers, read by none of them.
- JSON encoding, sockets, permission checks, IPC and callbacks: sending is appending to a log, and delivery is in order.
- The random scan code of a simulated mouse release and the time stamps: parameters.
- Descriptors: taken as given, not empty and without dots where they pass through a joined list.
- UpdateSinkScreenInfo and the maps of screens around CalculateTransformInfo: plain map updates.
- The source manager and the virtual devices behind it: the source here is a replay of what was sent.
