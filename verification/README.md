# A verified model of the recording front end and the recorder

The repository holds a Qt front end for libobs (`obs-studio/UI`) and a small recorder process that a
client drives over a socket (`Recording`). This project models the logic of both that carries state
from one event to the next, and proves what that logic keeps over every run. Widgets appear as lists
and enable bits, libobs and the operating system as parameters: the names of existing files, the
order in which a directory is listed, the outcome of an encoding trial, the estimates of bit rates.

| file | what it models |
|---|---|
| `OutputLifecycle.dfy` | output threads flip activity flags and post slots to the UI thread, which takes and drops the profile-menu lock and a share of the sleep inhibition |
| `EditableList.dfy` | the Up and Down buttons of an editable list property |
| `ListOrder.dfy`, `SavedOrder.dfy` | the orders of the scene list, the source list and the filter lists, kept by moving one item at a time |
| `RecorderProtocol.dfy` | the bytes between the client and the recorder, both ways |
| `LogFilter.dfy` | the log handler's filter of repeated entries |
| `LogFiles.dfy`, `FileNames.dfy`, `Decimal.dfy` | log names as dates, how many logs are kept, and the search for a name that is free |
| `HotkeyEditor.dfy` | the rows, buttons and dirty flags of a hotkey widget |
| `Letterbox.dfy`, `PreviewMapping.dfy`, `Ratios.dfy` | the recorder's fit of the captured window, and the preview's letterbox with the way back from the mouse |
| `ResolutionSearch.dfy`, `AutoConfig.dfy`, `WizardRuns.dfy` | the auto-config wizard: the search for a resolution, the stages of its test page, and what its runs achieve |
| `QuickTransitions.dfy` | quick transitions, their ids, and their saving and loading |
| `FrameRates.dfy` | the list of frame rates that a property offers |
| `Sequences.dfy`, `QtList.dfy`, `Wrappers.dfy` | shared vocabulary |

Objects whose methods change their fields are classes, whose methods are proved against a function of
the state before; the protocols and searches are then studied on those functions. Floating-point
arithmetic is exact real arithmetic, cut off where the source casts to an integer.

Where the code does not do what its names or comments suggest, the model follows the code, and the
exact condition is stated:

- The sleep-inhibition count is shared with projector windows, so it is not simply the lock.
- A callback sets its flag before it posts its slot, so an output may be active, or idle, a moment
  before the queue says so.
- A failed recording or replay buffer shows a modal box before it releases the lock; while the box is
  open, an empty event queue does not mean that the menu tells the truth.
- `FindBestFilename` keeps a name that is taken if the path has no full stop.
- `LoadSceneListOrder` aims too low after a saved name that no longer exists: the saved order then
  comes first only if no missing name precedes one that exists, or nothing else is in the list.
- Up and Down undo each other except when a selected row is stopped by the end of the list.
- A failed second initialize takes over the new sizes, and the crop command that would repair the
  picture is then skipped as unchanged.
- A common frame rate within a range is offered as it is; one just outside every range is replaced by
  the other end of the last range it is near to, since the best distance is never recorded.
- The frame reader ignores the size field, and the reply writer's size field wraps at 65536 and its
  numbers at 256.
- A next-stage event of the auto-config wizard that arrives after its page was left and entered again
  is not told apart from a new one and may carry the run past a failed test.
- A hotkey widget that lost a bound row reports a change until the next saving, even when it shows
  exactly the bindings reloaded meanwhile.

## Model

| member | source | states |
|---|---|---|
| OutputLifecycle.App.IncrementSleepInhibition | obs-studio/UI/obs-app.hpp:127-132 | counts one reference more and starts inhibiting on the first, unless there is no inhibitor |
| OutputLifecycle.App.DecrementSleepInhibition | obs-studio/UI/obs-app.hpp:134-140 | counts one reference less and stops inhibiting on the last; never below zero |
| OutputLifecycle.MainWindow.OnActivate | obs-studio/UI/window-basic-main.cpp:4038-4049 | takes the menu lock and one reference together, unless the menu is locked already |
| OutputLifecycle.MainWindow.OnDeactivate | obs-studio/UI/window-basic-main.cpp:4051-4062 | releases both together, only if locked and nothing is active |
| OutputLifecycle.MainWindow.SetFlagsOf | obs-studio/UI/window-basic-main-outputs.cpp:11-119 | the first half of each of the ten callbacks sets its flags; from then on the callback is in flight |
| OutputLifecycle.MainWindow.PostSlotOf | obs-studio/UI/window-basic-main-outputs.cpp:11-119 | the second half posts the slot |
| OutputLifecycle.MainWindow.OnSignal | obs-studio/UI/window-basic-main-outputs.cpp:11-119 | a callback that nothing interrupts is the two halves in a row: flags set, slot posted, nothing left in flight |
| OutputLifecycle.MainWindow.DeliverNext | obs-studio/UI/window-basic-main.cpp:4112-4485 | the oldest posted slot takes or releases the lock, or first opens a box that owes the release |
| OutputLifecycle.MainWindow.DismissBox | obs-studio/UI/window-basic-main.cpp:4316-4358 | closing the box pays the release it owes |
| OutputLifecycle.MainWindow.StopRecording | obs-studio/UI/window-basic-main.cpp:4289-4297 | a stop request is a release that an active output blocks |
| OutputLifecycle.MainWindow.StopReplayBuffer | obs-studio/UI/window-basic-main.cpp:4409-4420 | the same, only if there is a replay buffer |
| OutputLifecycle.MainWindow.StopStreaming | obs-studio/UI/window-basic-main.cpp:4064-4086 | up to three releases, one for each output that is stopped, with any halves of callbacks of output threads between them, as a run of single steps |
| OutputLifecycle.MainWindow.OnCallbacks | obs-studio/UI/window-basic-main-outputs.cpp:11-119 | halves of callbacks in a row, those of different outputs mixed, are single steps of the protocol |
| OutputLifecycle.MainWindow.ProjectorOpened | obs-studio/UI/window-projector.cpp:47-48 | a projector takes a reference of its own |
| OutputLifecycle.MainWindow.ProjectorClosed | obs-studio/UI/window-projector.cpp:51-56 | and gives it back |
| OutputLifecycle.SignalsAnnounceActivity | obs-studio/UI/window-basic-main-outputs.cpp:11-119 | the first activity announces a lock, the end of the last one a release, and a signal that announces a lock has made its own output active |
| OutputLifecycle.StepFlags | obs-studio/UI/window-basic-main-outputs.cpp:11-119 | a start makes its output active, a stop makes it inactive, and no other step changes that |
| OutputLifecycle.ActivityIsHistory | obs-studio/UI/window-basic-main-outputs.cpp:11-119 | in every reachable state an output is active exactly if the last start or stop among its signals was a start, and something is active exactly if some output is |
| OutputLifecycle.ReleaseAfterStop | obs-studio/UI/window-basic-main-outputs.cpp:11-119 | a signal that announces a release leaves its own output inactive |
| OutputLifecycle.CallbackPosts | obs-studio/UI/window-basic-main-outputs.cpp:11-119 | the slot that each of the ten callbacks posts, with its code or delay |
| OutputLifecycle.SlotLaws | obs-studio/UI/window-basic-main.cpp:4112-4485 | what each slot does to menu and boxes: starts lock, stops unlock unless an output is active, and failures shown in a visible window open a box instead |
| OutputLifecycle.ReleaseLaws | obs-studio/UI/window-basic-main.cpp:4051-4062 | stop requests and closed boxes unlock unless an output is active |
| OutputLifecycle.SetFlagsKeeps | obs-studio/UI/window-basic-main-outputs.cpp:11-119 | setting flags keeps the invariant on flags, callbacks in flight, queue, boxes and lock |
| OutputLifecycle.PostKeeps | obs-studio/UI/window-basic-main-outputs.cpp:11-119 | posting the slot later keeps it, whatever happened in between |
| OutputLifecycle.DeliverKeeps | obs-studio/UI/window-basic-main.cpp:4112-4485 | every slot keeps it |
| OutputLifecycle.StepKeepsSleep | obs-studio/UI/obs-app.hpp:127-140 | every step keeps the count equal to projectors plus lock |
| OutputLifecycle.RunKeeps | obs-studio/UI/window-basic-main.cpp:4038-4062 | so does every interleaving of halves of callbacks, slots, boxes, stops and projectors |
| OutputLifecycle.QuiescentMenuTellsActivity | obs-studio/UI/window-basic-main.cpp:4038-4062 | in every reachable state without callbacks in flight, posted slots and open boxes the menu is enabled exactly when no output was started after it was last stopped |
| OutputLifecycle.EmptyQueueExactly | obs-studio/UI/window-basic-main.cpp:4038-4062 | with an empty queue an active output without a locked menu has its lock in flight, and an idle locked menu its release in flight or owed by an open box; with nothing in flight the menu is right exactly unless it is locked behind such a box |
| OutputLifecycle.LastSlotExactly | obs-studio/UI/window-basic-main.cpp:4316-4485 | exactly when the slot that empties the queue leaves the menu right, whatever boxes are open and callbacks in flight; with none in flight, exactly if an output is active, the menu was not locked, or the slot releases it without a box |
| OutputLifecycle.SleepInhibitionNeverLeaks | obs-studio/UI/obs-app.hpp:127-140 | in every reachable state the count is the number of projectors open plus one for a locked menu, if there is an inhibitor, and the system is kept awake exactly when it is positive |
| OutputLifecycle.LockIsNeitherEarlyNorStuck | obs-studio/UI/window-basic-main.cpp:4051-4062 | an active output without a lock posted or in flight holds the lock, and an idle lock has its release in the queue, in flight or owed by a box |
| OutputLifecycle.SettlesOnTruth | obs-studio/UI/window-basic-main.cpp:4160-4485 | once the outputs fall silent, finishing the callbacks in flight and catching up ends with the menu locked exactly if some output was started after it was last stopped |
| OutputLifecycle.OpenBoxDelaysRelease | obs-studio/UI/window-basic-main.cpp:4316-4358 | an interleaving in which the queue is empty, nothing is in flight or active and the menu is still locked behind a box |
| OutputLifecycle.ActiveBeforeAnnounced | obs-studio/UI/window-basic-main-outputs.cpp:61-69 | between the halves of its callback a recording is active with nothing posted, the menu unlocked and the system not kept awake |
| EditableList.WidgetInfo.EditListUp | obs-studio/UI/properties-view.cpp:1975-1998 | the scanning loop of takes and inserts computes the recursive function Up |
| EditableList.WidgetInfo.EditListDown | obs-studio/UI/properties-view.cpp:2000-2023 | the backward loop computes Down, which is Up on the reversed list, reversed |
| EditableList.UpMovesEachByOne | obs-studio/UI/properties-view.cpp:1975-1998 | the k-th selected row goes from p to the greater of k and p - 1 |
| EditableList.UpKeepsOrder | obs-studio/UI/properties-view.cpp:1975-1998 | the selected rows keep their order, and so do the others |
| EditableList.UpKeepsRows | obs-studio/UI/properties-view.cpp:1975-1998 | no row is lost or doubled |
| EditableList.UpReachesStablePartition | obs-studio/UI/properties-view.cpp:1975-1998 | as many presses as there are rows put the selected rows first, in stable order |
| EditableList.UpFixedPoints | obs-studio/UI/properties-view.cpp:1975-1998 | pressing Up changes nothing exactly on such a partition |
| EditableList.SamePlacesSameList | obs-studio/UI/properties-view.cpp:1975-2023 | a list is determined by the places of its selected rows and the two kept orders |
| EditableList.DownMovesEachByOne | obs-studio/UI/properties-view.cpp:2000-2023 | the mirrored law of places for Down |
| EditableList.DownKeepsOrder | obs-studio/UI/properties-view.cpp:2000-2023 | Down keeps both orders |
| EditableList.DownKeepsRows | obs-studio/UI/properties-view.cpp:2000-2023 | Down loses and doubles nothing |
| EditableList.DownUndoesUp | obs-studio/UI/properties-view.cpp:1975-2023 | Up then Down restores the list exactly if row 0 is not selected or all rows are |
| EditableList.UpUndoesDown | obs-studio/UI/properties-view.cpp:1975-2023 | Down then Up restores it exactly if the last row is not selected or all rows are |
| ListOrder.ReorderItem | obs-studio/UI/window-basic-main.cpp:522-535 | finding, taking out and inserting moves the first occurrence to the target row, clamped to the list |
| ListOrder.MoveInFull | obs-studio/UI/window-basic-main.cpp:522-535 | a move takes out the first occurrence and puts it back at the target row, or at the end of the list it lies beyond |
| ListOrder.UnknownStays | obs-studio/UI/window-basic-main.cpp:522-535 | an item that is not there changes nothing |
| ListOrder.LoadSceneListOrder | obs-studio/UI/window-basic-main.cpp:537-549 | the scene list after one move for every saved name |
| ListOrder.PlacedIsOrderThenRest | obs-studio/UI/window-basic-main.cpp:522-549 | with distinct names, unknown ones only at the end, the result is the saved order followed by the remaining items in their old order |
| ListOrder.PlacedKeepsTheRest | obs-studio/UI/window-basic-main.cpp:522-549 | whatever was saved, no item is lost or doubled and the unnamed ones keep their order |
| SavedOrder.NamedItemsInOrder | obs-studio/UI/window-basic-main.cpp:522-549 | whatever names are missing, the named items end up in the saved order relative to each other and the others keep theirs |
| SavedOrder.SavedOrderComesFirst | obs-studio/UI/window-basic-main.cpp:522-549 | the result is the saved order followed by the remaining items exactly if no missing name precedes one that exists, or there are no remaining items |
| ListOrder.MissingNameSpoilsOrder | obs-studio/UI/window-basic-main.cpp:537-549 | a saved order with a missing name in front that the loaded list does not follow |
| ListOrder.ReorderFilters | obs-studio/UI/window-basic-filters.cpp:229-284 | one pass over the chain with two row counters places both lists |
| ListOrder.FilterListFollowsChain | obs-studio/UI/window-basic-filters.cpp:229-284 | each list becomes the asynchronous or the effect subsequence of the chain |
| ListOrder.SelectSnoc | obs-studio/UI/window-basic-filters.cpp:229-284 | the filters of a kind, one by one |
| ListOrder.SourcesPanel.InsertSceneItem | obs-studio/UI/window-basic-main.cpp:1872-1881 | a new item goes on top |
| ListOrder.SourcesPanel.UpdateSources | obs-studio/UI/window-basic-main.cpp:1857-1870 | another scene is shown in reverse |
| ListOrder.SourcesPanel.ReorderSources | obs-studio/UI/window-basic-main.cpp:2378-2428 | the list after moving every item of the current scene to the row that mirrors its place, unless reordering is ignored |
| ListOrder.SourcesPanel.SceneItemAdded | obs-studio/UI/window-basic-main.cpp:2022-2029 | scene and list after libobs added an item to the current scene; other scenes change nothing |
| ListOrder.SourcesPanel.SceneItemRemoved | obs-studio/UI/window-basic-main.cpp:2041-2052 | scene and list after libobs removed one |
| ListOrder.SourcesPanel.RemoveSceneItem | obs-studio/UI/window-basic-main.cpp:2041-2050 | takes the first row of the item out of the list |
| ListOrder.SourcesPanel.SceneReordered | obs-studio/UI/window-basic-main.cpp:2432-2440 | scene and list after libobs rearranged a scene: the list follows the current one unless reordering is ignored |
| ListOrder.SourcesPanel.DropEvent | obs-studio/UI/source-list-widget.cpp:16-46 | the scene takes over the reversed list, and its own signal leaves the list alone |
| ListOrder.MirroredIsReverse | obs-studio/UI/window-basic-main.cpp:2378-2428 | from any arrangement of the scene's items the sweep makes the list the exact reverse of the scene |
| ListOrder.RunKeepsMirror | obs-studio/UI/window-basic-main.cpp:1857-2462 | adding, removing, reordering, dropping and showing keep list and scene mirrored over every run |
| ListOrder.ChangesInFull | obs-studio/UI/window-basic-main.cpp:1857-2440 | what each change does to a mirrored scene and list |
| RecorderProtocol.OnSocketReadyRead | Recording/zdrecordingclient.cpp:145-289 | the loop emits what the recursive decoder yields, and ends on every buffer |
| RecorderProtocol.ReadFrame | Recording/zdrecordingclient.cpp:156-287 | one round reads size, event and arguments and emits the command of the event |
| RecorderProtocol.ReadFrames | Recording/zdrecordingclient.cpp:156-288 | the loop over the frames emits what the recursive decoder yields |
| RecorderProtocol.ReadArguments | Recording/zdrecordingclient.cpp:163-287 | each event reads its own arguments off the stream and nothing more |
| RecorderProtocol.ReadControlArguments | Recording/zdrecordingclient.cpp:215-287 | the same from the downmix events on |
| RecorderProtocol.ReadOutputArguments | Recording/zdrecordingclient.cpp:247-287 | the same from the recording events on |
| RecorderProtocol.GettingShrinks | Recording/zdrecordingclient.cpp:156-288 | reading never leaves more bytes than there were |
| RecorderProtocol.SignatureFits | Recording/zdrecordingclient.cpp:163-287 | writers and the reader agree on the kinds of the arguments of all fourteen events |
| RecorderProtocol.InitializeFrame | Recording/zdrecordingclient.cpp:164-173 | any two bytes, 0 and the arguments in this order are read as initialize with path, title, screen size and crop region, and reading goes on behind them |
| RecorderProtocol.ScaleVideoFrame | Recording/zdrecordingclient.cpp:175-181 | any two bytes, 1 and the arguments in this order are read as scale video with width and height, and reading goes on behind them |
| RecorderProtocol.CropVideoFrame | Recording/zdrecordingclient.cpp:183-189 | any two bytes, 2 and the arguments in this order are read as crop video with the four edges, and reading goes on behind them |
| RecorderProtocol.UpdateVideoConfigFrame | Recording/zdrecordingclient.cpp:191-197 | any two bytes, 3 and the arguments in this order are read as update video config with cursor and compatibility, and reading goes on behind them |
| RecorderProtocol.ResetAudioInputFrame | Recording/zdrecordingclient.cpp:199-205 | any two bytes, 4 and the arguments in this order are read as reset audio input with device id and description, and reading goes on behind them |
| RecorderProtocol.ResetAudioOutputFrame | Recording/zdrecordingclient.cpp:207-213 | any two bytes, 5 and the arguments in this order are read as reset audio output with device id and description, and reading goes on behind them |
| RecorderProtocol.DownmixMonoInputFrame | Recording/zdrecordingclient.cpp:215-221 | any two bytes, 6 and the arguments in this order are read as downmix mono input, and reading goes on behind them |
| RecorderProtocol.DownmixMonoOutputFrame | Recording/zdrecordingclient.cpp:223-229 | any two bytes, 7 and the arguments in this order are read as downmix mono output, and reading goes on behind them |
| RecorderProtocol.MuteAudioInputFrame | Recording/zdrecordingclient.cpp:231-237 | any two bytes, 8 and the arguments in this order are read as mute audio input, and reading goes on behind them |
| RecorderProtocol.MuteAudioOutputFrame | Recording/zdrecordingclient.cpp:239-245 | any two bytes, 9 and the arguments in this order are read as mute audio output, and reading goes on behind them |
| RecorderProtocol.StartRecordingFrame | Recording/zdrecordingclient.cpp:247-253 | any two bytes, 10 and the arguments in this order are read as start recording with the path, and reading goes on behind them |
| RecorderProtocol.StopRecordingFrame | Recording/zdrecordingclient.cpp:255-261 | any two bytes, 11 and the arguments in this order are read as stop recording, and reading goes on behind them |
| RecorderProtocol.StartStreamingFrame | Recording/zdrecordingclient.cpp:263-269 | any two bytes, 12 and the arguments in this order are read as start streaming with server, then key, and reading goes on behind them |
| RecorderProtocol.StopStreamingFrame | Recording/zdrecordingclient.cpp:271-277 | any two bytes, 13 and the arguments in this order are read as stop streaming, and reading goes on behind them |
| RecorderProtocol.UnknownFrame | Recording/zdrecordingclient.cpp:279-287 | events above 13 take no arguments and are passed over |
| RecorderProtocol.AnyFlag | Recording/zdrecordingclient.cpp:191-277 | any byte but zero is true |
| RecorderProtocol.ShortData | Recording/zdrecordingclient.cpp:145-173 | fewer than two bytes are ignored, and what is left behind whole frames, if it ends in the size, reads as an initialize with nothing in it |
| RecorderProtocol.BigEndian | Recording/zdrecordingclient.cpp:148-149 | numbers are written with the most significant byte first, negative ones as two's complement |
| RecorderProtocol.StringBytes | Recording/zdrecordingclient.cpp:148-149 | the bytes of a string, and those of a null string |
| RecorderProtocol.CorruptString | Recording/zdrecordingclient.cpp:148-149 | an odd byte count, or one beyond the data, reads as a null string |
| RecorderProtocol.FramesThenRest | Recording/zdrecordingclient.cpp:145-289 | whole frames, with any size fields, decode to exactly their commands in order, and decoding goes on with what follows |
| RecorderProtocol.ReceivedFrames | Recording/zdrecordingclient.cpp:145-289 | the same for a whole notification, the minimum size included |
| RecorderProtocol.CutsDoNotMatter | Recording/zdrecordingclient.cpp:145-289 | cutting the data at frame boundaries changes nothing |
| RecorderProtocol.StringRoundTrip | Recording/zdrecordingclient.cpp:148-149 | strings, null and empty ones included, are read back from the wire format |
| RecorderProtocol.SendMessageToServer | Recording/zdrecordingclient.cpp:291-313 | seeking back over the zero size yields the block with its size in front; nothing is written to an unwritable socket |
| RecorderProtocol.SizeFieldHonest | Recording/zdrecordingclient.cpp:299-309 | the first two bytes carry the length of the rest modulo 65536, and the length itself exactly if it fits |
| RecorderProtocol.BlockLayout | Recording/zdrecordingclient.cpp:291-313 | where size, event, error and text are in a block, and which of them are left out |
| RecorderProtocol.BodyRoundTrip | Recording/zdrecordingclient.cpp:302-307 | the low bytes of event and error and the text are read back although parts are left out |
| RecorderProtocol.BlocksAgreeExactly | Recording/zdrecordingclient.cpp:291-313 | two messages share a block exactly if their events and errors agree in the low byte, both or none have an error, and their texts agree, none counting as empty |
| RecorderProtocol.BlocksAreInjective | Recording/zdrecordingclient.cpp:291-313 | different messages whose numbers are within a byte have different blocks |
| RecorderProtocol.BodiesRoundTrip | Recording/zdrecordingclient.cpp:302-309 | going by the size fields recovers any bodies exactly if each is shorter than 65536 |
| RecorderProtocol.RepliesRoundTrip | Recording/zdrecordingclient.cpp:291-313 | the same for any sequence of replies, each of which is then read back |
| LogFilter.LogHandler.SumChars | obs-studio/UI/obs-app.cpp:267-274 | the loop sums the signed characters |
| LogFilter.LogHandler.TooManyRepeatedEntries | obs-studio/UI/obs-app.cpp:276-313 | updates the static state as the specification does, writes the note of the run that ends, and holds back the right messages |
| LogFilter.LogHandler.DoLog | obs-studio/UI/obs-app.cpp:315-356 | only messages of the logged levels pass through the filter |
| LogFilter.Session | obs-studio/UI/obs-app.cpp:264-356 | the log of any sequence of calls, with the filter on or off |
| LogFilter.NothingIsLost | obs-studio/UI/obs-app.cpp:264-313 | lines written, counts reported and the count still pending add up to the messages logged |
| LogFilter.LogIsRenderedRuns | obs-studio/UI/obs-app.cpp:276-313 | the streaming filter writes, for every way to cut the messages into maximal runs, what each run shows and holds back |
| LogFilter.RunsExist | obs-studio/UI/obs-app.cpp:276-313 | any messages can be cut that way |
| LogFilter.RunsAreAlike | obs-studio/UI/obs-app.cpp:264-313 | a run shows exactly its first 31 messages, all of its messages have the leader's format and are within 765 of its character sum |
| LogFilter.RunsBreakOff | obs-studio/UI/obs-app.cpp:264-313 | the message that opens the next run has another format, or a character sum at least 765 away from the leader's |
| LogFilter.LoggedInNumbers | obs-studio/UI/obs-app.cpp:276-313 | what one message does to leader, count and log, with all limits in numbers |
| LogFilter.HeldBackInNumbers | obs-studio/UI/obs-app.cpp:300-305 | a run is noted exactly if it has more than 31 messages, with the number of those beyond |
| LogFilter.SumOfParts | obs-studio/UI/obs-app.cpp:267-274 | every character counts with its own value |
| LogFilter.LevelsPassing | obs-studio/UI/obs-app.cpp:315-356 | levels above 300 pass only if the log is verbose |
| LogFilter.SumsDoNotOverflow | obs-studio/UI/obs-app.cpp:267-274 | sums of formatted messages and their differences fit a 32-bit int |
| LogFiles.LogNameReadsBack | obs-studio/UI/obs-app.cpp:1078-1184 | the name printed for a time is read back as the number of that time, or is out of range if it does not fit 64 bits |
| LogFiles.NameInFull | obs-studio/UI/obs-app.cpp:1166-1184 | which characters of a name stand for which part of the time |
| LogFiles.LogNamesExactly | obs-studio/UI/obs-app.cpp:1078-1099 | a name is a log's exactly if it begins with year-month-day hour-minute-second in digits, white space allowed between them |
| LogFiles.StampsInFull | obs-studio/UI/obs-app.cpp:1101-1164 | which entries count as logs, and which throw |
| LogFiles.NumbersFollowTime | obs-studio/UI/obs-app.cpp:1078-1099 | the numbers are ordered exactly as the times |
| LogFiles.UnderscoreNamesAreNoLogs | obs-studio/UI/obs-app.cpp:1166-1184 | names printed without a space are not taken for logs |
| LogFiles.GetLastLog | obs-studio/UI/obs-app.cpp:1142-1164 | the loop finds a log with the highest number, keeps the previous value if there is none, and throws exactly on a number out of range |
| LogFiles.OldestFile | obs-studio/UI/obs-app.cpp:1101-1140 | names a log with the lowest number exactly if there are more than the maximum |
| LogFiles.CountOfListing | obs-studio/UI/obs-app.cpp:1101-1140 | the count of the loop is the number of logs in the directory |
| LogFiles.CreateLogFile | obs-studio/UI/obs-app.cpp:1217-1244 | one launch reports the newest log, adds its own if it opens, and deletes the oldest if there are too many; exactly when a number out of range ends it with an exception, and what it leaves then |
| LogFiles.RotationInFull | obs-studio/UI/obs-app.cpp:1101-1140 | what one rotation removes |
| LogFiles.RetentionOverRuns | obs-studio/UI/obs-app.cpp:1101-1244 | with increasing times and no name out of range at first, no launch throws, the directory holds exactly the newest logs after any number of launches, as many as may be kept, and if any may be kept each launch reports the one before |
| LogFiles.UnreadableStops | obs-studio/UI/obs-app.cpp:1101-1244 | with a name out of range every launch throws and the directory stays as it is |
| FileNames.GetClosestUnusedFileName | obs-studio/UI/obs-app.cpp:1560-1583 | ends for any finite set of files with a free name: the plain one, or the one with the least free number from 2 upward |
| FileNames.FindBestFilename | obs-studio/UI/window-basic-main-outputs.cpp:121-149 | the same for an output path; the result is free exactly if the path was free or contains a full stop |
| FileNames.FirstFree | obs-studio/UI/window-basic-main-outputs.cpp:129-148 | the loop ends with the name of the least free number |
| FileNames.SearchProgresses | obs-studio/UI/obs-app.cpp:1560-1583 | every taken name uses up one of the finitely many files |
| FileNames.NumberedInjective | obs-studio/UI/obs-app.cpp:1560-1583 | different numbers make different names |
| FileNames.FirstFreeInFull | obs-studio/UI/obs-app.cpp:1560-1583 | the name found is the path with the least number from 2 that makes a free name, and the suffix |
| FileNames.SuffixInFull | obs-studio/UI/obs-app.cpp:1560-1583 | an extension comes behind a full stop |
| Decimal.NoLeadingZero | obs-studio/UI/obs-app.cpp:1575 | numbers are printed without a leading zero |
| Decimal.OnlyNumeral | obs-studio/UI/obs-app.cpp:1575 | the numeral printed is the only one of its value without a leading zero |
| Decimal.TwoDigitNumeral | obs-studio/UI/obs-app.cpp:1082-1095 | the two digits printed for numbers below one hundred |
| HotkeyEditor.HotkeyWidget.HandleNewKey | obs-studio/UI/hotkey-edit.cpp:143-154 | empty combinations and the current one change nothing; any other is taken over and announced |
| HotkeyEditor.HotkeyWidget.ResetKey | obs-studio/UI/hotkey-edit.cpp:164-172 | the row shows its original again, unchanged, and its own buttons follow |
| HotkeyEditor.HotkeyWidget.ClearKey | obs-studio/UI/hotkey-edit.cpp:174-182 | the row is empty and changed, and its own buttons follow |
| HotkeyEditor.HotkeyWidget.EmitKeyChanged | obs-studio/UI/hotkey-edit.cpp:282-287 | the announced key sets the clear and the revert button of its own row |
| HotkeyEditor.HotkeyWidget.SetKeyCombinations | obs-studio/UI/hotkey-edit.cpp:200-208 | one row for each combination, or an empty one |
| HotkeyEditor.HotkeyWidget.Apply | obs-studio/UI/hotkey-edit.cpp:219-230 | the shown keys become the originals of unchanged rows |
| HotkeyEditor.HotkeyWidget.GetCombinations | obs-studio/UI/hotkey-edit.cpp:232-239 | the loop hands out the keys that are not empty, in order |
| HotkeyEditor.HotkeyWidget.Save | obs-studio/UI/hotkey-edit.cpp:241-267 | hands the combinations over and ignores the announcement this causes |
| HotkeyEditor.HotkeyWidget.AddEdit | obs-studio/UI/hotkey-edit.cpp:269-350 | the new row and its buttons go to the same place of each list |
| HotkeyEditor.HotkeyWidget.RemoveEdit | obs-studio/UI/hotkey-edit.cpp:352-374 | one place is taken out of every list, and removing a bound row by hand counts as a change |
| HotkeyEditor.HotkeyWidget.HandleChangedBindings | obs-studio/UI/hotkey-edit.cpp:385-411 | removing all rows from the end and adding the current bindings; other hotkeys and one's own saving are ignored |
| HotkeyEditor.HotkeyWidget.CurrentIndex | obs-studio/UI/hotkey-edit.cpp:298-304 | the first remove button of the row |
| HotkeyEditor.HotkeyWidget.AddClicked | obs-studio/UI/hotkey-edit.cpp:306-310 | the slot of the add button is the Add action |
| HotkeyEditor.HotkeyWidget.RemoveClicked | obs-studio/UI/hotkey-edit.cpp:312-316 | the slot of the remove button is the Remove action |
| HotkeyEditor.HotkeyWidget.constructor | obs-studio/UI/hotkey-edit.hpp:91-108 | a new widget shows the given combinations, unchanged |
| HotkeyEditor.NextKeeps | obs-studio/UI/hotkey-edit.cpp:143-411 | every action keeps the widget consistent |
| HotkeyEditor.RunKeeps | obs-studio/UI/hotkey-edit.cpp:143-411 | so does every run |
| HotkeyEditor.ReachableButtons | obs-studio/UI/hotkey-edit.cpp:269-374 | in every reachable state the lists hold the same rows in the same order; remove is enabled exactly with two rows or more, revert exactly when the key is not the original, clear exactly when it is not empty |
| HotkeyEditor.PressShows | obs-studio/UI/hotkey-edit.cpp:143-154 | a pressed combination is shown in its row, whatever was there, and marks it changed if it is new; an empty one is ignored |
| HotkeyEditor.ClearEmpties | obs-studio/UI/hotkey-edit.cpp:174-182 | clearing shows the empty key in its row and marks it changed, unless it was empty |
| HotkeyEditor.RevertShows | obs-studio/UI/hotkey-edit.cpp:164-172 | reverting shows the original in its row and marks it unchanged, unless it was shown already |
| HotkeyEditor.AddGoesBelow | obs-studio/UI/hotkey-edit.cpp:306-310 | adding puts an empty row with a number of its own right below the clicked one |
| HotkeyEditor.RemoveTakesRow | obs-studio/UI/hotkey-edit.cpp:312-316 | removing takes out exactly the clicked row, unless it is the only one, and marks a change if it was bound |
| HotkeyEditor.HandedOut | obs-studio/UI/hotkey-edit.cpp:232-239 | the keys shown are handed out in order without those that have neither modifiers nor key |
| HotkeyEditor.SaveBindsShown | obs-studio/UI/hotkey-edit.cpp:241-267 | saving binds the hotkey to the keys shown |
| HotkeyEditor.RebindShows | obs-studio/UI/hotkey-edit.cpp:385-411 | announcements of other hotkeys change nothing; one's own replaces all rows |
| HotkeyEditor.UnchangedMeansSaved | obs-studio/UI/hotkey-edit.cpp:210-239 | a reachable widget without changes hands out the bindings last saved or loaded without the empty ones, and exactly those bindings if and only if none is empty |
| HotkeyEditor.SaveTracks | obs-studio/UI/hotkey-edit.cpp:219-267 | saving leaves the shown keys alone and no change pending |
| HotkeyEditor.LoadShowsBindings | obs-studio/UI/hotkey-edit.cpp:385-411 | reloading shows exactly the given bindings, and a change is still reported exactly if a bound row had been removed |
| HotkeyEditor.FlagAfter | obs-studio/UI/hotkey-edit.cpp:219-374 | exactly the removal of a bound row sets the flag of the widget, and only saving clears it |
| HotkeyEditor.RemovalOutlives | obs-studio/UI/hotkey-edit.cpp:210-411 | once it is set a change is reported after every run without saving |
| HotkeyEditor.StaleChange | obs-studio/UI/hotkey-edit.cpp:352-411 | a reachable run, removing a bound row and reloading any bindings, after which a change is reported although exactly these bindings are shown |
| HotkeyEditor.RevertingAllRestores | obs-studio/UI/hotkey-edit.cpp:164-172 | unless a bound row was removed, reverting every row brings back the bindings last saved or loaded |
| Letterbox.ZDTalkOBSContext.FindSceneItemAndScale | Recording/zdobscontext.cpp:302-337 | the two branches compute the transform, division by zero included |
| Letterbox.ZDTalkOBSContext.Initialize | Recording/zdobscontext.cpp:566-843 | what sizes, scene, filter and items are after each way initializing can end |
| Letterbox.ZDTalkOBSContext.CropVideo | Recording/zdobscontext.cpp:870-906 | sets the crop and the size together, or does nothing without source, filter or area |
| Letterbox.ZDTalkOBSContext.ScaleVideo | Recording/zdobscontext.cpp:1366-1378 | an unchanged size is skipped; a new one is taken over and every item placed |
| Letterbox.ZDTalkOBSContext.EnumItems | Recording/zdobscontext.cpp:1375-1376 | the enumeration gives every item of the scene the transform of the current sizes |
| Letterbox.FitIsTheLetterbox | Recording/zdobscontext.cpp:302-337 | the transform is the only one that keeps the picture's shape inside the canvas, touches two sides and is centred; its margins are not negative |
| Letterbox.LetterboxIsLargest | Recording/zdobscontext.cpp:302-337 | no larger uniform scale fits |
| Letterbox.ScalingSyncs | Recording/zdobscontext.cpp:1366-1378 | a scale command leaves every item in place exactly if it was before or the size changes |
| Letterbox.CroppingSyncs | Recording/zdobscontext.cpp:870-906 | the same for an accepted crop, whose width and height are then the picture's; others change nothing |
| Letterbox.InitializingSyncs | Recording/zdobscontext.cpp:566-843 | for each outcome, exactly when initializing leaves every item where the new sizes want it |
| Letterbox.InitializingLaws | Recording/zdobscontext.cpp:566-843 | when initializing is refused, and otherwise base, picture, scene, source, filter and crop after each of its outcomes |
| Letterbox.EmptyPicture | Recording/zdobscontext.cpp:302-337 | the transform of a picture without width or height |
| Letterbox.NegativePicture | Recording/zdobscontext.cpp:302-337 | the same formulas for negative sizes |
| Letterbox.RunKeepsSync | Recording/zdobscontext.cpp:835-906 | crops, scales and rejected or successful initializes keep every item in place over every run |
| Letterbox.CapturedWindowIsFitted | Recording/zdobscontext.cpp:835-838 | after a successful initialize and any crop and scale commands the item has the transform recomputed for the width and height last given, its letterbox while these are positive |
| Letterbox.FailedInitializeLeavesStale | Recording/zdobscontext.cpp:620-625 | a failed second initialize and the crop it asked for leave the item at the old transform |
| PreviewMapping.GetScaleAndCenterPos | obs-studio/UI/display-helpers.hpp:20-42 | offsets and scale of the layout |
| PreviewMapping.PictureInWindow | obs-studio/UI/display-helpers.hpp:20-42 | for all positive sizes the picture is the scaled source in whole pixels, fills one axis, lies inside the other and is centred to within a pixel, so at most one offset is not zero |
| PreviewMapping.OffsetsInPixels | obs-studio/UI/display-helpers.hpp:20-42 | both offsets are the difference of the halved sizes, each half cut off on its own |
| PreviewMapping.GetSourceRelativeXY | obs-studio/UI/window-basic-interaction.cpp:218-247 | taking off one offset equals taking off both, for every mouse position |
| PreviewMapping.RoundTripIsClose | obs-studio/UI/window-basic-interaction.cpp:229-238 | drawing a source pixel and pointing at it leads back to it or to one at most the reciprocal scale, rounded up, before it |
| PreviewMapping.EnlargedRoundTrip | obs-studio/UI/window-basic-interaction.cpp:229-238 | at most one pixel off when enlarged, and exact at whole scales |
| PreviewMapping.InsideExactly | obs-studio/UI/window-basic-interaction.cpp:240-246 | a position counts as inside exactly if it is less than one source pixel outside either edge |
| PreviewMapping.BackExactly | obs-studio/UI/window-basic-interaction.cpp:229-238 | the position in the source is the number of whole source pixels from the picture's edge, on either side of it |
| PreviewMapping.PictureIsInside | obs-studio/UI/window-basic-interaction.cpp:218-247 | every point of the drawn picture maps to a pixel of the source |
| ResolutionSearch.FindHardware | obs-studio/UI/window-basic-auto-config-test.cpp:730-791 | the search that stops at three returns the first three candidates accepted in ladder order |
| ResolutionSearch.FindSoftware | obs-studio/UI/window-basic-auto-config-test.cpp:592-689 | succeeds exactly if no rung that is really tried fails or is cancelled, and then returns the first three that are accepted and smooth |
| ResolutionSearch.HardwareSearchFinds | obs-studio/UI/window-basic-auto-config-test.cpp:730-811 | one to three results, each accepted, none accepted larger than the first; the one picked keeps the data rate or is the forced last one |
| ResolutionSearch.SoftwareSearchFinds | obs-studio/UI/window-basic-auto-config-test.cpp:592-711 | a successful search has one to three results, each accepted, none accepted larger than the first; the one picked keeps the data rate or is the forced last one |
| ResolutionSearch.CandidatesShrink | obs-studio/UI/window-basic-auto-config-test.cpp:774-791 | candidates never grow along the ladder |
| ResolutionSearch.CandidatesInOrder | obs-studio/UI/window-basic-auto-config-test.cpp:671-689 | all candidates in order, with their sizes and rates |
| ResolutionSearch.CapsInNumbers | obs-studio/UI/window-basic-auto-config-test.cpp:571-589 | the pixels a second that each kind of computer is trusted with |
| ResolutionSearch.HardwareAccepts | obs-studio/UI/window-basic-auto-config-test.cpp:746-772 | exactly which candidates are accepted on estimates |
| ResolutionSearch.SoftwareAccepts | obs-studio/UI/window-basic-auto-config-test.cpp:597-668 | exactly which candidates are accepted after a trial |
| ResolutionSearch.FirstThreeAre | obs-studio/UI/window-basic-auto-config-test.cpp:604-606 | the results are the first three accepted candidates in order |
| ResolutionSearch.SoftwareFailsExactly | obs-studio/UI/window-basic-auto-config-test.cpp:597-689 | the search fails exactly if a candidate tried before there are three results cannot be tried to its end |
| ResolutionSearch.SecondIsPicked | obs-studio/UI/window-basic-auto-config-test.cpp:694-706 | exactly when the second result is picked |
| ResolutionSearch.AllAccepted | obs-studio/UI/window-basic-auto-config-test.cpp:730-811 | a computer that takes everything gets the full size at 60 frames, or at the prescribed rate |
| AutoConfig.AutoConfigTestPage.TestHardwareEncoding | obs-studio/UI/window-basic-auto-config.cpp:646-658 | the loop finds exactly the hardware encoders that are listed |
| AutoConfig.AutoConfigTestPage.FindIdealHardwareResolution | obs-studio/UI/window-basic-auto-config-test.cpp:730-811 | assigns the chosen result of the hardware search |
| AutoConfig.AutoConfigTestPage.TestSoftwareEncoding | obs-studio/UI/window-basic-auto-config-test.cpp:486-728 | assigns the chosen result and caps the bit rate, or changes nothing and fails |
| AutoConfig.AutoConfigTestPage.TakeIdeal | obs-studio/UI/window-basic-auto-config-test.cpp:795-810 | erasing the first result picks the second exactly under the frame-rate preference |
| AutoConfig.AutoConfigTestPage.TestStreamEncoderThread | obs-studio/UI/window-basic-auto-config-test.cpp:813-839 | the thread of the stream-encoder stage |
| AutoConfig.AutoConfigTestPage.TestRecordingEncoderThread | obs-studio/UI/window-basic-auto-config-test.cpp:841-876 | the thread of the recording-encoder stage |
| AutoConfig.AutoConfigTestPage.ChooseRecordingEncoder | obs-studio/UI/window-basic-auto-config-test.cpp:853-873 | the encoder and quality for recordings |
| AutoConfig.AutoConfigTestPage.JoinThread | obs-studio/UI/window-basic-auto-config-test.cpp:1007-1008 | waiting for the stage thread lets it run to its end |
| AutoConfig.AutoConfigTestPage.NextStage | obs-studio/UI/window-basic-auto-config-test.cpp:1005-1045 | waits for the thread and starts the next stage with the skips for recording only and without bandwidth test, unless the page was left |
| AutoConfig.AutoConfigTestPage.DeliverNextStage | obs-studio/UI/window-basic-auto-config-test.cpp:838 | an event under way is used up by its slot |
| AutoConfig.AutoConfigTestPage.InitializePage | obs-studio/UI/window-basic-auto-config-test.cpp:1090-1102 | entering the page with new settings starts over, whatever happened before |
| AutoConfig.AutoConfigTestPage.CleanupPage | obs-studio/UI/window-basic-auto-config-test.cpp:1104-1114 | leaving the page cancels and waits for the thread, unless there is none |
| WizardRuns.VisitKeeps | obs-studio/UI/window-basic-auto-config-test.cpp:813-1114 | whatever follows a safe entering, each stage of the visit keeps what it has found and bounds the events that may still carry it past a failed test |
| WizardRuns.UnsafeVisit | obs-studio/UI/window-basic-auto-config-test.cpp:813-1045 | after any other entering some way to go on reaches the last page without a search |
| WizardRuns.SafeToEnterExactly | obs-studio/UI/window-basic-auto-config-test.cpp:1005-1114 | no way to go on after entering the page finishes without a search of this visit, exactly if no late event is under way, or hardware encoders are there and will be searched, or there is one late event and neither hardware nor a recording-only run |
| WizardRuns.JoinCommutes | obs-studio/UI/window-basic-auto-config-test.cpp:813-876 | stage threads take no notice of the events under way or of the page being left |
| WizardRuns.NextKeeps | obs-studio/UI/window-basic-auto-config-test.cpp:813-1114 | entering safely, stages ending, events and leaving keep the invariant |
| WizardRuns.RunKeeps | obs-studio/UI/window-basic-auto-config-test.cpp:813-1114 | so does every run |
| WizardRuns.FinishedWizard | obs-studio/UI/window-basic-auto-config-test.cpp:813-1045 | if its page is entered safely each time, every finished wizard has made a search in this very visit and shows its choice within the data rate, has the exact encoders its settings and the available ones determine, none of them unavailable, and shares the stream's encoder only if there is a stream |
| WizardRuns.FinishedEncoders | obs-studio/UI/window-basic-auto-config-test.cpp:813-876 | the encoders and the recording quality of every finished wizard, from the names of the encoders there are |
| WizardRuns.EnteringStarts | obs-studio/UI/window-basic-auto-config-test.cpp:1090-1102 | which stage entering the page starts, and what it forgets |
| WizardRuns.BandwidthMeasured | obs-studio/UI/window-basic-auto-config-test.cpp:160-432 | the bandwidth stage takes over what it measured and sends its event, or neither |
| WizardRuns.EventGoesOn | obs-studio/UI/window-basic-auto-config-test.cpp:1005-1045 | which stage an event leads to |
| WizardRuns.LeavingCancels | obs-studio/UI/window-basic-auto-config-test.cpp:1104-1114 | leaving cancels and joins, and leaves the events under way |
| WizardRuns.BitrateIsCapped | obs-studio/UI/window-basic-auto-config-test.cpp:713-724 | how a search in software caps the bit rate |
| WizardRuns.LateEventSkipsTest | obs-studio/UI/window-basic-auto-config-test.cpp:1005-1114 | a visit left just as a stage succeeds leaves its event behind, and entering again at once may then finish without a search |
| WizardRuns.RecordingOnlyFinishes | obs-studio/UI/window-basic-auto-config-test.cpp:841-1045 | a recording-only run finishes exactly if a hardware encoder is there or software works |
| QuickTransitions.OBSBasic.CreateDefaultScene | obs-studio/UI/window-basic-main.cpp:500-506 | clears and creates the defaults of the new transitions |
| QuickTransitions.OBSBasic.LoadSceneCollection | obs-studio/UI/window-basic-main.cpp:647-766 | clears and loads the saved entries among the new transitions |
| QuickTransitions.OBSBasic.SaveSceneCollection | obs-studio/UI/window-basic-main.cpp:415-430 | what is saved can be loaded later |
| QuickTransitions.OBSBasic.AddTransitionNamed | obs-studio/UI/window-basic-main-transitions.cpp:344-399 | a transition with a new name is offered; empty and taken names are refused |
| QuickTransitions.OBSBasic.RenameTransitionTo | obs-studio/UI/window-basic-main-transitions.cpp:456-498 | the same for a new name of an offered transition |
| QuickTransitions.OBSBasic.CreateDefaultQuickTransitions | obs-studio/UI/window-basic-main-transitions.cpp:140-150 | two entries with the next two ids |
| QuickTransitions.OBSBasic.LoadQuickTransitions | obs-studio/UI/window-basic-main-transitions.cpp:152-184 | the loop appends the usable entries and leaves the counter beyond their ids |
| QuickTransitions.OBSBasic.SaveQuickTransitions | obs-studio/UI/window-basic-main-transitions.cpp:186-207 | names, durations and ids in order |
| QuickTransitions.OBSBasic.LookUp | obs-studio/UI/window-basic-main-transitions.cpp:209-221 | the first transition of the name |
| QuickTransitions.OBSBasic.AddQuickTransition | obs-studio/UI/window-basic-main-transitions.cpp:843-855 | appends an entry with the next id |
| QuickTransitions.OBSBasic.GetQuickTransitionIdx | obs-studio/UI/window-basic-main-transitions.cpp:535-545 | the first place of the id, or -1 |
| QuickTransitions.OBSBasic.QuickTransitionRemoveClicked | obs-studio/UI/window-basic-main-transitions.cpp:915-929 | takes out the entry of the id |
| QuickTransitions.OBSBasic.QuickTransitionChange | obs-studio/UI/window-basic-main-transitions.cpp:892-902 | gives it another transition |
| QuickTransitions.OBSBasic.QuickTransitionChangeDuration | obs-studio/UI/window-basic-main-transitions.cpp:904-913 | gives it another duration |
| QuickTransitions.OBSBasic.RemoveTransition | obs-studio/UI/window-basic-main-transitions.cpp:426-454 | erasing from the end removes exactly the entries of the transition |
| QuickTransitions.OBSBasic.ClearQuickTransitions | obs-studio/UI/window-basic-main-transitions.cpp:857-861 | clearing leaves no entry and the counter alone |
| QuickTransitions.WithoutSourceKeepsOthers | obs-studio/UI/window-basic-main-transitions.cpp:437-445 | the entries of other transitions stay |
| QuickTransitions.EditsByPlace | obs-studio/UI/window-basic-main-transitions.cpp:892-929 | removing, changing and changing the duration do just that to the entry of the id and leave everything else alone |
| QuickTransitions.UnknownId | obs-studio/UI/window-basic-main-transitions.cpp:892-929 | an id without an entry changes nothing |
| QuickTransitions.NewEntries | obs-studio/UI/window-basic-main-transitions.cpp:140-150 | new entries come last with the next id; the two defaults last 300 milliseconds |
| QuickTransitions.FirstIds | obs-studio/UI/window-basic-main-transitions.cpp:140-150 | the first default entries have the ids one and two |
| QuickTransitions.DropKeepsOrder | obs-studio/UI/window-basic-main-transitions.cpp:426-454 | dropping a transition keeps the entries of the others in order |
| QuickTransitions.FirstOfName | obs-studio/UI/window-basic-main-transitions.cpp:209-221 | the look-up takes the first transition of a name |
| QuickTransitions.LoadedOneByOne | obs-studio/UI/window-basic-main-transitions.cpp:152-184 | exactly which entries are loaded, and as what |
| QuickTransitions.CounterIsNext | obs-studio/UI/window-basic-main-transitions.cpp:152-184 | the counter becomes one, or the id after the largest loaded |
| QuickTransitions.FilesAndNames | obs-studio/UI/window-basic-main-transitions.cpp:140-207 | loading, saving, adding and renaming change nothing else |
| QuickTransitions.LoadThenSave | obs-studio/UI/window-basic-main-transitions.cpp:152-207 | loading and saving gives back exactly the entries with an id and a transition on offer |
| QuickTransitions.LoadedIdsFit | obs-studio/UI/window-basic-main-transitions.cpp:152-184 | after loading any array the ids are positive, distinct and below the counter exactly if those kept were positive and distinct |
| QuickTransitions.UniqueNameFound | obs-studio/UI/window-basic-main-transitions.cpp:209-221 | a unique name leads back to its own transition |
| QuickTransitions.AfterKeeps | obs-studio/UI/window-basic-main-transitions.cpp:140-929 | every action keeps the ids in order |
| QuickTransitions.RunKeeps | obs-studio/UI/window-basic-main-transitions.cpp:140-929 | so does every run |
| QuickTransitions.ReachableIds | obs-studio/UI/window-basic-main-transitions.cpp:140-929 | over every run ids are positive, below the counter and lead back to their own entry, and the next id is new |
| QuickTransitions.ReachableRoundTrip | obs-studio/UI/window-basic-main-transitions.cpp:152-207 | saving in any reachable state and loading into a new set of transitions restores names, durations and ids exactly if every name is on offer |
| FrameRates.InsertFPS | obs-studio/UI/properties-view.cpp:862-880 | the scan inserts before the first smaller rate or finds a close one |
| FrameRates.AddFPSRanges | obs-studio/UI/properties-view.cpp:859-886 | both ends of every range, one after the other |
| FrameRates.FindMatch | obs-studio/UI/properties-view.cpp:768-811 | the loop computes the match that MatchExactly describes |
| FrameRates.MatchExactly | obs-studio/UI/properties-view.cpp:768-811 | a rate within a range stands for itself; otherwise the last range with an end within the tolerance puts its other end in the rate's place; and a rate is supported exactly if it is within a range or near an end |
| FrameRates.OwnRateIsInRange | obs-studio/UI/properties-view.cpp:768-811 | with ranges from a lower to a higher rate, an entry is offered at its own rate exactly if a range contains it |
| FrameRates.OwnRateExactly | obs-studio/UI/properties-view.cpp:768-811 | with any ranges, exactly if a range contains it or the other end of the last range near it is the rate itself |
| FrameRates.InRangeExactly | obs-studio/UI/properties-view.cpp:751-766 | a rate is within a range exactly if it is between its ends as fractions |
| FrameRates.EverythingOffered | obs-studio/UI/properties-view.cpp:821-831 | the nine common rates with their names |
| FrameRates.CreateSimpleFPSValues | obs-studio/UI/properties-view.cpp:888-911 | the supported common rates with the ends added |
| FrameRates.SupportedRates | obs-studio/UI/properties-view.cpp:903-909 | the common rates that match, in order, each with what matched |
| FrameRates.AddingKeepsOrder | obs-studio/UI/properties-view.cpp:859-886 | the list is descending with gaps of at least 0.01 afterwards exactly if it was before |
| FrameRates.AddedKeeps | obs-studio/UI/properties-view.cpp:859-886 | the old entries stay in their order, and only ends of ranges are added |
| FrameRates.EndsAreListed | obs-studio/UI/properties-view.cpp:859-886 | whatever the list, a rate less than 0.01 from each end of every range is listed |
| FrameRates.InsertedExactly | obs-studio/UI/properties-view.cpp:862-880 | where a rate is inserted in any list, and when it is not |
| FrameRates.FarRateIsAdded | obs-studio/UI/properties-view.cpp:862-880 | into a descending list a rate is inserted exactly if it is at least 0.01 from every one listed |
| FrameRates.AddingTwice | obs-studio/UI/properties-view.cpp:859-886 | adding the same ranges again adds nothing |
| FrameRates.OfferedDescends | obs-studio/UI/properties-view.cpp:768-911 | the list offered is descending with gaps of at least 0.01 exactly if, of any two common rates that are supported, the first is replaced by a rate at least 0.01 above the second's |
| FrameRates.NoNearMissDescends | obs-studio/UI/properties-view.cpp:768-911 | in particular unless a common rate lies outside every range and near an end of one |
| FrameRates.NearMissSpoilsOrder | obs-studio/UI/properties-view.cpp:794-806 | a range for which, by MatchExactly, the entry named 60 stands for 1, and the list offered is out of order by OfferedDescends |

## Left out

- Widgets, painting, labels, translations and dialogs, beyond the list contents, selection and enable bits named above.
- libobs objects, encoders, services, sockets and the file system: they appear as sets, functions and outcomes. The lexer in libobs is not part of this model; its tokens are runs of digits, runs of letters and single other characters with white space skipped.
- OutputLifecycle: swapping the output handler while slots are posted, and signals delivered on the UI thread itself, which would run a slot inside a callback. The callbacks of one output run one after the other, and the two flags that the end of a stream clears are cleared in one step.
- ListOrder: the current row and the selection following a moved item; item widgets. In the sources panel, signals of libobs are handled before the next change.
- SavedOrderComesFirst: is about saved orders without repeated names, which scenes do not have.
- RecorderProtocol: frames split across two notifications, which the reader does not buffer; the slots that the commands are connected to. QDataStream follows the serialization that Qt documents for its 4.0 format, and reading past the end yields zeros.
- LogFilter: cutting a message into lines with time stamps; the repetition counter is unbounded. DoLog states the new log through the state it is compared with.
- RetentionOverRuns: is about launches that can create their log, at times whose numbers are below the largest 64-bit one.
- LogFiles: crash logs, whose names are not recognised; years before 1.
- FileNames: the number is unbounded.
- HotkeyEditor: edits and buttons are values that carry the number of their row instead of objects with pointers to each other; tool tips, labels and key names.
- Letterbox: shutting down, outputs and audio; the calculation of the output resolution. Rounding of floats.
- PreviewMapping: windows without an area, for which the source divides by zero. Rounding of floats.
- ResolutionSearch: the estimates of bit rates are parameters, and so is the clipped base size that the search starts from; products of sizes are unbounded. The two searches go over the ladder in a loop where the source writes the calls out one after another.
- WizardRuns: the page is entered only after it was left, which waits for the stage thread, as Qt's wizard does.
- AutoConfig: the ranking of servers in the bandwidth stage; the last page's own cap on the bit rate.
- QuickTransitions: buttons and hotkeys; the counter is unbounded. Arrays edited by hand are covered by LoadedIdsFit, the runs load only what was saved.
- FrameRates: rates with a zero numerator or denominator.
- Dropping files, copying profiles and scene collections, remote texts, platform code.
