# Editor keybind dispatch and replay frame capture

This project models two small state machines from the Quaver rhythm game.

**`EditorInput`** (`editor_input.dfy`) models the map editor's input manager. Once per
frame the manager does the following:

- It skips the poll entirely while a dialog is open or the plugin panel is hovered.
- It walks the keybinds that are currently pressed.
- For every action bound to a keybind, it picks one of three cases:
  - The keybind is a fresh ("unique") press: the action fires and its press time is stamped.
  - The keybind is held: the action fires again only if it is an auto-repeating action and both of these hold:
    - more than 250 ms have passed since its press;
    - more than 25 ms have passed since its last dispatch.
  - Otherwise the action fires only if it is a hold-and-release action, and that class is empty.
- Firing an action runs its case in a fixed table of screen calls. The calls are recorded in an effect log. Its dispatch time is stamped only when the table has a case for it.
- A release pass then visits the hold-and-release actions.

The manager is a class whose methods update its fields. Each method is proved equal to a fold over values: `KeyPresses`, `ActionsStep`, `ActionStep`, `Fire` and `Releases`. The actions of one keybind come from a hash set, so the method visits them in an arbitrary order. It returns the orders it chose as ghost results. `KeyPressesTiming` proves that the timing records after a poll do not depend on those orders.

**`Replays`** (`replay_capturer.dfy`) models the replay capturer used during gameplay. It works as follows:

- The replay starts with a sample frame at time -10000 with no lanes pressed.
- On each update that is not paused, failed or complete, it appends the current frame once for each of these conditions:
  - the pressed lanes changed;
  - the combo differs from the last recorded combo;
  - the capture interval has elapsed. This also resets the accumulator.
- The pressed lanes are folded from the binding store, using lane i + 1 for binding i.

The capturer is a class proved against the step function `CaptureStep`. The invariants it keeps are proved over any run of updates (`Run`).

The code and the written description of the dispatcher disagree in two places. The model follows the code.

- **Absent timing records.** The description treats an action with no press or dispatch record as passing both repeat tests. The code reads a missing record as "now", so the elapsed time is 0 and the action does not repeat. `TimeSince` and `CanRepeat` follow the code.
- **Strict comparisons.** The description's example has a held action repeat at exactly 250 ms. The code compares with `>`, so the first repeat can come no earlier than 251 ms after the press (`RepeatWindowIsStrict`).

Two oddities in the action table are modelled as written:

- `SeekToStartOfSelection`/`SeekToEndOfSelection` and `SeekToStart`/`SeekToEnd` each call the screen method of the other name.
- `ChangeToolUp` changes the tool backwards.

## Model

| member | source | states |
|---|---|---|
| EditorInput.TimeSince | Quaver.Shared/Screens/Edit/Input/EditorInputManager.cs:113-114 | Elapsed time is now minus the record; an absent record defaults to now, giving 0 |
| EditorInput.CanRepeat | Quaver.Shared/Screens/Edit/Input/EditorInputManager.cs:116-122 | True iff the action is auto-repeating, has a dispatch record more than 25 ms old and has a press record more than 250 ms old (absent records never repeat) |
| EditorInput.CanHold | Quaver.Shared/Screens/Edit/Input/EditorInputManager.cs:124-130 | Never true: the hold-and-release class is empty |
| EditorInput.RepeatWindowIsStrict | Quaver.Shared/Screens/Edit/Input/EditorInputManager.cs:24-25 | The 250 ms and 25 ms thresholds are strict: no repeat at exactly 250 ms or 25 ms after the records; a repeat at 251 ms |
| EditorInput.HandlerFor | Quaver.Shared/Screens/Edit/Input/EditorInputManager.cs:134-203 | The switch has a case exactly for the 21 named actions; each case makes one screen call, except the 1 ms seeks while the track plays, which make none |
| EditorInput.HoldRepeatActionsAreHandled | Quaver.Shared/Screens/Edit/Input/EditorInputManager.cs:29-43 | Every auto-repeating action has a case in the switch |
| EditorInput.Fire | Quaver.Shared/Screens/Edit/Input/EditorInputManager.cs:132-206 | Firing never touches press times. It appends exactly the table's calls for the action (none for an unhandled one), at most one. It stamps the dispatch time to now exactly for handled actions. No call is appended exactly for an unhandled action or a 1 ms seek while playing |
| EditorInput.EdgePressFires | Quaver.Shared/Screens/Edit/Input/EditorInputManager.cs:86-90 | A fresh press fires the action's calls, stamps its press time, and stamps its dispatch time iff it is handled |
| EditorInput.HeldKeybindFiresOnlyOnRepeat | Quaver.Shared/Screens/Edit/Input/EditorInputManager.cs:91-94 | A held keybind never stamps a press time. It changes nothing unless the action may repeat. When it may, the action fires: its table calls are appended and its dispatch time is stamped |
| EditorInput.NoSecondNonEdgeFire | Quaver.Shared/Screens/Edit/Input/EditorInputManager.cs:91-94 | An action already dispatched in this poll cannot fire again from a held keybind |
| EditorInput.EdgeActions | Quaver.Shared/Screens/Edit/Input/EditorInputManager.cs:78-90 | The actions bound to some freshly pressed keybind, exactly |
| EditorInput.HeldActions | Quaver.Shared/Screens/Edit/Input/EditorInputManager.cs:78-92 | The actions bound to some held, not freshly pressed, keybind, exactly |
| EditorInput.StampedActions | Quaver.Shared/Screens/Edit/Input/EditorInputManager.cs:84-95 | The handled actions that are freshly pressed, or held and able to repeat on the records at the start of the poll |
| EditorInput.KeyPressesTiming | Quaver.Shared/Screens/Edit/Input/EditorInputManager.cs:74-99 | For any order of visiting each keybind's actions: effects are only appended; exactly the fresh-press actions get press time now; exactly `StampedActions` get dispatch time now; all other records are unchanged |
| EditorInput.UnboundKeybindIgnored | Quaver.Shared/Screens/Edit/Input/EditorInputManager.cs:82 | A pressed keybind with no dictionary entry, fresh or held, dispatches nothing and changes no record |
| EditorInput.UnboundKeybindAmongOthers | Quaver.Shared/Screens/Edit/Input/EditorInputManager.cs:78-82 | An unbound keybind anywhere among bound pressed keybinds changes nothing: the poll's records and calls equal those of the poll without it |
| EditorInput.UnboundKeybindsIgnored | Quaver.Shared/Screens/Edit/Input/EditorInputManager.cs:82 | A poll in which no pressed keybind is in the dictionary changes nothing |
| EditorInput.ReleasesOfNothing | Quaver.Shared/Screens/Edit/Input/EditorInputManager.cs:101-111 | The release pass over the empty hold-and-release class fires nothing |
| EditorInput.EditorInputManager.constructor | Quaver.Shared/Screens/Edit/Input/EditorInputManager.cs:53-60 | Stores the reverse dictionary and the initial key state; no timing records, no calls |
| EditorInput.EditorInputManager.HandleInput | Quaver.Shared/Screens/Edit/Input/EditorInputManager.cs:62-72 | With an open dialog or hovered panel nothing changes. Otherwise the new key state is stored and the state is the key-press fold over valid visiting orders |
| EditorInput.EditorInputManager.HandleKeyPresses | Quaver.Shared/Screens/Edit/Input/EditorInputManager.cs:74-99 | Visits every action of every pressed keybind once, in some order. The resulting state is `KeyPresses` over those orders, and the key state is rolled forward |
| EditorInput.EditorInputManager.HandleKeyReleasesAfterHoldAction | Quaver.Shared/Screens/Edit/Input/EditorInputManager.cs:101-111 | Leaves the records, the calls and the key state unchanged |
| EditorInput.EditorInputManager.FireReleases | Quaver.Shared/Screens/Edit/Input/EditorInputManager.cs:103-110 | Visits each given action once and fires the released ones as release events (`Releases`) |
| EditorInput.EditorInputManager.HandleAction | Quaver.Shared/Screens/Edit/Input/EditorInputManager.cs:132-206 | The new state is `Fire` of the old one |
| Replays.KeyLaneToPressState | Quaver/States/Gameplay/Replays/ReplayCapturer.cs:112 | The flag of a lane holds that lane alone |
| Replays.PressedLanes | Quaver/States/Gameplay/Replays/ReplayCapturer.cs:105-116 | Lane l is pressed iff 1 <= l <= number of bindings and binding l - 1 is pressed |
| Replays.BindingStoreToKeyPressState | Quaver/States/Gameplay/Replays/ReplayCapturer.cs:105-116 | The loop returns exactly the pressed lanes (lane i + 1 for pressed binding i), and the empty state when nothing is pressed |
| Replays.CaptureStep | Quaver/States/Gameplay/Replays/ReplayCapturer.cs:59-83 | A skipped update changes nothing. Otherwise frames are only appended: one per condition that holds, at most 3, all at the current time with the current lanes. The accumulator resets exactly when it reaches the interval. The last state becomes the current lanes |
| Replays.CaptureStepConsistent | Quaver/States/Gameplay/Replays/ReplayCapturer.cs:66-82 | The last frame always carries the last recorded press state, so every press-state change is recorded |
| Replays.CaptureStepChronological | Quaver/States/Gameplay/Replays/ReplayCapturer.cs:69-80 | Frames stay in time order when the update's time is not earlier than any frame |
| Replays.CaptureStepAccumulatorBelowInterval | Quaver/States/Gameplay/Replays/ReplayCapturer.cs:64-80 | The accumulator stays below a positive interval |
| Replays.Initial | Quaver/States/Gameplay/Replays/ReplayCapturer.cs:36-49 | A new replay holds just the sample frame, consistent with the empty press state |
| Replays.RunAppendOnly | Quaver/States/Gameplay/Replays/ReplayCapturer.cs:59-88 | Over any run, existing frames are kept and at most 3 frames per update are appended |
| Replays.RunKeepsInitialFrame | Quaver/States/Gameplay/Replays/ReplayCapturer.cs:48 | Every replay starts with the sample frame at -10000 |
| Replays.RunConsistent | Quaver/States/Gameplay/Replays/ReplayCapturer.cs:66-82 | The last frame carries the last recorded press state after any run |
| Replays.RunAccumulatorBelowInterval | Quaver/States/Gameplay/Replays/ReplayCapturer.cs:64-80 | The accumulator stays below a positive interval over any run |
| Replays.RunSkipped | Quaver/States/Gameplay/Replays/ReplayCapturer.cs:61-62 | Paused, failed or completed updates leave the capturer as it was |
| Replays.RunChronological | Quaver/States/Gameplay/Replays/ReplayCapturer.cs:69-88 | With a screen clock that never goes back, frames are in time order and none is later than the latest non-skipped update |
| Replays.ReplayCapturer.constructor | Quaver/States/Gameplay/Replays/ReplayCapturer.cs:36-49 | Starts from `Initial()`: the sample frame, accumulator 0, empty last state |
| Replays.ReplayCapturer.Capture | Quaver/States/Gameplay/Replays/ReplayCapturer.cs:59-83 | The new state is `CaptureStep` of the old one, and the consistency invariant is kept |
| Replays.ReplayCapturer.AddFrame | Quaver/States/Gameplay/Replays/ReplayCapturer.cs:88 | Appends one frame and changes nothing else |

## Left out

- Keyboard reads, the keybind resolution and the clock are inputs to `HandleInput`. These are `GenericKeyManager`, `GenericKeyState.PressedKeybinds`/`UniqueKeyPresses` and `GameBase.Game.TimeRunning`. They are not part of this model.
- The reverse dictionary is a constructor parameter. `EditorInputConfig` loading and `ReverseDictionary` are not part of this model.
- The editor screen is not part of this model. Its calls are recorded in an effect log and are not executed.
- The track's playing flag and time are read once per poll. In the code, later actions in the same poll would see changes made earlier in it:
  - a seek moves `Track.Time` before a later 1 ms seek reads it;
  - a `TogglePlayPause` flips `Track.IsPlaying` before a later `SeekForwards1ms`/`SeekBackwards1ms` tests it (EditorInputManager.cs:140, 161, 165).
  The model does not capture this.
- `Track.Time` is a double in the code and an exact real in the model.
- The keybind release test (`GetOrDefault`, `IsNotBound`, `IsUniqueRelease`) is an input: the set of actions whose keybind was just released.
- `EnabledActionsDuringGameplayPreview` is left out. It is an empty set that nothing in the file reads.
- `HandleMouseInputs` is left out because it has an empty body.
- `HandlePluginKeyPresses` is left out. For each plugin keybind that is a unique press, its loop body holds only a comment, so it has no effect.
- `Replays.PressedLanes`: the press state is a set of lane numbers, not the `ReplayKeyPressState` bitmask. `Replay.KeyLaneToPressState` is not part of this model, and lane flags stand in for its bits.
- `Replays.ReplayCapturer.Capture`: timing uses exact reals. The `(float)` cast of the frame time and the double rounding of the accumulator are not modelled.
- `Replay.CaptureInterval`'s value is not part of this model. It is the constructor's `captureInterval` parameter.
- The replay is the capturer's frame sequence. The `Replay` object and its player name and mods selection (ReplayCapturer.cs:40-43) are not part of this model.
- The gameplay screen's fields are a per-call `Gameplay` value. These are the paused/failed/complete flags, the combo, the last recorded combo, the clock and the binding store. The same binding store is read at both points where the code reads it.
