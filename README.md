# VSImGui core logic in Dafny

This project models the host-independent logic of VSImGui, the mod that
brings Dear ImGui into Vintage Story. ImGui, the game and the native
loaders are not modelled: where the code asks them something, the model
takes the answer as an argument. Examples are the status a draw callback
returns, whether a tab is open, whether a button was pressed, whether ImGui
wants the input, and the handle `dlopen` returns.

The modules follow the repository's components:

- `Callbacks` (callbacks.dfy): `DrawCallbacksManager`. It keeps a registry of
  draw callbacks under increasing integer ids, each with a "was closed"
  latch. Each frame it folds the callbacks' statuses into the host dialog's
  `(open, grab, close)` decision. A reference function `Outcome` states the
  frame decision declaratively. The manager's `Draw` loop is proved equal
  to it for any enumeration order of the dictionary. Lemmas then state the
  edge-triggering, the grab rule and the rule that close is suppressed while
  any callback is still active.
- `LegacyCallbacks` (legacy_manager.dfy): the older `VSImGuiManager`. Its
  reducer sets the latch on every `Closed` and has no close signal. It is
  proved to leave the same latches, open and grab as the newer reducer.
- `Integration` (dialog.dfy): the game dialog that carries ImGui, in its
  three versions, and the off-window renderer. The dialog applies the
  reducer's decision as `TryOpen`/`TryClose` calls, and it derives the mouse
  preference and dialog kind from the grab flag. Its input handlers decide
  when an event's `Handled` flag may be overwritten. The renderer's
  disposed/stage gate is modelled too. Calls into the host and the
  controller are appended to a call log.
- `DebugRegistry` (debug_registry.dfy): the debug-widget registry, shared by
  its three copies. It is a two-level table domain → id → entry with an
  append-only category index. Draw passes are proved to invoke exactly the
  entries whose category tab is open.
- `Queues` (fixed_queue.dfy): `FixedSizedQueue`, the bounded FIFO used for
  plot histories. Every mutation is proved to leave the newest `Limit`
  elements of the whole history.
- `Editors` (editors.dfy): wildcard filtering with its index map, the
  selection bookkeeping of the three `FilterElements` variants,
  `TextEditor.ListWithFilter`, the list arithmetic of `ListEditor.Edit` and
  `EnumEditor`'s "modified" flag.
- `WindowFlagsModel` (window_flags.dfy): the `WindowFlags` struct. A 32-bit
  flag word is modelled exactly as the set of its bit positions. The module
  covers the per-flag getters and setters, `None`, the editor tables and
  their checkbox loop, and the C# code generator `WindowPropertiesToCode`.
- `Styles` (styles.dfy): `Style` with its push/pop latch over ImGui's global
  style and font stack, the group setters, the font key, `SetFrom`,
  `WindowStyle` (background texture, `Begin`/`End`, `SetFrom`) and
  `StyleApplier`, the disposable that pops at most once.
- `Natives` (natives.dfy): platform loader selection, the path of each
  native library, and the all-or-nothing `NativesLoader.Load`.
- `Wrappers` (wrappers.dfy): `Option`, and `Result` with the kind of .NET
  exception a failing call raises.

Two behaviours of the callback manager are easy to misread:

- Every latch starts `false`, so the first frame after registration raises
  no `open`, even for a callback that is active from the start. `open` needs
  a latch that is `true` (`Callbacks.TwoCallbackScenario`,
  `Callbacks.FreshCallbacksRaiseNoOpen`).
- Callbacks are enumerated from a `Dictionary`, not a list kept in
  registration order, so the model leaves the order open. Every result is
  proved independent of it.

## Model

| member | source | states |
|---|---|---|
| Callbacks.NextLatches | VSImGui/source/ImGui/DrawCallbacksManager.cs:87-110 | after a frame every registered callback's latch is "its status was Closed"; the key set is unchanged |
| Callbacks.Run | VSImGui/source/ImGui/DrawCallbacksManager.cs:74-117 | consecutive frames yield one decision each, each frame starting from the latches the previous frame left |
| Callbacks.FoldOne | VSImGui/source/ImGui/DrawCallbacksManager.cs:81-111 | visiting one more callback adds exactly its own contribution to open, close, the active flag and grab |
| Callbacks.DrawCallbacksManager.constructor | VSImGui/source/ImGui/DrawCallbacksManager.cs:59-67 | ids start at 1 and both tables start empty |
| Callbacks.DrawCallbacksManager.Add | VSImGui/source/ImGui/DrawCallbacksManager.cs:43-47 | the callback is stored under the unused id `nextId` with latch false, and `nextId` grows by one, so ids are never reused |
| Callbacks.DrawCallbacksManager.Remove | VSImGui/source/ImGui/DrawCallbacksManager.cs:48-53 | an id holding the delegate is removed from both tables; with no match the call fails as `First` does and nothing changes |
| Callbacks.DrawCallbacksManager.Draw | VSImGui/source/ImGui/DrawCallbacksManager.cs:74-117 | for any enumeration order, the result is the reference decision `Outcome` and the latches are `NextLatches`; the registry keeps the two tables' key sets equal |
| Callbacks.CloseSuppressedWhileActive | VSImGui/source/ImGui/DrawCallbacksManager.cs:116 | one active callback suppresses the close signal whatever the others report |
| Callbacks.GrabWins | VSImGui/source/ImGui/DrawCallbacksManager.cs:94-102 | one GrabMouse status is enough for grab |
| Callbacks.OpenFollowsClosedFrame | VSImGui/source/ImGui/DrawCallbacksManager.cs:95-99 | open is raised exactly when some callback reported Closed last frame and is active now |
| Callbacks.FreshCallbacksRaiseNoOpen | VSImGui/source/ImGui/DrawCallbacksManager.cs:46 | with every latch still false, no status raises open |
| Callbacks.SteadyActiveOpensOnlyFirst | VSImGui/source/ImGui/DrawCallbacksManager.cs:95-99 | while every callback stays active, open can be raised only on the first frame |
| Callbacks.SteadyClosedClosesOnlyFirst | VSImGui/source/ImGui/DrawCallbacksManager.cs:87-93 | while every callback stays Closed, close is raised only on the first frame, and there exactly when some latch was false |
| Callbacks.TwoCallbackScenario | VSImGui/source/ImGui/DrawCallbacksManager.cs:74-117 | two fresh callbacks over three frames (C1 grabs while C2 is closed; C1 active; both closed) give (no open, grab, no close), (nothing), (close only) |
| LegacyCallbacks.VSImGuiManager.constructor | VSImGui/source/ImGui/Manager.cs:47-49 | ids start at 1 and both tables start empty |
| LegacyCallbacks.VSImGuiManager.Add | VSImGui/source/ImGui/Manager.cs:34-38 | the callback and a false latch go under the same fresh id, and the id grows by one |
| LegacyCallbacks.VSImGuiManager.Remove | VSImGui/source/ImGui/Manager.cs:39-44 | an id holding the delegate is removed from both tables; with no match the call fails and nothing changes |
| LegacyCallbacks.VSImGuiManager.Draw | VSImGui/source/ImGui/Manager.cs:51-84 | Closed always latches; open is the closed-to-active edge; grab is "some callback grabbed"; the latches end as `NextLatches` |
| Integration.HandleMouse | VSImGui/source/Integration/Dialog.cs:68-87 | an unhandled mouse, move or wheel event takes the capture answer; a handled one stays handled |
| Integration.HandleMouseWheelIgnored | VSImGui/src/ImGui/Dialog.cs:36-53 | the oldest dialog never changes a wheel event's Handled flag |
| Integration.KeyboardClearsOnlyUnfocusedEscape | VSImGui/source/Integration/Dialog.cs:94 | only Escape on an unfocused dialog can turn a handled key event back to unhandled |
| Integration.VSImGuiDialog.constructor | VSImGui/source/Integration/Dialog.cs:10-16 | the grab flag starts false and no call has been made |
| Integration.VSImGuiDialog.PrefersUngrabbedMouse | VSImGui/source/Integration/Dialog.cs:51 | the dialog prefers an ungrabbed mouse exactly when it is a full Dialog rather than a HUD |
| Integration.VSImGuiDialog.DialogKind | VSImGui/source/Integration/Dialog.cs:52 | the kind is Dialog exactly when the last frame asked to grab |
| Integration.VSImGuiDialog.Draw | VSImGui/source/Integration/Dialog.cs:118-126 | TryOpen is called iff the decision opens, then TryClose iff it closes, and the grab wish is stored |
| Integration.VSImGuiDialog.Update | VSImGui/source/Integration/Dialog.cs:30-33 | the controller update receives the dialog's open flag as "capture inputs" |
| Integration.VSImGuiDialog.RenderOffWindow | VSImGui/source/Integration/Dialog.cs:38-41 | one off-window render call, nothing else changes |
| Integration.VSImGuiDialog.HandleKeyboard | VSImGui/source/Integration/Dialog.cs:92-98 | the capture answer overwrites Handled for an unhandled event, and for Escape while this dialog is unfocused; otherwise the event stays handled |
| Integration.VSImGuiDialog.OnRenderGUI | VSImGui/source/Integration/Dialog.cs:42-45 | one main-window render call, nothing else changes |
| Integration.OffWindowRenderer.constructor | VSImGui/source/Integration/Dialog.cs:134-137 | a new renderer is not disposed |
| Integration.OffWindowRenderer.Dispose | VSImGui/source/Integration/Dialog.cs:145-148 | disposal is recorded |
| Integration.OffWindowRenderer.OnRenderFrame | VSImGui/source/Integration/Dialog.cs:149-156 | update then off-window render, only when not disposed and in the Ortho stage |
| Integration.LegacyDialog.constructor | VSImGui/src/ImGui/Dialog.cs:7-11 | the oldest dialog starts with no calls made and the host's open and focus flags |
| Integration.LegacyDialog.HandleKeyboard | VSImGui/src/ImGui/Dialog.cs:54-60 | the same rule as the current dialog: only an unhandled event, or Escape while unfocused, takes the capture answer |
| Integration.LegacyDialog.Update | VSImGui/src/ImGui/Dialog.cs:14-17 | the controller update receives the dialog's open flag |
| Integration.LegacyDialog.RenderOffWindow | VSImGui/src/ImGui/Dialog.cs:18-21 | one off-window render call |
| Integration.LegacyOffWindowRenderer.constructor | VSImGui/src/ImGui/Dialog.cs:70-73 | a new renderer is not disposed |
| Integration.LegacyOffWindowRenderer.Dispose | VSImGui/src/ImGui/Dialog.cs:78-81 | disposal is recorded |
| Integration.LegacyOffWindowRenderer.OnRenderFrame | VSImGui/src/ImGui/Dialog.cs:82-89 | update then off-window render, only when not disposed and in the Ortho stage |
| Integration.DisposedRendererIsSilent | VSImGui/source/ImGui/Dialog.cs:94-105 | after Dispose no render stage makes the renderer call the controller |
| DebugRegistry.Upserted | VSImGui_DebugTools/source/DebugWidgets.cs:22-26 | the domain's table is created if missing and the entry at `id` is inserted or replaced; other ids and domains keep theirs |
| DebugRegistry.UpsertSameKeyTwice | VSImGui_DebugTools/source/DebugWidgets.cs:25 | registering the same (domain, id) twice leaves one entry, the latest |
| DebugRegistry.UpsertedVisibility | VSImGui_DebugTools/source/DebugWindowManager.cs:44-67 | a freshly stored entry is drawn exactly when its own category tab is open |
| DebugRegistry.RemovedInvisible | VSImGui_DebugTools/source/DebugWidgets.cs:33 | a removed entry is never drawn and every other entry keeps its visibility |
| DebugRegistry.DebugWindowsManager.constructor | VSImGui_DebugTools/source/DebugWindowManager.cs:13 | both tables start empty |
| DebugRegistry.DebugWindowsManager.CategoriesOf | VSImGui_DebugTools/source/DebugWindowManager.cs:87 | a domain's categories, none when the domain has none |
| DebugRegistry.DebugWindowsManager.NewEntry | VSImGui_DebugTools/source/DebugWindowManager.cs:95-103 | constructing an entry adds its category to its domain's set, creating the set if missing, and touches no entry |
| DebugRegistry.DebugWindowsManager.Upsert | VSImGui_DebugTools/source/DebugWidgets.cs:22-26 | the entry table becomes `Upserted` and the category index grows by the entry's category only |
| DebugRegistry.DebugWindowsManager.LabelWidget | VSImGui_DebugTools/source/DebugWidgets.cs:43-52 | a label-keyed widget is stored under the label's hash, which it returns |
| DebugRegistry.DebugWindowsManager.Text | VSImGui_DebugTools/source/DebugWidgets.cs:148-153 | a text widget is stored under the caller's id, which it returns unchanged |
| DebugRegistry.DebugWindowsManager.Remove | VSImGui_DebugTools/source/DebugWidgets.cs:33 | an unknown domain throws; otherwise only that id goes (a no-op when absent); the category index is untouched |
| DebugRegistry.DebugWindowsManager.Clear | VSImGui_DebugTools/source/DebugWindowManager.cs:72-76 | both the entries and the category index become empty |
| DebugRegistry.DebugWindowsManager.DrawCategory | VSImGui_DebugTools/source/DebugWindowManager.cs:60-67 | exactly the domain's entries of that category are invoked, and anyDrawn is raised iff one was |
| DebugRegistry.DebugWindowsManager.DrawCategories | VSImGui_DebugTools/source/DebugWindowManager.cs:44-52 | exactly the domain's entries whose category tab is open are invoked |
| DebugRegistry.DebugWindowsManager.Draw | VSImGui_DebugTools/source/DebugWindowManager.cs:20-36 | the entries invoked are exactly `Visible`, and the result is true iff one was invoked |
| DebugRegistry.DebugWindowsManager.DrawStatus | VSImGui/source/Utils/DebugWindow.cs:246-262 | never GrabMouse; Closed exactly when nothing is visible, DontGrabMouse otherwise |
| Queues.Newest | VSImGui/source/Utils/FixedSizeQueue.cs:48-51 | what survives a shrink is a suffix of at most max(limit, 0) elements |
| Queues.NewestKeepsAllThatFits | VSImGui/source/Utils/FixedSizeQueue.cs:48-51 | nothing is dropped while the queue fits, only the surplus otherwise, everything for a non-positive limit |
| Queues.NewestAppend | VSImGui/source/Utils/FixedSizeQueue.cs:37-41 | shrinking before an append and once after it give the same contents |
| Queues.NewestTwice | VSImGui/source/Utils/FixedSizeQueue.cs:25-29 | two limit changes keep the newest elements under the smaller limit |
| Queues.FixedSizedQueue.constructor | VSImGui/source/Utils/FixedSizeQueue.cs:12 | a new queue is empty and holds the given limit |
| Queues.FixedSizedQueue.Count | VSImGui/source/Utils/FixedSizeQueue.cs:31 | the count is the number of queued elements |
| Queues.FixedSizedQueue.Elements | VSImGui/source/Utils/FixedSizeQueue.cs:43-44 | enumeration yields the elements oldest first |
| Queues.FixedSizedQueue.TryDequeue | VSImGui/source/Utils/FixedSizeQueue.cs:50 | the front element is dropped iff there is one |
| Queues.FixedSizedQueue.Shrink | VSImGui/source/Utils/FixedSizeQueue.cs:48-51 | the dequeue loop leaves exactly `Newest(old queue, limit)` |
| Queues.FixedSizedQueue.SetLimit | VSImGui/source/Utils/FixedSizeQueue.cs:21-30 | the new limit is stored and the queue keeps its newest elements under it |
| Queues.FixedSizedQueue.Enqueue | VSImGui/source/Utils/FixedSizeQueue.cs:37-41 | the queue becomes the newest `limit` elements of old contents plus the new one |
| Queues.FixedSizedQueue.Clear | VSImGui/source/Utils/FixedSizeQueue.cs:45 | the queue is emptied and the limit kept |
| Queues.FedKeepsNewest | VSImGui/src/Utils/FixedSizeQueue.cs:25-29 | feeding a stream into a queue leaves exactly the newest `limit` values ever given |
| Editors.Range | VSImGui/source/Utils/Editors.cs:734 | the identity index map 0..n-1 |
| Editors.KeptIndexes | VSImGui/source/Utils/Editors.cs:740-743 | the kept indexes are strictly increasing, in range, and are exactly those whose element matches |
| Editors.FilterElements | VSImGui/source/Utils/Editors.cs:729-746 | the empty filter keeps everything with indexes 0..n-1; otherwise exactly the matching elements in order, each with its original index |
| Editors.PositionAtMostEntry | VSImGui/source/Utils/Editors.cs:740-743 | in a strictly increasing non-negative index map, every position is at most its entry |
| Editors.MatchAny | VSImGui_DebugTools/source/Utils.cs:404-411 | true iff some value matches |
| Editors.SelectByIndex | VSImGui/source/Utils/Editors.cs:755-779 | dropped index resets both to 0; a kept index becomes the selection and the index becomes `indexes[index]`, throwing when that position is missing |
| Editors.SelectByIndexMovesForward | VSImGui_DebugTools/source/Utils.cs:376-400 | on a filter's output the as-written selection only moves the index forward, and reports a change iff it moved |
| Editors.SelectKeepIndex | VSImGui/src/Utils/Editors.cs:212-233 | dropped index resets both to 0; a kept index stays, the selection becomes the index, and the result reports whether the selection changed |
| Editors.PositionOf | VSImGui/src/Utils/Editors.cs:217 | the first position of a kept index in the index map |
| Editors.SelectCorrected | VSImGui/source/Utils/Editors.cs:755-779 | a kept index stays and the selection is its position in the filtered list, so both name the same element |
| Editors.SelectByIndexCounterexample | VSImGui/source/Utils/Editors.cs:769-771 | concrete inputs where the as-written selection throws or moves to another element, and the corrected one keeps it |
| Editors.ListWithFilter | VSImGui/src/Utils/Editors.cs:108-115 | the index comes back as `SelectKeepIndex` leaves it; the value read is the element the selection names through the index map, and the read fails when the selection is outside the filtered list |
| Editors.ListWithFilterCorrected | VSImGui/src/Utils/Editors.cs:108-115 | without a click, a kept index reads its own element |
| Editors.ListWithFilterCounterexample | VSImGui/src/Utils/Editors.cs:108-115 | with "a" filtered out of ["a", "b", "c"], the as-written list reads "c" for a selected "b" and the corrected one reads "b" |
| Editors.ClampSelected | VSImGui/source/Utils/Editors.cs:521 | a selection past the end moves to the last element, or 0 for an empty list; others stay |
| Editors.InsertAfter | VSImGui/source/Utils/Editors.cs:529-534 | the new value lands right after the selected element and every other element keeps its order |
| Editors.RemoveEntry | VSImGui/source/Utils/Editors.cs:543 | the list loses exactly the element at the position |
| Editors.RemoveUndoesInsert | VSImGui/source/Utils/Editors.cs:525-544 | removing the element just inserted gives the list back |
| Editors.AfterAdd | VSImGui/source/Utils/Editors.cs:523-535 | Add leaves the list alone unless pressed; otherwise the list gains exactly the callback's value, or a copy of the selected element, at the end when appending |
| Editors.ListBoxSelect | VSImGui/source/Utils/Editors.cs:550 | a click on a displayed item selects it; otherwise the selection stays |
| Editors.Edit | VSImGui/source/Utils/Editors.cs:519-551 | clamp; Add gives `AfterAdd`; Remove on a non-empty list drops exactly the selected element and hands it to the callback with its position, throwing for a negative selection; clamp again; the list box may then select a clicked item |
| Editors.EditKeepsSelectionInRange | VSImGui/source/Utils/Editors.cs:519-551 | Edit fails only when Add copies from an empty list, and the selection comes out inside the list, or 0 when it is empty |
| Editors.EditRemoveDropsSelected | VSImGui/source/Utils/Editors.cs:539-544 | Remove drops exactly the selected element and reports it with its position |
| Editors.EditDetached | VSImGui_DebugTools/source/Utils.cs:250-281 | with a by-value list the selection and the (value, index) pair handed to the remove callback come back, as Edit computes them, and it fails exactly when Edit does |
| Editors.ComboModified | VSImGui/source/Utils/Editors.cs:34-39 | the flag is raised when another index was picked and is never cleared |
| Editors.ComboModifiedInverted | VSImGui_DebugTools/source/Utils.cs:22-27 | as written the flag is "the index is unchanged" |
| Editors.ComboModifiedCounterexample | VSImGui/src/Utils/Editors.cs:22-33 | from a false flag the corrected one reports a change exactly when there was one, the as-written one exactly when there was none |
| WindowFlagsModel.Assign | VSImGui/src/Styles/WindowStyle.cs:218-248 | a setter ORs the mask in on true and clears it on false, and leaves the bits outside the mask alone |
| WindowFlagsModel.AssignThenTest | VSImGui/src/Styles/WindowStyle.cs:218-248 | setting a flag and reading it back gives the value assigned |
| WindowFlagsModel.AssignKeepsDisjoint | VSImGui/src/Styles/WindowStyle.cs:218-248 | a setter does not change a flag whose mask does not overlap its own |
| WindowFlagsModel.CompositeMasks | VSImGui/src/Styles/WindowStyle.cs:240-242 | NoNav, NoDecoration and NoInputs are the unions of their parts |
| WindowFlagsModel.CompositeReadsAnyPart | VSImGui/src/Styles/WindowStyle.cs:240-242 | a composite's getter reads true as soon as any of its parts does |
| WindowFlagsModel.NamedCompositesReadAnyPart | VSImGui/src/Styles/WindowStyle.cs:240-242 | NoNav, NoDecoration and NoInputs each read true iff one of their parts does |
| WindowFlagsModel.AssignCompositeReachesParts | VSImGui/src/Styles/WindowStyle.cs:240-242 | setting a composite sets or clears every part |
| WindowFlagsModel.WindowFlags.Set | VSImGui/src/Styles/WindowStyle.cs:218-248 | a flag's getter reads back its setter's value, and no bit outside its mask changes |
| WindowFlagsModel.WindowFlags.IsNone | VSImGui/src/Styles/WindowStyle.cs:217 | `None` reads true exactly when no bit is set |
| WindowFlagsModel.WindowFlags.SetNone | VSImGui/src/Styles/WindowStyle.cs:217 | `None = true` clears every bit and `None = false` changes nothing |
| WindowFlagsModel.WindowFlags.DrawEditor | VSImGui/src/Styles/WindowStyle.cs:320-335 | with the header open each pressed row toggles its mask as CheckboxFlags does; no bit outside the rows ever changes |
| WindowFlagsModel.SetKeepsOthers | VSImGui/src/Styles/WindowStyle.cs:218-248 | a setter leaves the other non-overlapping flags as they were |
| WindowFlagsModel.NoneReadsNothing | VSImGui/src/Styles/WindowStyle.cs:217-248 | when `None` reads true no named flag does |
| WindowFlagsModel.EditorTablesAgree | VSImGui/src/Styles/WindowStyle.cs:250-319 | the name and value tables both have 27 rows and row i names the flag whose mask is its value |
| WindowFlagsModel.CheckboxFlags | VSImGui/src/Styles/WindowStyle.cs:329 | a press sets all of the row's bits unless all were set, then clears them, and touches no other bit |
| WindowFlagsModel.EditorRowsCovered | VSImGui/src/Styles/WindowStyle.cs:285-319 | every row's mask lies inside the bits the editor covers |
| WindowFlagsModel.EditorKeepsUncovered | VSImGui/src/Styles/WindowStyle.cs:327-330 | any sequence of clicks leaves the bits outside the rows unchanged |
| WindowFlagsModel.EditorKeepsHiddenFlag | VSImGui/src/Styles/WindowStyle.cs:250-319 | the editor never changes NavFlattened, ChildWindow, Popup or ChildMenu |
| WindowFlagsModel.CodeOrderSkipsOnlyDockNodeHost | VSImGui/src/Styles/WindowStyle.cs:143-175 | the generator checks every named flag except DockNodeHost |
| WindowFlagsModel.EmittedPositions | VSImGui/src/Styles/WindowStyle.cs:143-175 | the positions of the flags the generator checks and finds set, strictly increasing, each in range, exactly those that read as set |
| WindowFlagsModel.EmittedFlags | VSImGui/src/Styles/WindowStyle.cs:143-175 | the emitted flags are the list's flags at those positions: exactly the flags that read as set, each once, in list order |
| WindowFlagsModel.WindowPropertiesToCode | VSImGui/src/Styles/WindowStyle.cs:143-175 | exactly one `style.Flags.X = true;` line per checked flag that reads true, in the generator's order, and no other line |
| WindowFlagsModel.EmittedExactly | VSImGui/src/Styles/WindowStyle.cs:143-175 | a named flag gets a line iff it reads true and is not DockNodeHost |
| WindowFlagsModel.ReplaySetsAll | VSImGui/src/Styles/WindowStyle.cs:218-248 | running the generated assignments sets every assigned mask |
| WindowFlagsModel.ReplayStaysWithin | VSImGui/src/Styles/WindowStyle.cs:218-248 | running assignments whose masks lie within a set stays within it |
| WindowFlagsModel.WindowPropertiesToCodeOverreaches | VSImGui/src/Styles/WindowStyle.cs:166-168 | with only NoNavInputs set the generated code also assigns NoNav and NoInputs, which set the clear NoNavFocus and NoMouseInputs |
| WindowFlagsModel.WindowPropertiesToCodeCorrected | VSImGui/src/Styles/WindowStyle.cs:143-175 | exactly one line per checked flag all of whose bits are set, in the generator's order, and no other line |
| WindowFlagsModel.CorrectedCodeAddsNothing | VSImGui/src/Styles/WindowStyle.cs:143-175 | the corrected code, run on a fresh value, sets no bit that was clear |
| WindowFlagsModel.CorrectedCodeRoundTrips | VSImGui/src/Styles/WindowStyle.cs:143-175 | after the corrected code, every generated flag is fully set exactly when it was before |
| Styles.NativeStyle.WithPaddings | VSImGui/src/Styles/Style.cs:20-33 | all seven paddings take the value and every other field is kept |
| Styles.NativeStyle.WithBorders | VSImGui/src/Styles/Style.cs:50-63 | all six border sizes take the value and every other field is kept |
| Styles.NativeStyle.WithRoundings | VSImGui/src/Styles/Style.cs:73-87 | all seven roundings take the value and every other field is kept |
| Styles.NativeStyle.WithAligns | VSImGui/src/Styles/Style.cs:103-114 | all four alignments take the value and every other field is kept |
| Styles.GroupSetThenGet | VSImGui/src/Styles/Style.cs:20-114 | each group getter reads back the value its setter wrote |
| Styles.GroupSettersCommute | VSImGui/src/Styles/Style.cs:20-114 | setting two different groups gives the same style in either order |
| Styles.PopTop | VSImGui/src/Styles/Style.cs:480 | popping removes exactly the top of a non-empty font stack |
| Styles.Style.constructor | VSImGui/src/Styles/Style.cs:430-434 | the given style and font key; the font counts as loaded iff its key is in the loaded-font table |
| Styles.Style.FromCurrent | VSImGui/src/Styles/Style.cs:435-443 | ImGui's current style with the given font key, loaded iff present in the table |
| Styles.Style.Default | VSImGui/src/Styles/Style.cs:445-453 | ImGui's current style with the font ("", 14) |
| Styles.Style.Copy | VSImGui/src/Styles/Style.cs:426-429 | the other style's values and font key, not pushed |
| Styles.Style.SetFont | VSImGui/src/Styles/Style.cs:399-411 | the key is always stored, FontLoaded becomes "key is loaded", and the font changes only when it is |
| Styles.Style.SetFontName | VSImGui/src/Styles/Style.cs:412 | the name changes and the size is kept; FontLoaded is "new key is loaded", the font handle is looked up when it is and kept otherwise; the style and push state are kept |
| Styles.Style.SetFontSize | VSImGui/src/Styles/Style.cs:413 | the size changes and the name is kept; FontLoaded is "new key is loaded", the font handle is looked up when it is and kept otherwise; the style and push state are kept |
| Styles.Style.SetPaddings | VSImGui/src/Styles/Style.cs:20-33 | the style's paddings change and nothing else does |
| Styles.Style.SetBorders | VSImGui/src/Styles/Style.cs:50-63 | the style's border sizes change and nothing else does |
| Styles.Style.SetRounding | VSImGui/src/Styles/Style.cs:73-87 | the style's roundings change and nothing else does |
| Styles.Style.SetAligns | VSImGui/src/Styles/Style.cs:103-114 | the style's alignments change and nothing else does |
| Styles.Style.Push | VSImGui/src/Styles/Style.cs:455-472 | a no-op when pushed; otherwise saves ImGui's style, pushes the font iff loaded and makes this style current |
| Styles.Style.Pop | VSImGui/src/Styles/Style.cs:473-485 | a no-op when not pushed; otherwise pops the font iff this style pushed one and restores the saved style |
| Styles.Style.SetFrom | VSImGui/src/Styles/Style.cs:595-604 | every state field is copied, the font key only when the other's name is not null |
| Styles.PushThenPop | VSImGui/src/Styles/Style.cs:455-485 | Push then Pop leaves ImGui's style and font stack as they were |
| Styles.NestedPushPop | VSImGui/src/Styles/Style.cs:455-485 | two styles pushed and popped in reverse order restore ImGui's style and font stack |
| Styles.LoadedTexture | VSImGui/src/Styles/WindowStyle.cs:46-53 | -1 without an API or when loading throws, the loaded id otherwise |
| Styles.WindowStyle.constructor | VSImGui/src/Styles/WindowStyle.cs:76-83 | every constructor starts with no texture (-1, empty path, size (-1, -1)), not applied, and no flags |
| Styles.WindowStyle.SetBackgroundTexture | VSImGui/src/Styles/WindowStyle.cs:39-55 | the path is stored and the texture id reloaded from it |
| Styles.WindowStyle.SetBackgroundTextureApplied | VSImGui/src/Styles/WindowStyle.cs:57-72 | true reloads the stored path and marks it applied; false forgets the id, so the getter reads false |
| Styles.WindowStyle.Begin | VSImGui/src/Styles/WindowStyle.cs:85-98 | the style is pushed as `Push` does (saved style, font pushed iff loaded), ImGui's answer is returned, and the texture is tiled iff applied |
| Styles.WindowStyle.End | VSImGui/src/Styles/WindowStyle.cs:99-103 | the style is popped as `Pop` does: the saved style is current again and the font is popped iff it was pushed; an unpushed style changes nothing |
| Styles.WindowStyle.OnDeserialization | VSImGui/src/Styles/WindowStyle.cs:104-108 | the API is taken, and the texture is reloaded iff it was applied; path, size, flags and the applied mark are kept |
| Styles.WindowStyle.SetFrom | VSImGui/src/Styles/WindowStyle.cs:111-121 | the base style is copied as `Style.SetFrom` does (every field, the font key only for a non-null name); the window fields are copied only from a window style; the applied mark is never copied |
| Styles.StyleApplier.constructor | VSImGui/src/Styles/WindowStyle.cs:183-187 | constructing the applier pushes the style |
| Styles.StyleApplier.DisposeCore | VSImGui/src/Styles/WindowStyle.cs:189-200 | the first call pops when disposing; every later call does nothing |
| Styles.StyleApplier.Dispose | VSImGui/src/Styles/WindowStyle.cs:202-206 | the first Dispose pops the style; later ones do nothing |
| Styles.UsingBlockRestores | VSImGui/src/Styles/WindowStyle.cs:178-207 | around a `using` block ImGui's style and font stack are restored |
| Styles.SecondDisposeKeepsLaterPush | VSImGui/src/Styles/WindowStyle.cs:189-200 | a second Dispose does not pop a push made after the first |
| Natives.LoaderFor | VSImGui/source/Utils/NativesLoader.cs:53-62 | Mac and Linux get their own loaders; Windows and every other OS get the Windows loader |
| Natives.LibraryPath | VSImGui/source/Utils/NativesLoader.cs:82-99 | the path is `{folder}/native/{prefix}{name}{suffix}` |
| Natives.PathMatchesDocumentation | VSImGui/source/Utils/NativesLoader.cs:69-97 | on Windows, Linux and Mac the path is the documented `/native/{dir}/{name}{ext}` |
| Natives.UnknownOsPath | VSImGui/source/Utils/NativesLoader.cs:89-96 | on any other OS the prefix `linux` has no separator, so the path differs from `/native/linux/{name}.so` |
| Natives.NameFromPath | VSImGui/source/Utils/NativesLoader.cs:99 | the library name can be read back from its path |
| Natives.PathInjective | VSImGui/source/Utils/NativesLoader.cs:99 | distinct libraries get distinct paths |
| Natives.PlatformLoad | VSImGui/source/Utils/NativesLoader.cs:152-171 | a load fails, logging "Unable to load library" with the path, iff the handle is null |
| Natives.LoadLibrary | VSImGui/source/Utils/NativesLoader.cs:82-102 | loading a library fails iff the OS's loader returns a null handle for its path |
| Natives.LoadAll | VSImGui/source/Utils/NativesLoader.cs:23-31 | true iff every bundled library loads, whatever the set's order; it stops at the first failure, whose message is the only log line |

## Left out

- ImGui, OpenGL and the game: every call into them is an argument or a log
  entry. Examples are `ImGui.Begin`, `BeginTabItem`, `Button`, `Combo`,
  `ListBox`, `CheckboxFlags`, the capture queries, `TryOpen`/`TryClose`,
  `PushFont`/`PopFont`, `GetOrLoadTexture`, `LoadLibrary` and `dlopen`.
- `Style.ApplyStyle` and the remaining property pairs of `Style`: the
  model names only the fields the group setters reach; colours, sizes and
  every other float stay together, uninterpreted.
- `ToCode`, `TexturePropertiesToCode` and the float comparisons behind them:
  they print floats. `WindowPropertiesToCode` is modelled.
- `StyleEditor`, `Values`, `TilingUtils`, `TimeEditor`, `ColorEditor`,
  `AssetLocationEditor`, the controllers, `FontManager`, Harmony patches,
  the embedded DLL loader and the mod systems. They are UI, float code,
  JSON or host wiring.
- `WildCardToRegular` and `Regex.IsMatch`: a foreign regular-expression
  engine. Matching is the argument `matches(filter, value)`.
- `label.GetHashCode()`: .NET randomises it per process. It is the
  argument `hash`, and collisions are possible.
- Reentrant registration while callbacks are drawn, exceptions thrown by
  delegates, and the `Console.WriteLine` trace in `DrawCallbacksManager.Draw`.
- `DrawCallbacksManager.Add`'s `_nextId++` on a 32-bit int is unbounded
  here. Wrap-around after 2^31 registrations is not modelled.
- Callbacks.DrawCallbacksManager.Remove: removes some entry holding the
  delegate. `First` picks the first in the dictionary's slot order, which
  .NET does not specify.
- LegacyCallbacks.VSImGuiManager.Remove: weaker in the same way as above.
- Dictionary and HashSet enumeration order is left open everywhere. Every
  result is proved independent of it. `LoadAll` takes the order as an
  argument.
- Integration: the key code of Escape is host data, kept as an abstract
  constant. Mouse move and wheel events share `HandleMouse`. The
  controller's query is its `captured` argument.
- Integration.VSImGuiDialog: the `Dispose` override that drops the API and
  the hotkey code are host wiring.
- DebugRegistry: `DrawEntries` is public, so callers could break the
  invariant that every indexed domain has a table. The model keeps that
  invariant; without it the source's `Draw` would throw.
- The three draw passes differ only in their results: a flag, a callback
  status, or nothing. One method returns the drawn set and the flag, and
  `DrawStatus` adds the status.
- Queues: the `Where`/`Select`/`Aggregate` passthroughs of
  VSImGui/src/Utils/FixedSizeQueue.cs are LINQ over the same contents.
- Editors: the widgets around the list arithmetic are oracles. Buttons are
  booleans and a list-box click is an optional item index. The disabled scope
  is drawing only.
- `TextEditor.ListWithFilter` of VSImGui/source/Utils and of the debug tools
  ends with `index = indexes[selection]`, which is not modelled separately.
  Its `FilterElements` step is `SelectByIndex`.
- Editors.ListWithFilter: the list box's click is the argument `clicked`.
- Styles.Style: the initial `mPrevStyle` of a new style is a default struct
  in C#. The model starts it at the style's own values, and it is only
  read after a `Push` overwrites it.
- `PopFont` on an empty font stack is a no-op here. ImGui asserts instead.
  Pops happen only after a matching push, so the case does not arise.
- Styles.WindowStyle: the class derives from `Style` in C#. The model holds
  the base style as a field, so a `WindowStyle` is not itself a `Style`.
- `ImGuiController.LoadedFonts` is the argument `loadedFonts`.
- Natives.PlatformLoad: the fatal log line also holds the OS error text
  (`FormatMessage` or `dlerror`). The model keeps only the "Unable to load
  library: {path}" part.

## Findings

| source | as written | input that shows it | evidently intended | confidence | as-written member | corrected member |
|---|---|---|---|---|---|---|
| VSImGui/source/Utils/Editors.cs:769-777 | a kept index sets `selection = index` (its position in the unfiltered list) and `index = indexes[index]`; the same code is at VSImGui_DebugTools/source/Utils.cs:391-397 | elements ["a", "b"], filter keeping only "b", index 1: `indexes[1]` does not exist and ElementAt throws; elements ["a", "b", "c"] without "a", index 1: the index moves to 2 ("c") | the selection is the position of `index` in `indexes`, and the index stays | not executed | Editors.SelectByIndexCounterexample | Editors.SelectCorrected |
| VSImGui/src/Utils/Editors.cs:108-115 | the selection bookkeeping sets `selection = index`, the unfiltered index, and the value is read as `elements[indexes[selection]]` | elements ["a", "b", "c"] with "a" filtered out and "b" (index 1) selected: the value read is "c" | the value read is the selected element, "b" | not executed | Editors.ListWithFilterCounterexample | Editors.ListWithFilterCorrected |
| VSImGui_DebugTools/source/Utils.cs:22-27 | `modified = mKeys[newValue] == mKeys[value]`, also in VSImGui/src/Utils/Editors.cs:22-27 | the combo box leaves the value unchanged: `Combo(title, ref value)` returns true | `modified` is raised when the value changed, as in VSImGui/source/Utils/Editors.cs:37 | not executed | Editors.ComboModifiedCounterexample | Editors.ComboModified |
| VSImGui/src/Styles/WindowStyle.cs:166-168 | composite flags are emitted when their getter reads true, and that happens when ANY of their bits is set | only NoNavInputs set (0x40000): the code also emits `NoNav = true` and `NoInputs = true`, which set NoNavFocus and NoMouseInputs as well | a composite is emitted only when all its bits are set, so the code reproduces the flags | not executed | WindowFlagsModel.WindowPropertiesToCodeOverreaches | WindowFlagsModel.CorrectedCodeRoundTrips |
