# Small state machines of the iced Wayland fork, in Dafny

This project models the decision rules and small state machines of a fork of the
iced GUI toolkit that adds Wayland support. It covers:

- **Checkbox widget** (`CheckboxWidget`, `checkbox.dfy`):
  - a press maps to one published toggle message;
  - the Disabled/Hovered/Active status is derived from the toggle callback and the cursor;
  - the `styled` colour rule;
  - the `id`/`set_id` pairing;
  - the builders and the defaults of `new`.
- **Selection field** of the input-method example (`SelectionFieldWidget`, `selection_field.dfy`):
  - the two persistent flags `is_hovered` and `is_pressed`;
  - child-first capture;
  - a message is published only on a release that ends a press.
- **Input-method popup controller** (`InputMethodApp`, `input_method.dfy`):
  - the `index`/`popup`/`list` state;
  - the accent-key table;
  - bounded cursor movement;
  - the ordered command batches;
  - the view's selection fields.
- **Input-method popup settings and actions** (`InputMethodPopup`, `input_method_popup.dfy`):
  - the default settings;
  - hashing by id only;
  - the variant-preserving `map`.
- **Drag-and-drop example** (`DragApp`, `drag.dfy`):
  - the drop-target state machine;
  - the mime-type whitelist filter;
  - the drag source that offers its text reversed, as UTF-8 bytes (`Utf8`, `utf8.dfy`).
- **Session-lock example** (`SessionLockApp`, `session_lock.dfy`):
  - the monotone surface-id counter;
  - the one-way exit flag.
- **tiny-skia window compositor** bookkeeping (`TinySkiaCompositor`, `compositor.dfy`):
  - the per-window surface;
  - full versus diffed damage;
  - skipping frames whose damage is empty;
  - the state update before drawing;
  - the rectangles handed to the window system;
  - the screenshot repacking of ARGB pixels into RGBA bytes.

`core.dfy` (`Core`) holds the shared vocabulary:

- geometry, with half-open rectangle containment;
- the cursor;
- widget ids;
- the normalized input events;
- the dispatch status;
- mouse interactions;
- the `Shell` that collects published messages.

`wrappers.dfy` holds `Option`.

Where the Rust code mutates state, the model keeps that form. Each such entity is a class holding the fields the modelled code reads and writes; "## Left out" lists the fields it leaves out or replaces:

- `Checkbox`, the selection field's tree `State`, `InputMethod`, `DndTest`, `Locker` and `Surface`;
- each class's `Update` or `Present` method is proved to agree with a pure function on a state value (`Step`, `AfterPresent`); `Checkbox.OnEvent` is proved against `PressReaction`, and the module-level `SelectionFieldWidget.OnEvent`, which updates a `State` object, against `SelectionFieldWidget.Step`;
- the promised properties are lemmas about those functions.

Rust panics are an explicit outcome (`Panicked`, `PixmapPanic`, `CopyPanic`, or `None` for the screenshot). Integer overflow in the input-method and session-lock examples is taken to panic, as it does in a build with overflow checks. The `u32` product in `configure_surface` is the exception: it is modelled as wrapping, and no panic is modelled for it (see "## Findings" and "## Left out"). The panics, with the lemmas that say which inputs reach them:

- `list.len() - 1` on an empty list and `list[index]` out of range, in the input-method example: `InputMethodApp.PanicInputs`. `InputMethodApp.AdmissibleRunNeverPanics` shows that a run of messages whose popup indices come from the current list never reaches either.
- `m[0]` on an empty list and `String::from_utf8(..).unwrap()` on invalid bytes, in the drag example: `DragApp.PanicInputs`. `DragApp.StepKeepsValid` shows that the listener's messages never make a drop panic. Data is another matter: `DragApp.ForeignDataCanPanic` shows that a drag from another client that delivers bytes that are not UTF-8 reaches the panic. `DragApp.OwnDragDelivers` shows that the bytes of the example's own drag, dropped on its own target, decode without a panic.
- the `u128` overflow of `next_surface_id`: `SessionLockApp.PanicInputs`. `SessionLockApp.RunWithinLimitCompletes` shows it is reached only after 2^128 − 1 outputs have been announced.
- the `expect` on the pixel map in `present`: `TinySkiaCompositor.PixmapPanicOnlyWithoutPixmap`. Whether the map can be made is a `Platform` outcome. No lemma shows it cannot fail.
- `copy_from_slice` between buffers of different lengths: `TinySkiaCompositor.NonEmptyDamageStores`. This depends on the length of the buffer `Backend::draw` returns. No lemma shows it cannot happen.
- the `expect` on the offscreen pixel map in `screenshot`: `TinySkiaCompositor.Screenshot`, whose outcome is a parameter.

External collaborators are parameters:

- `damage::list`, `damage::group` and `Backend::draw` are function-valued parameters;
- the success or failure of the tiny-skia pixel map and of the softbuffer calls is a `Platform` record;
- `Id::unique()` is a function from an index to an id;
- the theme's default style function is a parameter;
- the output handle of the session-lock example is a type parameter.

## Model

| member | source | states |
|---|---|---|
| CheckboxWidget.Checkbox.constructor | widget/src/checkbox.rs:122-161 | a new checkbox keeps its label and check state, has no toggle callback, width Shrink, size 16, spacing 8, no text size, the checkmark icon without a size, and the primary style class |
| CheckboxWidget.Checkbox.OnToggle | widget/src/checkbox.rs:168-174 | the toggle callback becomes `Some(f)` and no other field changes |
| CheckboxWidget.Checkbox.OnToggleMaybe | widget/src/checkbox.rs:180-186 | the toggle callback becomes the given option and no other field changes |
| CheckboxWidget.Checkbox.SetSize | widget/src/checkbox.rs:189-192 | only the box size changes |
| CheckboxWidget.Checkbox.SetWidth | widget/src/checkbox.rs:195-198 | only the width changes |
| CheckboxWidget.Checkbox.SetSpacing | widget/src/checkbox.rs:201-204 | only the spacing changes |
| CheckboxWidget.Checkbox.SetTextSize | widget/src/checkbox.rs:207-210 | only the text size changes, to `Some(size)` |
| CheckboxWidget.Checkbox.SetIcon | widget/src/checkbox.rs:242-245 | only the icon changes |
| CheckboxWidget.Checkbox.SetStyle | widget/src/checkbox.rs:249-255 | the style class becomes the custom style function and nothing else changes |
| CheckboxWidget.PressReaction | widget/src/checkbox.rs:359-374 | Captured exactly for a left-button or finger press over the bounds with a toggle callback; then exactly one message `on_toggle(!is_checked)` is published, otherwise none |
| CheckboxWidget.Checkbox.OnEvent | widget/src/checkbox.rs:359-374 | appends to the shell exactly the messages of `PressReaction`, returns its status, and leaves the checkbox (including `is_checked`) unchanged |
| CheckboxWidget.Checkbox.MouseInteraction | widget/src/checkbox.rs:385-389 | Pointer iff the cursor is over the bounds and a toggle callback is set, the default interaction otherwise |
| CheckboxWidget.SelectStatus | widget/src/checkbox.rs:402-414 | Disabled iff disabled; otherwise Hovered iff the mouse is over; otherwise Active; `is_checked` is carried over unchanged |
| CheckboxWidget.Checkbox.DrawStatus | widget/src/checkbox.rs:402-414 | the drawn status is Disabled iff there is no toggle callback, Hovered iff enabled and over, and carries `is_checked` |
| CheckboxWidget.Checkbox.Draw | widget/src/checkbox.rs:392-477 | the box quad comes first with the style's border and background, the label comes last with the style's text colour, and a checkmark is drawn iff the box is checked, at the icon's size or 0.7 of the box height |
| CheckboxWidget.Styled | widget/src/checkbox.rs:758-777 | no contract of its own; `StyledColours` and `StyledToggleOnlyChangesFill` state its colours |
| CheckboxWidget.StyledColours | widget/src/checkbox.rs:758-777 | the fill is the accent colour when checked and the base colour otherwise; the border is the accent colour with width 1 and radius 2; the icon colour is kept and the text colour is None |
| CheckboxWidget.StyledToggleOnlyChangesFill | widget/src/checkbox.rs:758-777 | the checked and unchecked styles differ only in their fill, and a checked box is filled with its border colour |
| CheckboxWidget.SplitId | widget/src/checkbox.rs:551-558 | an id splits into a box id and a label id iff it is a set of exactly two entries |
| CheckboxWidget.IdRoundTrip | widget/src/checkbox.rs:544-558 | splitting the combined id gives back both ids, and an id that splits into two ids is their combination |
| CheckboxWidget.Checkbox.Id | widget/src/checkbox.rs:544-549 | the reported id splits back into this checkbox's box id and label id |
| CheckboxWidget.Checkbox.SetId | widget/src/checkbox.rs:551-558 | a two-entry set replaces both ids, and `id()` then returns it; any other id changes nothing; `set_id(id())` leaves both ids unchanged |
| SelectionFieldWidget.New | examples/sctk_input_method/src/selection_field/widget.rs:41-54 | a new field has the given id, no callbacks, index 0, not selected, Shrink width and height, padding 2 |
| SelectionFieldWidget.SelectionField.WithWidth | examples/sctk_input_method/src/selection_field/widget.rs:57-60 | only the width changes |
| SelectionFieldWidget.SelectionField.WithHeight | examples/sctk_input_method/src/selection_field/widget.rs:63-66 | only the height changes |
| SelectionFieldWidget.SelectionField.WithPadding | examples/sctk_input_method/src/selection_field/widget.rs:69-72 | only the padding changes |
| SelectionFieldWidget.SelectionField.WithOnPress | examples/sctk_input_method/src/selection_field/widget.rs:77-80 | only the press message changes, to `Some(m)` |
| SelectionFieldWidget.SelectionField.WithOnSelect | examples/sctk_input_method/src/selection_field/widget.rs:83-86 | only the select message changes, to `Some(m)` |
| SelectionFieldWidget.SelectionField.SetIndexes | examples/sctk_input_method/src/selection_field/widget.rs:89-92 | only the index changes |
| SelectionFieldWidget.SelectionField.Selected | examples/sctk_input_method/src/selection_field/widget.rs:95-98 | the field is selected iff the given index equals its own; nothing else changes |
| SelectionFieldWidget.SelectionField.WithId | examples/sctk_input_method/src/selection_field/widget.rs:107-110 | only the id changes |
| SelectionFieldWidget.State.constructor | examples/sctk_input_method/src/selection_field/widget.rs:317-328 | the initial tree state has both flags false |
| SelectionFieldWidget.Step | examples/sctk_input_method/src/selection_field/widget.rs:165-216 | a captured child leaves the flags unchanged and publishes nothing; at most one message is published and only when Captured; outside of cursor-left or finger-lost, hover is only ever set, by a cursor move over the bounds while the child ignores the event; cursor-left or finger-lost clears both flags and is Ignored |
| SelectionFieldWidget.OnEvent | examples/sctk_input_method/src/selection_field/widget.rs:155-217 | the tree state, the shell messages and the status are those `Step` gives for the old flags |
| SelectionFieldWidget.MouseInteraction | examples/sctk_input_method/src/selection_field/widget.rs:266-280 | Pointer iff the cursor is over the bounds, the default interaction otherwise |
| SelectionFieldWidget.CursorMoveHovers | examples/sctk_input_method/src/selection_field/widget.rs:180-188 | for any cursor, a move while the cursor is over the bounds sets hover, publishes `on_select` when present and is Captured; otherwise it changes nothing and does not clear hover |
| SelectionFieldWidget.PressArms | examples/sctk_input_method/src/selection_field/widget.rs:189-195 | a press publishes nothing; it is Captured and sets `is_pressed` iff a press message is set and the cursor is over; otherwise the flags are unchanged |
| SelectionFieldWidget.ReleasePublishesOnlyAfterPress | examples/sctk_input_method/src/selection_field/widget.rs:196-207 | a release publishes iff a press message is set, the field was pressed and the cursor is over, and then publishes exactly `on_press`; it is Captured iff a press message is set and the field was pressed; it always clears `is_pressed` on a field with a press message; on a field without one it is Ignored and changes nothing |
| SelectionFieldWidget.PressThenRelease | examples/sctk_input_method/src/selection_field/widget.rs:189-207 | a press over the field followed by a release publishes exactly `on_press` when released over the field and nothing when released outside; both events are Captured |
| SelectionFieldWidget.ReleaseWithoutPress | examples/sctk_input_method/src/selection_field/widget.rs:196-216 | a release with no press before it publishes nothing, is Ignored and changes no flag |
| InputMethodPopup.DefaultSettings | runtime/src/command/platform_specific/wayland/input_method_popup.rs:18-26 | the default settings have the default window id, no size limits and size (1, 1) |
| InputMethodPopup.Hash | runtime/src/command/platform_specific/wayland/input_method_popup.rs:28-32 | no contract of its own; `HashDependsOnlyOnId` states that only the id reaches the hasher |
| InputMethodPopup.HashDependsOnlyOnId | runtime/src/command/platform_specific/wayland/input_method_popup.rs:28-32 | settings with equal ids hash equally, whatever their limits and size |
| InputMethodPopup.Map | runtime/src/command/platform_specific/wayland/input_method_popup.rs:60-78 | `map` keeps the variant, the Popup settings and the Size id, width and height |
| InputMethodPopup.MapRoundTrip | runtime/src/command/platform_specific/wayland/input_method_popup.rs:60-78 | mapping with one closure and then with any other restores the action |
| InputMethodApp.AccentListsNonEmpty | examples/sctk_input_method/src/main.rs:36-48 | every entry of the accent table offers at least one character |
| InputMethodApp.LastChar | examples/sctk_input_method/src/main.rs:160-165 | the last character of the key text, or NUL for empty text |
| InputMethodApp.InputMethod.constructor | examples/sctk_input_method/src/main.rs:115-124 | the initial state has index 0, no popup and an empty list |
| InputMethodApp.InputMethod.CommitString | examples/sctk_input_method/src/main.rs:67-75 | emits, in order: hide popup, commit the character, commit |
| InputMethodApp.InputMethod.OpenPopup | examples/sctk_input_method/src/main.rs:77-94 | shows the popup on the given list with index 0 and emits, in order: preedit the base character with cursor 0..0, commit, show popup |
| InputMethodApp.MoveLeft | examples/sctk_input_method/src/main.rs:137-142 | Left steps the index back by one, never below 0, and changes nothing else |
| InputMethodApp.MoveRight | examples/sctk_input_method/src/main.rs:143-148 | Right panics iff the list is empty; otherwise it steps forward only while `index < len - 1` and changes nothing else |
| InputMethodApp.InputMethod.ArrowKey | examples/sctk_input_method/src/main.rs:137-148 | the in-place arrow handling agrees with `MoveLeft` and `MoveRight` |
| InputMethodApp.InputMethod.Update | examples/sctk_input_method/src/main.rs:130-220 | the new state and the emitted commands are those `Step` gives for the old state |
| InputMethodApp.InitialIsValid | examples/sctk_input_method/src/main.rs:115-124 | the initial state is valid and selectable, with no popup, index 0 and an empty list |
| InputMethodApp.Step | examples/sctk_input_method/src/main.rs:130-220 | a panic leaves the state unchanged, and the list changes only when a repeated key opens the popup at index 0; `PanicInputs`, `StepKeepsValid`, `StepKeepsSelectable`, `RepeatOpensPopupIffAccent`, `ArrowsStayInRange`, `EnterCommitsSelection`, `KeysOutsidePopup` and `ReleaseInPopup` state its arms |
| InputMethodApp.StepKeepsValid | examples/sctk_input_method/src/main.rs:130-220 | every message keeps "a shown popup offers something", and in such a state only Enter with an out-of-range index can panic |
| InputMethodApp.StepKeepsSelectable | examples/sctk_input_method/src/main.rs:130-220 | a message from the running application keeps the popup index inside the list and never panics |
| InputMethodApp.PanicInputs | examples/sctk_input_method/src/main.rs:143-150 | a message panics iff the popup is shown and it is Right (pressed or repeated) with an empty list, or Enter pressed with the index past the list |
| InputMethodApp.AdmissibleRunNeverPanics | examples/sctk_input_method/src/main.rs:130-220 | a whole run of such messages from a valid, selectable state never panics and ends valid and selectable |
| InputMethodApp.RepeatOpensPopupIffAccent | examples/sctk_input_method/src/main.rs:158-174 | outside popup mode a repeated key opens the popup iff its last character is in the accent table, with that entry's list and the open batch; otherwise the key is forwarded to the virtual keyboard and the state is unchanged |
| InputMethodApp.ArrowsStayInRange | examples/sctk_input_method/src/main.rs:134-192 | in popup mode Left and Right, pressed or repeated, emit nothing, keep the list and the popup, keep the index inside the list, and move it at most one step |
| InputMethodApp.EnterCommitsSelection | examples/sctk_input_method/src/main.rs:149-151 | Enter in popup mode emits hide popup, commit `list[index]`, commit, in that order, and leaves the state (including `popup`) unchanged |
| InputMethodApp.KeysOutsidePopup | examples/sctk_input_method/src/main.rs:154-209 | outside popup mode a key press does nothing; a key release is forwarded to the virtual keyboard as a press and then a release |
| InputMethodApp.ReleaseInPopup | examples/sctk_input_method/src/main.rs:193-210 | in popup mode a release emits nothing and changes only `popup`: Enter clears it |
| InputMethodApp.View | examples/sctk_input_method/src/main.rs:222-248 | one selection field per offered character, in order, each built with its own index |
| InputMethodApp.ViewMessagesAdmissible | examples/sctk_input_method/src/main.rs:222-248 | exactly the field at the current index is selected, and every message a field can publish (`UpdatePopup` of its index, `Deactivate`) is admissible in the current state |
| Utf8.Encode | examples/sctk_drag/src/main.rs:56 | `as_bytes` gives at least one byte per character; `DecodeEncode` states that decoding gives the string back |
| Utf8.Decode | examples/sctk_drag/src/main.rs:142 | `from_utf8` accepts bytes only when their first character is well-formed, and then yields that character first and no more characters than bytes; `DecodeEncode` states that it inverts `Encode` |
| Utf8.DecodeEncode | examples/sctk_drag/src/main.rs:53-61 | decoding the UTF-8 bytes of any string gives the string back |
| DragApp.FromMimeType | examples/sctk_drag/src/main.rs:53-61 | bytes are offered iff the mime type is one of the six supported ones, and they are the UTF-8 encoding of the text, which decodes back to it |
| DragApp.SupportedRetained | examples/sctk_drag/src/main.rs:34-41 | the whitelist survives its own filter whole |
| DragApp.DndTest.constructor | examples/sctk_drag/src/main.rs:89-99 | the initial state has no source, no target and the text "Hello, world!" |
| DragApp.Retain | examples/sctk_drag/src/main.rs:112-114 | the filtered list holds exactly the supported entries of the input and is no longer than it |
| DragApp.RetainAppend | examples/sctk_drag/src/main.rs:112-114 | filtering distributes over concatenation, so the kept types keep their relative order |
| DragApp.RetainKeepsSupported | examples/sctk_drag/src/main.rs:112-114 | a list of supported types is kept whole |
| DragApp.RetainIdempotent | examples/sctk_drag/src/main.rs:112-114 | filtering twice is filtering once |
| DragApp.Accepts | examples/sctk_drag/src/main.rs:115-117 | one `accept_mime_type(Some(m))` per type, in order |
| DragApp.DndTest.OnEnter | examples/sctk_drag/src/main.rs:107-120 | the in-place retain loop and the push loop leave the target holding the filtered types and return the Enter batch |
| DragApp.EnterAcceptsRetained | examples/sctk_drag/src/main.rs:107-120 | Enter stores the filtered types as the target and emits `set_actions(Copy, all)` followed by one accept per kept type, in order |
| DragApp.EnterListener | examples/sctk_drag/src/main.rs:195-203 | the listener passes an offer on as Enter iff some offered type is supported, and as Ignore otherwise |
| DragApp.EnterFromListenerRetainsSome | examples/sctk_drag/src/main.rs:195-203 | an offer the listener passes on keeps at least one type |
| DragApp.Step | examples/sctk_drag/src/main.rs:105-172 | a panic leaves the state unchanged; only StartDnd and SourceFinished change the source, and only data for a drop changes the text; `PanicInputs`, `EnterAcceptsRetained`, `DropRequestsFirst`, `DataRules` and `StepKeepsValid` state its arms |
| DragApp.StepKeepsValid | examples/sctk_drag/src/main.rs:128-135 | listener messages keep "an offer holds at least one type", so Drop never panics on `m[0]` |
| DragApp.DropRequestsFirst | examples/sctk_drag/src/main.rs:128-135 | Drop acts only on an offer: it requests the first kept type and moves to the drop state; otherwise nothing changes |
| DragApp.DropAfterEnter | examples/sctk_drag/src/main.rs:128-135 | dropping an offer of the supported types requests the first of them |
| DragApp.DataListener | examples/sctk_drag/src/main.rs:206-212 | the listener passes data on iff a drop is waiting for it |
| DragApp.DataRules | examples/sctk_drag/src/main.rs:136-148 | empty data changes nothing; data outside the drop state changes nothing; valid non-empty data after a drop becomes the text and clears the target; non-empty data that is not UTF-8 after a drop panics |
| DragApp.PanicInputs | examples/sctk_drag/src/main.rs:128-148 | a message panics iff it is a drop on an offer with no retained type, or non-empty data that is not UTF-8 arriving for a drop |
| DragApp.ForeignDataCanPanic | examples/sctk_drag/src/main.rs:136-148 | the listener passes the lone byte 0xFF on to a waiting drop, and the unwrap then panics |
| DragApp.DataAfterOwnDrag | examples/sctk_drag/src/main.rs:136-148 | the UTF-8 bytes of any non-empty text, given after a drop, become the shown text |
| DragApp.Reverse | examples/sctk_drag/src/main.rs:165 | `chars().rev().collect()` keeps the length and puts character i at position n − 1 − i |
| DragApp.ReverseReverse | examples/sctk_drag/src/main.rs:163-165 | reversing the text twice gives it back |
| DragApp.DragOntoItself | examples/sctk_drag/src/main.rs:153-168 | StartDnd records the text as the source and offers the six types with action Move from window 0 with icon surface 1; entering the own target keeps all six, and dropping requests the first |
| DragApp.EnterSupported | examples/sctk_drag/src/main.rs:107-120 | entering with the supported types keeps all of them as the target |
| DragApp.OwnDragDelivers | examples/sctk_drag/src/main.rs:136-168 | the source's bytes for the first type are the UTF-8 encoding of the reversed text; after the drop they replace the shown text with the reversed text when it is non-empty, and change nothing when it is empty |
| DragApp.DndTest.Update | examples/sctk_drag/src/main.rs:105-172 | the new state and the outcome are those `Step` gives for the old state |
| SessionLockApp.Locker.constructor | examples/sctk_session_lock/src/main.rs:42-49 | the initial locker has counter 0 and no exit |
| SessionLockApp.Locker.NewCommands | examples/sctk_session_lock/src/main.rs:42-49 | `new` issues the lock command |
| SessionLockApp.Locker.NextSurfaceId | examples/sctk_session_lock/src/main.rs:30-33 | the returned id is one more than the previous maximum, which it becomes |
| SessionLockApp.Locker.Update | examples/sctk_session_lock/src/main.rs:55-91 | the new state and the outcome are those `Step` gives for the old state |
| SessionLockApp.Locker.ShouldExit | examples/sctk_session_lock/src/main.rs:93-95 | `should_exit` reports the exit flag |
| SessionLockApp.CreatedRequestsFreshSurface | examples/sctk_session_lock/src/main.rs:58-64 | a new output gets a lock surface whose id is one above every id handed out, and the counter moves to it |
| SessionLockApp.StateChanges | examples/sctk_session_lock/src/main.rs:55-91 | only Unlocked and a created output change the state; Locked schedules TimeUp after 5 seconds; TimeUp emits unlock; Unlocked sets the exit flag and emits nothing |
| SessionLockApp.OthersInert | examples/sctk_session_lock/src/main.rs:55-91 | every other message changes nothing and emits nothing |
| SessionLockApp.StepMonotone | examples/sctk_session_lock/src/main.rs:77-80 | a set exit flag stays set and the counter never decreases |
| SessionLockApp.Step | examples/sctk_session_lock/src/main.rs:55-91 | a panic leaves the state unchanged, and one message raises the counter by at most one; `PanicInputs`, `CreatedRequestsFreshSurface`, `StateChanges`, `OthersInert` and `StepMonotone` state its arms |
| SessionLockApp.PanicInputs | examples/sctk_session_lock/src/main.rs:30-33 | a message panics iff it announces a new output once the largest `u128` id has been handed out |
| SessionLockApp.RunWithinLimitCompletes | examples/sctk_session_lock/src/main.rs:30-33 | a run that announces no more outputs than ids remain never panics and advances the counter by the number of outputs announced |
| SessionLockApp.RunIdsIncrease | examples/sctk_session_lock/src/main.rs:30-33 | over any run the requested surface ids strictly increase (so they are distinct) and lie above the starting counter and at or below the final one; the exit flag is never reset |
| TinySkiaCompositor.Created | tiny_skia/src/window/compositor.rs:60-67 | a new surface has a zeroed buffer of width × height pixels, a clip mask of that size, no stored primitives and a black background |
| TinySkiaCompositor.Surface.constructor | tiny_skia/src/window/compositor.rs:60-67 | `create_surface` gives the state `Created` describes |
| TinySkiaCompositor.Resize | tiny_skia/src/window/compositor.rs:76 | resizing keeps the first old pixels and pads with zeros to exactly the new length |
| TinySkiaCompositor.WrappingMul | tiny_skia/src/window/compositor.rs:76 | the `u32` product equals the full product when it fits and differs from it by a multiple of 2^32 |
| TinySkiaCompositor.ConfiguredAsWritten | tiny_skia/src/window/compositor.rs:70-80 | `configure_surface` as written: the buffer takes the wrapped `u32` product as its length, keeping a prefix and padding with zeros; a new clip mask of that size, no stored primitives, and background, window and frames kept |
| TinySkiaCompositor.Configured | tiny_skia/src/window/compositor.rs:70-80 | configuring resizes the buffer to width × height, keeping a prefix, makes a new clip mask of that size and clears the stored primitives, so the next present repaints everything; background, window and presented frames are kept |
| TinySkiaCompositor.Surface.Configure | tiny_skia/src/window/compositor.rs:70-80 | the surface becomes `Configured` of its old state |
| TinySkiaCompositor.ConfiguredAgreesBelowWrap | tiny_skia/src/window/compositor.rs:70-80 | while the product fits in 32 bits, the as-written and the corrected reconfiguration agree |
| TinySkiaCompositor.ConfiguredAsWrittenLosesBuffer | tiny_skia/src/window/compositor.rs:76 | for 65536 × 65536 the created buffer has 2^32 pixels, the as-written reconfiguration none |
| TinySkiaCompositor.ConfigureSameSize | tiny_skia/src/window/compositor.rs:60-80 | configuring a new surface to its own size changes nothing |
| TinySkiaCompositor.ChooseDamage | tiny_skia/src/window/compositor.rs:155-162 | the damage is the whole logical viewport when no primitives are stored or the background changed, and `damage::list(previous, current)` otherwise |
| TinySkiaCompositor.FreshSurfaceRepaintsAll | tiny_skia/src/window/compositor.rs:155-162 | a created or reconfigured surface gets the whole logical viewport as damage |
| TinySkiaCompositor.EmptyDamageSkips | tiny_skia/src/window/compositor.rs:164-166 | empty damage returns Ok, stores nothing, draws nothing and presents nothing |
| TinySkiaCompositor.AfterPresent | tiny_skia/src/window/compositor.rs:137-210 | a pixel-map panic leaves the surface unchanged, the clip mask is never replaced, and a frame is appended only with result Ok, after the earlier frames; `EmptyDamageSkips`, `NonEmptyDamageStores`, `PresentedFrame` and `ConsistentPixmapNeverInvalid` state its branches |
| TinySkiaCompositor.PixmapPanicOnlyWithoutPixmap | tiny_skia/src/window/compositor.rs:148-153 | `present` panics at the pixel map iff the map cannot be made, and the surface is then unchanged |
| TinySkiaCompositor.ConsistentPixmapNeverInvalid | tiny_skia/src/window/compositor.rs:148-191 | when the pixel map is made only over a non-empty size that fits the buffer, a zero dimension panics there and InvalidDimensions is never returned |
| TinySkiaCompositor.NonEmptyDamageStores | tiny_skia/src/window/compositor.rs:168-191 | non-empty damage stores the primitives and background whatever happens next; a zero physical dimension gives InvalidDimensions after that update; a frame is added iff the result is Ok and the resize and buffer succeeded; the copy panics iff the dimensions are non-zero, resize and buffer succeed, and the drawn buffer is not width × height pixels long |
| TinySkiaCompositor.NextFrameDiffs | tiny_skia/src/window/compositor.rs:155-169 | after a frame with non-empty damage, the next frame with the same background is diffed against it, and repeating the frame is skipped when `damage::list` reports no difference |
| TinySkiaCompositor.TruncateU32 | tiny_skia/src/window/compositor.rs:197-200 | the `f32 as u32` cast is zero iff the value is below 1, truncates while below 2^32, and saturates at `u32::MAX` from 2^32 up |
| TinySkiaCompositor.ToSoftRect | tiny_skia/src/window/compositor.rs:195-202 | a rectangle is handed on iff its width and height are at least 1; a handed rectangle has non-zero size and is the truncated x, y, width and height of its damage rectangle |
| TinySkiaCompositor.SoftDamage | tiny_skia/src/window/compositor.rs:193-203 | the handed list is no longer than the damage and holds only rectangles of non-zero width and height |
| TinySkiaCompositor.SoftDamageAppend | tiny_skia/src/window/compositor.rs:193-203 | filtering distributes over concatenation, so the kept rectangles keep their order |
| TinySkiaCompositor.SoftDamageKeeps | tiny_skia/src/window/compositor.rs:193-203 | every rectangle is handed on iff each is at least one pixel wide and high, and none is iff each is narrower or lower than one pixel; when every one is handed on, the i-th handed rectangle is the converted i-th damage rectangle |
| TinySkiaCompositor.PresentedFrame | tiny_skia/src/window/compositor.rs:192-207 | a presented frame means result Ok and a drawn buffer of exactly width × height pixels; the frame carries the drawn pixels and the filtered grouped damage, and the window has the physical size |
| TinySkiaCompositor.Surface.Present | tiny_skia/src/window/compositor.rs:137-210 | the new surface and the result are those `AfterPresent` gives for the old surface |
| TinySkiaCompositor.Repack | tiny_skia/src/window/compositor.rs:243-259 | the screenshot has four bytes per pixel |
| TinySkiaCompositor.RepackIndex | tiny_skia/src/window/compositor.rs:243-259 | byte 4i + k of the screenshot is byte k of `[r, g, b, a]` of pixel i |
| TinySkiaCompositor.PixelRoundTrip | tiny_skia/src/window/compositor.rs:245-256 | the four bytes of a pixel pack back into the same ARGB pixel |
| TinySkiaCompositor.UnpackRepack | tiny_skia/src/window/compositor.rs:243-259 | the pixels can be read back from the screenshot, so the repacking loses nothing and keeps pixel order |
| TinySkiaCompositor.Screenshot | tiny_skia/src/window/compositor.rs:212-260 | the screenshot panics iff the offscreen pixel map cannot be made; otherwise it has four bytes per pixel of the frame drawn into a zeroed buffer of the physical size with the whole area damaged, and those pixels read back from it |

## Left out

- Layout, text measurement and padding resolution are not modelled. The checkbox layout (`layout::next_to_each_other`) and the selection field's padding are examples. `Draw` takes the box and label bounds as inputs.
- Theme palettes (`primary`, `secondary`, `success`, `danger`) are colour lookups and are not modelled. `styled` is modelled, and the default style function is a parameter.
- The accessibility node export (behind the `a11y` feature) is not modelled.
- The selection field's own `draw` is not modelled: it is a styling lookup. The child widget's effects are not modelled: `SelectionFieldWidget.Step` takes the child's status as input, and messages the child publishes are not tracked.
- The Wayland protocol glue, the command constructors and the virtual-keyboard newtype are not modelled. Forwarded virtual-keyboard commands are an abstract `VirtualKeyboardAction`.
- `damage::list`, `damage::group` and `Backend::draw` are function parameters. `Backend::draw` is modelled as returning the new pixels of the surface. It does not also change the clip mask, and it is not required to keep the buffer length. Its `viewport` and `overlay` arguments are not passed, so the model cannot express drawing that depends on the overlay text. tiny-skia's pixel map, softbuffer's `resize`, `buffer_mut` and `present_with_damage` are outcomes in `Platform`. A failed resize leaves the recorded window size unchanged. After a resize, the window's buffer is taken to hold width × height pixels.
- The `expect` calls when softbuffer and the clip mask are created are not modelled.
- `Color` equality is on reals, so NaN components are not modelled.
- The viewport's logical size is taken as given rather than computed from the physical size and scale factor.
- Async sleep, subscriptions, window titles and `println!` are not modelled. The sleep appears only as the `SleepThen(5, TimeUp)` command.
- The drag example's container styles and its view's constant mappings are not modelled. `on_exit` maps to Leave, `on_drop` to Drop, `on_drag` to StartDnd, and `on_finished`/`on_cancelled` to SourceFinished.
- `Id::unique()`, `Id::default()` and `Limits::NONE` come from files that are not part of this model. The first is a parameter; the other two are taken as window id 0 and "no limits".
- The default `mouse::Interaction` is taken as Idle.
- `Rectangle::contains` is taken as half-open.
- `core/src/mouse/button.rs` and `core/src/event/wayland` are reused only as datatypes. Variants the modelled code does not inspect are collapsed into one "other" constructor.
- TinySkiaCompositor.Surface.Configure: follows the corrected full product `width × height`. The release-build wrap of the `u32` product is modelled by `TinySkiaCompositor.ConfiguredAsWritten`. The panic of an overflow-checked build for width × height ≥ 2^32 is not modelled.
- TinySkiaCompositor.AfterPresent: whether tiny-skia's `PixmapMut::from_bytes` succeeds is the free flag `Platform.pixmapOk`. It is not tied to the dimensions or to the buffer length, because tiny-skia is not part of this model. `TinySkiaCompositor.ConsistentPixmapNeverInvalid` states what follows when the flag agrees with a pixel map that needs a non-empty size fitting the buffer: a zero dimension then panics at the pixel map, and `InvalidDimensions` is never returned.
- TinySkiaCompositor.Screenshot: whether the offscreen pixel map can be made is the free parameter `pixmapOk`. It is not derived from the physical size.
- InputMethodApp.MoveRight: `len() - 1` on an empty list is taken to panic, as in a build with overflow checks. In a build without them it wraps to the largest `usize`, the index steps forward, and the panic moves to the next Enter's `list[index]`. The model states only the overflow-checked behaviour.
- Checkbox fields: `CheckboxWidget.Checkbox` leaves out `text_line_height`, `text_shaping`, `text_wrapping` and `font`, and their builders. These set only text layout and rendering, which the model does not cover. The accessibility `name` and `description` are left out with the `a11y` export.
- Surface fields: `TinySkiaCompositor.Surface` replaces the softbuffer `window` with `windowSize`, the size of the last successful resize, and `presented`, the frames `present_with_damage` accepted. The window's own pixels are not modelled.
- SessionLockApp.Locker.NextSurfaceId requires the counter to be below 2^128 − 1. `Update` checks this first and turns the overflow into `Panicked`. That is what an overflow-checked build does; a build without overflow checks would wrap instead.
- InputMethodApp.ViewMessagesAdmissible speaks only of the messages the view's own fields publish. Messages from the input-method protocol come from code that is not part of this model, and are not tracked.

## Findings

| source | as written | input that shows it | evidently intended | confidence | as-written member | corrected member |
|---|---|---|---|---|---|---|
| tiny_skia/src/window/compositor.rs:76 | `configure_surface` resizes the buffer to `(width * height) as usize`, a product taken in `u32`. It wraps without overflow checks and panics with them. `create_surface` (line 62) multiplies in `usize` | width 65536, height 65536: the buffer is resized to 0 pixels, while `create_surface` for the same size allocates 2^32 | the buffer length is the full product `width × height`, as in `create_surface` | low; not executed, and the size is far beyond real windows | TinySkiaCompositor.ConfiguredAsWrittenLosesBuffer | TinySkiaCompositor.Configured |
