# Color palette registry — a Dafny model

The palette component (`src/component/ColorPalette.jsx`) keeps a local list of
color records held by a remote store, and lets the user create, edit, delete and
undo the last delete of a record, and copy a code to the clipboard. Its state is
eight React `useState` slots: the list `colors`, the create inputs `newColor`,
`colorName`, `colorCategory`, the "Copied!" marker `copiedColor`, the edit
target `editingColor` (Browsing mode when unset, Editing mode when set), the
edit input `editColorValue`, and the one-slot undo snapshot `deletedColor`.

The model has four modules:

- `Colors` (`colors.dfy`): the record type, the `#`-prefix normalisation of a
  typed code, the lookup `colors.find(c => c._id === id)` and the duplicate hint
  `colors.some(c => c.color === newColor)`.
- `PaletteState` (`palette_state.dfy`): the state slots as one value and each
  handler as a pure transition. A handler that calls the store takes the call's
  outcome `ok` as a parameter and yields a `Step`: the new state, the request it
  sent (if any) and whether it fired a reload. `fetchColors` is never awaited by
  the handlers, so its answer is a separate `Load` event. Copy timers are
  counted; a timer firing is an `Expire` event. `Run` applies a sequence of
  events.
- `PaletteProperties` (`palette_properties.dfy`): properties that relate
  several events: the copy-marker invariant holds along every run, only a
  successful fetch changes the list, only `editColor` sets an edit target, only
  delete and a successful undo change the snapshot, single-level undo, edit then
  cancel, the copy-timer race, and two concrete scenarios.
- `ColorPalette` (`color_palette.dfy`): class `Registry`, whose fields are the
  state slots (plus the pending-timer count) and whose methods update them as the
  handlers do. Each method is proved equal to its `PaletteState` transition.

The model follows the code as written; in particular:

- A failed delete does not roll the snapshot back. The snapshot is taken before
  the request and kept whatever the outcome (`:106-107`).
- Cancel clears only the edit target (`:166`). The name and category inputs keep
  the values seeded from the edited record, and so does `editColorValue`.
- A new copy does not cancel the earlier timer (`:130-132`). The first timer to
  fire clears the marker, even if it belongs to an earlier copy.
- `editColor` and `deleteColor` have no "not found" error. An unknown id ends
  editing mode (`:67-68`: the target is set to `undefined` before reading its
  `color` throws), or it empties the undo snapshot (`:106-107`).
- Undo posts the stored snapshot as it is, including its `_id` and any absent
  name or category (`:118`).

## Model

| member | source | states |
|---|---|---|
| Colors.Normalize | src/component/ColorPalette.jsx:47 | the result starts with `#`; it is the input or `#` + input; it equals the input exactly when the input already starts with `#` |
| Colors.NormalizeIdempotent | src/component/ColorPalette.jsx:80 | normalising a normalised code changes nothing |
| Colors.NormalizeKeepsText | src/component/ColorPalette.jsx:47 | only a leading `#` is added: the rest of the result is the typed text, and the length grows by one exactly when the prefix was missing |
| Colors.NormalizeExamples | src/component/ColorPalette.jsx:47 | `"ff0000"` becomes `"#ff0000"`, `"#ff0000"` stays, the empty input becomes `"#"` |
| Colors.Find | src/component/ColorPalette.jsx:66 | None exactly when no record has the id; otherwise the first record in list order carrying the id |
| Colors.FindFound | src/component/ColorPalette.jsx:106 | for an id in the list, the found record is a member of the list with that id |
| Colors.IsDuplicate | src/component/ColorPalette.jsx:150 | true exactly when some record's code equals the raw input |
| Colors.DuplicateHintIgnoresNormalization | src/component/ColorPalette.jsx:150 | a code typed without `#` is not flagged although its normalised form is stored |
| PaletteState.Load | src/component/ColorPalette.jsx:22-29 | on success the list is replaced wholesale by the response; on failure nothing changes; no other slot ever changes |
| PaletteState.AddColor | src/component/ColorPalette.jsx:38-61 | posts the normalised code with the name and category inputs; the list is never patched locally; success clears the three create inputs and the copy marker and fires a reload; failure keeps every slot |
| PaletteState.EditColor | src/component/ColorPalette.jsx:64-74 | for an id in the list: the target is the first list record with that id, the edit value is its code, name and category inputs are seeded from it (absent reads as empty), nothing else changes; for an unknown id only the edit target is cleared |
| PaletteState.UpdateColor | src/component/ColorPalette.jsx:76-101 | without a target nothing is sent or changed; with one, a put keyed by the target's id carries the normalised edit value; success leaves editing mode and empties the inputs and the copy marker; failure keeps every slot, so editing mode stays |
| PaletteState.CancelEdit | src/component/ColorPalette.jsx:166 | leaves editing mode and changes no other slot |
| PaletteState.DeleteColor | src/component/ColorPalette.jsx:104-113 | sends the delete for the id whatever the snapshot; the snapshot becomes the first record with the id (a list member), or None exactly when no record has it; no other slot changes; a reload fires only on success |
| PaletteState.UndoDelete | src/component/ColorPalette.jsx:115-125 | without a snapshot nothing is sent or changed; with one, the snapshot is re-posted; success clears it and fires a reload; failure keeps every slot |
| PaletteState.CopyColorCode | src/component/ColorPalette.jsx:127-133 | the marker shows the copied code and one more timer is pending; nothing else changes |
| PaletteState.Expire | src/component/ColorPalette.jsx:130-132 | a pending timer fires and clears the marker, whichever copy scheduled it |
| PaletteState.Type | src/component/ColorPalette.jsx:154-164 | an input's `onChange` writes its own slot and leaves the other three text slots, the list, edit target, snapshot, marker and timers alone |
| PaletteProperties.InitialState | src/component/ColorPalette.jsx:9-16 | the initial slots satisfy the marker invariant, are in Browsing mode, hold no snapshot and an empty list |
| PaletteProperties.NextPreservesValid | src/component/ColorPalette.jsx:127-133 | every event keeps "a shown copy marker has a pending timer" |
| PaletteProperties.RunPreservesValid | src/component/ColorPalette.jsx:127-133 | along any run of events a shown copy marker has a pending timer |
| PaletteProperties.OnlyLoadChangesColors | src/component/ColorPalette.jsx:22-29 | along a run with no successful fetch the list is unchanged: no handler patches it locally |
| PaletteProperties.OnlyEditSetsTarget | src/component/ColorPalette.jsx:64-74 | along a run with no `editColor` the edit target stays what it was or is cleared |
| PaletteProperties.OnlyDeleteAndUndoChangeSnapshot | src/component/ColorPalette.jsx:104-125 | along a run with no delete and no successful undo the snapshot is unchanged |
| PaletteProperties.FailedCallChangesNothing | src/component/ColorPalette.jsx:22-125 | a failed fetch, create, update or undo leaves every slot as it was |
| PaletteProperties.EditThenCancel | src/component/ColorPalette.jsx:64-74 | edit then cancel leaves the list, create code, snapshot and marker unchanged and ends editing; name and category keep the seeded values |
| PaletteProperties.OnlyLatestDeleteUndoable | src/component/ColorPalette.jsx:104-125 | after deleting `a` then `b`, undo re-posts `b`'s record and a second undo sends nothing |
| PaletteProperties.DeleteThenUndoRepostsSnapshot | src/component/ColorPalette.jsx:104-125 | undo after a delete re-posts the full record that the delete found, whether the delete succeeded or not |
| PaletteProperties.DeleteUnknownLosesUndo | src/component/ColorPalette.jsx:104-125 | deleting an unknown id empties the snapshot, so undo then sends nothing and changes nothing |
| PaletteProperties.FailedDeleteKeepsSnapshot | src/component/ColorPalette.jsx:104-113 | a failed delete fires no reload and keeps the list, but the snapshot it took stays |
| PaletteProperties.OlderTimerClearsNewerCopy | src/component/ColorPalette.jsx:127-133 | after copying `a` then `b`, the first timer clears `b`'s marker while `b`'s timer is still pending |
| PaletteProperties.CreateScenario | src/component/ColorPalette.jsx:38-61 | with one record loaded, typing `000` and adding posts `#000` with empty name and category, fires a reload and clears the input |
| PaletteProperties.DeleteUndoScenario | src/component/ColorPalette.jsx:104-125 | deleting record `1` stores its full snapshot; undo re-posts exactly that snapshot and clears it |
| ColorPalette.Registry.constructor | src/component/ColorPalette.jsx:9-16 | the slots start at their `useState` values |
| ColorPalette.Registry.Load | src/component/ColorPalette.jsx:22-29 | the new slots are `PaletteState.Load` of the old ones |
| ColorPalette.Registry.AddColor | src/component/ColorPalette.jsx:38-61 | new slots, request and reload flag are those of `PaletteState.AddColor` |
| ColorPalette.Registry.EditColor | src/component/ColorPalette.jsx:64-74 | the new slots are `PaletteState.EditColor` of the old ones |
| ColorPalette.Registry.UpdateColor | src/component/ColorPalette.jsx:76-101 | new slots, request and reload flag are those of `PaletteState.UpdateColor` |
| ColorPalette.Registry.CancelEdit | src/component/ColorPalette.jsx:166 | the new slots are `PaletteState.CancelEdit` of the old ones |
| ColorPalette.Registry.DeleteColor | src/component/ColorPalette.jsx:104-113 | new slots, request and reload flag are those of `PaletteState.DeleteColor` |
| ColorPalette.Registry.UndoDelete | src/component/ColorPalette.jsx:115-125 | new slots, request and reload flag are those of `PaletteState.UndoDelete` |
| ColorPalette.Registry.CopyColorCode | src/component/ColorPalette.jsx:127-133 | the new slots are `PaletteState.CopyColorCode` of the old ones and the marker invariant holds |
| ColorPalette.Registry.Expire | src/component/ColorPalette.jsx:130-132 | the new slots are `PaletteState.Expire` of the old ones and the marker invariant holds |
| ColorPalette.Registry.Type | src/component/ColorPalette.jsx:154-164 | the new slots are `PaletteState.Type` of the old ones |
| ColorPalette.SingleUndoClient | src/component/ColorPalette.jsx:104-125 | through the class alone: after two deletes the first undo re-posts the second record and the next undo sends nothing |

## Left out

- Rendering and styling (`:147-250`) are not modelled. The only parts kept are the input `onChange` setters and the duplicate predicate.
- The HTTP calls are not modelled. Each is an outcome parameter `ok`, and the request the handler builds is returned. URLs, hosts, the `sortByCategory` query and the response bodies are left out; the update's response is only logged.
- The contents of the remote store are not modelled. So "create then load yields the created code" and "undo restores content under a new id" are proved only up to what is sent; what the store returns is whatever `Load` is given.
- The clipboard write (`:128`) is a foreign side effect and is left out. It is not inside a `try`: if it throws synchronously (no clipboard API available), the marker is never set and no timer is scheduled. `CopyColorCode` always shows the marker, so it does not capture that case.
- Wall-clock time is left out. `setTimeout` becomes a pending-timer count and an `Expire` event.
- `handleError` and all console logging (`:78`, `:81`, `:89`, `:98`, `:135-145`) only log and are left out.
- React mounting (`:18-20`) is left out. The initial fetch is a `Load` event that the caller issues.
- Concurrency is left out. Un-awaited fetches that interleave, and handlers reading the state of an older render, are not modelled: events apply one at a time.
- The commented-out hex check (`:31-36`) is dead code. No hex format is required.
- A record is modelled with a string `color`. A record without `color` would make `editColor` store `undefined` and `updateColor` throw; that case is not modelled.
