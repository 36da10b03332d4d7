/**
  The palette component's state as one value, and the effect of each event
  handler on it as a pure transition. These functions are the specification
  that the imperative `ColorPalette.Registry` is proved against.

  Every remote call is an outcome parameter `ok` (the request succeeded or
  threw). A handler's `Step` also tells which request it issued and whether
  it fired an un-awaited reload of the list; the reload's answer arrives as
  a separate `Load` event.
 */
module PaletteState {
  import opened Colors

  /** The eight state slots, plus the number of copy timers not yet fired. */
  datatype State = State(
    colors: seq<ColorRecord>,
    newColor: string,
    colorName: string,
    colorCategory: string,
    copiedColor: string,
    editingColor: Option<ColorRecord>,
    editColorValue: string,
    deletedColor: Option<ColorRecord>,
    timers: nat)

  /** The requests the handlers send to the store. */
  datatype Request =
    | Post(color: string, name: string, category: string)
    | Put(id: string, color: string, name: string, category: string)
    | Delete(id: string)
    | Restore(snapshot: ColorRecord)

  /** What a handler that talks to the store produces. */
  datatype Step = Step(after: State, sent: Option<Request>, reload: bool)

  /** The text inputs whose `onChange` writes a slot. */
  datatype Input = NewColorInput | NameInput | CategoryInput | EditValueInput

  const Initial: State := State([], "", "", "", "", None, "", None, 0)

  /** Editing mode: an edit target is set (only Update and Cancel are shown). */
  predicate Editing(s: State)
  {
    s.editingColor.Some?
  }

  /** A shown "Copied!" marker always has a pending timer that will clear it. */
  predicate Valid(s: State)
  {
    s.copiedColor != "" ==> s.timers > 0
  }

  /** `fetchColors`: the response replaces the list; a failed fetch changes nothing. */
  function Load(s: State, ok: bool, data: seq<ColorRecord>): (r: State)
    ensures ok ==> r.colors == data
    ensures !ok ==> r == s
    ensures r == s.(colors := r.colors)
  {
    if ok then s.(colors := data) else s
  }

  /** `addColor` */
  function AddColor(s: State, ok: bool): (r: Step)
    ensures r.sent == Some(Post(Normalize(s.newColor), s.colorName, s.colorCategory))
    ensures HasHashPrefix(r.sent.value.color)
    ensures r.reload == ok
    ensures r.after.colors == s.colors
    ensures ok ==> r.after == s.(newColor := "", colorName := "", colorCategory := "", copiedColor := "")
    ensures !ok ==> r.after == s
  {
    var sent := Post(Normalize(s.newColor), s.colorName, s.colorCategory);
    if ok then
      Step(s.(newColor := "", colorName := "", colorCategory := "", copiedColor := ""), Some(sent), true)
    else
      Step(s, Some(sent), false)
  }

  /**
    `editColor(id)`. For an unknown id the handler sets the edit target to
    `undefined` and then throws reading its `color`, so only the edit target
    changes: editing mode ends.
   */
  function EditColor(s: State, id: string): (r: State)
    ensures ContainsId(s.colors, id) ==>
              && r.editingColor.Some?
              && r.editingColor.value in s.colors
              && r.editingColor.value.id == id
              && r.editColorValue == r.editingColor.value.color
              && r.colorName == OrEmpty(r.editingColor.value.name)
              && r.colorCategory == OrEmpty(r.editingColor.value.category)
              && r == s.(editingColor := r.editingColor, editColorValue := r.editColorValue,
                         colorName := r.colorName, colorCategory := r.colorCategory)
    ensures ContainsId(s.colors, id) ==> r.editingColor == Find(s.colors, id)
    ensures !ContainsId(s.colors, id) ==> r == s.(editingColor := None)
  {
    match Find(s.colors, id)
    case None => s.(editingColor := None)
    case Some(found) =>
      s.(editingColor := Some(found), editColorValue := found.color,
         colorName := OrEmpty(found.name), colorCategory := OrEmpty(found.category))
  }

  /**
    `updateColor`. Without an edit target reading its `_id` throws before
    any request, so nothing happens.
   */
  function UpdateColor(s: State, ok: bool): (r: Step)
    ensures !Editing(s) ==> r == Step(s, None, false)
    ensures Editing(s) ==>
              && r.sent == Some(Put(s.editingColor.value.id, Normalize(s.editColorValue), s.colorName, s.colorCategory))
              && HasHashPrefix(r.sent.value.color)
              && r.reload == ok
    ensures Editing(s) && ok ==>
              r.after == s.(newColor := "", colorName := "", colorCategory := "", editingColor := None,
                            editColorValue := "", copiedColor := "")
    ensures !ok ==> r.after == s && (Editing(s) ==> Editing(r.after))
  {
    match s.editingColor
    case None => Step(s, None, false)
    case Some(target) =>
      var sent := Put(target.id, Normalize(s.editColorValue), s.colorName, s.colorCategory);
      if ok then
        Step(s.(newColor := "", colorName := "", colorCategory := "", editingColor := None,
                editColorValue := "", copiedColor := ""), Some(sent), true)
      else
        Step(s, Some(sent), false)
  }

  /** The Cancel button: only the edit target is cleared. */
  function CancelEdit(s: State): (r: State)
    ensures !Editing(r)
    ensures r == s.(editingColor := None)
  {
    s.(editingColor := None)
  }

  /**
    `deleteColor(id)`. The found record (or None for an unknown id) is
    stored as the undo snapshot before the request, whatever its outcome;
    the list itself is only refreshed by the reload.
   */
  function DeleteColor(s: State, id: string, ok: bool): (r: Step)
    ensures r.sent == Some(Delete(id)) && r.reload == ok
    ensures r.after == s.(deletedColor := r.after.deletedColor)
    ensures r.after.deletedColor == Find(s.colors, id)
    ensures r.after.deletedColor.Some? <==> ContainsId(s.colors, id)
    ensures r.after.deletedColor.Some? ==>
              r.after.deletedColor.value in s.colors && r.after.deletedColor.value.id == id
  {
    var snapshot := Find(s.colors, id);
    Step(s.(deletedColor := snapshot), Some(Delete(id)), ok)
  }

  /** `undoDelete`: re-posts the snapshot as it is; a no-op without one. */
  function UndoDelete(s: State, ok: bool): (r: Step)
    ensures s.deletedColor.None? ==> r == Step(s, None, false)
    ensures s.deletedColor.Some? ==> r.sent == Some(Restore(s.deletedColor.value)) && r.reload == ok
    ensures s.deletedColor.Some? && ok ==> r.after == s.(deletedColor := None)
    ensures !ok ==> r.after == s
  {
    match s.deletedColor
    case None => Step(s, None, false)
    case Some(snapshot) =>
      if ok then Step(s.(deletedColor := None), Some(Restore(snapshot)), true)
      else Step(s, Some(Restore(snapshot)), false)
  }

  /** `copyColorCode(code)`: shows the marker and schedules one more clearing timer. */
  function CopyColorCode(s: State, code: string): (r: State)
    ensures r.copiedColor == code && r.timers == s.timers + 1
    ensures r == s.(copiedColor := code, timers := r.timers)
  {
    s.(copiedColor := code, timers := s.timers + 1)
  }

  /**
    One of the pending copy timers fires. It clears the marker whichever
    copy scheduled it: an earlier timer also clears a later copy.
   */
  function Expire(s: State): (r: State)
    requires s.timers > 0
    ensures r.copiedColor == "" && r.timers + 1 == s.timers
    ensures r == s.(copiedColor := "", timers := r.timers)
  {
    s.(copiedColor := "", timers := s.timers - 1)
  }

  /** An `onChange` of one of the text inputs. */
  function Type(s: State, input: Input, text: string): (r: State)
    ensures r.colors == s.colors && r.editingColor == s.editingColor && r.deletedColor == s.deletedColor
    ensures r.copiedColor == s.copiedColor && r.timers == s.timers
    ensures match input
            case NewColorInput => r.newColor == text
            case NameInput => r.colorName == text
            case CategoryInput => r.colorCategory == text
            case EditValueInput => r.editColorValue == text
    ensures !input.NewColorInput? ==> r.newColor == s.newColor
    ensures !input.NameInput? ==> r.colorName == s.colorName
    ensures !input.CategoryInput? ==> r.colorCategory == s.colorCategory
    ensures !input.EditValueInput? ==> r.editColorValue == s.editColorValue
  {
    match input
    case NewColorInput => s.(newColor := text)
    case NameInput => s.(colorName := text)
    case CategoryInput => s.(colorCategory := text)
    case EditValueInput => s.(editColorValue := text)
  }

  /** Everything that can happen to the component, one event at a time. */
  datatype Event =
    | LoadEvent(ok: bool, data: seq<ColorRecord>)
    | AddEvent(ok: bool)
    | EditEvent(id: string)
    | UpdateEvent(ok: bool)
    | CancelEvent
    | DeleteEvent(id: string, ok: bool)
    | UndoEvent(ok: bool)
    | CopyEvent(code: string)
    | ExpireEvent
    | TypeEvent(input: Input, text: string)

  /** A timer can only fire when one is pending. */
  predicate Enabled(s: State, e: Event)
  {
    e.ExpireEvent? ==> s.timers > 0
  }

  function Next(s: State, e: Event): State
    requires Enabled(s, e)
  {
    match e
    case LoadEvent(ok, data) => Load(s, ok, data)
    case AddEvent(ok) => AddColor(s, ok).after
    case EditEvent(id) => EditColor(s, id)
    case UpdateEvent(ok) => UpdateColor(s, ok).after
    case CancelEvent => CancelEdit(s)
    case DeleteEvent(id, ok) => DeleteColor(s, id, ok).after
    case UndoEvent(ok) => UndoDelete(s, ok).after
    case CopyEvent(code) => CopyColorCode(s, code)
    case ExpireEvent => Expire(s)
    case TypeEvent(input, text) => Type(s, input, text)
  }

  /** Every event of `events` is enabled in the state it meets. */
  predicate Trace(s: State, events: seq<Event>)
    decreases |events|
  {
    events == [] || (Enabled(s, events[0]) && Trace(Next(s, events[0]), events[1..]))
  }

  function Run(s: State, events: seq<Event>): State
    requires Trace(s, events)
    decreases |events|
  {
    if events == [] then s else Run(Next(s, events[0]), events[1..])
  }
}
