/**
  The palette component as an object: its fields are the component's state
  slots and each event handler is a method that updates them in the order
  the handler calls its setters. Each method is proved against the matching
  transition of `PaletteState`.
 */
module ColorPalette {
  import opened Colors
  import PaletteState

  class Registry {
    var colors: seq<ColorRecord>
    var newColor: string
    var colorName: string
    var colorCategory: string
    var copiedColor: string
    var editingColor: Option<ColorRecord>
    var editColorValue: string
    var deletedColor: Option<ColorRecord>
    /** Copy timers scheduled and not yet fired. */
    var timers: nat

    /** The object's slots as one state value. */
    function Model(): PaletteState.State
      reads this
    {
      PaletteState.State(colors, newColor, colorName, colorCategory, copiedColor,
                         editingColor, editColorValue, deletedColor, timers)
    }

    ghost predicate Valid()
      reads this
    {
      PaletteState.Valid(Model())
    }

    /** The initial `useState` values. */
    constructor ()
      ensures Valid() && Model() == PaletteState.Initial
    {
      colors := [];
      newColor := "";
      colorName := "";
      colorCategory := "";
      copiedColor := "";
      editingColor := None;
      editColorValue := "";
      deletedColor := None;
      timers := 0;
    }

    /** `fetchColors`, with the response (`ok`, `data`) as parameters. */
    method Load(ok: bool, data: seq<ColorRecord>)
      requires Valid()
      modifies this
      ensures Valid()
      ensures Model() == PaletteState.Load(old(Model()), ok, data)
    {
      if ok {
        colors := data;
      }
    }

    /** `addColor`: returns the request it posts and whether it fired a reload. */
    method AddColor(ok: bool) returns (sent: Option<PaletteState.Request>, reload: bool)
      requires Valid()
      modifies this
      ensures Valid()
      ensures PaletteState.Step(Model(), sent, reload) == PaletteState.AddColor(old(Model()), ok)
    {
      var colorToAdd := Normalize(newColor);
      sent := Some(PaletteState.Post(colorToAdd, colorName, colorCategory));
      reload := false;
      if ok {
        reload := true;
        newColor := "";
        colorName := "";
        colorCategory := "";
        copiedColor := "";
      }
    }

    /** `editColor(id)` */
    method EditColor(id: string)
      requires Valid()
      modifies this
      ensures Valid()
      ensures Model() == PaletteState.EditColor(old(Model()), id)
    {
      var edited := Find(colors, id);
      editingColor := edited;
      if edited.Some? {
        editColorValue := edited.value.color;
        colorName := OrEmpty(edited.value.name);
        colorCategory := OrEmpty(edited.value.category);
      }
    }

    /** `updateColor`: returns the request it puts and whether it fired a reload. */
    method UpdateColor(ok: bool) returns (sent: Option<PaletteState.Request>, reload: bool)
      requires Valid()
      modifies this
      ensures Valid()
      ensures PaletteState.Step(Model(), sent, reload) == PaletteState.UpdateColor(old(Model()), ok)
    {
      sent, reload := None, false;
      if editingColor.Some? {
        var colorToUpdate := Normalize(editColorValue);
        sent := Some(PaletteState.Put(editingColor.value.id, colorToUpdate, colorName, colorCategory));
        if ok {
          reload := true;
          newColor := "";
          colorName := "";
          colorCategory := "";
          editingColor := None;
          editColorValue := "";
          copiedColor := "";
        }
      }
    }

    /** The Cancel button of the edit form. */
    method CancelEdit()
      requires Valid()
      modifies this
      ensures Valid()
      ensures Model() == PaletteState.CancelEdit(old(Model()))
    {
      editingColor := None;
    }

    /** `deleteColor(id)`: returns the request it sends and whether it fired a reload. */
    method DeleteColor(id: string, ok: bool) returns (sent: Option<PaletteState.Request>, reload: bool)
      requires Valid()
      modifies this
      ensures Valid()
      ensures PaletteState.Step(Model(), sent, reload) == PaletteState.DeleteColor(old(Model()), id, ok)
    {
      deletedColor := Find(colors, id);
      sent := Some(PaletteState.Delete(id));
      reload := ok;
    }

    /** `undoDelete`: returns the request it posts, if any, and whether it fired a reload. */
    method UndoDelete(ok: bool) returns (sent: Option<PaletteState.Request>, reload: bool)
      requires Valid()
      modifies this
      ensures Valid()
      ensures PaletteState.Step(Model(), sent, reload) == PaletteState.UndoDelete(old(Model()), ok)
    {
      sent, reload := None, false;
      if deletedColor.Some? {
        sent := Some(PaletteState.Restore(deletedColor.value));
        if ok {
          reload := true;
          deletedColor := None;
        }
      }
    }

    /** `copyColorCode(code)`; the clipboard write is outside the model. */
    method CopyColorCode(code: string)
      requires Valid()
      modifies this
      ensures Valid()
      ensures Model() == PaletteState.CopyColorCode(old(Model()), code)
    {
      copiedColor := code;
      timers := timers + 1;
    }

    /** One pending copy timer fires. */
    method Expire()
      requires Valid() && timers > 0
      modifies this
      ensures Valid()
      ensures Model() == PaletteState.Expire(old(Model()))
    {
      copiedColor := "";
      timers := timers - 1;
    }

    /** An `onChange` of one of the text inputs. */
    method Type(input: PaletteState.Input, text: string)
      requires Valid()
      modifies this
      ensures Valid()
      ensures Model() == PaletteState.Type(old(Model()), input, text)
    {
      match input
      case NewColorInput => newColor := text;
      case NameInput => colorName := text;
      case CategoryInput => colorCategory := text;
      case EditValueInput => editColorValue := text;
    }
  }

  /**
    A client of the class: load two records, delete both, then undo twice.
    The first undo re-posts the second record only; the second sends nothing.
   */
  method SingleUndoClient(first: ColorRecord, second: ColorRecord)
    returns (restored: Option<PaletteState.Request>, again: Option<PaletteState.Request>)
    ensures restored.Some? && restored.value.Restore? && restored.value.snapshot.id == second.id
    ensures restored.value.snapshot in [first, second]
    ensures again.None?
  {
    var palette := new Registry();
    palette.Load(true, [first, second]);
    var sent, reload := palette.DeleteColor(first.id, true);
    sent, reload := palette.DeleteColor(second.id, true);
    assert [first, second][1].id == second.id;
    FindFound([first, second], second.id);
    restored, reload := palette.UndoDelete(true);
    again, reload := palette.UndoDelete(true);
  }
}
