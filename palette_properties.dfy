/**
  Properties of the palette's transitions that relate several events: the
  invariant every event keeps, what only one kind of event can change,
  single-level undo, edit isolation, and the copy-timer behaviour.
 */
module PaletteProperties {
  import opened Colors
  import opened PaletteState

  lemma InitialState()
    ensures Valid(Initial) && !Editing(Initial) && Initial.deletedColor.None? && Initial.colors == []
  {
  }

  lemma NextPreservesValid(s: State, e: Event)
    requires Valid(s) && Enabled(s, e)
    ensures Valid(Next(s, e))
  {
  }

  /** Along any sequence of events a shown "Copied!" marker has a timer pending. */
  lemma {:induction false} RunPreservesValid(s: State, events: seq<Event>)
    requires Valid(s) && Trace(s, events)
    ensures Valid(Run(s, events))
    decreases |events|
  {
    if events != [] {
      NextPreservesValid(s, events[0]);
      RunPreservesValid(Next(s, events[0]), events[1..]);
    }
  }

  predicate SuccessfulLoad(e: Event)
  {
    e.LoadEvent? && e.ok
  }

  /** The list is never patched locally: only a successful fetch changes it. */
  lemma {:induction false} OnlyLoadChangesColors(s: State, events: seq<Event>)
    requires Trace(s, events)
    requires forall i :: 0 <= i < |events| ==> !SuccessfulLoad(events[i])
    ensures Run(s, events).colors == s.colors
    decreases |events|
  {
    if events != [] {
      assert !SuccessfulLoad(events[0]);
      assert Next(s, events[0]).colors == s.colors;
      assert forall i :: 0 <= i < |events[1..]| ==> !SuccessfulLoad(events[1..][i]) by {
        forall i | 0 <= i < |events[1..]| ensures !SuccessfulLoad(events[1..][i]) {
          assert events[1..][i] == events[i + 1];
        }
      }
      OnlyLoadChangesColors(Next(s, events[0]), events[1..]);
    }
  }

  /**
    An edit target is only ever set by `editColor`: without it the target
    stays what it was or is cleared.
   */
  lemma {:induction false} OnlyEditSetsTarget(s: State, events: seq<Event>)
    requires Trace(s, events)
    requires forall i :: 0 <= i < |events| ==> !events[i].EditEvent?
    ensures Run(s, events).editingColor in {s.editingColor, None}
    decreases |events|
  {
    if events != [] {
      var t := Next(s, events[0]);
      assert t.editingColor in {s.editingColor, None};
      assert forall i :: 0 <= i < |events[1..]| ==> !events[1..][i].EditEvent? by {
        forall i | 0 <= i < |events[1..]| ensures !events[1..][i].EditEvent? {
          assert events[1..][i] == events[i + 1];
        }
      }
      OnlyEditSetsTarget(t, events[1..]);
    }
  }

  /**
    The undo snapshot is only ever changed by `deleteColor` and by a
    successful `undoDelete`.
   */
  lemma {:induction false} OnlyDeleteAndUndoChangeSnapshot(s: State, events: seq<Event>)
    requires Trace(s, events)
    requires forall i :: 0 <= i < |events| ==> !events[i].DeleteEvent? && !(events[i].UndoEvent? && events[i].ok)
    ensures Run(s, events).deletedColor == s.deletedColor
    decreases |events|
  {
    if events != [] {
      var t := Next(s, events[0]);
      assert t.deletedColor == s.deletedColor;
      assert forall i :: 0 <= i < |events[1..]| ==>
               !events[1..][i].DeleteEvent? && !(events[1..][i].UndoEvent? && events[1..][i].ok) by {
        forall i | 0 <= i < |events[1..]|
          ensures !events[1..][i].DeleteEvent? && !(events[1..][i].UndoEvent? && events[1..][i].ok)
        {
          assert events[1..][i] == events[i + 1];
        }
      }
      OnlyDeleteAndUndoChangeSnapshot(t, events[1..]);
    }
  }

  /** A failed fetch, create, update or undo leaves every slot as it was. */
  lemma FailedCallChangesNothing(s: State, e: Event)
    requires e.LoadEvent? || e.AddEvent? || e.UpdateEvent? || e.UndoEvent?
    requires !e.ok
    ensures Next(s, e) == s
  {
  }

  /**
    Opening a record for editing and cancelling leaves the list, the create
    code and the undo snapshot alone and ends editing; the name and
    category inputs keep the values seeded from the record.
   */
  lemma EditThenCancel(s: State, id: string)
    requires ContainsId(s.colors, id)
    ensures var r := CancelEdit(EditColor(s, id));
            && !Editing(r)
            && r.colors == s.colors && r.newColor == s.newColor && r.deletedColor == s.deletedColor
            && r.copiedColor == s.copiedColor
            && r.colorName == OrEmpty(Find(s.colors, id).value.name)
            && r.colorCategory == OrEmpty(Find(s.colors, id).value.category)
  {
  }

  /**
    Only the most recent delete can be undone: after deleting `a` and then
    `b`, undo re-posts the record of `b`, and a further undo sends nothing.
   */
  lemma OnlyLatestDeleteUndoable(s: State, a: string, b: string, okA: bool, okB: bool, okU: bool)
    requires ContainsId(s.colors, b)
    ensures var s2 := DeleteColor(DeleteColor(s, a, okA).after, b, okB).after;
            var u := UndoDelete(s2, true);
            && u.sent == Some(Restore(Find(s.colors, b).value))
            && u.sent.value.snapshot.id == b
            && UndoDelete(u.after, okU).sent.None?
  {
  }

  /**
    Undo re-posts the deleted record's full content (code, name, category),
    whether or not the delete request succeeded.
   */
  lemma DeleteThenUndoRepostsSnapshot(s: State, id: string, okD: bool, okU: bool)
    requires ContainsId(s.colors, id)
    ensures var u := UndoDelete(DeleteColor(s, id, okD).after, okU);
            && u.sent.Some? && u.sent.value.Restore?
            && u.sent.value.snapshot in s.colors
            && u.sent.value.snapshot.id == id
            && u.sent.value.snapshot == Find(s.colors, id).value
  {
  }

  /**
    Deleting an id that is not in the list overwrites the snapshot with
    nothing: the earlier pending undo is lost and undo does nothing.
   */
  lemma DeleteUnknownLosesUndo(s: State, id: string, okD: bool, okU: bool)
    requires !ContainsId(s.colors, id)
    ensures var d := DeleteColor(s, id, okD).after;
            d.deletedColor.None? && UndoDelete(d, okU) == Step(d, None, false)
  {
  }

  /** A failed delete refreshes nothing, yet keeps the snapshot it took. */
  lemma FailedDeleteKeepsSnapshot(s: State, id: string)
    requires ContainsId(s.colors, id)
    ensures var d := DeleteColor(s, id, false);
            && !d.reload && d.after.colors == s.colors
            && d.after.deletedColor.Some? && d.after.deletedColor.value.id == id
  {
  }

  /**
    The timer of an earlier copy clears the marker of a later one: after
    copying `a` then `b`, the first timer to fire removes `b`'s marker while
    `b`'s own timer is still pending.
   */
  lemma OlderTimerClearsNewerCopy(s: State, a: string, b: string)
    ensures var c := CopyColorCode(CopyColorCode(s, a), b);
            && c.copiedColor == b
            && Expire(c).copiedColor == ""
            && Expire(c).timers == s.timers + 1
  {
  }

  /**
    The list holds one record; typing "000" and adding it posts "#000" with
    empty name and category and fires a reload.
   */
  lemma CreateScenario()
    ensures var snow := ColorRecord("1", "#fff", Some("snow"), Some("white"));
            var s := Type(Load(Initial, true, [snow]), NewColorInput, "000");
            var r := AddColor(s, true);
            && r.sent == Some(Post("#000", "", "")) && r.reload
            && r.after.colors == [snow] && r.after.newColor == ""
  {
    assert !HasHashPrefix("000");
    assert "#" + "000" == "#000";
  }

  /**
    Deleting record "1" stores its full snapshot; undo then re-posts that
    snapshot's code, name and category.
   */
  lemma DeleteUndoScenario()
    ensures var snow := ColorRecord("1", "#fff", Some("snow"), Some("white"));
            var s := Load(Initial, true, [snow]);
            var d := DeleteColor(s, "1", true);
            var u := UndoDelete(d.after, true);
            && d.after.deletedColor == Some(snow)
            && u.sent == Some(Restore(snow))
            && u.after.deletedColor.None?
  {
  }
}
