/**
 * `CustomTextInput` as an object: the cursor (`selectionStart`), the timer
 * slot (`backspaceTimeoutRef`) and the text are fields that the handlers
 * update in place. Each handler follows the branches of the component and is
 * proved to perform the transition of the same name in TextInputModel.
 */
module TextInput {
  import opened Wrappers
  import opened JsSlice
  import opened TextInputModel

  class CustomTextInput {
    var value: string
    var cursor: nat
    var disabled: bool
    var slot: Option<Handle>
    var pending: set<Handle>
    var nextHandle: Handle
    var published: seq<string>

    /** The abstract state the fields represent. */
    function State(): InputState
      reads this
    {
      InputState(value, cursor, disabled, slot, pending, nextHandle, published)
    }

    /** Mounting the component with its `value` and `disabled` props. */
    constructor (value: string, disabled: bool)
      ensures State() == Initial(value, disabled)
    {
      this.value := value;
      cursor := 0;
      this.disabled := disabled;
      slot := None;
      pending := {};
      nextHandle := 1;
      published := [];
    }

    /** `onValueChange(text)`, with the parent echoing `text` back as `value`. */
    method Publish(text: string)
      modifies this
      ensures value == text && published == old(published) + [text]
      ensures cursor == old(cursor) && disabled == old(disabled)
      ensures slot == old(slot) && pending == old(pending) && nextHandle == old(nextHandle)
    {
      value := text;
      published := published + [text];
    }

    method HandleKeyPress(k: Key)
      modifies this
      ensures State() == KeyPress(old(State()), k)
    {
      if disabled {
        return;
      }
      if k == Backspace {
        if cursor > 0 {
          var newValue := Slice(value, 0, cursor - 1) + SliceFrom(value, cursor);
          var newCursor := cursor - 1;
          Publish(newValue);
          cursor := newCursor;
        }
      } else {
        var newValue := Slice(value, 0, cursor) + [k.c] + SliceFrom(value, cursor);
        var newCursor := cursor + 1;
        Publish(newValue);
        cursor := newCursor;
      }
    }

    method HandleClearAll()
      modifies this
      ensures State() == ClearAll(old(State()))
    {
      if disabled {
        return;
      }
      Publish("");
      cursor := 0;
    }

    /** Schedules the hold-to-clear timer (`setTimeout` with a 1000 ms delay)
        and stores its handle, overwriting the slot. */
    method HandleBackspacePressIn()
      modifies this
      ensures State() == BackspacePressIn(old(State()))
    {
      if disabled {
        return;
      }
      var h := nextHandle;
      nextHandle := nextHandle + 1;
      pending := pending + {h};
      slot := Some(h);
    }

    /** `clearTimeout` on the handle in the slot, then the slot is emptied. */
    method ClearSlot()
      modifies this
      ensures State() == CancelSlot(old(State()))
    {
      if slot.Some? {
        pending := pending - {slot.value};
        slot := None;
      }
    }

    method HandleBackspacePressOut()
      modifies this
      ensures State() == CancelSlot(old(State()))
    {
      ClearSlot();
    }

    /** The cleanup of the unmount effect. */
    method Unmount()
      modifies this
      ensures State() == CancelSlot(old(State()))
    {
      ClearSlot();
    }

    /** The event loop runs the callback of timer `h`. */
    method TimerFired(h: Handle)
      modifies this
      ensures State() == TimerFire(old(State()), h)
    {
      if h !in pending {
        return;
      }
      pending := pending - {h};
      HandleClearAll();
    }

    method HandleTextInputPress(hasTarget: bool)
      modifies this
      ensures State() == TextInputPress(old(State()), hasTarget)
    {
      if disabled {
        return;
      }
      if hasTarget {
        cursor := |value|;
      }
    }

    method HandleSelectionChange(start: nat)
      modifies this
      ensures State() == SelectionChange(old(State()), start)
    {
      if !disabled {
        cursor := start;
      }
    }

    /** The parent re-renders with another `disabled` prop. */
    method SetDisabled(d: bool)
      modifies this
      ensures State() == old(State()).(disabled := d)
    {
      disabled := d;
    }

    /** Delivers one event to the matching handler. */
    method Dispatch(e: Event)
      modifies this
      ensures State() == Step(old(State()), e)
    {
      match e
      case KeyPressed(k) => HandleKeyPress(k);
      case PressIn => HandleBackspacePressIn();
      case PressOut => HandleBackspacePressOut();
      case Fire(h) => TimerFired(h);
      case FieldTap(t) => HandleTextInputPress(t);
      case SelectionChanged(p) => HandleSelectionChange(p);
      case Unmounted => Unmount();
      case DisabledSet(d) => SetDisabled(d);
    }
  }

  /** A client: holding backspace past the threshold on "cat" clears it at once,
      and releasing afterwards does not clear again. */
  method HoldToClearScenario() returns (input: CustomTextInput)
    ensures input.value == "" && input.cursor == 0 && input.published == [""]
    ensures input.slot == None && input.pending == {}
  {
    input := new CustomTextInput("cat", false);
    input.HandleBackspacePressIn();
    var h := input.slot.value;
    input.TimerFired(h);
    input.HandleBackspacePressOut();
    input.TimerFired(h);
  }
}
