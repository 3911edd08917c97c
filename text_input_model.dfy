/**
 * The state and the handlers of the keyboard text-input component
 * (`CustomTextInput`), written as pure transition functions on an explicit
 * state record. The class in text_input.dfy keeps the same state in fields
 * and its methods are proved to perform exactly these transitions.
 *
 * The component is controlled: its text arrives as the `value` prop and every
 * edit is published through `onValueChange`. The model assumes the parent
 * echoes each published text back as the next `value`, and keeps the list of
 * published texts so that "onValueChange is not called" can be stated.
 */
module TextInputModel {
  import opened Wrappers
  import opened JsSlice

  /** A key of the on-screen keyboard: one glyph, or the backspace key
      (for which the component receives the string 'backspace'). */
  datatype Key = Glyph(c: char) | Backspace

  /** A timer id as returned by `setTimeout`. */
  type Handle = nat

  datatype InputState = InputState(
    value: string,           // the text, as last published
    cursor: nat,             // `selectionStart`
    disabled: bool,          // the `disabled` prop
    slot: Option<Handle>,    // `backspaceTimeoutRef.current`
    pending: set<Handle>,    // timers scheduled and neither fired nor cleared
    nextHandle: Handle,      // the id the next `setTimeout` returns
    published: seq<string>   // every argument given to `onValueChange`, in order
  )

  /** A freshly mounted component: cursor 0, empty timer slot. */
  function Initial(value: string, disabled: bool): (s: InputState)
    ensures s.cursor == 0 && s.slot == None && s.pending == {} && s.published == []
    ensures Valid(s)
  {
    InputState(value, 0, disabled, None, {}, 1, [])
  }

  /** The timer bookkeeping is consistent: every handle in the slot or pending
      was issued before, so the next `setTimeout` returns a new one. */
  ghost predicate Valid(s: InputState)
  {
    && (forall h :: h in s.pending ==> h < s.nextHandle)
    && (s.slot.Some? ==> s.slot.value < s.nextHandle)
  }

  /** The text, the cursor and the published texts are the same in both states. */
  predicate SameText(s: InputState, r: InputState)
  {
    r.value == s.value && r.cursor == s.cursor && r.published == s.published
  }

  /** The timer slot, the pending timers and the next timer id are the same in both states. */
  predicate Untimed(s: InputState, r: InputState)
  {
    r.slot == s.slot && r.pending == s.pending && r.nextHandle == s.nextHandle
  }

  /** The cursor lies inside the text. */
  predicate CursorInRange(s: InputState)
  {
    s.cursor <= |s.value|
  }

  // ---------------------------------------------------------------------
  // Edits of the text buffer (the new strings of handleKeyPress)
  // ---------------------------------------------------------------------

  /** Inserting a glyph at the cursor: the text gets the glyph spliced in at
      the cursor and the cursor moves past it. */
  function InsertAt(value: string, cursor: nat, c: char): (r: (string, nat))
    ensures cursor <= |value| ==> r.0 == value[..cursor] + [c] + value[cursor..]
    ensures cursor <= |value| ==> |r.0| == |value| + 1 && r.0[cursor] == c
    ensures cursor > |value| ==> r.0 == value + [c]
    ensures r.1 == cursor + 1
  {
    (Slice(value, 0, cursor) + [c] + SliceFrom(value, cursor), cursor + 1)
  }

  /** Deleting the character before the cursor; `None` when the cursor is at
      the start and nothing happens. */
  function DeleteBefore(value: string, cursor: nat): (r: Option<(string, nat)>)
    ensures r.None? <==> cursor == 0
    ensures 0 < cursor <= |value| ==>
              r.Some? && r.value.0 == value[..cursor - 1] + value[cursor..]
              && |r.value.0| == |value| - 1
    ensures cursor > |value| ==> r == Some((value, cursor - 1))
    ensures r.Some? ==> r.value.1 == cursor - 1
  {
    if cursor > 0 then
      assert cursor > |value| ==> Slice(value, 0, cursor - 1) + SliceFrom(value, cursor) == value + [] == value;
      Some((Slice(value, 0, cursor - 1) + SliceFrom(value, cursor), cursor - 1))
    else
      None
  }

  // ---------------------------------------------------------------------
  // Handlers
  // ---------------------------------------------------------------------

  /** `handleKeyPress(key)` */
  function KeyPress(s: InputState, k: Key): (r: InputState)
    ensures Untimed(s, r) && r.disabled == s.disabled
    ensures r == s || (!s.disabled && r.published == s.published + [r.value])
  {
    if s.disabled then s
    else match k
      case Backspace =>
        (match DeleteBefore(s.value, s.cursor)
         case None => s
         case Some(edit) =>
           s.(value := edit.0, cursor := edit.1, published := s.published + [edit.0]))
      case Glyph(c) =>
        var edit := InsertAt(s.value, s.cursor, c);
        s.(value := edit.0, cursor := edit.1, published := s.published + [edit.0])
  }

  /** `handleClearAll()` */
  function ClearAll(s: InputState): (r: InputState)
    ensures Untimed(s, r) && r.disabled == s.disabled
    ensures s.disabled ==> r == s
    ensures !s.disabled ==> r.value == [] && r.cursor == 0 && r.published == s.published + [[]]
  {
    if s.disabled then s
    else s.(value := "", cursor := 0, published := s.published + [""])
  }

  /** `handleBackspacePressIn()`: schedules a new hold-to-clear timer and
      stores its handle in the slot, without clearing what the slot held. */
  function BackspacePressIn(s: InputState): (r: InputState)
    ensures SameText(s, r) && r.disabled == s.disabled
    ensures s.disabled ==> r == s
    ensures !s.disabled ==> r.slot == Some(s.nextHandle) && r.pending == s.pending + {s.nextHandle}
                            && r.nextHandle > s.nextHandle
  {
    if s.disabled then s
    else s.(slot := Some(s.nextHandle), pending := s.pending + {s.nextHandle},
            nextHandle := s.nextHandle + 1)
  }

  /** The body shared by `handleBackspacePressOut()` and the unmount cleanup:
      clear the timer in the slot, if any, and empty the slot. */
  function CancelSlot(s: InputState): (r: InputState)
    ensures SameText(s, r) && r.disabled == s.disabled && r.nextHandle == s.nextHandle
    ensures r.slot == None
    ensures s.slot.Some? ==> r.pending == s.pending - {s.slot.value}
    ensures s.slot.None? ==> r.pending == s.pending
  {
    match s.slot
    case None => s
    case Some(h) => s.(pending := s.pending - {h}, slot := None)
  }

  /** The callback of timer `h` runs: a timer that was cleared or has already
      run does nothing; otherwise it performs `handleClearAll()`. The slot is
      left as it is. */
  function TimerFire(s: InputState, h: Handle): (r: InputState)
    ensures r.pending == s.pending - {h} && r.slot == s.slot && r.nextHandle == s.nextHandle
    ensures h !in s.pending ==> r == s
    ensures h in s.pending ==> r.(pending := s.pending) == ClearAll(s)
  {
    if h !in s.pending then s
    else ClearAll(s.(pending := s.pending - {h}))
  }

  /** `handleTextInputPress(event)`; `hasTarget` is `nativeEvent.target`. */
  function TextInputPress(s: InputState, hasTarget: bool): (r: InputState)
    ensures r.(cursor := s.cursor) == s
    ensures r.cursor == (if !s.disabled && hasTarget then |s.value| else s.cursor)
  {
    if s.disabled then s
    else if hasTarget then s.(cursor := |s.value|)
    else s
  }

  /** `handleSelectionChange(event)`; `start` is `nativeEvent.selection.start`. */
  function SelectionChange(s: InputState, start: nat): (r: InputState)
    ensures r.(cursor := s.cursor) == s
    ensures r.cursor == (if s.disabled then s.cursor else start)
  {
    if s.disabled then s else s.(cursor := start)
  }

  // ---------------------------------------------------------------------
  // Event traces
  // ---------------------------------------------------------------------

  datatype Event =
    | KeyPressed(k: Key)
    | PressIn
    | PressOut
    | Fire(h: Handle)
    | FieldTap(hasTarget: bool)
    | SelectionChanged(start: nat)
    | Unmounted
    | DisabledSet(disabled: bool)

  function Step(s: InputState, e: Event): (r: InputState)
    ensures s.published <= r.published
    ensures s.nextHandle <= r.nextHandle
    ensures r.pending <= s.pending + {s.nextHandle}
  {
    match e
    case KeyPressed(k) => KeyPress(s, k)
    case PressIn => BackspacePressIn(s)
    case PressOut => CancelSlot(s)
    case Fire(h) => TimerFire(s, h)
    case FieldTap(t) => TextInputPress(s, t)
    case SelectionChanged(p) => SelectionChange(s, p)
    case Unmounted => CancelSlot(s)
    case DisabledSet(d) => s.(disabled := d)
  }

  function Run(s: InputState, es: seq<Event>): (r: InputState)
    ensures s.published <= r.published
    ensures s.nextHandle <= r.nextHandle
    decreases |es|
  {
    if es == [] then s else Run(Step(s, es[0]), es[1..])
  }

  /** Timer callbacks in `es` that actually run (their timer is still pending). */
  function Clears(s: InputState, es: seq<Event>): nat
    decreases |es|
  {
    if es == [] then 0
    else (if es[0].Fire? && es[0].h in s.pending then 1 else 0) + Clears(Step(s, es[0]), es[1..])
  }

  /** Runs of the callback of timer `h` in `es`. */
  function RunsOf(s: InputState, es: seq<Event>, h: Handle): nat
    decreases |es|
  {
    if es == [] then 0
    else (if es[0] == Fire(h) && h in s.pending then 1 else 0) + RunsOf(Step(s, es[0]), es[1..], h)
  }

  function PressIns(es: seq<Event>): nat
  {
    if es == [] then 0 else (if es[0].PressIn? then 1 else 0) + PressIns(es[1..])
  }

  // ---------------------------------------------------------------------
  // Properties of the edits
  // ---------------------------------------------------------------------

  /** Inserting a glyph at an in-range cursor. */
  lemma InsertGlyph(s: InputState, c: char)
    requires !s.disabled && CursorInRange(s)
    ensures var t := KeyPress(s, Glyph(c));
      && t.value == s.value[..s.cursor] + [c] + s.value[s.cursor..]
      && |t.value| == |s.value| + 1
      && t.cursor == s.cursor + 1
      && CursorInRange(t)
      && t.published == s.published + [t.value]
      && t.slot == s.slot && t.pending == s.pending
  {
  }

  /** Backspace at an in-range cursor past the start removes exactly the
      character before the cursor. */
  lemma BackspaceRemovesOne(s: InputState)
    requires !s.disabled && 0 < s.cursor <= |s.value|
    ensures var t := KeyPress(s, Backspace);
      && t.value == s.value[..s.cursor - 1] + s.value[s.cursor..]
      && |t.value| == |s.value| - 1
      && t.cursor == s.cursor - 1
      && CursorInRange(t)
      && t.published == s.published + [t.value]
      && (forall i :: 0 <= i < s.cursor - 1 ==> t.value[i] == s.value[i])
      && (forall i :: s.cursor <= i < |s.value| ==> t.value[i - 1] == s.value[i])
  {
  }

  /** Backspace at the start changes nothing and publishes nothing. */
  lemma BackspaceAtStart(s: InputState)
    requires s.cursor == 0
    ensures KeyPress(s, Backspace) == s
  {
  }

  /** Backspace undoes an insertion at an in-range cursor. */
  lemma InsertThenBackspace(s: InputState, c: char)
    requires !s.disabled && CursorInRange(s)
    ensures var t := KeyPress(KeyPress(s, Glyph(c)), Backspace);
      t.value == s.value && t.cursor == s.cursor
      && t.published == s.published + [InsertAt(s.value, s.cursor, c).0, s.value]
  {
  }

  /** When disabled, every gated handler leaves the whole state unchanged. */
  lemma DisabledIsInert(s: InputState, k: Key, hasTarget: bool, start: nat)
    requires s.disabled
    ensures KeyPress(s, k) == s && ClearAll(s) == s && BackspacePressIn(s) == s
    ensures TextInputPress(s, hasTarget) == s && SelectionChange(s, start) == s
  {
  }

  /** The two cursor setters. */
  lemma CursorSetters(s: InputState, start: nat)
    requires !s.disabled
    ensures TextInputPress(s, true).cursor == |s.value| && CursorInRange(TextInputPress(s, true))
    ensures TextInputPress(s, true).value == s.value && TextInputPress(s, false) == s
    ensures SelectionChange(s, start).cursor == start
    ensures SelectionChange(s, start).value == s.value
  {
  }

  /** Every event except a selection change past the end keeps the cursor in
      range, and every event keeps the timer bookkeeping consistent. */
  lemma StepKeeps(s: InputState, e: Event)
    ensures Valid(s) ==> Valid(Step(s, e))
    ensures CursorInRange(s) && (e.SelectionChanged? ==> e.start <= |s.value|) ==>
              CursorInRange(Step(s, e))
  {
  }

  /** Any trace of events without selection changes keeps the cursor inside
      the text. */
  lemma {:induction false} RunKeepsCursorInRange(s: InputState, es: seq<Event>)
    requires CursorInRange(s)
    requires forall i :: 0 <= i < |es| ==> !es[i].SelectionChanged?
    ensures CursorInRange(Run(s, es))
    decreases |es|
  {
    if es != [] {
      StepKeeps(s, es[0]);
      RunKeepsCursorInRange(Step(s, es[0]), es[1..]);
    }
  }

  /** Any trace keeps the timer bookkeeping consistent. */
  lemma {:induction false} RunKeepsValid(s: InputState, es: seq<Event>)
    requires Valid(s)
    ensures Valid(Run(s, es))
    decreases |es|
  {
    if es != [] {
      StepKeeps(s, es[0]);
      RunKeepsValid(Step(s, es[0]), es[1..]);
    }
  }

  /** A trace of key presses alone, from an in-range cursor, never moves the
      cursor outside the text. */
  lemma KeysKeepCursorInRange(s: InputState, keys: seq<Key>)
    requires CursorInRange(s)
    ensures CursorInRange(Run(s, seq(|keys|, i requires 0 <= i < |keys| => KeyPressed(keys[i]))))
  {
    RunKeepsCursorInRange(s, seq(|keys|, i requires 0 <= i < |keys| => KeyPressed(keys[i])));
  }

  // ---------------------------------------------------------------------
  // Properties of hold-to-clear
  // ---------------------------------------------------------------------

  /** Press-in arms a new timer, records it in the slot, and touches nothing else. */
  lemma PressInArms(s: InputState)
    requires Valid(s) && !s.disabled
    ensures var t := BackspacePressIn(s);
      && t.slot == Some(s.nextHandle) && s.nextHandle !in s.pending
      && t.pending == s.pending + {s.nextHandle}
      && t.value == s.value && t.cursor == s.cursor && t.published == s.published
  {
  }

  /** A pending timer that fires on an enabled component clears the text, puts
      the cursor at 0, publishes "" once, and is no longer pending; the slot
      keeps its handle. */
  lemma FireClears(s: InputState, h: Handle)
    requires h in s.pending && !s.disabled
    ensures var t := TimerFire(s, h);
      && t.value == "" && t.cursor == 0 && t.published == s.published + [""]
      && h !in t.pending && t.slot == s.slot
  {
  }

  /** Press-out or unmount clears the timer in the slot: when it would have
      fired, nothing happens. */
  lemma ReleaseCancels(s: InputState, h: Handle)
    requires s.slot == Some(h)
    ensures var t := CancelSlot(s);
      && t.slot == None && h !in t.pending
      && TimerFire(t, h) == t
      && t.value == s.value && t.cursor == s.cursor && t.published == s.published
  {
  }

  /** A press-in followed by a release leaves no timer of its own behind. */
  lemma PressThenRelease(s: InputState)
    requires Valid(s) && !s.disabled
    ensures var t := CancelSlot(BackspacePressIn(s));
      && t.pending == s.pending && t.slot == None
      && TimerFire(t, s.nextHandle) == t
  {
  }

  /** Press-in overwrites the slot without clearing the timer it held: after a
      second press-in and a release, the first timer is still pending and, when
      it fires, clears the text. */
  lemma OverwrittenTimerSurvives(s: InputState, h: Handle)
    requires Valid(s) && !s.disabled && s.slot == Some(h) && h in s.pending
    ensures var t := CancelSlot(BackspacePressIn(s));
      && h in t.pending && t.slot == None
      && TimerFire(t, h).value == "" && TimerFire(t, h).cursor == 0
  {
  }

  /** A timer that fired, was cleared or was never issued stays off the pending set. */
  lemma {:induction false} RetiredStaysRetired(s: InputState, es: seq<Event>, h: Handle)
    requires Valid(s) && h < s.nextHandle && h !in s.pending
    ensures RunsOf(s, es, h) == 0
    decreases |es|
  {
    if es != [] {
      StepKeeps(s, es[0]);
      var t := Step(s, es[0]);
      assert h < t.nextHandle && h !in t.pending;
      RetiredStaysRetired(t, es[1..], h);
    }
  }

  /** The callback of any one timer runs at most once, whatever happens, and
      not at all once it has run or been cleared. */
  lemma {:induction false} TimerRunsAtMostOnce(s: InputState, es: seq<Event>, h: Handle)
    requires Valid(s)
    ensures RunsOf(s, es, h) <= 1
    ensures h < s.nextHandle && h !in s.pending ==> RunsOf(s, es, h) == 0
    decreases |es|
  {
    if es != [] {
      StepKeeps(s, es[0]);
      var t := Step(s, es[0]);
      if es[0] == Fire(h) && h in s.pending {
        assert h < t.nextHandle && h !in t.pending;
        RetiredStaysRetired(t, es[1..], h);
      } else {
        TimerRunsAtMostOnce(t, es[1..], h);
        if h < s.nextHandle && h !in s.pending {
          RetiredStaysRetired(s, es, h);
        }
      }
    }
  }

  /** One step changes the number of pending timers by at most the
      press-in it may be, less the callback it may run. */
  lemma StepPendingCount(s: InputState, e: Event)
    requires Valid(s)
    ensures (if e.Fire? && e.h in s.pending then 1 else 0) + |Step(s, e).pending|
            <= |s.pending| + (if e.PressIn? then 1 else 0)
  {
    match e
    case PressIn =>
      if !s.disabled {
        assert s.nextHandle !in s.pending;
      }
    case PressOut =>
      if s.slot.Some? { assert |s.pending - {s.slot.value}| <= |s.pending|; }
    case Unmounted =>
      if s.slot.Some? { assert |s.pending - {s.slot.value}| <= |s.pending|; }
    case Fire(h) =>
      if h in s.pending { assert |s.pending - {h}| == |s.pending| - 1; }
    case _ =>
  }

  /** Over any trace, the clears that timers perform are no more than the
      timers pending at the start plus the press-ins of the trace: one
      press-in causes at most one clear. */
  lemma {:induction false} ClearsBoundedByPressIns(s: InputState, es: seq<Event>)
    requires Valid(s)
    ensures Clears(s, es) <= |s.pending| + PressIns(es)
    decreases |es|
  {
    if es != [] {
      StepPendingCount(s, es[0]);
      StepKeeps(s, es[0]);
      ClearsBoundedByPressIns(Step(s, es[0]), es[1..]);
    }
  }

  /** The worked example: "cat" with the cursor at 3, insert 'z', then
      backspace five times. */
  lemma CatExample()
    ensures var s0 := Initial("cat", false).(cursor := 3);
      var s1 := KeyPress(s0, Glyph('z'));
      var s2 := KeyPress(s1, Backspace);
      var s5 := KeyPress(KeyPress(KeyPress(s2, Backspace), Backspace), Backspace);
      && s1.value == "catz" && s1.cursor == 4
      && s2.value == "cat" && s2.cursor == 3
      && s5.value == "" && s5.cursor == 0
      && KeyPress(s5, Backspace) == s5
  {
  }
}
