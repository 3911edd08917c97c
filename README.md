# quiz-player: keyboard text input and navigation decision

A Dafny model of the two controllers of the quiz-player mobile client:

- **`CustomTextInput`** (`app/src/components/TextInput.tsx`), the on-screen
  keyboard. It owns a text and a cursor (`selectionStart`), inserts a glyph
  at the cursor, deletes the character before it, clears everything when
  backspace is held for 1000 ms, moves the cursor on a tap or a native
  selection change, and ignores every gated handler while `disabled`. The
  hold-to-clear timer lives in one handle slot (`backspaceTimeoutRef`).
  The alphabet of the locale is split into three letter rows and an empty
  fourth row.
- **`AppNavigator`** (`app/src/navigation/index.tsx`): its effect maps the
  latest snapshot to a navigation call and possibly a refetch. The snapshot
  holds container readiness, the player record, the quiz state and the
  current route. The call is none, a soft `navigate`, or a destructive
  `reset`.

## Layout

| file | module | contents |
|---|---|---|
| wrappers.dfy | `Wrappers` | `Option` |
| js_slice.dfy | `JsSlice` | JavaScript `slice` with clamped bounds |
| text_input_model.dfy | `TextInputModel` | the component state as a datatype, each handler as a transition function, event traces, and the lemmas |
| text_input.dfy | `TextInput` | class `CustomTextInput`. Its fields are that state; each handler method is proved to perform its transition |
| keyboard_rows.dfy | `KeyboardRows` | `getKeyboardRows` and the row button counts |
| navigation_decision.dfy | `NavigationDecision` | the decision function, its table lemmas, idempotence, traces |
| navigator.dfy | `AppNavigator` | class `Navigator`: readiness, current route, refetch count and call log, updated by the effect |

Modelling choices:

- The component is controlled. The model assumes the parent passes each
  text given to `onValueChange` straight back as `value`. `published` lists
  every text given to `onValueChange`, so "onValueChange is not called" is a
  statement about that list.
- `slice` clamps its bounds in JavaScript. `JsSlice.Slice` does the same, so
  a cursor past the end of the text behaves as it does in the component.
  A cursor past the end can come from a selection change.
- The timer is explicit state:
  - `slot` is `backspaceTimeoutRef.current`;
  - `pending` holds the timers that were scheduled and have neither run nor
    been cleared;
  - `nextHandle` is the id the next `setTimeout` returns.
  A timer's callback runs as the event `Fire(h)`.
  Press-in overwrites the slot without clearing the timer it held. A timer's
  callback does not empty the slot. Press-out and unmount clear only the
  timer in the slot.
- A quiz phase that is none of the seven listed is `Unlisted`. A missing
  current route (`getCurrentRoute()` undefined) is `None`, and it counts as
  "not Default", "not Prepare" and "not Question".
- A `reset` or `navigate` leaves the container on the given route. The rest
  of the navigation stack is not modelled.

In a few places the code behaves differently from what one might expect of
such a screen. The model follows the code:

- An inactive player gets a `reset` to Default, not a soft navigate.
- The reset to Question happens only when the current route is not Question.
- `refetchPlayer()` is called in a completion phase even when already on Default.
- The connection status of the quiz feed is never consulted.
- The cursor is not clamped. A selection change may put it past the end of
  the text, and only JavaScript's clamping `slice` keeps the edits
  well-defined.
- Letter keys have no long-press behaviour: there are no alternate glyphs,
  no popover and no long-press timer. Only backspace has a timer, the
  hold-to-clear one.

## Model

| member | source | states |
|---|---|---|
| JsSlice.Slice | app/src/components/TextInput.tsx:185 | within bounds `slice(i, j)` is the subsequence `[i, j)`; with only the end past the length it is the suffix from `i`; with `j <= i` it is empty; its length is always that of the clamped range |
| JsSlice.SliceFrom | app/src/components/TextInput.tsx:168 | `slice(i)` is the suffix from `i`, empty when `i` is past the end |
| TextInputModel.Initial | app/src/components/TextInput.tsx:25-26 | a mounted component has cursor 0, an empty timer slot, no pending timer, and consistent timer bookkeeping |
| TextInputModel.InsertAt | app/src/components/TextInput.tsx:184-186 | for an in-range cursor the glyph is spliced in at the cursor (length + 1, glyph at the cursor); past the end it is appended; the cursor becomes cursor + 1 |
| TextInputModel.DeleteBefore | app/src/components/TextInput.tsx:166-169 | there is an edit iff the cursor is positive; for an in-range cursor it is `value[..c-1] + value[c..]` (length - 1) with cursor c - 1; for a cursor past the end the text is kept unchanged (and so republished) and the cursor moves back by one |
| TextInputModel.KeyPress | app/src/components/TextInput.tsx:161-201 | a key press never touches the timer or `disabled`; it either changes nothing or, enabled, publishes exactly the new text once |
| TextInputModel.ClearAll | app/src/components/TextInput.tsx:203-217 | disabled: nothing changes; enabled: text "" and cursor 0, "" published once; the timer is untouched |
| TextInputModel.BackspacePressIn | app/src/components/TextInput.tsx:219-226 | text, cursor and published texts are untouched; disabled: nothing changes; enabled: a new handle is issued, slotted and pending, with the old pending timers kept |
| TextInputModel.CancelSlot | app/src/components/TextInput.tsx:228-244 | the slot ends empty; only the timer that was in the slot leaves the pending set; text, cursor and published texts are untouched |
| TextInputModel.TimerFire | app/src/components/TextInput.tsx:223-225 | timer `h` is no longer pending and the slot is kept; a timer that is not pending does nothing; a pending one does what clear-all does |
| TextInputModel.TextInputPress | app/src/components/TextInput.tsx:246-259 | only the cursor may change; it becomes the text length iff enabled and the event has a target |
| TextInputModel.SelectionChange | app/src/components/TextInput.tsx:261-266 | only the cursor may change; it becomes `selection.start` iff enabled |
| TextInputModel.Step | app/src/components/TextInput.tsx:161-266 | each event only appends to the published texts, never reuses a timer id, and adds at most the one new handle to the pending timers |
| TextInputModel.Run | app/src/components/TextInput.tsx:161-266 | over any trace, the published texts of the start are a prefix of those at the end and timer ids only grow |
| TextInputModel.InsertGlyph | app/src/components/TextInput.tsx:184-190 | enabled, in-range cursor: text is `value[..c] + [k] + value[c..]`, length + 1, cursor c + 1 and still in range, the new text is published once, timer untouched |
| TextInputModel.BackspaceRemovesOne | app/src/components/TextInput.tsx:166-173 | enabled, 0 < c <= length: exactly the character before the cursor is removed (the characters before it kept, the ones after it shifted by one), cursor c - 1, new text published once |
| TextInputModel.BackspaceAtStart | app/src/components/TextInput.tsx:167 | backspace with cursor 0 leaves the whole state unchanged, so nothing is published |
| TextInputModel.InsertThenBackspace | app/src/components/TextInput.tsx:166-190 | insert then backspace restores text and cursor; two texts are published, the inserted one and then the original |
| TextInputModel.DisabledIsInert | app/src/components/TextInput.tsx:161-266 | while disabled, key press, clear-all, backspace press-in, field tap and selection change each leave the whole state unchanged |
| TextInputModel.CursorSetters | app/src/components/TextInput.tsx:246-266 | enabled: a tap with a target puts the cursor at the text length; one without a target changes nothing; a selection change sets the cursor to `selection.start`; neither changes the text |
| TextInputModel.StepKeeps | app/src/components/TextInput.tsx:161-266 | every event keeps the timer bookkeeping consistent; every event except a selection change past the end keeps the cursor in range |
| TextInputModel.RunKeepsCursorInRange | app/src/components/TextInput.tsx:161-266 | any event trace without selection changes keeps `0 <= cursor <= length` if it held at the start |
| TextInputModel.RunKeepsValid | app/src/components/TextInput.tsx:219-244 | any event trace keeps every pending and slotted handle older than the next one issued |
| TextInputModel.KeysKeepCursorInRange | app/src/components/TextInput.tsx:161-201 | any sequence of key presses from an in-range cursor leaves the cursor in range |
| TextInputModel.PressInArms | app/src/components/TextInput.tsx:219-226 | enabled press-in schedules a fresh timer, puts its handle in the slot, and leaves text, cursor and published texts alone |
| TextInputModel.FireClears | app/src/components/TextInput.tsx:223-225 | a pending timer firing on an enabled component empties the text, sets the cursor to 0, publishes "" once, retires the timer and leaves the slot as it was |
| TextInputModel.ReleaseCancels | app/src/components/TextInput.tsx:228-244 | press-out or unmount empties the slot and un-schedules its timer, so that timer firing later changes nothing; text and cursor are untouched |
| TextInputModel.PressThenRelease | app/src/components/TextInput.tsx:219-234 | press-in then press-out leaves the pending timers as before and the new timer's firing without effect |
| TextInputModel.OverwrittenTimerSurvives | app/src/components/TextInput.tsx:223 | a second press-in overwrites the slot without clearing the first timer: after a release the first timer is still pending and, firing, clears the text |
| TextInputModel.RetiredStaysRetired | app/src/components/TextInput.tsx:223-244 | a timer that has run or been cleared never runs in any later trace |
| TextInputModel.TimerRunsAtMostOnce | app/src/components/TextInput.tsx:223-244 | in any trace the callback of any timer runs at most once |
| TextInputModel.StepPendingCount | app/src/components/TextInput.tsx:219-244 | one event grows the pending timers by at most one (press-in) and a callback that runs shrinks them by one |
| TextInputModel.ClearsBoundedByPressIns | app/src/components/TextInput.tsx:219-244 | in any trace the clears performed by timers are at most the timers pending at the start plus the press-ins: one press-in causes at most one clear |
| TextInputModel.CatExample | app/src/components/TextInput.tsx:166-190 | "cat" at cursor 3: insert 'z' gives "catz"/4, backspace gives "cat"/3, three more give ""/0, and one more changes nothing |
| TextInput.CustomTextInput.constructor | app/src/components/TextInput.tsx:14-26 | the fields start in the initial state |
| TextInput.CustomTextInput.Publish | app/src/components/TextInput.tsx:172 | `onValueChange(text)` records the text and makes it the value; nothing else changes |
| TextInput.CustomTextInput.HandleKeyPress | app/src/components/TextInput.tsx:161-201 | the fields undergo exactly the key-press transition |
| TextInput.CustomTextInput.HandleClearAll | app/src/components/TextInput.tsx:203-217 | the fields undergo exactly the clear-all transition |
| TextInput.CustomTextInput.HandleBackspacePressIn | app/src/components/TextInput.tsx:219-226 | the fields undergo exactly the press-in transition |
| TextInput.CustomTextInput.ClearSlot | app/src/components/TextInput.tsx:230-233 | the slotted timer is cleared and the slot emptied, nothing else changes |
| TextInput.CustomTextInput.HandleBackspacePressOut | app/src/components/TextInput.tsx:228-234 | the fields undergo exactly the cancel-slot transition, not gated by `disabled` |
| TextInput.CustomTextInput.Unmount | app/src/components/TextInput.tsx:236-244 | the unmount cleanup performs the same cancel-slot transition |
| TextInput.CustomTextInput.TimerFired | app/src/components/TextInput.tsx:223-225 | the fields undergo exactly the timer-fire transition |
| TextInput.CustomTextInput.HandleTextInputPress | app/src/components/TextInput.tsx:246-259 | the fields undergo exactly the field-tap transition |
| TextInput.CustomTextInput.HandleSelectionChange | app/src/components/TextInput.tsx:261-266 | the fields undergo exactly the selection-change transition |
| TextInput.CustomTextInput.SetDisabled | app/src/components/TextInput.tsx:18 | a new `disabled` prop changes that field only |
| TextInput.CustomTextInput.Dispatch | app/src/components/TextInput.tsx:289-291 | dispatching an event performs its step of the trace semantics |
| TextInput.HoldToClearScenario | app/src/components/TextInput.tsx:219-244 | holding backspace on "cat" until the timer fires, then releasing, empties the text with exactly one published "" and leaves no timer pending |
| KeyboardRows.RowButtonCounts | app/src/components/TextInput.tsx:36-43 | the third row is narrower than the first and no wider than the second, so the key width taken from rows 1 and 2 fits it; the counts add up to 34 for 'uk' and 26 otherwise |
| KeyboardRows.GetKeyboardRows | app/src/components/TextInput.tsx:345-364 | the split always has four rows and the fourth is empty |
| KeyboardRows.RowsFollowButtonCounts | app/src/components/TextInput.tsx:36-39 | the slice bounds are the running sums of `row1ButtonCount`..`row3ButtonCount` (12/12/10 for 'uk', else 10/9/7) |
| KeyboardRows.RowsPartitionAlphabet | app/src/components/TextInput.tsx:345-364 | rows 1-3 read in turn are exactly the alphabet's prefix of 34 ('uk') or 26 letters (shorter if the alphabet is): contiguous and non-overlapping |
| KeyboardRows.RowLengthsMatchCounts | app/src/components/TextInput.tsx:36-39 | for an alphabet at least as long as the layout, each row has exactly its button count of letters |
| KeyboardRows.KeyPositions | app/src/components/TextInput.tsx:345-364 | the key at row r, column j is the alphabet letter at r's offset plus j |
| NavigationDecision.ResetUnlessOn | app/src/navigation/index.tsx:28-33 | a reset to the route is issued iff the current route is not already that route |
| NavigationDecision.Decide | app/src/navigation/index.tsx:21-94 | a refetch only with a complete snapshot; a soft navigate only ever targets Prepare |
| NavigationDecision.RouteAfter | app/src/navigation/index.tsx:29-41 | no call leaves the current route as it is; a `navigate` or `reset` makes its route current |
| NavigationDecision.MissingPrerequisite | app/src/navigation/index.tsx:22-23 | no call and no refetch unless the container is ready and both player record and quiz state are present |
| NavigationDecision.InactivePlayer | app/src/navigation/index.tsx:26-34 | an inactive player, in any phase: reset to Default iff not on Default, otherwise no call; never a refetch |
| NavigationDecision.PreparePhase | app/src/navigation/index.tsx:38-54 | QUESTION_PRE: soft navigate to Prepare iff not on Prepare, otherwise no call; never a reset or refetch |
| NavigationDecision.OpenPhase | app/src/navigation/index.tsx:56-72 | QUESTION_OPEN/BUYOUT_OPEN: reset to Question with the snapshot's tier and phase iff not on Question, otherwise no call; never a navigate or refetch |
| NavigationDecision.CompletionPhase | app/src/navigation/index.tsx:74-86 | IDLE/QUESTION_CLOSED/QUESTION_COMPLETE/BUYOUT_COMPLETE: always a refetch; reset to Default iff not on Default |
| NavigationDecision.UnlistedPhase | app/src/navigation/index.tsx:88-89 | any other phase: no call and no refetch |
| NavigationDecision.RefetchExactly | app/src/navigation/index.tsx:74-78 | a refetch happens iff the snapshot is complete, the player active and the phase a completion phase |
| NavigationDecision.AdminNeverTarget | app/src/navigation/index.tsx:26-89 | no call ever targets Admin |
| NavigationDecision.Idempotent | app/src/navigation/index.tsx:26-89 | deciding again on the same snapshot after applying its call gives no call and the same refetch |
| NavigationDecision.Routes | app/src/navigation/index.tsx:21-94 | a trace of snapshots yields one route per snapshot |
| NavigationDecision.Calls | app/src/navigation/index.tsx:21-94 | a trace of snapshots yields one call (possibly none) per snapshot |
| NavigationDecision.NeverReachesAdmin | app/src/navigation/index.tsx:26-89 | from any route but Admin, no trace of snapshots reaches Admin |
| NavigationDecision.RepeatedSnapshot | app/src/navigation/index.tsx:21-94 | the same quiz state delivered twice in a row issues no call the second time |
| NavigationDecision.RoundTrace | app/src/navigation/index.tsx:26-89 | active player, IDLE, QUESTION_PRE, QUESTION_OPEN, QUESTION_CLOSED, IDLE from Default: routes Default, Prepare, Question, Default, Default; calls none, navigate Prepare, reset Question, reset Default, none |
| AppNavigator.Navigator.constructor | app/src/navigation/index.tsx:15-16 | a new container is not ready, shows no route and has issued nothing |
| AppNavigator.Navigator.BecomeReady | app/src/navigation/index.tsx:99 | the ready container shows its initial route Default |
| AppNavigator.Navigator.Reset | app/src/navigation/index.tsx:29-32 | `reset` makes the given route current and is logged |
| AppNavigator.Navigator.Navigate | app/src/navigation/index.tsx:41 | `navigate` makes the given route current and is logged |
| AppNavigator.Navigator.OnSnapshot | app/src/navigation/index.tsx:21-94 | the effect applies exactly the decision: the route after its call, the call logged unless none, one more refetch iff it asks for one |
| AppNavigator.Navigator.RefetchAndGoHome | app/src/navigation/index.tsx:74-86 | the completion branch refetches once, then resets to Default unless already there |
| AppNavigator.RedeliveredRound | app/src/navigation/index.tsx:56-86 | QUESTION_OPEN then QUESTION_CLOSED twice from Default: two resets in all, back on Default, two refetches |

## Left out

- Layout and styling (`Dimensions`, button widths, `StyleSheet`): floating-point screen geometry with no logic to prove.
- Rendering (`renderKeyButton`, the memoised keyboard, the `NavigationContainer`/`Stack.Screen` tree) and the event order `TouchableOpacity` delivers (for example the `onPress` that follows a long hold of backspace): these are framework behaviour.
- `setNativeProps`, `focus()` and the `requestAnimationFrame` deferral of `handleKeyPress`: platform calls. Edits are treated as synchronous.
- Stale closures of React hooks: every handler reads the current state, including the clear-all that a timer runs.
- Real time: the 1000 ms delay of hold-to-clear is not modelled. A timer's expiry is the event `Fire(h)`, which may come at any point of a trace.
- Events after unmount: the model does not track mounting, so a leaked timer may still clear the text after unmount, as `onValueChange` would be called.
- Multi-character keys: `handleKeyPress` advances the cursor by one whatever the key's length, so keys are single glyphs here.
- Loading the alphabet through i18n: the alphabet is an input sequence of glyphs.
- `usePlayerState`, `useWebSocketContext` and `refetchPlayer`: foreign. A refetch is a counter.
- `console.log`; the `Date.now()` timestamp in the Question reset parameters; the `index: 2` of that reset. A reset simply makes its one route current.
- The navigation stack below the current route.
- When the effect runs: React runs it only when `quizState` or `playerData` change identity. It does not run when the container becomes ready or the route changes. A new `playerData` returned after `refetchPlayer()` runs it again. `Navigator.OnSnapshot` instead runs once per delivered snapshot, and a refetch never changes the player record. `RepeatedSnapshot` and `RedeliveredRound` therefore treat each delivery as a new object (which is what the feed sends). Their refetch count does not include the extra run a refetched record would cause.
- Character counting: JavaScript's `length` and `slice` count UTF-16 code units, while a Dafny `string` counts Unicode scalar values. The two agree for the keyboard's glyphs, which all lie in the Basic Multilingual Plane. Text containing characters outside it (pasted emoji, say) would be counted differently.
- A player record whose `isActive` is neither true nor false: it is typed boolean, and the effect would do nothing for it.
- app/src/screens/DefaultScreen.tsx: screen rendering and a memo that navigation does not use.
- Long-press alternates, the glyph popover, fade animations and latest-snapshot-wins scheduling: there is no code for them in the files modelled.
- NavigationDecision.Routes: its contract says only that there is one route per snapshot. What the routes are is stated by NeverReachesAdmin and RoundTrace.
- NavigationDecision.Calls: its contract says only that there is one call per snapshot. What the calls are is stated by RepeatedSnapshot and RoundTrace.
