# GcSwEmulator word sequencer in Dafny

GcSwEmulator receives "words" describing what a mouse or a keyboard should be
doing during a time slice, and replays them through an input injector
(robotgo). Each device has its own goroutine that reads decoded words from a
channel. This project models those two goroutines of `gc_sw_emulator.go`.

- **Mouse sequencer.** It keeps the previous button mask `tPrevBtn`. For each
  word it ORs `0x01 << uint(id)` over the word's button ids and XORs the result
  with the previous mask. For each of left, right and center whose bit changed
  it calls `MouseToggle(tBtnToggle[latest & mask], tBtnName[i])`. It moves the
  pointer by a non-zero relative motion, stores the new mask, and sleeps for
  the word's hold time when that is positive. It is modelled as:
  - the class `Mouse.Sequencer`, with fields `prevBtn`, `x`, `y` and an event
    log `log`;
  - methods whose loops mirror the Go loops and are proved against the pure
    specification `Mouse.Step` / `Mouse.RunWords`.
- **Keyboard translation.** Each key name is looked up in `MAP_KEY`. The
  word's modifier ids index `["control", "shift", "alt"]`. Every key the table
  knows is tapped once, in order, and carries the modifier list only when that
  list is non-empty. Then the goroutine sleeps for the hold time. It is
  modelled as pure functions (`Keyboard.MapKey`, `Keyboard.ModifierNames`,
  `Keyboard.KeyTaps`, `Keyboard.Translate`) and loop methods proved equal to
  them.

Files:
- `words.dfy` holds the decoded word records and `Option`.
- `masks.dfy` holds the button mask. It is a Go `int` used as a bit set, and is
  modelled as the set of positions of its 1 bits.
- `mouse.dfy` holds the pointer goroutine.
- `keyboard.dfy` holds the keyboard goroutine.

Calls into the injector become events in a log:
- `Toggle(dir, button)`, `MoveTo(x, y)` and `Delay(frames)` on the mouse side;
- `Tap(key)`, `TapWith(key, mods)` and `Delay(frames)` on the keyboard side.

A Go runtime panic becomes an explicit outcome. An index out of range in
`tBtnToggle` or `tModName` is not recovered anywhere, so it ends the whole
process and both devices stop. In the model, each device's run stops at its
own panic and no later word of that device is processed.

What the code does, and the model with it:
- Toggles are emitted in button order left, right, center.
- Held buttons are never released automatically when no word arrives.
- The keyboard goroutine keeps no key state between words. It only taps keys.
- The toggle direction is read by indexing with the masked bit value (see
  Findings).

## Model

| member | source | states |
|---|---|---|
| ButtonMasks.Bit | gc_sw_emulator.go:189 | `0x01 << uint(id)` on a 64-bit int sets bit id exactly when 0 <= id < 64, and sets no bit other than id |
| ButtonMasks.MaskedValue | gc_sw_emulator.go:193-195 | `tLatestBtn & tBtnMask` is zero exactly when bit i is clear, and is 2^i when it is set |
| ButtonMasks.LatestMask | gc_sw_emulator.go:187-190 | the word's mask; its meaning is stated by `ButtonMasks.LatestMaskBits` |
| ButtonMasks.Xor | gc_sw_emulator.go:191 | `tPrevBtn ^ tLatestBtn` holds exactly the bits set in one mask but not the other |
| ButtonMasks.LatestMaskBits | gc_sw_emulator.go:187-190 | bit i of the word's mask is set iff i is among the word's ids and 0 <= i < 64 |
| ButtonMasks.LatestMaskIgnoresOrder | gc_sw_emulator.go:187-190 | two id lists with the same members give the same mask, so order and duplicates do not matter |
| Mouse.ToggleName | gc_sw_emulator.go:195 | the direction read from `tBtnToggle`, or a panic; its meaning is stated by `Mouse.ToggleNameCases` |
| Mouse.TogglesUpTo | gc_sw_emulator.go:192-197 | the diff loop as written over the first n buttons; its meaning is stated by `Mouse.TogglesFollowIntended` |
| Mouse.Toggles | gc_sw_emulator.go:192-197 | the whole diff loop as written; its meaning is stated by `Mouse.TogglesPanicIff` |
| Mouse.ToggleNameCases | gc_sw_emulator.go:182-195 | the toggle-array index reads "up" for every release and "down" for a left press, and is out of range for a right or center press |
| Mouse.PanicPersists | gc_sw_emulator.go:192-197 | once the diff loop has panicked, the remaining buttons add nothing |
| Mouse.IntendedTogglesExact | gc_sw_emulator.go:191-197 | the intended diff has one toggle for button i exactly when bit i changed, and no toggle for a button whose bit did not change; each toggle carries the button's new direction, and the buttons come in strictly increasing order left, right, center |
| Mouse.TogglesFollowIntended | gc_sw_emulator.go:192-197 | after n buttons the loop as written has emitted a prefix of the intended toggles, all of them unless it panicked; it panics iff right or center is among the first n and is being pressed |
| Mouse.TogglesPanicIff | gc_sw_emulator.go:182-197 | the whole diff panics iff the word presses right or center; otherwise it emits exactly the intended toggles |
| Mouse.UnchangedMaskNoToggles | gc_sw_emulator.go:191-197 | diffing a mask against itself emits nothing and cannot panic |
| Mouse.IntendedTogglesTrackHeld | gc_sw_emulator.go:191-204 | from an injector that holds the previous mask's buttons, the intended toggles leave it holding exactly the latest mask's buttons |
| Mouse.Step | gc_sw_emulator.go:185-208 | one pass of the loop body as written; its meaning is stated by `Mouse.StepMeaning` |
| Mouse.StepMeaning | gc_sw_emulator.go:185-208 | one word panics iff it presses right or center, and a panic leaves the state as it was; otherwise the word toggles exactly the changed buttons, emits a move to the old position plus the motion iff the motion is non-zero, stores its own mask and emits a delay iff its hold time is positive |
| Mouse.IntendedStep | gc_sw_emulator.go:185-208 | the loop body with the direction read as a flag never panics |
| Mouse.StepAgreesWithIntended | gc_sw_emulator.go:185-208 | whenever the code as written survives a word, it does exactly what the intended step does |
| Mouse.IntendedStepTracksHeld | gc_sw_emulator.go:191-204 | with the intended step, after any word the injector holds exactly that word's buttons and the stored mask is that word's mask, whatever came before |
| Mouse.RunWords | gc_sw_emulator.go:184-209 | the receive loop over a sequence of words; its properties are stated by `Mouse.PanicEndsRun`, `Mouse.RunTracksHeld` and `Mouse.RunMovesBySum` |
| Mouse.PanicEndsRun | gc_sw_emulator.go:184-209 | after a panic, later words change neither the state nor the events |
| Mouse.StepTracksHeld | gc_sw_emulator.go:191-204 | a word that does not panic leaves the injector holding exactly the buttons of the newly stored mask |
| Mouse.RunTracksHeld | gc_sw_emulator.go:184-209 | over any run of words without a panic, the injector holds exactly the buttons of the stored mask |
| Mouse.RunMovesBySum | gc_sw_emulator.go:198-203 | over a run without a panic, the pointer ends at the start plus the sum of all motions, whatever the buttons do |
| Mouse.RepeatedWordToggles | gc_sw_emulator.go:191-204 | a word repeated right after itself does not panic and emits no toggle the second time |
| Mouse.RightPressPanics | gc_sw_emulator.go:182-195 | holding left and then adding right emits only the left press, stores only left, and panics |
| Mouse.BuildMask | gc_sw_emulator.go:187-190 | the OR loop over the ids computes the word's mask |
| Mouse.Sequencer.constructor | gc_sw_emulator.go:181 | the sequencer starts with no buttons held, at the given pointer position, with an empty log |
| Mouse.Sequencer.EmitToggles | gc_sw_emulator.go:191-197 | the diff loop appends the toggles of the diff as written, and reports whether it panicked |
| Mouse.Sequencer.ProcessWord | gc_sw_emulator.go:185-208 | one pass of the loop body moves the state and appends to the log exactly as one step of the specification, and reports a panic exactly when the step panics |
| Mouse.Sequencer.Run | gc_sw_emulator.go:184-209 | the receive loop over the words gives the state, the log and the panic flag of the specification's run |
| Keyboard.MapKey | gc_sw_emulator.go:99-158 | the `MAP_KEY` lookup, with "" for a missing name; its entries are stated by the lemmas below |
| Keyboard.LettersAndDigitsMapToThemselves | gc_sw_emulator.go:100-135 | every single lower-case letter and digit is in `MAP_KEY` and maps to itself |
| Keyboard.UpperCaseLettersUnknown | gc_sw_emulator.go:99-158 | names are case-sensitive: no single upper-case letter is in the table |
| Keyboard.FunctionKeyExamples | gc_sw_emulator.go:136-147 | F1, F10 and F12 map to their lower-case symbols |
| Keyboard.NamedKeyExamples | gc_sw_emulator.go:148-150 | Escape, Space and Tab map to their lower-case names |
| Keyboard.EditingKeyExamples | gc_sw_emulator.go:151-153 | Enter, Backspace and Delete map to their lower-case names |
| Keyboard.VerticalArrowExamples | gc_sw_emulator.go:154-155 | ArrowUp and ArrowDown map to "up" and "down" |
| Keyboard.HorizontalArrowExamples | gc_sw_emulator.go:156-157 | ArrowRight and ArrowLeft map to "right" and "left" |
| Keyboard.UnknownNameExamples | gc_sw_emulator.go:236 | names missing from the table, such as "f1", "Shift" and "§", read as the empty string |
| Keyboard.ModifierNames | gc_sw_emulator.go:215-234 | the modifier list fails iff some id is outside 0..2; otherwise it has one entry per id, in `Mod` order, naming control, shift or alt |
| Keyboard.KeyTaps | gc_sw_emulator.go:235-243 | the tap loop over the word's key names; its meaning is stated by `Keyboard.KeyTapsAreRecognised` |
| Keyboard.KeyTapsAreRecognised | gc_sw_emulator.go:235-243 | the taps are the recognised symbols one for one and in order, each carrying the modifiers exactly when the list is non-empty |
| Keyboard.RecognisedConcat | gc_sw_emulator.go:235-243 | names are recognised one at a time, so the symbols of a concatenation are the concatenation of the symbols |
| Keyboard.RecognisedNoLonger | gc_sw_emulator.go:235-243 | there are no more recognised symbols than key names |
| Keyboard.RecognisedFromNames | gc_sw_emulator.go:236 | every tapped symbol is non-empty and is the table's symbol for one of the word's names |
| Keyboard.UnknownNamesIgnored | gc_sw_emulator.go:236 | a word whose names are all unknown taps nothing |
| Keyboard.RecognisedDropsUnknown | gc_sw_emulator.go:235-243 | the recognised symbols are the table's symbol for every key name, in order, with the empty results of unknown names dropped |
| Keyboard.KnownNamesKept | gc_sw_emulator.go:235-243 | when every name is known, each name gives its own symbol in its own place |
| Keyboard.Translate | gc_sw_emulator.go:231-247 | one pass of the loop body; its meaning is stated by `Keyboard.TranslateMeaning` |
| Keyboard.TranslateMeaning | gc_sw_emulator.go:231-247 | a word fails iff a modifier id is out of range; otherwise it taps each recognised key in order with the word's modifiers, and ends with a delay iff its hold time is positive |
| Keyboard.UnknownNameSkipped | gc_sw_emulator.go:235-247 | the word `{key: ["§", "a"], mod: [], dur: 5}` taps only "a" without modifiers, then delays 5 frames |
| Keyboard.NoneExtends | gc_sw_emulator.go:232-234 | an out-of-range modifier id anywhere makes the whole word fail |
| Keyboard.RunWords | gc_sw_emulator.go:216-248 | the receive loop over a sequence of words; its meaning is stated by `Keyboard.RunWordsConcat` and `Keyboard.Run` |
| Keyboard.RunWordsConcat | gc_sw_emulator.go:216-248 | the keyboard loop keeps no state between words: two batches run back to back give the first batch's events followed by the second's, unless the first panicked |
| Keyboard.BuildModifiers | gc_sw_emulator.go:231-234 | the append loop computes the modifier list, or fails on an out-of-range id |
| Keyboard.TapKeys | gc_sw_emulator.go:235-243 | the tap loop computes the taps of the word's keys |
| Keyboard.TranslateWord | gc_sw_emulator.go:231-247 | one pass of the loop body gives the word's translation |
| Keyboard.Run | gc_sw_emulator.go:216-248 | the receive loop over the words gives the events and the panic flag of the specification's run |

## Left out

- MQTT client (gc_sw_emulator.go:32-92): connecting, subscribing, splitting topics and stopping are network I/O through a library that is not part of this model.
- JSON decoding of payloads (gc_sw_emulator.go:69, 77): a foreign library. The model starts from decoded words.
- Channels and goroutines (gc_sw_emulator.go:177-178, 180, 212): each device's channel is a sequence of words, processed in order. The two goroutines share no state, so they are modelled separately.
- Process-wide stop on a panic: an index panic in either goroutine (:195 in the pointer goroutine started at :180, :233 in the keyboard goroutine started at :212) ends the whole process and so stops the other device too. The model stops only the device that panicked; the other device's run is unaffected.
- Delay length: `float32(Dur) * FRAME_CYCLE_MS` milliseconds and `time.Sleep` are float arithmetic and real time. The model records `Delay(Dur)` only.
- robotgo: `MouseToggle`, `MoveMouse` and `KeyTap` become logged events. `GetMousePos` is replaced by the position the sequencer keeps, so a pointer moved by anything else is not modelled.
- Process wiring: flag parsing, printing, signal handling and shutdown (gc_sw_emulator.go:163-176, 251-261).
- The first key loop (gc_sw_emulator.go:220-229) uses `tMod` before it is declared at :231, so the file does not compile as written. The model covers the path that follows the declaration (:231-247). `tPrevKey` and `tPrevMod` (:213-214) are never used.
- Mouse.Sequencer.ProcessWord: the pointer coordinates are unbounded integers; 64-bit wrap-around of `tX + Mov[0]` is not modelled.
- ButtonMasks.LatestMaskBits: the mask is the set of its 1 bits rather than a 64-bit integer. Every id is allowed: an id outside 0..63, negative ones included, shifts the bit out, as `0x01 << uint(id)` does on a 64-bit int. No precondition restricts the ids.
- Keyboard.MapKey: the `MAP_KEY` map literal is written as a match over the same 58 name/symbol pairs. There is no single lemma over all entries. The single letters and digits are covered for every character; the function keys, named keys and arrows only by example.

## Findings

| source | as written | input that shows it | evidently intended | confidence | as-written member | corrected member |
|---|---|---|---|---|---|---|
| gc_sw_emulator.go:182-195 | `tBtnToggle[tLatestBtn&tBtnMask]` indexes the two-element direction array with the masked bit value, which is 2 for right and 4 for center | hold left with `{btn: [0]}`, then send `{btn: [0, 1]}`: left is toggled down, then indexing with 2 panics and right is never pressed | the direction is "down" when `tLatestBtn&tBtnMask != 0` and "up" otherwise | high, not executed | Mouse.RightPressPanics | Mouse.IntendedStepTracksHeld |

`Mouse.Sequencer` and `Mouse.Step` keep the behaviour as written, panic
included. The intended diff is `Mouse.IntendedToggles`, and `Mouse.IntendedStep`
is the corrected loop body. `Mouse.StepAgreesWithIntended` shows that the two
coincide on every word the code as written survives. The held-button
invariant `Mouse.RunTracksHeld` is proved through that agreement.
