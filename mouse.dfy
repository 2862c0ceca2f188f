/**
 * The pointer sequencer: the goroutine of gc_sw_emulator.go that receives
 * mouse words, diffs each word's button mask against the previous one,
 * toggles the buttons that changed, moves the pointer by the word's
 * relative motion and then waits for the word's hold time.
 *
 * The injector (robotgo) is replaced by a log of the calls made to it, and
 * the pointer position it would report is part of the sequencer's state.
 */
module Mouse {
  import opened Words
  import opened ButtonMasks

  /** `tBtnToggle`: toggle directions, indexed by the masked button value. */
  const ToggleNames: seq<string> := ["up", "down"]

  /** `tBtnName`: the buttons driven, in the order the diff loop visits them. */
  const ButtonNames: seq<string> := ["left", "right", "center"]

  /** A call the sequencer makes into the input injector. */
  datatype MouseEvent =
    | Toggle(dir: string, button: string)  // MouseToggle(dir, button)
    | MoveTo(x: int, y: int)               // MoveMouse(x, y)
    | Delay(frames: int)                   // sleep for `frames` display frames

  // ---------------------------------------------------------------------
  // The diff loop as written

  /** `tBtnChange & tBtnMask > 0`: bit i differs between the two masks. */
  predicate Changed(prev: Mask, latest: Mask, i: int)
  {
    i in Xor(prev, latest)
  }

  /** Button i goes from up to down. */
  predicate Pressed(prev: Mask, latest: Mask, i: int)
  {
    i !in prev && i in latest
  }

  /**
   * `tBtnToggle[tLatestBtn & tBtnMask]` for button i: None when the index
   * lies past the two-element array, where Go panics.
   */
  function ToggleName(latest: Mask, i: nat): Option<string>
  {
    var index := MaskedValue(latest, i);
    if index < |ToggleNames| then Some(ToggleNames[index]) else None
  }

  /**
   * The index the source computes: a release always reads "up", a change on
   * the left button reads "down" when pressed, and a press of the right or
   * center button indexes past the array.
   */
  lemma ToggleNameCases(latest: Mask, i: nat)
    ensures i !in latest ==> ToggleName(latest, i) == Some("up")
    ensures i in latest && i == 0 ==> ToggleName(latest, i) == Some("down")
    ensures i in latest && i != 0 ==> ToggleName(latest, i) == None
  {
  }

  /** Toggles the diff loop emits, and whether it panicked on the way. */
  datatype ToggleRun = ToggleRun(events: seq<MouseEvent>, panicked: bool)

  /** The diff loop over the first n buttons; it stops at the first panic. */
  function TogglesUpTo(prev: Mask, latest: Mask, n: nat): ToggleRun
    requires n <= ButtonCount
  {
    if n == 0 then ToggleRun([], false)
    else
      var r := TogglesUpTo(prev, latest, n - 1);
      if r.panicked || !Changed(prev, latest, n - 1) then r
      else match ToggleName(latest, n - 1)
        case Some(dir) => ToggleRun(r.events + [Toggle(dir, ButtonNames[n - 1])], false)
        case None => ToggleRun(r.events, true)
  }

  function Toggles(prev: Mask, latest: Mask): ToggleRun
  {
    TogglesUpTo(prev, latest, ButtonCount)
  }

  /** Once the loop has panicked, the later buttons change nothing. */
  lemma {:induction false} PanicPersists(prev: Mask, latest: Mask, k: nat, n: nat)
    requires k <= n <= ButtonCount
    requires TogglesUpTo(prev, latest, k).panicked
    ensures TogglesUpTo(prev, latest, n) == TogglesUpTo(prev, latest, k)
  {
    if n > k {
      PanicPersists(prev, latest, k, n - 1);
    }
  }

  // ---------------------------------------------------------------------
  // The diff the loop is evidently meant to compute

  /** The toggle for button i with the direction read as a flag: "down" iff now held. */
  function IntendedToggle(latest: Mask, i: nat): MouseEvent
    requires i < ButtonCount
  {
    Toggle(if i in latest then "down" else "up", ButtonNames[i])
  }

  /** Position of a button name in `tBtnName`; 3 for any other string. */
  function ButtonIndex(name: string): nat
  {
    if name == ButtonNames[0] then 0
    else if name == ButtonNames[1] then 1
    else if name == ButtonNames[2] then 2
    else 3
  }

  /** Button i's intended toggle if its bit changed, nothing otherwise. */
  function IntendedButtonToggle(prev: Mask, latest: Mask, i: nat): seq<MouseEvent>
    requires i < ButtonCount
  {
    if Changed(prev, latest, i) then [IntendedToggle(latest, i)] else []
  }

  /** The intended toggles for the first n buttons, in button order. */
  function IntendedTogglesUpTo(prev: Mask, latest: Mask, n: nat): seq<MouseEvent>
    requires n <= ButtonCount
  {
    if n == 0 then []
    else IntendedTogglesUpTo(prev, latest, n - 1) + IntendedButtonToggle(prev, latest, n - 1)
  }

  /** The intended toggle of button i is among the first n buttons' toggles iff bit i changed. */
  lemma {:induction false} IntendedTogglesMembership(prev: Mask, latest: Mask, n: nat)
    requires n <= ButtonCount
    ensures forall i :: 0 <= i < n ==>
      (IntendedToggle(latest, i) in IntendedTogglesUpTo(prev, latest, n) <==> Changed(prev, latest, i))
  {
    if n > 0 {
      IntendedTogglesMembership(prev, latest, n - 1);
      var init := IntendedTogglesUpTo(prev, latest, n - 1);
      var last := IntendedButtonToggle(prev, latest, n - 1);
      assert IntendedTogglesUpTo(prev, latest, n) == init + last;
      forall i | 0 <= i < n
        ensures IntendedToggle(latest, i) in init + last <==> Changed(prev, latest, i)
      {
        if i < n - 1 {
          assert IntendedToggle(latest, i) !in last;
        } else {
          IntendedTogglesOnlyChanged(prev, latest, n - 1);
          assert IntendedToggle(latest, i) !in init;
        }
      }
    }
  }

  /** The first n buttons' toggles are in strictly increasing button order. */
  lemma {:induction false} IntendedTogglesOrdered(prev: Mask, latest: Mask, n: nat)
    requires n <= ButtonCount
    ensures forall j, k :: 0 <= j < k < |IntendedTogglesUpTo(prev, latest, n)| ==>
      && IntendedTogglesUpTo(prev, latest, n)[j].Toggle?
      && IntendedTogglesUpTo(prev, latest, n)[k].Toggle?
      && ButtonIndex(IntendedTogglesUpTo(prev, latest, n)[j].button)
         < ButtonIndex(IntendedTogglesUpTo(prev, latest, n)[k].button)
  {
    if n > 0 {
      IntendedTogglesOrdered(prev, latest, n - 1);
      IntendedTogglesOnlyChanged(prev, latest, n - 1);
      var init := IntendedTogglesUpTo(prev, latest, n - 1);
      var last := IntendedButtonToggle(prev, latest, n - 1);
      var r := IntendedTogglesUpTo(prev, latest, n);
      assert r == init + last;
      assert ButtonIndex(ButtonNames[n - 1]) == n - 1;
      forall j, k | 0 <= j < k < |r|
        ensures r[j].Toggle? && r[k].Toggle? && ButtonIndex(r[j].button) < ButtonIndex(r[k].button)
      {
        assert r[j] == init[j];
        if k < |init| {
          assert r[k] == init[k];
          assert ButtonIndex(init[j].button) < ButtonIndex(init[k].button);
        } else {
          assert r[k] == last[0] == IntendedToggle(latest, n - 1);
          assert ButtonIndex(init[j].button) < n - 1;
          assert ButtonIndex(last[0].button) == n - 1;
        }
      }
    } else {
      assert IntendedTogglesUpTo(prev, latest, n) == [];
    }
  }

  /** Every intended toggle among the first n buttons is for a changed button. */
  lemma {:induction false} IntendedTogglesOnlyChanged(prev: Mask, latest: Mask, n: nat)
    requires n <= ButtonCount
    ensures forall k :: 0 <= k < |IntendedTogglesUpTo(prev, latest, n)| ==>
      var e := IntendedTogglesUpTo(prev, latest, n)[k];
      && e.Toggle?
      && ButtonIndex(e.button) < n
      && Changed(prev, latest, ButtonIndex(e.button))
      && e == IntendedToggle(latest, ButtonIndex(e.button))
  {
    if n > 0 {
      IntendedTogglesOnlyChanged(prev, latest, n - 1);
      var init := IntendedTogglesUpTo(prev, latest, n - 1);
      var last := IntendedButtonToggle(prev, latest, n - 1);
      assert IntendedTogglesUpTo(prev, latest, n) == init + last;
      assert ButtonIndex(ButtonNames[n - 1]) == n - 1;
      forall k | 0 <= k < |init + last|
        ensures var e: MouseEvent := (init + last)[k];
          && e.Toggle?
          && ButtonIndex(e.button) < n
          && Changed(prev, latest, ButtonIndex(e.button))
          && e == IntendedToggle(latest, ButtonIndex(e.button))
      {
        if k < |init| {
          assert (init + last)[k] == init[k];
        }
      }
    }
  }

  /**
   * One toggle per button among the first n whose bit changed, with the
   * direction the button now has, in the order left, right, center; no
   * toggle for a button whose bit did not change.
   */
  lemma IntendedTogglesExact(prev: Mask, latest: Mask, n: nat)
    requires n <= ButtonCount
    ensures var r := IntendedTogglesUpTo(prev, latest, n);
      && (forall i :: 0 <= i < n ==> (IntendedToggle(latest, i) in r <==> Changed(prev, latest, i)))
      && (forall k :: 0 <= k < |r| ==> r[k].Toggle? && ButtonIndex(r[k].button) < n)
      && (forall j, k :: 0 <= j < k < |r| ==> ButtonIndex(r[j].button) < ButtonIndex(r[k].button))
    ensures forall k :: 0 <= k < |IntendedTogglesUpTo(prev, latest, n)| ==>
      var e := IntendedTogglesUpTo(prev, latest, n)[k];
      && e.Toggle?
      && Changed(prev, latest, ButtonIndex(e.button))
      && e == IntendedToggle(latest, ButtonIndex(e.button))
  {
    IntendedTogglesMembership(prev, latest, n);
    IntendedTogglesOrdered(prev, latest, n);
    IntendedTogglesOnlyChanged(prev, latest, n);
  }

  function IntendedToggles(prev: Mask, latest: Mask): seq<MouseEvent>
  {
    IntendedTogglesUpTo(prev, latest, ButtonCount)
  }

  /**
   * The loop as written emits a prefix of the intended toggles, all of them
   * unless it panics, and it panics exactly when one of the first n buttons
   * other than left is pressed.
   */
  lemma {:induction false} TogglesFollowIntended(prev: Mask, latest: Mask, n: nat)
    requires n <= ButtonCount
    ensures TogglesUpTo(prev, latest, n).events <= IntendedTogglesUpTo(prev, latest, n)
    ensures !TogglesUpTo(prev, latest, n).panicked ==>
      TogglesUpTo(prev, latest, n).events == IntendedTogglesUpTo(prev, latest, n)
    ensures TogglesUpTo(prev, latest, n).panicked <==>
      (1 < n && Pressed(prev, latest, 1)) || (2 < n && Pressed(prev, latest, 2))
  {
    if n > 0 {
      TogglesFollowIntended(prev, latest, n - 1);
      ToggleNameCases(latest, n - 1);
    }
  }

  /** The as-written diff panics exactly on a press of the right or center button. */
  lemma TogglesPanicIff(prev: Mask, latest: Mask)
    ensures Toggles(prev, latest).panicked <==> Pressed(prev, latest, 1) || Pressed(prev, latest, 2)
    ensures Toggles(prev, latest).events <= IntendedToggles(prev, latest)
    ensures !Toggles(prev, latest).panicked ==> Toggles(prev, latest).events == IntendedToggles(prev, latest)
  {
    TogglesFollowIntended(prev, latest, ButtonCount);
  }

  /** A word whose mask equals the previous one toggles nothing. */
  lemma {:induction false} UnchangedMaskNoToggles(m: Mask, n: nat)
    requires n <= ButtonCount
    ensures TogglesUpTo(m, m, n) == ToggleRun([], false)
  {
    if n > 0 {
      UnchangedMaskNoToggles(m, n - 1);
    }
  }

  // ---------------------------------------------------------------------
  // The buttons the injector holds

  /** Button i's name if mask m holds it. */
  function HeldButton(m: Mask, i: nat): set<string>
    requires i < ButtonCount
  {
    if i in m then {ButtonNames[i]} else {}
  }

  /** The buttons held down once the injector has been sent mask m. */
  function Held(m: Mask): set<string>
  {
    HeldButton(m, 0) + HeldButton(m, 1) + HeldButton(m, 2)
  }

  /** The buttons the injector holds after these calls, starting from held. */
  function Apply(held: set<string>, events: seq<MouseEvent>): set<string>
  {
    if events == [] then held
    else
      var h := Apply(held, events[..|events| - 1]);
      match events[|events| - 1]
      case Toggle(dir, button) => if dir == "down" then h + {button} else h - {button}
      case _ => h
  }

  lemma {:induction false} ApplyConcat(held: set<string>, a: seq<MouseEvent>, b: seq<MouseEvent>)
    ensures Apply(held, a + b) == Apply(Apply(held, a), b)
  {
    if b != [] {
      var init := b[..|b| - 1];
      assert (a + b)[..|a + b| - 1] == a + init;
      assert (a + b)[|a + b| - 1] == b[|b| - 1];
      ApplyConcat(held, a, init);
    } else {
      assert a + b == a;
    }
  }

  /** The intended toggle of one button, if any, sets that button to the latest mask. */
  lemma ApplyIntendedButton(h: set<string>, prev: Mask, latest: Mask, i: nat)
    requires i < ButtonCount
    requires ButtonNames[i] in h <==> i in prev
    ensures Apply(h, IntendedButtonToggle(prev, latest, i)) == (h - {ButtonNames[i]}) + HeldButton(latest, i)
  {
    var t := IntendedButtonToggle(prev, latest, i);
    if t != [] {
      assert t[..0] == [];
    }
  }

  /** Setting each button in turn to the latest mask rebuilds the latest mask's held set. */
  lemma HeldRebuilt(prev: Mask, latest: Mask)
    ensures var h1 := (Held(prev) - {ButtonNames[0]}) + HeldButton(latest, 0);
      var h2 := (h1 - {ButtonNames[1]}) + HeldButton(latest, 1);
      && (ButtonNames[1] in h1 <==> 1 in prev)
      && (ButtonNames[2] in h2 <==> 2 in prev)
      && (h2 - {ButtonNames[2]}) + HeldButton(latest, 2) == Held(latest)
  {
  }

  /**
   * Sending the intended toggles to an injector that holds the previous
   * mask's buttons leaves it holding exactly the latest mask's buttons.
   */
  lemma IntendedTogglesTrackHeld(prev: Mask, latest: Mask)
    ensures Apply(Held(prev), IntendedToggles(prev, latest)) == Held(latest)
  {
    var t0 := IntendedButtonToggle(prev, latest, 0);
    var t1 := IntendedButtonToggle(prev, latest, 1);
    var t2 := IntendedButtonToggle(prev, latest, 2);
    assert IntendedTogglesUpTo(prev, latest, 1) == [] + t0 == t0;
    assert IntendedTogglesUpTo(prev, latest, 2) == t0 + t1;
    assert IntendedToggles(prev, latest) == t0 + t1 + t2;
    ApplyConcat(Held(prev), t0 + t1, t2);
    ApplyConcat(Held(prev), t0, t1);
    HeldRebuilt(prev, latest);
    var h1 := (Held(prev) - {ButtonNames[0]}) + HeldButton(latest, 0);
    var h2 := (h1 - {ButtonNames[1]}) + HeldButton(latest, 1);
    ApplyIntendedButton(Held(prev), prev, latest, 0);
    ApplyIntendedButton(h1, prev, latest, 1);
    ApplyIntendedButton(h2, prev, latest, 2);
  }

  /** Moves and delays leave the held buttons alone. */
  lemma {:induction false} ApplySkipsNonToggles(h: set<string>, events: seq<MouseEvent>)
    requires forall k :: 0 <= k < |events| ==> !events[k].Toggle?
    ensures Apply(h, events) == h
  {
    if events != [] {
      ApplySkipsNonToggles(h, events[..|events| - 1]);
    }
  }

  // ---------------------------------------------------------------------
  // One word, and a stream of words

  /** What the sequencer keeps between words: `tPrevBtn` and the pointer position. */
  datatype State = State(prevBtn: Mask, x: int, y: int)

  /** The state after some words, the calls made, and whether the goroutine panicked. */
  datatype Outcome = Outcome(state: State, events: seq<MouseEvent>, panicked: bool)

  /**
   * One pass of the goroutine's loop body: toggle the changed buttons, move
   * by a non-zero motion, store the word's mask, request the hold delay.
   */
  function Step(s: State, w: MouseWord): Outcome
  {
    var latest := LatestMask(w.btn);
    var t := Toggles(s.prevBtn, latest);
    if t.panicked then Outcome(s, t.events, true)
    else
      var moved := w.mov.0 != 0 || w.mov.1 != 0;
      var x := if moved then s.x + w.mov.0 else s.x;
      var y := if moved then s.y + w.mov.1 else s.y;
      Outcome(State(latest, x, y),
              t.events + (if moved then [MoveTo(x, y)] else []) + (if w.dur > 0 then [Delay(w.dur)] else []),
              false)
  }

  /** Step in terms of the diff loop's run over the word's mask. */
  lemma StepCases(s: State, w: MouseWord)
    ensures var t := Toggles(s.prevBtn, LatestMask(w.btn));
      && (t.panicked ==> Step(s, w) == Outcome(s, t.events, true))
      && (!t.panicked && (w.mov.0 != 0 || w.mov.1 != 0) ==>
        Step(s, w) == Outcome(State(LatestMask(w.btn), s.x + w.mov.0, s.y + w.mov.1),
          t.events + [MoveTo(s.x + w.mov.0, s.y + w.mov.1)] + (if w.dur > 0 then [Delay(w.dur)] else []), false))
      && (!t.panicked && w.mov.0 == 0 && w.mov.1 == 0 ==>
        Step(s, w) == Outcome(State(LatestMask(w.btn), s.x, s.y),
          t.events + [] + (if w.dur > 0 then [Delay(w.dur)] else []), false))
  {
  }

  /**
   * A word panics exactly when it presses the right or center button; a
   * word that panics changes no state and gets part of the way through its
   * toggles; any other word toggles exactly the changed buttons, moves by
   * its motion when that is non-zero, stores its mask and requests its
   * hold time.
   */
  lemma StepMeaning(s: State, w: MouseWord)
    ensures var o := Step(s, w);
      && (o.panicked <==> (1 in w.btn && 1 !in s.prevBtn) || (2 in w.btn && 2 !in s.prevBtn))
      && (o.panicked ==> o.state == s && o.events <= IntendedToggles(s.prevBtn, LatestMask(w.btn)))
      && (!o.panicked ==> o.state == State(LatestMask(w.btn), s.x + w.mov.0, s.y + w.mov.1))
      && (!o.panicked ==>
        o.events == IntendedToggles(s.prevBtn, LatestMask(w.btn))
          + (if w.mov != (0, 0) then [MoveTo(o.state.x, o.state.y)] else [])
          + (if w.dur > 0 then [Delay(w.dur)] else []))
  {
    LatestMaskBits(w.btn);
    TogglesPanicIff(s.prevBtn, LatestMask(w.btn));
  }

  /**
   * The loop body with the toggle direction read as a flag, `"down"` when
   * `tLatestBtn & tBtnMask != 0`: it never panics.
   */
  function IntendedStep(s: State, w: MouseWord): (o: Outcome)
    ensures !o.panicked
  {
    var latest := LatestMask(w.btn);
    var moved := w.mov.0 != 0 || w.mov.1 != 0;
    var x := if moved then s.x + w.mov.0 else s.x;
    var y := if moved then s.y + w.mov.1 else s.y;
    Outcome(State(latest, x, y),
            IntendedToggles(s.prevBtn, latest) + (if moved then [MoveTo(x, y)] else [])
              + (if w.dur > 0 then [Delay(w.dur)] else []),
            false)
  }

  /** Wherever the code as written survives a word, it agrees with the intended step. */
  lemma StepAgreesWithIntended(s: State, w: MouseWord)
    requires !Step(s, w).panicked
    ensures Step(s, w) == IntendedStep(s, w)
  {
    TogglesPanicIff(s.prevBtn, LatestMask(w.btn));
  }

  /**
   * With the intended step, every word leaves the injector holding exactly
   * the buttons of the word's own mask, whatever it held before.
   */
  lemma IntendedStepTracksHeld(s: State, w: MouseWord)
    ensures Apply(Held(s.prevBtn), IntendedStep(s, w).events) == Held(LatestMask(w.btn))
    ensures IntendedStep(s, w).state.prevBtn == LatestMask(w.btn)
  {
    var moved := w.mov.0 != 0 || w.mov.1 != 0;
    var o := IntendedStep(s, w);
    var toggles := IntendedToggles(s.prevBtn, LatestMask(w.btn));
    var tail := (if moved then [MoveTo(o.state.x, o.state.y)] else [])
      + (if w.dur > 0 then [Delay(w.dur)] else []);
    assert o.events == toggles + tail;
    IntendedTogglesTrackHeld(s.prevBtn, LatestMask(w.btn));
    ApplyConcat(Held(s.prevBtn), toggles, tail);
    ApplySkipsNonToggles(Held(LatestMask(w.btn)), tail);
  }

  /** The loop over the words the channel delivers, in order, until a panic ends it. */
  function RunWords(s: State, words: seq<MouseWord>): Outcome
  {
    if words == [] then Outcome(s, [], false)
    else
      var r := RunWords(s, words[..|words| - 1]);
      if r.panicked then r
      else
        var o := Step(r.state, words[|words| - 1]);
        Outcome(o.state, r.events + o.events, o.panicked)
  }

  /** Words after a panic are never processed. */
  lemma {:induction false} PanicEndsRun(s: State, a: seq<MouseWord>, b: seq<MouseWord>)
    requires RunWords(s, a).panicked
    ensures RunWords(s, a + b) == RunWords(s, a)
  {
    if b != [] {
      var init := b[..|b| - 1];
      assert (a + b)[..|a + b| - 1] == a + init;
      assert (a + b)[|a + b| - 1] == b[|b| - 1];
      PanicEndsRun(s, a, init);
    } else {
      assert a + b == a;
    }
  }

  /** A word that does not panic leaves the injector holding the stored mask's buttons. */
  lemma StepTracksHeld(s: State, w: MouseWord)
    requires !Step(s, w).panicked
    ensures Apply(Held(s.prevBtn), Step(s, w).events) == Held(Step(s, w).state.prevBtn)
  {
    StepAgreesWithIntended(s, w);
    IntendedStepTracksHeld(s, w);
  }

  /**
   * The held-state invariant: as long as no word panics, the injector holds
   * exactly the buttons of the stored mask.
   */
  lemma {:induction false} RunTracksHeld(s: State, words: seq<MouseWord>)
    requires !RunWords(s, words).panicked
    ensures Apply(Held(s.prevBtn), RunWords(s, words).events) == Held(RunWords(s, words).state.prevBtn)
  {
    if words != [] {
      var r := RunWords(s, words[..|words| - 1]);
      var w := words[|words| - 1];
      RunTracksHeld(s, words[..|words| - 1]);
      StepTracksHeld(r.state, w);
      ApplyConcat(Held(s.prevBtn), r.events, Step(r.state, w).events);
    }
  }

  /** The sum of the motions of some words. */
  function Displacement(words: seq<MouseWord>): (int, int)
  {
    if words == [] then (0, 0)
    else
      var d := Displacement(words[..|words| - 1]);
      var m := words[|words| - 1].mov;
      (d.0 + m.0, d.1 + m.1)
  }

  /** Relative motions compose additively, whatever the buttons do. */
  lemma {:induction false} RunMovesBySum(s: State, words: seq<MouseWord>)
    requires !RunWords(s, words).panicked
    ensures RunWords(s, words).state.x == s.x + Displacement(words).0
    ensures RunWords(s, words).state.y == s.y + Displacement(words).1
  {
    if words != [] {
      RunMovesBySum(s, words[..|words| - 1]);
    }
  }

  /** Feeding the same word twice in a row toggles nothing the second time. */
  lemma RepeatedWordToggles(s: State, w: MouseWord)
    requires !Step(s, w).panicked
    ensures !Step(Step(s, w).state, w).panicked
    ensures forall e :: e in Step(Step(s, w).state, w).events ==> !e.Toggle?
  {
    var m := LatestMask(w.btn);
    StepMeaning(s, w);
    UnchangedMaskNoToggles(m, ButtonCount);
  }

  /**
   * Holding left and then adding right: the second word toggles left
   * nothing, indexes the toggle array with 2 for right, and the goroutine
   * dies with right never pressed.
   */
  lemma RightPressPanics(x: int, y: int)
    ensures var words := [MouseWord([0], (0, 0), 0), MouseWord([0, 1], (5, 0), 0)];
      var o := RunWords(State({}, x, y), words);
      && o.panicked
      && o.events == [Toggle("down", "left")]
      && o.state == State({0}, x, y)
  {
    var w0 := MouseWord([0], (0, 0), 0);
    var w1 := MouseWord([0, 1], (5, 0), 0);
    var s0 := State({}, x, y);
    assert [w0, w1][..1] == [w0] && [w0][..0] == [];
    assert LatestMask([0]) == {0} by { assert [0][..0] == []; }
    assert LatestMask([0, 1]) == {0, 1} by { assert [0, 1][..1] == [0]; }
    assert Toggles({}, {0}) == ToggleRun([Toggle("down", "left")], false) by {
      assert MaskedValue({0}, 0) == 1;
    }
    assert Toggles({0}, {0, 1}).panicked by {
      assert MaskedValue({0, 1}, 1) == 2;
    }
    assert RunWords(s0, [w0]) == Outcome(State({0}, x, y), [Toggle("down", "left")], false);
  }

  // ---------------------------------------------------------------------
  // The goroutine

  /** The loop that ORs `0x01 << uint(id)` into `tLatestBtn` for each id. */
  method BuildMask(btn: seq<int>) returns (latest: Mask)
    ensures latest == LatestMask(btn)
  {
    latest := {};
    for k := 0 to |btn|
      invariant latest == LatestMask(btn[..k])
    {
      assert btn[..k + 1] == btn[..k] + [btn[k]];
      latest := latest + Bit(btn[k]);
    }
    assert btn[..|btn|] == btn;
  }

  /** The pointer goroutine's state and the calls it has made so far. */
  class Sequencer {
    var prevBtn: Mask
    var x: int
    var y: int
    var log: seq<MouseEvent>

    function Snapshot(): State
      reads this
    {
      State(prevBtn, x, y)
    }

    /** `tPrevBtn := 0`, with the pointer where the injector reports it. */
    constructor (x0: int, y0: int)
      ensures Snapshot() == State({}, x0, y0) && log == []
    {
      prevBtn, x, y, log := {}, x0, y0, [];
    }

    /**
     * The diff loop: one toggle call per changed button among left, right
     * and center; ok is false when the toggle index panics.
     */
    method EmitToggles(latest: Mask) returns (ok: bool)
      modifies this`log
      ensures log == old(log) + Toggles(prevBtn, latest).events
      ensures ok == !Toggles(prevBtn, latest).panicked
    {
      var change := Xor(prevBtn, latest);
      for i := 0 to ButtonCount
        invariant log == old(log) + TogglesUpTo(prevBtn, latest, i).events
        invariant !TogglesUpTo(prevBtn, latest, i).panicked
      {
        if i in change {
          var index := MaskedValue(latest, i);
          if index >= |ToggleNames| {
            PanicPersists(prevBtn, latest, i + 1, ButtonCount);
            return false;
          }
          log := log + [Toggle(ToggleNames[index], ButtonNames[i])];
        }
      }
      ok := true;
    }

    /** One pass of the loop body; ok is false when the toggle index panics. */
    method ProcessWord(w: MouseWord) returns (ok: bool)
      modifies this
      ensures Snapshot() == Step(old(Snapshot()), w).state
      ensures log == old(log) + Step(old(Snapshot()), w).events
      ensures ok == !Step(old(Snapshot()), w).panicked
    {
      var latest := BuildMask(w.btn);
      ghost var s0 := Snapshot();
      ok := EmitToggles(latest);
      StepCases(s0, w);
      if !ok {
        return;
      }
      if w.mov.0 != 0 || w.mov.1 != 0 {
        x, y := x + w.mov.0, y + w.mov.1;
        log := log + [MoveTo(x, y)];
      }
      prevBtn := latest;
      if w.dur > 0 {
        log := log + [Delay(w.dur)];
      }
    }

    /** The receive loop over the words delivered, in order; a panic ends it. */
    method Run(words: seq<MouseWord>) returns (ok: bool)
      modifies this
      ensures Snapshot() == RunWords(old(Snapshot()), words).state
      ensures log == old(log) + RunWords(old(Snapshot()), words).events
      ensures ok == !RunWords(old(Snapshot()), words).panicked
    {
      ok := true;
      var i := 0;
      while i < |words| && ok
        invariant 0 <= i <= |words|
        invariant Snapshot() == RunWords(old(Snapshot()), words[..i]).state
        invariant log == old(log) + RunWords(old(Snapshot()), words[..i]).events
        invariant ok == !RunWords(old(Snapshot()), words[..i]).panicked
      {
        ghost var before := RunWords(old(Snapshot()), words[..i]);
        assert words[..i + 1][..i] == words[..i];
        ok := ProcessWord(words[i]);
        ghost var o := Step(before.state, words[i]);
        assert RunWords(old(Snapshot()), words[..i + 1]) == Outcome(o.state, before.events + o.events, o.panicked);
        i := i + 1;
      }
      if i < |words| {
        PanicEndsRun(old(Snapshot()), words[..i], words[i..]);
        assert words[..i] + words[i..] == words;
      } else {
        assert words[..i] == words;
      }
    }
  }
}
