/**
 * The keyboard side of the emulator: each keyboard word becomes a list of
 * key taps. Key names are looked up in a static table, modifier ids index
 * the list control, shift, alt, and every recognised key is tapped once,
 * in order, with the modifier list attached when it is not empty. Nothing
 * is carried from one word to the next.
 */
module Keyboard {
  import opened Words

  /** `tModName`: modifier ids 0, 1 and 2. */
  const ModNames: seq<string> := ["control", "shift", "alt"]

  /** A call the keyboard goroutine makes into the input injector. */
  datatype KeyEvent =
    | Tap(key: string)                         // KeyTap(k)
    | TapWith(key: string, mods: seq<string>)  // KeyTap(k, tMod)
    | Delay(frames: int)                       // sleep for `frames` display frames

  // ---------------------------------------------------------------------
  // Key names

  /**
   * `MAP_KEY[keyname]`: the static table from wire-level key names to the
   * injector's key symbols. A name missing from the table reads as Go's
   * zero value, the empty string.
   */
  function MapKey(name: string): string
  {
    match name
    case "a" => "a"
    case "b" => "b"
    case "c" => "c"
    case "d" => "d"
    case "e" => "e"
    case "f" => "f"
    case "g" => "g"
    case "h" => "h"
    case "i" => "i"
    case "j" => "j"
    case "k" => "k"
    case "l" => "l"
    case "m" => "m"
    case "n" => "n"
    case "o" => "o"
    case "p" => "p"
    case "q" => "q"
    case "r" => "r"
    case "s" => "s"
    case "t" => "t"
    case "u" => "u"
    case "v" => "v"
    case "w" => "w"
    case "x" => "x"
    case "y" => "y"
    case "z" => "z"
    case "0" => "0"
    case "1" => "1"
    case "2" => "2"
    case "3" => "3"
    case "4" => "4"
    case "5" => "5"
    case "6" => "6"
    case "7" => "7"
    case "8" => "8"
    case "9" => "9"
    case "F1" => "f1"
    case "F2" => "f2"
    case "F3" => "f3"
    case "F4" => "f4"
    case "F5" => "f5"
    case "F6" => "f6"
    case "F7" => "f7"
    case "F8" => "f8"
    case "F9" => "f9"
    case "F10" => "f10"
    case "F11" => "f11"
    case "F12" => "f12"
    case "Escape" => "escape"
    case "Space" => "space"
    case "Tab" => "tab"
    case "Enter" => "enter"
    case "Backspace" => "backspace"
    case "Delete" => "delete"
    case "ArrowUp" => "up"
    case "ArrowDown" => "down"
    case "ArrowRight" => "right"
    case "ArrowLeft" => "left"
    case _ => ""
  }

  /** Single lower-case letters and digits are their own key symbols. */
  lemma LettersAndDigitsMapToThemselves(c: char)
    requires 'a' <= c <= 'z' || '0' <= c <= '9'
    ensures MapKey([c]) == [c]
  {
  }

  /** Names are case-sensitive: a single upper-case letter is not in the table. */
  lemma UpperCaseLettersUnknown(c: char)
    requires 'A' <= c <= 'Z'
    ensures MapKey([c]) == ""
  {
  }

  /** The function keys read in lower case. */
  lemma FunctionKeyExamples()
    ensures MapKey("F1") == "f1" && MapKey("F10") == "f10" && MapKey("F12") == "f12"
  {
  }

  /** The named keys read in lower case. */
  lemma NamedKeyExamples()
    ensures MapKey("Escape") == "escape" && MapKey("Space") == "space" && MapKey("Tab") == "tab"
  {
  }

  /** The editing keys read in lower case too. */
  lemma EditingKeyExamples()
    ensures MapKey("Enter") == "enter" && MapKey("Backspace") == "backspace" && MapKey("Delete") == "delete"
  {
  }

  /** The vertical arrows read by their direction alone. */
  lemma VerticalArrowExamples()
    ensures MapKey("ArrowUp") == "up" && MapKey("ArrowDown") == "down"
  {
  }

  /** So do the horizontal arrows. */
  lemma HorizontalArrowExamples()
    ensures MapKey("ArrowRight") == "right" && MapKey("ArrowLeft") == "left"
  {
  }

  /** Names the table does not know read as the empty string. */
  lemma UnknownNameExamples()
    ensures MapKey("f1") == "" && MapKey("Shift") == "" && MapKey("\U{a7}") == ""
  {
  }

  // ---------------------------------------------------------------------
  // Modifiers

  /**
   * `tMod`: the names of the word's modifier ids, in order; None when an id
   * is outside 0..2, where `tModName[id]` panics.
   */
  function ModifierNames(mod: seq<int>): (r: Option<seq<string>>)
    ensures r.None? <==> exists k :: 0 <= k < |mod| && !(0 <= mod[k] < |ModNames|)
    ensures r.Some? ==> |r.value| == |mod|
    ensures r.Some? ==> forall k :: 0 <= k < |mod| ==> 0 <= mod[k] < |ModNames| && r.value[k] == ModNames[mod[k]]
  {
    if mod == [] then Some([])
    else
      var init := ModifierNames(mod[..|mod| - 1]);
      var id := mod[|mod| - 1];
      if init.None? || !(0 <= id < |ModNames|) then None
      else Some(init.value + [ModNames[id]])
  }

  // ---------------------------------------------------------------------
  // Taps

  /** One tap of symbol k, carrying the modifiers only when there are some. */
  function TapOf(k: string, mods: seq<string>): KeyEvent
  {
    if |mods| > 0 then TapWith(k, mods) else Tap(k)
  }

  /** The taps for a word's key names: unknown names are skipped. */
  function KeyTaps(keys: seq<string>, mods: seq<string>): seq<KeyEvent>
  {
    if keys == [] then []
    else
      var k := MapKey(keys[|keys| - 1]);
      KeyTaps(keys[..|keys| - 1], mods) + (if k != "" then [TapOf(k, mods)] else [])
  }

  /** The injector symbols of the names the table knows, in order, repeats kept. */
  function Recognised(keys: seq<string>): seq<string>
  {
    if keys == [] then []
    else
      var name := keys[|keys| - 1];
      Recognised(keys[..|keys| - 1]) + (if MapKey(name) != "" then [MapKey(name)] else [])
  }

  /**
   * The taps are exactly the recognised symbols, one each and in order,
   * all carrying the same modifiers, and attached ones only when there are any.
   */
  lemma {:induction false} KeyTapsAreRecognised(keys: seq<string>, mods: seq<string>)
    ensures |KeyTaps(keys, mods)| == |Recognised(keys)|
    ensures forall j :: 0 <= j < |KeyTaps(keys, mods)| ==> KeyTaps(keys, mods)[j] == TapOf(Recognised(keys)[j], mods)
  {
    if keys != [] {
      KeyTapsAreRecognised(keys[..|keys| - 1], mods);
    }
  }

  /** Recognition works name by name: the symbols of a concatenation concatenate. */
  lemma {:induction false} RecognisedConcat(a: seq<string>, b: seq<string>)
    ensures Recognised(a + b) == Recognised(a) + Recognised(b)
  {
    if b != [] {
      var init := b[..|b| - 1];
      assert (a + b)[..|a + b| - 1] == a + init;
      assert (a + b)[|a + b| - 1] == b[|b| - 1];
      RecognisedConcat(a, init);
    } else {
      assert a + b == a;
    }
  }

  /** At most one symbol per name. */
  lemma {:induction false} RecognisedNoLonger(keys: seq<string>)
    ensures |Recognised(keys)| <= |keys|
  {
    if keys != [] {
      RecognisedNoLonger(keys[..|keys| - 1]);
    }
  }

  /** Every symbol produced is non-empty and is the table's symbol for one of the names. */
  lemma {:induction false} RecognisedFromNames(keys: seq<string>)
    ensures forall s :: s in Recognised(keys) ==> s != "" && exists j :: 0 <= j < |keys| && MapKey(keys[j]) == s
  {
    if keys != [] {
      var init := keys[..|keys| - 1];
      RecognisedFromNames(init);
      forall s | s in Recognised(keys)
        ensures s != "" && exists j :: 0 <= j < |keys| && MapKey(keys[j]) == s
      {
        if s in Recognised(init) {
          var j :| 0 <= j < |init| && MapKey(init[j]) == s;
          assert keys[j] == init[j];
        } else {
          assert MapKey(keys[|keys| - 1]) == s;
        }
      }
    }
  }

  /** Names the table does not know produce nothing. */
  lemma {:induction false} UnknownNamesIgnored(keys: seq<string>)
    requires forall j :: 0 <= j < |keys| ==> MapKey(keys[j]) == ""
    ensures Recognised(keys) == []
  {
    if keys != [] {
      UnknownNamesIgnored(keys[..|keys| - 1]);
    }
  }

  /** The table's symbol for every name, "" for the unknown ones. */
  function Symbols(keys: seq<string>): seq<string>
  {
    seq(|keys|, j requires 0 <= j < |keys| => MapKey(keys[j]))
  }

  /** The strings of ss other than "", in order. */
  function NonEmpty(ss: seq<string>): seq<string>
  {
    if ss == [] then []
    else NonEmpty(ss[..|ss| - 1]) + (if ss[|ss| - 1] != "" then [ss[|ss| - 1]] else [])
  }

  /** Recognition is the table lookup with the unknown names dropped. */
  lemma {:induction false} RecognisedDropsUnknown(keys: seq<string>)
    ensures Recognised(keys) == NonEmpty(Symbols(keys))
  {
    if keys != [] {
      var init := keys[..|keys| - 1];
      RecognisedDropsUnknown(init);
      var ss := Symbols(keys);
      assert ss[..|ss| - 1] == Symbols(init);
    }
  }

  /** Dropping "" from strings none of which is "" changes nothing. */
  lemma {:induction false} NonEmptyKeepsAll(ss: seq<string>)
    requires forall j :: 0 <= j < |ss| ==> ss[j] != ""
    ensures NonEmpty(ss) == ss
  {
    if ss != [] {
      NonEmptyKeepsAll(ss[..|ss| - 1]);
      assert ss[..|ss| - 1] + [ss[|ss| - 1]] == ss;
    }
  }

  /** When the table knows every name, each name gives its own symbol in place. */
  lemma KnownNamesKept(keys: seq<string>)
    requires forall j :: 0 <= j < |keys| ==> MapKey(keys[j]) != ""
    ensures |Recognised(keys)| == |keys|
    ensures forall j :: 0 <= j < |keys| ==> Recognised(keys)[j] == MapKey(keys[j])
  {
    RecognisedDropsUnknown(keys);
    NonEmptyKeepsAll(Symbols(keys));
  }

  // ---------------------------------------------------------------------
  // One word, and a stream of words

  /**
   * One pass of the keyboard loop body: build the modifiers, tap the keys,
   * request the hold delay. None when a modifier id panics, before any tap.
   */
  function Translate(w: KeyboardWord): Option<seq<KeyEvent>>
  {
    var mods := ModifierNames(w.mod);
    if mods.None? then None
    else Some(KeyTaps(w.key, mods.value) + (if w.dur > 0 then [Delay(w.dur)] else []))
  }

  /**
   * A word fails exactly when a modifier id is out of range; otherwise it
   * taps each recognised key once in order, with the word's modifiers in
   * order, and ends with a delay exactly when its hold time is positive.
   */
  lemma TranslateMeaning(w: KeyboardWord)
    ensures Translate(w).None? <==> exists k :: 0 <= k < |w.mod| && !(0 <= w.mod[k] < |ModNames|)
    ensures Translate(w).Some? ==>
      var events := Translate(w).value;
      var syms := Recognised(w.key);
      && |events| == |syms| + (if w.dur > 0 then 1 else 0)
      && (forall j :: 0 <= j < |syms| ==>
            events[j] == TapOf(syms[j], ModifierNames(w.mod).value))
      && (w.dur > 0 ==> events[|events| - 1] == Delay(w.dur))
  {
    if ModifierNames(w.mod).Some? {
      KeyTapsAreRecognised(w.key, ModifierNames(w.mod).value);
    }
  }

  /** An unknown key name is dropped without affecting the rest of the word. */
  lemma UnknownNameSkipped()
    ensures Translate(KeyboardWord(["\U{a7}", "a"], [], 5)) == Some([Tap("a"), Delay(5)])
  {
    var keys := ["\U{a7}", "a"];
    assert keys[..1] == ["\U{a7}"] && keys[..1][..0] == [];
    assert MapKey("\U{a7}") == "" && MapKey("a") == "a";
    assert KeyTaps(keys[..1], []) == [];
    assert KeyTaps(keys, []) == [Tap("a")];
    assert ModifierNames([]) == Some([]);
    assert Translate(KeyboardWord(keys, [], 5)) == Some(KeyTaps(keys, []) + [Delay(5)]);
    assert [Tap("a")] + [Delay(5)] == [Tap("a"), Delay(5)];
  }

  /** The events of the words delivered, in order, and whether a panic ended the loop. */
  datatype Outcome = Outcome(events: seq<KeyEvent>, panicked: bool)

  /** The loop after one more word whose translation is t: nothing once it has panicked. */
  function Then(r: Outcome, t: Option<seq<KeyEvent>>): Outcome
  {
    if r.panicked then r
    else if t.None? then Outcome(r.events, true)
    else Outcome(r.events + t.value, false)
  }

  /** The keyboard loop over the words the channel delivers; a panic ends it. */
  function RunWords(words: seq<KeyboardWord>): Outcome
  {
    if words == [] then Outcome([], false)
    else Then(RunWords(words[..|words| - 1]), Translate(words[|words| - 1]))
  }

  /** Two runs one after the other: the second only if the first did not panic. */
  function Sequence(a: Outcome, b: Outcome): Outcome
  {
    if a.panicked then a else Outcome(a.events + b.events, b.panicked)
  }

  lemma ThenSequence(a: Outcome, b: Outcome, t: Option<seq<KeyEvent>>)
    ensures Then(Sequence(a, b), t) == Sequence(a, Then(b, t))
  {
    if !a.panicked && !b.panicked && t.Some? {
      assert a.events + b.events + t.value == a.events + (b.events + t.value);
    }
  }

  /**
   * The keyboard loop keeps no state between words: running two batches
   * one after the other is running each on its own.
   */
  lemma {:induction false} RunWordsConcat(a: seq<KeyboardWord>, b: seq<KeyboardWord>)
    ensures RunWords(a + b) == Sequence(RunWords(a), RunWords(b))
  {
    if b == [] {
      assert a + b == a;
    } else {
      var init := b[..|b| - 1];
      var t := Translate(b[|b| - 1]);
      assert (a + b)[..|a + b| - 1] == a + init;
      assert (a + b)[|a + b| - 1] == b[|b| - 1];
      RunWordsConcat(a, init);
      ThenSequence(RunWords(a), RunWords(init), t);
    }
  }

  // ---------------------------------------------------------------------
  // The goroutine

  /** The loop that appends `tModName[id]` for each id. */
  method BuildModifiers(mod: seq<int>) returns (r: Option<seq<string>>)
    ensures r == ModifierNames(mod)
  {
    var names: seq<string> := [];
    for k := 0 to |mod|
      invariant ModifierNames(mod[..k]) == Some(names)
    {
      assert mod[..k + 1][..k] == mod[..k];
      var id := mod[k];
      if !(0 <= id < |ModNames|) {
        assert ModifierNames(mod[..k + 1]).None?;
        NoneExtends(mod, k + 1);
        return None;
      }
      names := names + [ModNames[id]];
    }
    assert mod[..|mod|] == mod;
    r := Some(names);
  }

  /** A modifier list that failed on a prefix fails on the whole word. */
  lemma NoneExtends(mod: seq<int>, k: nat)
    requires k <= |mod|
    requires ModifierNames(mod[..k]).None?
    ensures ModifierNames(mod).None?
  {
    var j :| 0 <= j < k && !(0 <= mod[..k][j] < |ModNames|);
    assert mod[j] == mod[..k][j];
  }

  /** The loop that taps each recognised key. */
  method TapKeys(keys: seq<string>, mods: seq<string>) returns (events: seq<KeyEvent>)
    ensures events == KeyTaps(keys, mods)
  {
    events := [];
    for j := 0 to |keys|
      invariant events == KeyTaps(keys[..j], mods)
    {
      assert keys[..j + 1][..j] == keys[..j];
      var k := MapKey(keys[j]);
      if k != "" {
        if |mods| > 0 {
          events := events + [TapWith(k, mods)];
        } else {
          events := events + [Tap(k)];
        }
      }
    }
    assert keys[..|keys|] == keys;
  }

  /** One pass of the keyboard loop body. */
  method TranslateWord(w: KeyboardWord) returns (r: Option<seq<KeyEvent>>)
    ensures r == Translate(w)
  {
    var mods := BuildModifiers(w.mod);
    if mods.None? {
      assert Translate(w) == None;
      return None;
    }
    var events := TapKeys(w.key, mods.value);
    if w.dur > 0 {
      events := events + [Delay(w.dur)];
    }
    assert events == KeyTaps(w.key, ModifierNames(w.mod).value) + (if w.dur > 0 then [Delay(w.dur)] else []);
    assert Translate(w) == Some(events);
    r := Some(events);
  }

  /** The receive loop over the words delivered, in order; a panic ends it. */
  method Run(words: seq<KeyboardWord>) returns (o: Outcome)
    ensures o == RunWords(words)
  {
    o := Outcome([], false);
    var i := 0;
    while i < |words| && !o.panicked
      invariant 0 <= i <= |words|
      invariant o == RunWords(words[..i])
    {
      assert words[..i + 1][..i] == words[..i] && words[..i + 1][i] == words[i];
      var t := TranslateWord(words[i]);
      assert RunWords(words[..i + 1]) == Then(o, t);
      if t.None? {
        o := Outcome(o.events, true);
      } else {
        o := Outcome(o.events + t.value, false);
      }
      i := i + 1;
    }
    assert words[..i] + words[i..] == words;
    RunWordsConcat(words[..i], words[i..]);
  }
}
