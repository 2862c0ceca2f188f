/**
 * The decoded input words the emulator consumes, one stream per device.
 * A word states the whole input for one time slice: the buttons or keys
 * asserted during it and how many display frames (1/60 s) it lasts.
 * Decoding from JSON happens before a word reaches the sequencers.
 */
module Words {

  datatype Option<+T> = None | Some(value: T)

  /** `GcWordMouse`: button ids held, relative pointer motion, hold in frames. */
  datatype MouseWord = MouseWord(btn: seq<int>, mov: (int, int), dur: int)

  /** `GcWordKeyboard`: key names to tap, modifier ids, hold in frames. */
  datatype KeyboardWord = KeyboardWord(key: seq<string>, mod: seq<int>, dur: int)
}
