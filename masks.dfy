/**
 * The button state of the pointer sequencer. The source keeps it in a Go
 * `int` used as a bit set; here a mask is the set of positions of its 1
 * bits. An `int` is 64 bits wide on the targets the emulator is built for,
 * so only positions 0 to 63 can ever be set. Bit i stands for button id i;
 * the sequencer drives ids 0, 1 and 2.
 */
module ButtonMasks {

  /** The positions of the 1 bits of a 64-bit mask. */
  type Mask = set<int>

  /** Bit positions a 64-bit int has. */
  const Width := 64

  /** The buttons the diff loop visits: ids 0 to 2. */
  const ButtonCount := 3

  predicate WellFormed(m: Mask)
  {
    forall i :: i in m ==> 0 <= i < Width
  }

  /**
   * `0x01 << uint(id)` on a 64-bit int. A negative id converts to a huge
   * unsigned count and, like every count of 64 or more, shifts the bit out.
   */
  function Bit(id: int): (b: Mask)
    ensures WellFormed(b)
    ensures id in b <==> 0 <= id < Width
    ensures b <= {id}
  {
    if 0 <= id < Width then {id} else {}
  }

  /** 2 to the power i: the value of the mask whose only 1 bit is bit i. */
  function Pow2(i: nat): (r: nat)
    ensures r >= 1
    ensures i > 0 ==> r >= 2
  {
    if i == 0 then 1 else 2 * Pow2(i - 1)
  }

  /** `tBtnMask & m`, as an integer: the value of bit i of m in place. */
  function MaskedValue(m: Mask, i: nat): (r: nat)
    ensures r == 0 <==> i !in m
    ensures i in m ==> r == Pow2(i)
  {
    if i in m then Pow2(i) else 0
  }

  /** `p ^ q`: the bits set in exactly one of the two masks. */
  function Xor(p: Mask, q: Mask): (r: Mask)
    ensures forall i :: i in r <==> (i in p) != (i in q)
  {
    (p - q) + (q - p)
  }

  // ---------------------------------------------------------------------
  // The mask a word asserts

  /** `tLatestBtn`: `|= 0x01 << uint(id)` folded over the word's ids, in order. */
  function LatestMask(btn: seq<int>): Mask
  {
    if btn == [] then {} else LatestMask(btn[..|btn| - 1]) + Bit(btn[|btn| - 1])
  }

  /**
   * Bit i of a word's mask is set exactly when i is among the word's ids and
   * fits in 64 bits; no other bit is ever set.
   */
  lemma {:induction false} LatestMaskBits(btn: seq<int>)
    ensures WellFormed(LatestMask(btn))
    ensures forall i :: i in LatestMask(btn) <==> i in btn && 0 <= i < Width
  {
    if btn != [] {
      var init := btn[..|btn| - 1];
      assert btn == init + [btn[|btn| - 1]];
      LatestMaskBits(init);
    }
  }

  /**
   * The mask depends only on which ids the word lists: neither their order
   * nor repetitions matter.
   */
  lemma LatestMaskIgnoresOrder(a: seq<int>, b: seq<int>)
    requires forall x :: x in a <==> x in b
    ensures LatestMask(a) == LatestMask(b)
  {
    forall i
      ensures i in LatestMask(a) <==> i in LatestMask(b)
    {
      LatestMaskBits(a);
      LatestMaskBits(b);
    }
  }
}
