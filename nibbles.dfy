/** The instruction-field decoder of the interpreter: `getHex` pulls a run of
    nibbles out of a 16-bit instruction word and right-justifies them.
    Nibble 0 is the most significant one (`0xD123` has nibbles D, 1, 2, 3).
    Positions and lengths are bytes, as in Chip.cpp. */
module Nibbles {

  /** Nibble `i` of `w`, counting from the most significant end. */
  function Nibble(w: bv16, i: bv8): (n: bv16)
    requires i < 4
    ensures n < 16
  {
    (w >> (12 - 4 * i)) & 0xF
  }

  /** Admissible arguments of the decoder; Chip.cpp asserts them. */
  predicate ValidField(position: bv8, length: bv8) {
    0 < length && position <= 4 && length <= 4 && position + length <= 4
  }

  /** What the decoder is meant to return: nibbles `p .. p+len-1` of `w`,
      most significant first, packed into the low `4*len` bits. */
  function Field(w: bv16, p: bv8, len: bv8): (r: bv16)
    requires ValidField(p, len)
  {
    if len == 1 then Nibble(w, p)
    else if len == 2 then (Nibble(w, p) << 4) | Nibble(w, p + 1)
    else if len == 3 then (Nibble(w, p) << 8) | (Nibble(w, p + 1) << 4) | Nibble(w, p + 2)
    else (Nibble(w, 0) << 12) | (Nibble(w, 1) << 8) | (Nibble(w, 2) << 4) | Nibble(w, 3)
  }

  /** The mask the decoder's loop has built once it has added `n` nibbles
      starting at position `p`. */
  function PartialMask(p: bv8, n: bv8): bv16
    requires p <= 4 && n <= 4 && p + n <= 4
    decreases n
  {
    if n == 0 then 0 else PartialMask(p, n - 1) | (0xF << ((3 - (p + n - 1)) * 4))
  }

  /** How many nibbles the decoder's loop has added after looking at
      positions `0 .. i-1`. */
  function AddedAfter(p: bv8, len: bv8, i: bv8): (n: bv8)
    requires ValidField(p, len) && i <= 4
    ensures n <= len && p + n <= 4
  {
    if i <= p then 0 else if i - p < len then i - p else len
  }

  /** The decoder itself: the mask loop, then mask and shift. Violating the
      bounds on `position` and `length` is an assertion failure in Chip.cpp,
      so they are preconditions here. */
  method GetHex(opcode: bv16, position: bv8, length: bv8) returns (r: bv16)
    requires 0 < length
    requires position <= 4
    requires position + length <= 4 && length <= 4
    ensures r == Field(opcode, position, length)
  {
    var mask: bv16 := 0;
    var addedCount: bv8 := 0;
    var i: bv8 := 0;
    while i < 4
      invariant i <= 4
      invariant addedCount == AddedAfter(position, length, i)
      invariant mask == PartialMask(position, addedCount)
    {
      AddedStep(position, length, i);
      // Chip.cpp also ORs in `0x0 << ...` when the nibble is not wanted.
      if i >= position && addedCount < length {
        PartialMaskStep(position, addedCount);
        mask := mask | (0xF << ((3 - i) * 4));
        addedCount := addedCount + 1;
      }
      i := i + 1;
    }
    assert addedCount == length;
    MaskThenShift(opcode, position, length, mask);
    r := (opcode & mask) >> ((4 - (position + length)) * 4);
  }

  lemma AddedStep(p: bv8, len: bv8, i: bv8)
    requires ValidField(p, len) && i < 4
    ensures AddedAfter(p, len, i + 1) ==
      if i >= p && AddedAfter(p, len, i) < len then AddedAfter(p, len, i) + 1 else AddedAfter(p, len, i)
    ensures i >= p && AddedAfter(p, len, i) < len ==> i == p + AddedAfter(p, len, i)
    ensures AddedAfter(p, len, 4) == len
  {
  }

  lemma PartialMaskStep(p: bv8, n: bv8)
    requires p <= 4 && n < 4 && p + n < 4
    ensures PartialMask(p, n + 1) == PartialMask(p, n) | (0xF << ((3 - (p + n)) * 4))
  {
  }

  /** Masking the requested nibbles and shifting them down yields `Field`. */
  lemma MaskThenShift(w: bv16, p: bv8, len: bv8, mask: bv16)
    requires ValidField(p, len)
    requires mask == PartialMask(p, len)
    ensures (w & mask) >> ((4 - (p + len)) * 4) == Field(w, p, len)
  {
    if len >= 2 {
      assert PartialMask(p, 2) == PartialMask(p, 1) | (0xF << ((3 - (p + 1)) * 4));
    }
    if len >= 3 {
      assert PartialMask(p, 3) == PartialMask(p, 2) | (0xF << ((3 - (p + 2)) * 4));
    }
  }

  /** The closed form: the field is the word shifted right past the nibbles
      after it, keeping the low `4*len` bits. */
  lemma FieldIsShiftMask(w: bv16, p: bv8, len: bv8)
    requires ValidField(p, len)
    ensures Field(w, p, len) == (w >> (4 * (4 - p - len))) & (((1 as bv16) << (4 * len)) - 1)
  {
    if len == 1 {
      assert ((1 as bv16) << (4 * len)) - 1 == 0xF;
      if p == 0 { } else if p == 1 { } else if p == 2 { } else { }
    } else if len == 2 {
      assert ((1 as bv16) << (4 * len)) - 1 == 0xFF;
      if p == 0 { } else if p == 1 { } else { }
    } else if len == 3 {
      assert ((1 as bv16) << (4 * len)) - 1 == 0xFFF;
      if p == 0 { } else { }
    }
  }

  /** The field depends on the requested nibbles only. */
  lemma FieldIgnoresOtherNibbles(w: bv16, w': bv16, p: bv8, len: bv8)
    requires ValidField(p, len)
    requires forall i: bv8 :: p <= i < p + len ==> Nibble(w, i) == Nibble(w', i)
    ensures Field(w, p, len) == Field(w', p, len)
  {
    if len >= 2 {
      assert Nibble(w, p + 1) == Nibble(w', p + 1);
    }
    if len >= 3 {
      assert Nibble(w, p + 2) == Nibble(w', p + 2);
    }
    if len == 4 {
      assert Nibble(w, 3) == Nibble(w', 3);
    }
  }

  lemma FieldExamples()
    ensures Field(0xD123, 0, 1) == 0xD
    ensures Field(0xD123, 1, 3) == 0x123
    ensures Field(0xD123, 2, 2) == 0x23
    ensures Field(0xD123, 3, 1) == 0x3
  {
  }
}
