/** The FX__ instructions: timers, the index register, the digit glyphs,
    binary-coded decimal, register save and restore, and waiting for a key. */
module StorageLaws {
  import opened Machine
  import Keypad

  /** Which handler each handled FX__ instruction runs. */
  lemma HexFDispatch(s: State, op: bv16, events: seq<Keypad.Event>)
    requires Valid(s) && StoreDefined(s, op)
    ensures !HandledF(NN(op)) ==> HexF(s, op, events) == Fatal(op)
    ensures NN(op) in {0x07, 0x15, 0x18} ==> HexF(s, op, events) == Ok(Timers(s, X(op), NN(op)))
    ensures NN(op) == 0x0A ==> HexF(s, op, events) == Ok(WaitForKey(s, X(op), events))
    ensures NN(op) == 0x1E ==> HexF(s, op, events) == Ok(AddToI(s, X(op)))
    ensures NN(op) == 0x29 ==> HexF(s, op, events) == Ok(PointToGlyph(s, X(op)))
    ensures NN(op) == 0x33 ==> HexF(s, op, events) == Ok(StoreDigits(s, X(op)))
    ensures NN(op) == 0x55 ==> HexF(s, op, events) == Ok(SaveRegisters(s, X(op)))
    ensures NN(op) == 0x65 ==> HexF(s, op, events) == Ok(RestoreRegisters(s, X(op)))
  {
  }

  /** No FX__ instruction moves the pc, touches the stack or the display,
      or changes the draw flag. */
  lemma HexFFrame(s: State, op: bv16, events: seq<Keypad.Event>)
    requires Valid(s) && StoreDefined(s, op)
    ensures HexF(s, op, events).Ok? <==> HandledF(NN(op))
    ensures HexF(s, op, events).Ok? ==>
      var t := HexF(s, op, events).state;
      SameControl(s, t)
  {
    HexFDispatch(s, op, events);
    HelpersKeepControl(s, X(op), NN(op), events);
  }

  lemma HelpersKeepControl(s: State, x: int, nn: bv8, events: seq<Keypad.Event>)
    requires Valid(s) && 0 <= x < NumRegisters
    ensures SameControl(s, Timers(s, x, nn)) && SameControl(s, WaitForKey(s, x, events))
    ensures SameControl(s, AddToI(s, x)) && SameControl(s, PointToGlyph(s, x))
    ensures s.I as int + 2 < MemorySize ==> SameControl(s, StoreDigits(s, x))
    ensures s.I as int + x < MemorySize ==> SameControl(s, SaveRegisters(s, x))
    ensures s.I as int + x < MemorySize ==> SameControl(s, RestoreRegisters(s, x))
  {
  }

  /** The pc, the stack, the display and the draw flag agree. */
  predicate SameControl(s: State, t: State) {
    t.pc == s.pc && t.sp == s.sp && t.stack == s.stack && t.display == s.display && t.drawFlag == s.drawFlag
  }

  /** Writing a block of bytes puts exactly them in place and leaves every
      other address alone. */
  lemma PokeReads(memory: seq<bv8>, at: int, values: seq<bv8>)
    requires 0 <= at && at + |values| <= |memory|
    ensures Poke(memory, at, values)[at .. at + |values|] == values
    ensures forall k :: 0 <= k < |memory| && !(at <= k < at + |values|) ==> Poke(memory, at, values)[k] == memory[k]
  {
    var m := Poke(memory, at, values);
    assert forall k :: 0 <= k < |memory| && k < at ==> m[k] == memory[k];
    assert forall k :: 0 <= k < |memory| && at + |values| <= k ==> m[k] == memory[k];
  }

  /** Writing one more byte just past a block extends the block. */
  lemma PokeAppend(memory: seq<bv8>, at: int, values: seq<bv8>, b: bv8)
    requires 0 <= at && at + |values| < |memory|
    ensures Poke(memory, at, values)[at + |values| := b] == Poke(memory, at, values + [b])
  {
    var e := at + |values|;
    var p := Poke(memory, at, values)[e := b];
    var q := Poke(memory, at, values + [b]);
    PokeReads(memory, at, values);
    PokeReads(memory, at, values + [b]);
    assert forall k :: at <= k < e ==> p[k] == Poke(memory, at, values)[at .. e][k - at];
    assert forall k :: at <= k <= e ==> q[k] == q[at .. e + 1][k - at];
    assert forall k :: 0 <= k < |memory| ==> p[k] == q[k];
  }

  /** Writing one more byte just before a block extends the block
      downwards. */
  lemma PokePrepend(memory: seq<bv8>, at: int, values: seq<bv8>, b: bv8)
    requires 0 < at && at + |values| <= |memory|
    ensures Poke(memory, at, values)[at - 1 := b] == Poke(memory, at - 1, [b] + values)
  {
    var e := at + |values|;
    var p := Poke(memory, at, values)[at - 1 := b];
    var q := Poke(memory, at - 1, [b] + values);
    forall k | 0 <= k < |memory|
      ensures p[k] == q[k]
    {
      if k < at - 1 {
        assert q[k] == memory[..at - 1][k];
      } else if k < e {
        assert q[k] == ([b] + values)[k - (at - 1)];
      } else {
        assert q[k] == memory[e..][k - e];
      }
    }
  }

  /** Loading one more register from memory extends the loaded prefix. */
  lemma LoadAppend(memory: seq<bv8>, registers: seq<bv8>, at: int, i: int)
    requires 0 <= at && 0 <= i < |registers| && at + i < |memory|
    ensures (memory[at .. at + i] + registers[i..])[i := memory[at + i]] == memory[at .. at + i + 1] + registers[i + 1..]
  {
    var p := (memory[at .. at + i] + registers[i..])[i := memory[at + i]];
    var q := memory[at .. at + i + 1] + registers[i + 1..];
    assert forall k :: 0 <= k < |registers| ==> p[k] == q[k];
  }

  /** A memory that holds `values` from `at` and agrees with `memory`
      everywhere else is the result of writing them there. */
  lemma PokeByAddress(memory: seq<bv8>, at: int, values: seq<bv8>, m: seq<bv8>)
    requires 0 <= at && at + |values| <= |memory| == |m|
    requires forall k :: at <= k < at + |values| ==> m[k] == values[k - at]
    requires forall k :: 0 <= k < |m| && !(at <= k < at + |values|) ==> m[k] == memory[k]
    ensures m == Poke(memory, at, values)
  {
    var p := Poke(memory, at, values);
    PokeReads(memory, at, values);
    assert forall k :: at <= k < at + |values| ==> p[k] == p[at .. at + |values|][k - at];
  }

  /** The three digits are decimal digits, the hundreds at most 2, and
      together they spell the byte. */
  lemma BcdDigits(v: bv8)
    ensures Bcd(v)[0] <= 2 && Bcd(v)[1] < 10 && Bcd(v)[2] < 10
    ensures Bcd(v)[0] as bv16 * 100 + Bcd(v)[1] as bv16 * 10 + Bcd(v)[2] as bv16 == v as bv16
  {
  }

  lemma BcdExamples()
    ensures Bcd(250) == [2, 5, 0]
    ensures Bcd(7) == [0, 0, 7]
    ensures Bcd(199) == [1, 9, 9]
  {
  }

  /** FX33 writes the digits of VX at I, I+1, I+2 and nothing else. */
  lemma DigitsStored(s: State, x: int)
    requires Valid(s) && 0 <= x < NumRegisters && s.I as int + 2 < MemorySize
    ensures StoreDigits(s, x).memory[s.I as int .. s.I as int + 3] == Bcd(s.registers[x])
    ensures forall k :: 0 <= k < MemorySize && !(s.I as int <= k < s.I as int + 3) ==>
      StoreDigits(s, x).memory[k] == s.memory[k]
  {
    PokeReads(s.memory, s.I as int, Bcd(s.registers[x]));
  }

  /** FX55 copies V0 .. VX to I .. I+X and changes nothing else; in
      particular I stays where it was. */
  lemma SaveWrites(s: State, x: int)
    requires Valid(s) && 0 <= x < NumRegisters && s.I as int + x < MemorySize
    ensures SaveRegisters(s, x).memory[s.I as int .. s.I as int + x + 1] == s.registers[..x + 1]
    ensures forall k :: 0 <= k < MemorySize && !(s.I as int <= k <= s.I as int + x) ==>
      SaveRegisters(s, x).memory[k] == s.memory[k]
  {
    PokeReads(s.memory, s.I as int, s.registers[..x + 1]);
  }

  /** FX65 loads V0 .. VX from I .. I+X; the registers above X stay. */
  lemma RestoreReads(s: State, x: int)
    requires Valid(s) && 0 <= x < NumRegisters && s.I as int + x < MemorySize
    ensures RestoreRegisters(s, x).registers[..x + 1] == s.memory[s.I as int .. s.I as int + x + 1]
    ensures RestoreRegisters(s, x).registers[x + 1..] == s.registers[x + 1..]
  {
    var loaded := s.memory[s.I as int .. s.I as int + x + 1];
    assert RestoreRegisters(s, x).registers == loaded + s.registers[x + 1..];
  }

  /** Saving V0 .. VX and loading them back from the same place restores
      the registers, so the pair changes only the memory it saved to. */
  lemma SaveRestore(s: State, x: int)
    requires Valid(s) && 0 <= x < NumRegisters && s.I as int + x < MemorySize
    ensures RestoreRegisters(SaveRegisters(s, x), x) == SaveRegisters(s, x)
  {
    var t := SaveRegisters(s, x);
    SaveWrites(s, x);
    RestoreReads(t, x);
    var u := RestoreRegisters(t, x);
    assert u.registers == u.registers[..x + 1] + u.registers[x + 1..];
    assert t.registers == t.registers[..x + 1] + t.registers[x + 1..];
  }

  /** FX15 sets the delay timer to VX, and FX07 reads it back. */
  lemma DelayTimerRoundTrip(s: State, write: bv16, read: bv16, events: seq<Keypad.Event>)
    requires Valid(s) && NN(write) == 0x15 && NN(read) == 0x07
    ensures HexF(s, write, events) == Ok(s.(dt := s.registers[X(write)]))
    ensures HexF(s.(dt := s.registers[X(write)]), read, events).Ok?
    ensures HexF(s.(dt := s.registers[X(write)]), read, events).state.registers[X(read)] == s.registers[X(write)]
  {
    HexFDispatch(s, write, events);
    HexFDispatch(s.(dt := s.registers[X(write)]), read, events);
  }

  /** FX18 sets the sound timer to VX; nothing else changes. */
  lemma SoundTimerSet(s: State, op: bv16, events: seq<Keypad.Event>)
    requires Valid(s) && NN(op) == 0x18
    ensures HexF(s, op, events) == Ok(s.(st := s.registers[X(op)]))
  {
    HexFDispatch(s, op, events);
  }

  /** FX1E adds VX to I modulo 2^16 and sets VF when the exact sum passes
      0xFFF. The flag is written first, so FF1E adds the new flag to I. */
  lemma IndexAdvance(s: State, x: int)
    requires Valid(s) && 0 <= x < NumRegisters
    ensures AddToI(s, x).registers[VF] == 1 <==> SumExceeds(s.I, s.registers[x], 0xFFF)
    ensures x != VF ==> AddToI(s, x).I == AddByte(s.I, s.registers[x])
    ensures x == VF ==> AddToI(s, x).I == AddByte(s.I, AddToI(s, x).registers[VF])
    ensures forall k :: 0 <= k < NumRegisters && k != VF ==> AddToI(s, x).registers[k] == s.registers[k]
  {
  }

  /** FX29 points I at the glyph of the digit in VX: the five bytes there
      are that digit's glyph as long as the font is in place. */
  lemma GlyphOfDigit(s: State, x: int)
    requires Valid(s) && 0 <= x < NumRegisters && s.registers[x] < 16
    requires s.memory[..|Font|] == Font
    ensures PointToGlyph(s, x).I as int == 5 * s.registers[x] as int
    ensures var a := PointToGlyph(s, x).I as int;
      PointToGlyph(s, x).memory[a .. a + 5] == Font[a .. a + 5]
  {
    var t := PointToGlyph(s, x);
    GlyphAddressExact(s.registers[x]);
    GlyphInFont(s.registers[x]);
    var a := t.I as int;
    assert t.memory == s.memory;
    assert a + 5 <= |Font| <= |s.memory|;
    assert forall j :: a <= j < a + 5 ==> s.memory[j] == s.memory[..|Font|][j];
    assert s.memory[a .. a + 5] == s.memory[..|Font|][a .. a + 5];
  }

  /** The glyph of a digit lies inside the font. */
  lemma GlyphInFont(d: bv8)
    requires d < 16
    ensures GlyphAddress(d) as int + 5 <= |Font|
  {
  }

  /** FX0A skips the events that are not a key press of a mapped key and
      stores the key of the first that is. */
  lemma WaitStoresKey(s: State, x: int, skipped: seq<Keypad.Event>, k: int, rest: seq<Keypad.Event>)
    requires Valid(s) && 0 <= x < NumRegisters
    requires forall j :: 0 <= j < |skipped| ==> !Keypad.Accepts(skipped[j])
    requires 0 <= k < Keypad.NumKeys
    ensures WaitForKey(s, x, skipped + [Keypad.KeyDown(Keypad.KeyLookup[k])] + rest)
      == s.(registers := s.registers[x := k as bv8])
  {
    Keypad.WaitEndsWithKey(skipped, k, rest);
  }

  /** When the events end without a key press, nothing changes. */
  lemma WaitWithoutKey(s: State, x: int, events: seq<Keypad.Event>)
    requires Valid(s) && 0 <= x < NumRegisters
    requires forall j :: 0 <= j < |events| ==> !Keypad.Accepts(events[j])
    ensures WaitForKey(s, x, events) == s
  {
  }
}
