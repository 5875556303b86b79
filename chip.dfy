/** The interpreter object itself: the fixed-size memory, register, stack and
    display buffers as arrays, the scalar registers and flags as fields, and
    one method per handler that updates them in place. Each method is proved
    to take the object from the state `Abs()` to the state the corresponding
    function of `Machine` computes, so every law proved about those functions
    holds of the object. */
module Emulator {
  import opened Nibbles
  import opened Machine
  import Sprite
  import Keypad
  import StorageLaws
  import ControlFlow

  /** A register compared with an instruction field: the byte is widened
      to the field's 16 bits. */
  predicate Widens(v: bv8, field: bv16) {
    v as bv16 == field
  }

  lemma WidensNN(v: bv8, op: bv16)
    ensures Widens(v, Field(op, 2, 2)) <==> v == NN(op)
  {
  }

  /** The skip condition in terms of the decoded fields. */
  lemma SkipTakenByFields(v: seq<bv8>, op: bv16, x: bv16, f: bv16, nn: bv16, y: bv16)
    requires |v| == NumRegisters
    requires x == Field(op, 1, 1) && f == Field(op, 0, 1) && nn == Field(op, 2, 2) && y == Field(op, 2, 1)
    ensures SkipTaken(v, op) <==>
      (f == 3 && Widens(v[x], nn)) || (f == 4 && !Widens(v[x], nn))
      || (f == 5 && v[x] == v[y]) || (f == 9 && v[x] != v[y])
  {
    WidensNN(v[x], op);
  }

  /** A state that differs from `s` in pc only, by the skip the condition
      selects, is the skip handler's result. */
  lemma SkipGlue(s: State, op: bv16, skip: bool, t: State)
    requires Machine.Valid(s) && skip == SkipTaken(s.registers, op)
    requires t == s.(pc := if skip then s.pc + 2 else s.pc)
    ensures t == Machine.SkipNextInstruction(s, op)
  {
  }

  /** A state that differs from `s` in register X only, which holds the
      byte sum of VX and NN, is the 7XNN handler's result. */
  lemma Hex7Glue(s: State, op: bv16, x: bv16, nn: bv16, t: State)
    requires Machine.Valid(s) && x == Field(op, 1, 1) && nn == Field(op, 2, 2)
    requires t == s.(registers := s.registers[x as int := s.registers[x as int] + nn as bv8])
    ensures t == Machine.Hex7(s, op)
  {
  }

  /** A state that differs from `s` at most in a pc advanced by the skip
      that the sub-instruction `nn` and the key state select is the EX__
      handler's result. */
  lemma HexEGlue(s: State, op: bv16, keyboard: seq<bool>, down: bool, nn: bv16, ok: bool, t: State)
    requires Machine.Valid(s) && KeyDefined(s, op, keyboard)
    requires down == KeyDown(s, op, keyboard) && nn == Field(op, 2, 2)
    requires ok <==> nn == 0x9E || nn == 0xA1
    requires ok ==> t == s.(pc := if down == (nn == 0x9E) then s.pc + 2 else s.pc)
    ensures ok <==> Machine.HexE(s, op, keyboard).Ok?
    ensures ok ==> Machine.HexE(s, op, keyboard) == Ok(t)
  {
  }

  /** A state that differs from `s` in its registers only, by the update
      `Alu` computes, is the 8XYn handler's result. */
  lemma Hex8Glue(s: State, op: bv16, ok: bool, t: State)
    requires Machine.Valid(s)
    requires ok <==> Alu(s.registers, X(op), Y(op), N(op)).Some?
    requires ok ==> t == s.(registers := Alu(s.registers, X(op), Y(op), N(op)).value)
    ensures ok <==> Machine.Hex8(s, op).Ok?
    ensures ok ==> Machine.Hex8(s, op) == Ok(t)
  {
  }

  /** The 16-bit sum of 8XY4 yields the carry and the byte sum. */
  lemma SumParts(a: bv8, b: bv8)
    ensures Bit(a as bv16 + b as bv16 > 255) == AluFlag(4, a, b)
    ensures ((a as bv16 + b as bv16) & 0xFF) as bv8 == AluResult(4, a, b)
  {
  }

  /** The 8XYn that leave VF alone: VX := the result. */
  lemma ResultOnly(v: seq<bv8>, x: int, y: int, n: bv16, d: bv8, r: seq<bv8>)
    requires |v| == NumRegisters && 0 <= x < NumRegisters && 0 <= y < NumRegisters
    requires n <= 3 && d == AluResult(n, v[x], v[y]) && r == v[x := d]
    ensures Alu(v, x, y, n).Some? && r == Alu(v, x, y, n).value
  {
  }

  /** 8XY5, 8XY6, 8XY7 and 8XYE: the flag `f` is written first, the
      operands `c` and `e` are read back after it, and their result `d` goes
      to VX, leaving `r`. */
  lemma FlagThenResult(v: seq<bv8>, x: int, y: int, n: bv16, f: bv8, c: bv8, e: bv8, d: bv8, r: seq<bv8>)
    requires |v| == NumRegisters && 0 <= x < NumRegisters && 0 <= y < NumRegisters
    requires WritesFlag(n) && n != 4
    requires f == AluFlag(n, v[x], v[y]) && c == v[VF := f][x] && e == v[VF := f][y]
    requires d == AluResult(n, c, e) && r == v[VF := f][x := d]
    ensures Alu(v, x, y, n).Some? && r == Alu(v, x, y, n).value
  {
  }

  /** A state whose registers differ from `s` in VF only, holding the
      collision flag of drawing the sprite on the screen of `s`, whose
      screen is the drawing and whose draw flag is set, is the result of
      drawing that sprite. */
  lemma DrawGlue(s: State, x: bv8, y: bv8, sprite: seq<bv8>, t: State)
    requires Machine.Valid(s) && Sprite.Fits(Sprite.Cells, x, y, Sprite.Pattern(sprite))
    requires Machine.Valid(t) && (t.registers[VF] == 0 || t.registers[VF] == 1)
    requires forall k :: 0 <= k < NumRegisters && k != VF ==> t.registers[k] == s.registers[k]
    requires Sprite.Canvas(t.display, t.registers[VF] == 1)
      == Sprite.DrawRows(Sprite.Canvas(s.display, false), x, y, Sprite.Pattern(sprite), |sprite|)
    requires t == s.(registers := t.registers, display := t.display, drawFlag := true)
    ensures t == Machine.DrawAt(s, x, y, sprite)
  {
  }

  /** What is left of the byte `r` when the FX33 loop comes to digit `i`:
      the digits after position `i` have been divided off. */
  function Remaining(r: bv8, i: int): bv8
    requires 0 <= i <= 2
  {
    if i == 2 then r else if i == 1 then Tenth(r) else Tenth(Tenth(r))
  }

  /** Chip.cpp's `v /= 10`. */
  function Tenth(v: bv8): bv8 {
    v / 10
  }

  /** One step of the FX33 loop yields digit `i` and leaves what the next
      step needs. */
  lemma DigitStep(r: bv8, i: int, v: bv8)
    requires 0 <= i <= 2 && v == Remaining(r, i)
    ensures v % 10 == Bcd(r)[i]
    ensures i > 0 ==> Tenth(v) == Remaining(r, i - 1)
  {
  }

  class Chip {
    const memory: array<bv8>
    const registers: array<bv8>
    const stack: array<bv16>
    const display: array<bv8>
    var I: bv16
    var pc: bv16
    var sp: bv8
    var st: bv8
    var dt: bv8
    var drawFlag: bool
    /** Set by the jump handlers, cleared at the start of every cycle. */
    var jumpFlag: bool

    /** The buffers have their fixed sizes and are distinct; the stack
        pointer is at most the stack's depth. */
    ghost predicate Valid()
      reads this
    {
      memory.Length == MemorySize && registers.Length == NumRegisters
      && stack.Length == StackDepth && display.Length == Sprite.Cells
      && memory != registers && memory != display && registers != display
      && sp as int <= StackDepth
    }

    /** The machine state the object holds (the jump flag is not part of it:
        it only carries information within one cycle). */
    ghost function Abs(): State
      reads this, memory, registers, stack, display
    {
      State(memory[..], registers[..], I, pc, sp, stack[..], st, dt, display[..], drawFlag)
    }

    /** Power-on: every buffer zeroed, the glyphs copied to 0 .. 79, the
        screen marked for redrawing, execution from 0x200. */
    constructor ()
      ensures Valid() && Abs() == Init() && !jumpFlag
      ensures fresh(memory) && fresh(registers) && fresh(stack) && fresh(display)
    {
      memory := new bv8[MemorySize];
      registers := new bv8[NumRegisters];
      stack := new bv16[StackDepth];
      display := new bv8[Sprite.Cells];
      drawFlag := true;
      I := 0;
      pc := ProgramStart;
      sp := 0;
      st := 0;
      dt := 0;
      jumpFlag := false;
      new;
      ClearBytes(memory);
      ClearBytes(registers);
      ClearWords(stack);
      ClearBytes(display);
      CopyFont(memory);
      assert display[..] == BlankDisplay();
    }

    /** `memset(a, 0, ...)` on a byte array. */
    static method ClearBytes(a: array<bv8>)
      modifies a
      ensures a[..] == Zeros(a.Length)
    {
      forall k | 0 <= k < a.Length {
        a[k] := 0;
      }
    }

    /** `memset(a, 0, ...)` on the stack. */
    static method ClearWords(a: array<bv16>)
      modifies a
      ensures a[..] == seq(a.Length, _ => 0 as bv16)
    {
      forall k | 0 <= k < a.Length {
        a[k] := 0;
      }
    }

    /** The glyph bytes are copied to addresses 0 .. 79 of cleared memory. */
    static method CopyFont(memory: array<bv8>)
      requires memory.Length == MemorySize && memory[..] == Zeros(MemorySize)
      modifies memory
      ensures memory[..] == Font + Zeros(MemorySize - |Font|)
    {
      for i := 0 to |Font|
        invariant forall k :: 0 <= k < i ==> memory[k] == Font[k]
        invariant forall k :: i <= k < MemorySize ==> memory[k] == 0
      {
        memory[i] := Font[i];
      }
      ghost var image := Font + Zeros(MemorySize - |Font|);
      assert forall k | 0 <= k < MemorySize :: memory[..][k] == image[k];
    }

    /** The program image is read into memory from 0x200. */
    method LoadRom(rom: seq<bv8>)
      requires Valid() && |rom| <= MemorySize - ProgramStart as int
      modifies memory
      ensures Abs() == Machine.LoadRom(old(Abs()), rom)
    {
      forall k | 0 <= k < |rom| {
        memory[ProgramStart as int + k] := rom[k];
      }
      StorageLaws.PokeByAddress(old(memory[..]), ProgramStart as int, rom, memory[..]);
    }

    /** 00E0, 00EE and 0NNN. */
    method Hex0(op: bv16)
      requires Valid() && (op == 0x00EE ==> sp > 0)
      modifies this, display
      ensures Valid() && Abs() == Machine.Hex0(old(Abs()), op) && jumpFlag == old(jumpFlag)
    {
      ghost var s := Abs();
      if op == 0x00E0 {
        forall k | 0 <= k < display.Length {
          display[k] := 0;
        }
        drawFlag := true;
        assert forall k | 0 <= k < Sprite.Cells :: display[..][k] == BlankDisplay()[k];
        assert display[..] == BlankDisplay();
        assert Abs() == s.(display := BlankDisplay(), drawFlag := true);
      } else if op == 0x00EE {
        sp := sp - 1;
        pc := stack[sp];
        assert Abs() == s.(sp := sp, pc := pc);
      }
    }

    /** 1NNN and 2NNN. */
    method GoToAddress(op: bv16)
      requires Valid() && (Family(op) == 2 ==> sp as int < StackDepth)
      modifies this, stack
      ensures Valid() && Abs() == Machine.GoToAddress(old(Abs()), op) && jumpFlag
    {
      var f := GetHex(op, 0, 1);
      if f == 2 {
        stack[sp] := pc;
        sp := sp + 1;
      }
      var address := GetHex(op, 1, 3);
      pc := address;
      jumpFlag := true;
    }

    /** 3XNN, 4XNN, 5XY_ and 9XY_. */
    method SkipNextInstruction(op: bv16)
      requires Valid()
      modifies this
      ensures Valid() && Abs() == Machine.SkipNextInstruction(old(Abs()), op) && jumpFlag == old(jumpFlag)
    {
      var skip := SkipCondition(op);
      if skip {
        pc := pc + 2;
      }
      SkipGlue(old(Abs()), op, skip, Abs());
    }

    /** The condition of the skip instructions, read off the registers. */
    method SkipCondition(op: bv16) returns (skip: bool)
      requires Valid()
      ensures skip == SkipTaken(registers[..], op)
    {
      var x := GetHex(op, 1, 1);
      var f := GetHex(op, 0, 1);
      var nn := GetHex(op, 2, 2);
      var y := GetHex(op, 2, 1);
      var vx := registers[x];
      var vy := registers[y];
      SkipTakenByFields(registers[..], op, x, f, nn, y);
      skip := false;
      if f == 3 {
        skip := Widens(vx, nn);
      } else if f == 4 {
        skip := !Widens(vx, nn);
      } else if f == 5 {
        skip := vx == vy;
      } else if f == 9 {
        skip := vx != vy;
      }
    }

    /** 6XNN. */
    method Hex6(op: bv16)
      requires Valid()
      modifies registers
      ensures Abs() == Machine.Hex6(old(Abs()), op)
    {
      var nn := GetHex(op, 2, 2);
      assert nn == NN(op) as bv16;
      var x := GetHex(op, 1, 1);
      registers[x] := nn as bv8;
    }

    /** 7XNN. */
    method Hex7(op: bv16)
      requires Valid()
      modifies registers
      ensures Abs() == Machine.Hex7(old(Abs()), op)
    {
      var x := GetHex(op, 1, 1);
      var nn := GetHex(op, 2, 2);
      AddImmediate(x as int, nn as bv8);
      Hex7Glue(old(Abs()), op, x, nn, Abs());
    }

    /** VX += NN, wrapping at a byte. */
    method AddImmediate(x: int, nn: bv8)
      requires Valid() && 0 <= x < NumRegisters
      modifies registers
      ensures registers[..] == old(registers[..])[x := old(registers[x]) + nn]
    {
      registers[x] := registers[x] + nn;
    }

    /** 8XYn; `false` for an `n` the interpreter does not handle. */
    method Hex8(op: bv16) returns (ok: bool)
      requires Valid()
      modifies registers
      ensures ok <==> Machine.Hex8(old(Abs()), op).Ok?
      ensures ok ==> Machine.Hex8(old(Abs()), op) == Ok(Abs())
    {
      var x := GetHex(op, 1, 1);
      var y := GetHex(op, 2, 1);
      var n := GetHex(op, 3, 1);
      ok := Arithmetic(x as int, y as int, n);
      Hex8Glue(old(Abs()), op, ok, Abs());
    }

    /** The register updates of 8XYn. */
    method Arithmetic(x: int, y: int, n: bv16) returns (ok: bool)
      requires Valid() && 0 <= x < NumRegisters && 0 <= y < NumRegisters
      modifies registers
      ensures ok <==> Alu(old(registers[..]), x, y, n).Some?
      ensures ok ==> registers[..] == Alu(old(registers[..]), x, y, n).value
    {
      ok := true;
      if n <= 0x3 {
        Logic(x, y, n);
      } else if n == 0x4 {
        Sum(x, y);
      } else if n == 0x5 {
        Subtract(x, y);
      } else if n == 0x6 {
        ShiftRight(x, y);
      } else if n == 0x7 {
        SubtractReversed(x, y);
      } else if n == 0xE {
        ShiftLeft(x, y);
      } else {
        ok := false;
      }
    }

    /** 8XY0 to 8XY3: VX := VY, VX | VY, VX & VY or VX ^ VY. */
    method Logic(x: int, y: int, n: bv16)
      requires Valid() && 0 <= x < NumRegisters && 0 <= y < NumRegisters && n <= 3
      modifies registers
      ensures Alu(old(registers[..]), x, y, n).Some?
      ensures registers[..] == Alu(old(registers[..]), x, y, n).value
    {
      ghost var v := registers[..];
      var vx, vy := registers[x], registers[y];
      var result := LogicResult(n, vx, vy);
      registers[x] := result;
      ResultOnly(v, x, y, n, result, registers[..]);
    }

    /** The value 8XY0 to 8XY3 store in VX, by the sub-instruction. */
    static method LogicResult(n: bv16, vx: bv8, vy: bv8) returns (result: bv8)
      requires n <= 3
      ensures result == AluResult(n, vx, vy)
    {
      if n == 0x0 {
        result := vy;
      } else if n == 0x1 {
        result := vx | vy;
      } else if n == 0x2 {
        result := vx & vy;
      } else {
        result := vx ^ vy;
      }
    }

    /** 8XY4: the 16-bit sum is taken first; its carry goes to VF, then its
        low byte to VX. */
    method Sum(x: int, y: int)
      requires Valid() && 0 <= x < NumRegisters && 0 <= y < NumRegisters
      modifies registers
      ensures Alu(old(registers[..]), x, y, 4).Some?
      ensures registers[..] == Alu(old(registers[..]), x, y, 4).value
    {
      var a, b := registers[x], registers[y];
      var result: bv16 := a as bv16 + b as bv16;
      SumParts(a, b);
      registers[VF] := Bit(result > 255);
      registers[x] := (result & 0xFF) as bv8;
    }

    /** 8XY5: VF := whether VX > VY, then VX := VX - VY, read once the flag
        is written. */
    method Subtract(x: int, y: int)
      requires Valid() && 0 <= x < NumRegisters && 0 <= y < NumRegisters
      modifies registers
      ensures Alu(old(registers[..]), x, y, 5).Some?
      ensures registers[..] == Alu(old(registers[..]), x, y, 5).value
    {
      ghost var v := registers[..];
      var flag := Bit(registers[x] > registers[y]);
      registers[VF] := flag;
      var vx, vy := registers[x], registers[y];
      var result := vx - vy;
      registers[x] := result;
      FlagThenResult(v, x, y, 5, flag, vx, vy, result, registers[..]);
    }

    /** 8XY6: VF := the low bit of VX, then VX, read once the flag is
        written, shifted right by one. */
    method ShiftRight(x: int, y: int)
      requires Valid() && 0 <= x < NumRegisters && 0 <= y < NumRegisters
      modifies registers
      ensures Alu(old(registers[..]), x, y, 6).Some?
      ensures registers[..] == Alu(old(registers[..]), x, y, 6).value
    {
      ghost var v := registers[..];
      var flag := registers[x] & 0x1;
      registers[VF] := flag;
      var vx, vy := registers[x], registers[y];
      var result := vx >> 1;
      registers[x] := result;
      FlagThenResult(v, x, y, 6, flag, vx, vy, result, registers[..]);
    }

    /** 8XY7: VF := whether VY > VX, then VX := VY - VX, read once the flag
        is written. */
    method SubtractReversed(x: int, y: int)
      requires Valid() && 0 <= x < NumRegisters && 0 <= y < NumRegisters
      modifies registers
      ensures Alu(old(registers[..]), x, y, 7).Some?
      ensures registers[..] == Alu(old(registers[..]), x, y, 7).value
    {
      ghost var v := registers[..];
      var flag := Bit(registers[y] > registers[x]);
      registers[VF] := flag;
      var vx, vy := registers[x], registers[y];
      var result := vy - vx;
      registers[x] := result;
      FlagThenResult(v, x, y, 7, flag, vx, vy, result, registers[..]);
    }

    /** 8XYE: VF := the high bit of VX, then VX, read once the flag is
        written, shifted left by one. */
    method ShiftLeft(x: int, y: int)
      requires Valid() && 0 <= x < NumRegisters && 0 <= y < NumRegisters
      modifies registers
      ensures Alu(old(registers[..]), x, y, 0xE).Some?
      ensures registers[..] == Alu(old(registers[..]), x, y, 0xE).value
    {
      ghost var v := registers[..];
      var flag := Bit(registers[x] & 0x80 > 0);
      registers[VF] := flag;
      var vx, vy := registers[x], registers[y];
      var result := vx << 1;
      registers[x] := result;
      FlagThenResult(v, x, y, 0xE, flag, vx, vy, result, registers[..]);
    }

    /** ANNN. */
    method HexA(op: bv16)
      requires Valid()
      modifies this
      ensures Valid() && Abs() == Machine.HexA(old(Abs()), op) && jumpFlag == old(jumpFlag)
    {
      I := GetHex(op, 1, 3);
    }

    /** BNNN. */
    method HexB(op: bv16)
      requires Valid()
      modifies this
      ensures Valid() && Abs() == Machine.HexB(old(Abs()), op) && jumpFlag
    {
      var nnn := GetHex(op, 1, 3);
      var v0 := registers[0];
      pc := AddByte(nnn, v0);
      jumpFlag := true;
    }

    /** CXNN, given the byte the random number generator returns. */
    method HexC(op: bv16, random: bv8)
      requires Valid()
      modifies registers
      ensures Abs() == Machine.HexC(old(Abs()), op, random)
    {
      var nn := GetHex(op, 2, 2);
      assert nn == NN(op) as bv16;
      var x := GetHex(op, 1, 1);
      registers[x] := random & nn as bv8;
    }

    /** DXYN: VF cleared, then every lit pixel of every row flips its cell,
        setting VF when the cell was on. */
    method HexD(op: bv16)
      requires Valid() && DrawDefined(memory[..], registers[..], I, op)
      modifies this, registers, display
      ensures Valid() && Abs() == Machine.HexD(old(Abs()), op) && jumpFlag == old(jumpFlag)
    {
      var vx := GetHex(op, 1, 1);
      var vy := GetHex(op, 2, 1);
      var height := GetHex(op, 3, 1);
      DrawAt(registers[vx], registers[vy], I as int, height as int, SpriteAt(memory[..], I, op));
    }

    /** The body of DXYN once decoded: VF cleared, the sprite of `height`
        rows at `at` drawn at `(x, y)`, the draw flag set. */
    method DrawAt(x: bv8, y: bv8, at: int, height: int, ghost sprite: seq<bv8>)
      requires Valid() && 0 <= at && |sprite| == height
      requires height > 0 ==> at + height <= MemorySize && sprite == memory[at .. at + height]
      requires Sprite.Fits(Sprite.Cells, x, y, Sprite.Pattern(sprite))
      modifies this, registers, display
      ensures Valid() && Abs() == Machine.DrawAt(old(Abs()), x, y, sprite)
      ensures jumpFlag == old(jumpFlag)
    {
      registers[VF] := 0;
      DrawSprite(x, y, at, height, sprite);
      drawFlag := true;
      DrawGlue(old(Abs()), x, y, sprite, Abs());
    }

    /** The screen and the collision flag VF, as drawing sees them. */
    ghost function Screen(): Sprite.Canvas
      requires Valid()
      reads this, registers, display
    {
      Sprite.Canvas(display[..], registers[VF] == 1)
    }

    /** The row loop of DXYN: rows `0 .. height-1` of the sprite at `at`, drawn
        at `(x, y)`. */
    method DrawSprite(x: bv8, y: bv8, at: int, height: int, ghost sprite: seq<bv8>)
      requires Valid() && 0 <= at && |sprite| == height
      requires height > 0 ==> at + height <= MemorySize && sprite == memory[at .. at + height]
      requires Sprite.Fits(Sprite.Cells, x, y, Sprite.Pattern(sprite))
      requires registers[VF] == 0 || registers[VF] == 1
      modifies registers, display
      ensures Valid() && (registers[VF] == 0 || registers[VF] == 1)
      ensures Screen() == Sprite.DrawRows(old(Screen()), x, y, Sprite.Pattern(sprite), |sprite|)
      ensures forall k :: 0 <= k < NumRegisters && k != VF ==> registers[k] == old(registers[k])
    {
      ghost var s0 := Screen();
      var yline := 0;
      while yline < height
        invariant 0 <= yline <= height
        invariant Screen() == Sprite.DrawRows(s0, x, y, Sprite.Pattern(sprite), yline)
        invariant registers[VF] == 0 || registers[VF] == 1
        invariant forall k :: 0 <= k < NumRegisters && k != VF ==> registers[k] == old(registers[k])
      {
        DrawSpriteStep(x, y, at, yline, sprite, s0);
        yline := yline + 1;
      }
    }

    /** One pass of the row loop: row `yline` is read from memory and
        drawn. */
    method DrawSpriteStep(x: bv8, y: bv8, at: int, yline: int, ghost sprite: seq<bv8>, ghost s0: Sprite.Canvas)
      requires Valid() && 0 <= at && 0 <= yline < |sprite| && at + |sprite| <= MemorySize
      requires sprite == memory[at .. at + |sprite|]
      requires |s0.cells| == Sprite.Cells && Sprite.Fits(Sprite.Cells, x, y, Sprite.Pattern(sprite))
      requires registers[VF] == 0 || registers[VF] == 1
      requires Screen() == Sprite.DrawRows(s0, x, y, Sprite.Pattern(sprite), yline)
      modifies registers, display
      ensures Valid() && (registers[VF] == 0 || registers[VF] == 1)
      ensures Screen() == Sprite.DrawRows(s0, x, y, Sprite.Pattern(sprite), yline + 1)
      ensures forall k :: 0 <= k < NumRegisters && k != VF ==> registers[k] == old(registers[k])
    {
      var pixel := memory[at + yline];
      ghost var before := Screen();
      Sprite.RowOfSprite(Sprite.Cells, x, y, sprite, yline, pixel);
      DrawSpriteRow(x, y, yline, pixel);
      Sprite.DrawRowsStep(s0, x, y, sprite, yline, before, pixel, Screen());
    }

    /** The column loop of DXYN: the eight pixels of row `yline`, left to
        right. */
    method DrawSpriteRow(x: bv8, y: bv8, yline: int, pixel: bv8)
      requires Valid() && 0 <= yline
      requires Sprite.RowFits(Sprite.Cells, x, y, yline, Sprite.Bits(pixel))
      requires registers[VF] == 0 || registers[VF] == 1
      modifies registers, display
      ensures Valid() && (registers[VF] == 0 || registers[VF] == 1)
      ensures Screen() == Sprite.DrawRow(old(Screen()), x, y, yline, Sprite.Bits(pixel), 8)
      ensures forall k :: 0 <= k < NumRegisters && k != VF ==> registers[k] == old(registers[k])
    {
      var xline := 0;
      while xline < 8
        invariant 0 <= xline <= 8
        invariant Screen() == Sprite.DrawRow(old(Screen()), x, y, yline, Sprite.Bits(pixel), xline)
        invariant registers[VF] == 0 || registers[VF] == 1
        invariant forall k :: 0 <= k < NumRegisters && k != VF ==> registers[k] == old(registers[k])
      {
        DrawPixel(x, y, yline, pixel, xline, old(Screen()));
        xline := xline + 1;
      }
    }

    /** One pass of the column loop: pixel `xline` of the row, tested with
        the mask `0x80 >> xline`, flips its cell when lit. */
    method DrawPixel(x: bv8, y: bv8, yline: int, pixel: bv8, xline: int, ghost d0: Sprite.Canvas)
      requires Valid() && 0 <= yline && 0 <= xline < 8 && |d0.cells| == Sprite.Cells
      requires Sprite.RowFits(Sprite.Cells, x, y, yline, Sprite.Bits(pixel))
      requires registers[VF] == 0 || registers[VF] == 1
      requires Screen() == Sprite.DrawRow(d0, x, y, yline, Sprite.Bits(pixel), xline)
      modifies registers, display
      ensures Valid() && (registers[VF] == 0 || registers[VF] == 1)
      ensures Screen() == Sprite.DrawRow(d0, x, y, yline, Sprite.Bits(pixel), xline + 1)
      ensures forall k :: 0 <= k < NumRegisters && k != VF ==> registers[k] == old(registers[k])
    {
      Sprite.BitsByShift(pixel, xline);
      if pixel & (0x80 >> xline) != 0 {
        FlipCell(x as int + xline + (y as int + yline) * 64);
      }
    }

    /** One lit pixel: VF := 1 when the cell under it is on, then the cell
        flips. */
    method FlipCell(k: int)
      requires Valid() && 0 <= k < Sprite.Cells
      requires registers[VF] == 0 || registers[VF] == 1
      modifies registers, display
      ensures Valid() && (registers[VF] == 0 || registers[VF] == 1)
      ensures Screen() == Sprite.Plot(old(Screen()), k)
      ensures forall k :: 0 <= k < NumRegisters && k != VF ==> registers[k] == old(registers[k])
    {
      if display[k] == 1 {
        registers[VF] := 1;
      }
      display[k] := display[k] ^ 1;
    }

    /** EX9E and EXA1, given the host's keyboard state; `false` for any
        other EX__. */
    method HexE(op: bv16, keyboard: seq<bool>) returns (ok: bool)
      requires Valid() && KeyDefined(Abs(), op, keyboard)
      modifies this
      ensures Valid() && jumpFlag == old(jumpFlag)
      ensures ok <==> Machine.HexE(old(Abs()), op, keyboard).Ok?
      ensures ok ==> Machine.HexE(old(Abs()), op, keyboard) == Ok(Abs())
    {
      var keyState := KeyState(op, keyboard);
      var nn := GetHex(op, 2, 2);
      ok := true;
      if nn == 0x9E {
        if keyState {
          pc := pc + 2;
        }
      } else if nn == 0xA1 {
        if !keyState {
          pc := pc + 2;
        }
      } else {
        ok := false;
      }
      HexEGlue(old(Abs()), op, keyboard, keyState, nn, ok, Abs());
    }

    /** Whether the key VX names is down: its scancode is looked up in the
        table, then in the host's keyboard state. */
    method KeyState(op: bv16, keyboard: seq<bool>) returns (down: bool)
      requires Valid() && KeyDefined(Abs(), op, keyboard)
      ensures down == KeyDown(Abs(), op, keyboard)
    {
      var x := GetHex(op, 1, 1);
      Keypad.KeyLookupDistinct();
      down := keyboard[Keypad.KeyLookup[registers[x]]];
    }

    /** FX__; `false` for a low byte the interpreter does not handle. */
    method HexF(op: bv16, events: seq<Keypad.Event>) returns (ok: bool)
      requires Valid() && StoreDefined(Abs(), op)
      modifies this, memory, registers
      ensures Valid() && jumpFlag == old(jumpFlag)
      ensures ok <==> Machine.HexF(old(Abs()), op, events).Ok?
      ensures ok ==> Machine.HexF(old(Abs()), op, events) == Ok(Abs())
    {
      var nn := GetHex(op, 2, 2);
      assert nn == NN(op) as bv16;
      if nn == 0x07 || nn == 0x0A || nn == 0x15 || nn == 0x18 {
        ok := HexFTimersAndKeys(op, events);
      } else if nn == 0x1E || nn == 0x29 {
        ok := HexFIndex(op, events);
      } else if nn == 0x33 || nn == 0x55 || nn == 0x65 {
        ok := HexFMemory(op, events);
      } else {
        StorageLaws.HexFDispatch(Abs(), op, events);
        ok := false;
      }
    }

    /** FX07, FX0A, FX15 and FX18. */
    method HexFTimersAndKeys(op: bv16, events: seq<Keypad.Event>) returns (ok: bool)
      requires Valid() && StoreDefined(Abs(), op)
      requires NN(op) == 0x07 || NN(op) == 0x0A || NN(op) == 0x15 || NN(op) == 0x18
      modifies this, registers
      ensures Valid() && jumpFlag == old(jumpFlag)
      ensures ok <==> Machine.HexF(old(Abs()), op, events).Ok?
      ensures ok ==> Machine.HexF(old(Abs()), op, events) == Ok(Abs())
    {
      StorageLaws.HexFDispatch(Abs(), op, events);
      var vx := GetHex(op, 1, 1);
      var nn := GetHex(op, 2, 2);
      assert nn == NN(op) as bv16;
      ok := true;
      if nn == 0x0A {
        WaitForKey(vx as int, events);
      } else {
        TransferTimer(vx as int, nn as bv8);
      }
    }

    /** FX1E and FX29. */
    method HexFIndex(op: bv16, events: seq<Keypad.Event>) returns (ok: bool)
      requires Valid() && StoreDefined(Abs(), op)
      requires NN(op) == 0x1E || NN(op) == 0x29
      modifies this, registers
      ensures Valid() && jumpFlag == old(jumpFlag)
      ensures ok <==> Machine.HexF(old(Abs()), op, events).Ok?
      ensures ok ==> Machine.HexF(old(Abs()), op, events) == Ok(Abs())
    {
      StorageLaws.HexFDispatch(Abs(), op, events);
      var vx := GetHex(op, 1, 1);
      var nn := GetHex(op, 2, 2);
      assert nn == NN(op) as bv16;
      ok := true;
      if nn == 0x1E {
        AddToIndex(vx as int);
      } else {
        PointToGlyph(vx as int);
      }
    }

    /** FX33, FX55 and FX65. */
    method HexFMemory(op: bv16, events: seq<Keypad.Event>) returns (ok: bool)
      requires Valid() && StoreDefined(Abs(), op)
      requires NN(op) == 0x33 || NN(op) == 0x55 || NN(op) == 0x65
      modifies memory, registers
      ensures Valid() && jumpFlag == old(jumpFlag)
      ensures ok <==> Machine.HexF(old(Abs()), op, events).Ok?
      ensures ok ==> Machine.HexF(old(Abs()), op, events) == Ok(Abs())
    {
      StorageLaws.HexFDispatch(Abs(), op, events);
      var vx := GetHex(op, 1, 1);
      var nn := GetHex(op, 2, 2);
      assert nn == NN(op) as bv16;
      ok := true;
      if nn == 0x33 {
        StoreDigits(vx as int);
      } else if nn == 0x55 {
        SaveRegisters(vx as int);
      } else {
        RestoreRegisters(vx as int);
      }
    }

    /** FX07: VX := delay timer; FX15: delay timer := VX; FX18: sound timer
        := VX. */
    method TransferTimer(x: int, nn: bv8)
      requires Valid() && 0 <= x < NumRegisters
      modifies this, registers
      ensures Valid() && Abs() == Timers(old(Abs()), x, nn) && jumpFlag == old(jumpFlag)
    {
      if nn == 0x07 {
        registers[x] := dt;
      } else if nn == 0x15 {
        dt := registers[x];
      } else {
        st := registers[x];
      }
    }

    /** FX1E: VF := whether I + VX passes 0xFFF, then I := I + VX, with VX
        read once the flag is written. */
    method AddToIndex(x: int)
      requires Valid() && 0 <= x < NumRegisters
      modifies this, registers
      ensures Valid() && Abs() == AddToI(old(Abs()), x) && jumpFlag == old(jumpFlag)
    {
      var vx := registers[x];
      registers[VF] := Bit(SumExceeds(I, vx, 0xFFF));
      I := AddByte(I, registers[x]);
    }

    /** FX29: I := VX * 5. */
    method PointToGlyph(x: int)
      requires Valid() && 0 <= x < NumRegisters
      modifies this
      ensures Valid() && Abs() == Machine.PointToGlyph(old(Abs()), x) && jumpFlag == old(jumpFlag)
    {
      I := registers[x] as bv16 * 5;
    }

    /** FX0A: take events until a key-down of a mapped scancode; store its
        key in VX. When the events run out, VX is left as it was. */
    method WaitForKey(x: int, events: seq<Keypad.Event>)
      requires Valid() && 0 <= x < NumRegisters
      modifies registers
      ensures Abs() == Machine.WaitForKey(old(Abs()), x, events)
    {
      var i := 0;
      while i < |events|
        invariant 0 <= i <= |events|
        invariant forall j :: 0 <= j < i ==> !Keypad.Accepts(events[j])
        invariant registers[..] == old(registers[..])
      {
        if events[i].KeyDown? {
          var chipKey := Keypad.LookupScancode(events[i].scancode);
          if chipKey < Keypad.NumKeys {
            Keypad.FirstKeyAt(events, i);
            registers[x] := chipKey as bv8;
            return;
          }
        }
        i := i + 1;
      }
      Keypad.NoFirstKey(events);
    }

    /** FX33: the digits of VX from the units up, at I+2, I+1, I. The value
        is a byte, so its digits are taken in byte arithmetic. */
    method StoreDigits(x: int)
      requires Valid() && 0 <= x < NumRegisters && I as int + 2 < MemorySize
      modifies memory
      ensures Abs() == Machine.StoreDigits(old(Abs()), x)
    {
      WriteDigits(I as int, registers[x]);
    }

    /** The FX33 loop: the digits of `r` from the units up, at `at + 2`,
        `at + 1`, `at`. */
    method WriteDigits(at: int, r: bv8)
      requires Valid() && 0 <= at && at + 2 < MemorySize
      modifies memory
      ensures memory[..] == Poke(old(memory[..]), at, Bcd(r))
    {
      ghost var d := Bcd(r);
      var v := r;
      var i := 2;
      assert d[3..] == [];
      while i >= 0
        invariant -1 <= i <= 2
        invariant i >= 0 ==> v == Remaining(r, i)
        invariant memory[..] == Poke(old(memory[..]), at + i + 1, d[i + 1..])
      {
        DigitStep(r, i, v);
        StorageLaws.PokePrepend(old(memory[..]), at + i + 1, d[i + 1..], v % 10);
        assert [d[i]] + d[i + 1..] == d[i..];
        memory[at + i] := v % 10;
        v := Tenth(v);
        i := i - 1;
      }
      assert i == -1 && at + i + 1 == at;
      assert d[i + 1..] == d;
    }

    /** FX55: V0 .. VX to I .. I+X; I is not changed. */
    method SaveRegisters(x: int)
      requires Valid() && 0 <= x < NumRegisters && I as int + x < MemorySize
      modifies memory
      ensures Abs() == Machine.SaveRegisters(old(Abs()), x)
    {
      WriteRegisters(I as int, x);
    }

    /** The FX55 loop. */
    method WriteRegisters(at: int, x: int)
      requires Valid() && 0 <= x < NumRegisters && 0 <= at && at + x < MemorySize
      modifies memory
      ensures memory[..] == Poke(old(memory[..]), at, registers[..x + 1])
    {
      for i := 0 to x + 1
        invariant memory[..] == Poke(old(memory[..]), at, registers[..i])
      {
        StorageLaws.PokeAppend(old(memory[..]), at, registers[..i], registers[i]);
        assert registers[..i] + [registers[i]] == registers[..i + 1];
        memory[at + i] := registers[i];
      }
    }

    /** FX65: V0 .. VX from I .. I+X; I is not changed. */
    method RestoreRegisters(x: int)
      requires Valid() && 0 <= x < NumRegisters && I as int + x < MemorySize
      modifies registers
      ensures Abs() == Machine.RestoreRegisters(old(Abs()), x)
    {
      LoadRegisters(I as int, x);
    }

    method LoadRegisters(at: int, x: int)
      requires Valid() && 0 <= x < NumRegisters && 0 <= at && at + x < MemorySize
      modifies registers
      ensures registers[..] == memory[at .. at + x + 1] + old(registers[..])[x + 1..]
    {
      for i := 0 to x + 1
        invariant registers[..] == memory[at .. at + i] + old(registers[..])[i..]
      {
        StorageLaws.LoadAppend(memory[..], old(registers[..]), at, i);
        registers[i] := memory[at + i];
      }
    }

    /** One cycle: fetch the instruction at pc, clear the jump flag, run the
        handler its first nibble selects, and move past the instruction
        unless the handler jumped. `false` when the handler found the
        instruction unhandled (Chip.cpp exits there). */
    method EmulateCycle(inp: Input) returns (ok: bool)
      requires Valid() && Safe(Abs(), inp)
      modifies this, memory, registers, stack, display
      ensures Valid()
      ensures ok <==> Cycle(old(Abs()), inp).Ok?
      ensures ok ==> Cycle(old(Abs()), inp) == Ok(Abs())
    {
      ghost var s := Abs();
      var at := pc as int;
      var opcode := Word(memory[at], memory[at + 1]);
      assert opcode == Fetch(s);
      jumpFlag := false;
      ok := Dispatch(opcode, inp);
      if !ok {
        return;
      }
      ControlFlow.CycleAfter(s, inp, Abs());
      if !jumpFlag {
        pc := pc + 2;
      }
    }

    /** Run the handler the first nibble selects; the jump flag starts
        cleared. */
    method Dispatch(op: bv16, inp: Input) returns (ok: bool)
      requires Valid() && Defined(Abs(), op, inp) && !jumpFlag
      modifies this, memory, registers, stack, display
      ensures Valid()
      ensures ok <==> Machine.Execute(old(Abs()), op, inp).Ok?
      ensures ok ==> Machine.Execute(old(Abs()), op, inp) == Ok(Abs()) && jumpFlag == SetsJumpFlag(op)
    {
      var f := GetHex(op, 0, 1);
      if f <= 0x5 || f == 0x9 {
        ok := DispatchControl(op, inp);
      } else if f <= 0x8 {
        ok := DispatchRegisters(op, inp);
      } else if f <= 0xC {
        ok := DispatchIndex(op, inp);
      } else if f <= 0xE {
        ok := DispatchDevices(op, inp);
      } else {
        ok := HexFCycle(op, inp);
      }
    }

    /** 0___ to 5___ and 9___. */
    method DispatchControl(op: bv16, inp: Input) returns (ok: bool)
      requires Valid() && Defined(Abs(), op, inp) && !jumpFlag
      requires Family(op) <= 5 || Family(op) == 9
      modifies this, memory, registers, stack, display
      ensures Valid()
      ensures ok <==> Machine.Execute(old(Abs()), op, inp).Ok?
      ensures ok ==> Machine.Execute(old(Abs()), op, inp) == Ok(Abs()) && jumpFlag == SetsJumpFlag(op)
    {
      ok := true;
      var f := GetHex(op, 0, 1);
      if f == 0x0 {
        Hex0(op);
      } else if f == 0x1 || f == 0x2 {
        GoToAddress(op);
      } else {
        SkipNextInstruction(op);
      }
    }

    /** 6___ to 8___. */
    method DispatchRegisters(op: bv16, inp: Input) returns (ok: bool)
      requires Valid() && Defined(Abs(), op, inp) && !jumpFlag
      requires 6 <= Family(op) <= 8
      modifies this, memory, registers, stack, display
      ensures Valid()
      ensures ok <==> Machine.Execute(old(Abs()), op, inp).Ok?
      ensures ok ==> Machine.Execute(old(Abs()), op, inp) == Ok(Abs()) && jumpFlag == SetsJumpFlag(op)
    {
      ok := true;
      var f := GetHex(op, 0, 1);
      if f == 0x6 {
        Hex6(op);
      } else if f == 0x7 {
        Hex7(op);
      } else {
        ok := Hex8(op);
      }
    }

    /** A___ to C___. */
    method DispatchIndex(op: bv16, inp: Input) returns (ok: bool)
      requires Valid() && Defined(Abs(), op, inp) && !jumpFlag
      requires 0xA <= Family(op) <= 0xC
      modifies this, memory, registers, stack, display
      ensures Valid()
      ensures ok <==> Machine.Execute(old(Abs()), op, inp).Ok?
      ensures ok ==> Machine.Execute(old(Abs()), op, inp) == Ok(Abs()) && jumpFlag == SetsJumpFlag(op)
    {
      ok := true;
      var f := GetHex(op, 0, 1);
      if f == 0xA {
        HexA(op);
      } else if f == 0xB {
        HexB(op);
      } else {
        HexC(op, inp.random);
      }
    }

    /** D___ and E___. */
    method DispatchDevices(op: bv16, inp: Input) returns (ok: bool)
      requires Valid() && Defined(Abs(), op, inp) && !jumpFlag
      requires 0xD <= Family(op) <= 0xE
      modifies this, memory, registers, stack, display
      ensures Valid()
      ensures ok <==> Machine.Execute(old(Abs()), op, inp).Ok?
      ensures ok ==> Machine.Execute(old(Abs()), op, inp) == Ok(Abs()) && jumpFlag == SetsJumpFlag(op)
    {
      ok := true;
      var f := GetHex(op, 0, 1);
      if f == 0xD {
        HexD(op);
      } else {
        ok := HexE(op, inp.keyboard);
      }
    }

    /** F___. */
    method HexFCycle(op: bv16, inp: Input) returns (ok: bool)
      requires Valid() && Defined(Abs(), op, inp) && !jumpFlag
      requires Family(op) == 0xF
      modifies this, memory, registers, stack, display
      ensures Valid()
      ensures ok <==> Machine.Execute(old(Abs()), op, inp).Ok?
      ensures ok ==> Machine.Execute(old(Abs()), op, inp) == Ok(Abs()) && jumpFlag == SetsJumpFlag(op)
    {
      ok := HexF(op, inp.events);
    }

    /** One frame of the main loop: nine cycles, then each timer that is
        running counts down by one. `false` when a cycle stopped the
        program. */
    method EmulateFrame(inputs: seq<Input>) returns (ok: bool)
      requires Valid() && |inputs| == CyclesPerFrame && RunSafe(Abs(), inputs)
      modifies this, memory, registers, stack, display
      ensures Valid()
      ensures ok <==> Frame(old(Abs()), inputs).Ok?
      ensures ok ==> Frame(old(Abs()), inputs) == Ok(Abs())
    {
      ghost var s0 := Abs();
      var i := 0;
      while i < CyclesPerFrame
        invariant 0 <= i <= CyclesPerFrame && Valid()
        invariant RunSafe(Abs(), inputs[i..])
        invariant Run(s0, inputs) == Run(Abs(), inputs[i..])
      {
        ControlFlow.RunStep(Abs(), inputs[i..]);
        assert inputs[i..][0] == inputs[i] && inputs[i..][1..] == inputs[i + 1..];
        ok := EmulateCycle(inputs[i]);
        if !ok {
          return;
        }
        i := i + 1;
      }
      assert inputs[CyclesPerFrame..] == [];
      ghost var t := Abs();
      assert Run(s0, inputs) == Ok(t);
      TickTimers();
      assert Frame(s0, inputs) == Ok(Tick(t));
      ok := true;
    }

    /** The timers that are running count down by one. */
    method TickTimers()
      requires Valid()
      modifies this
      ensures Valid() && Abs() == Tick(old(Abs())) && jumpFlag == old(jumpFlag)
    {
      if dt > 0 {
        dt := dt - 1;
      }
      if st > 0 {
        st := st - 1;
      }
    }
  }
}
