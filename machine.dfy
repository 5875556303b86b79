/** The interpreter's state and its instruction semantics, as values: one
    function per instruction handler, the fetch-decode-execute cycle, the
    frame step (nine cycles, then the two timers), the power-on state and the
    ROM copy. Bytes and registers are `bv8`; `I`, `pc`, stack entries and
    instruction words are `bv16`, so every wrap-around of Chip.cpp's
    `unsigned char` and `unsigned short` arithmetic is the bit-vector one. */
module Machine {
  import opened Nibbles
  import Sprite
  import Keypad
  import opened Wrappers

  /** The memory array has 0xfff bytes (addresses 0 .. 0xffe). */
  const MemorySize: int := 0xfff
  /** Programs are loaded, and execution starts, here. */
  const ProgramStart: bv16 := 0x200
  const NumRegisters: int := 16
  const StackDepth: int := 16
  /** Index of the flag register VF. */
  const VF: int := 0xF
  const CyclesPerFrame: int := 9

  /** The hexadecimal digit glyphs 0 .. F, five rows of four pixels each,
      stored from address 0. */
  const Font: seq<bv8> := [
    0xF0, 0x90, 0x90, 0x90, 0xF0,
    0x20, 0x60, 0x20, 0x20, 0x70,
    0xF0, 0x10, 0xF0, 0x80, 0xF0,
    0xF0, 0x10, 0xF0, 0x10, 0xF0,
    0x90, 0x90, 0xF0, 0x10, 0x10,
    0xF0, 0x80, 0xF0, 0x10, 0xF0,
    0xF0, 0x80, 0xF0, 0x90, 0xF0,
    0xF0, 0x10, 0x20, 0x40, 0x40,
    0xF0, 0x90, 0xF0, 0x90, 0xF0,
    0xF0, 0x90, 0xF0, 0x10, 0xF0,
    0xF0, 0x90, 0xF0, 0x90, 0x90,
    0xE0, 0x90, 0xE0, 0x90, 0xE0,
    0xF0, 0x80, 0x80, 0x80, 0xF0,
    0xE0, 0x90, 0x90, 0x90, 0xE0,
    0xF0, 0x80, 0xF0, 0x80, 0xF0,
    0xF0, 0x80, 0xF0, 0x80, 0x80]

  datatype State = State(
    memory: seq<bv8>,
    registers: seq<bv8>,
    I: bv16,
    pc: bv16,
    sp: bv8,
    stack: seq<bv16>,
    st: bv8,
    dt: bv8,
    display: seq<bv8>,
    drawFlag: bool)

  /** The sizes of the fixed arrays, and a stack pointer that indexes one of
      the stack's 16 slots or sits just past the top. */
  predicate Valid(s: State) {
    |s.memory| == MemorySize && |s.registers| == NumRegisters
    && |s.stack| == StackDepth && |s.display| == Sprite.Cells
    && s.sp as int <= StackDepth
  }

  /** What the host supplies to one cycle: the byte the random number
      generator returns, the keyboard state (one entry per scancode) and the
      events delivered while waiting for a key. Each is read only by the
      instruction that needs it. */
  datatype Input = Input(random: bv8, keyboard: seq<bool>, events: seq<Keypad.Event>)

  /** A cycle either yields the next state, or stops the program on an
      instruction the interpreter does not handle (Chip.cpp exits). */
  datatype Result = Ok(state: State) | Fatal(opcode: bv16)

  // -----------------------------------------------------------------------
  // Instruction fields (instruction `F X Y N`, `NN` = `Y N`, `NNN` = `X Y N`).

  function Family(op: bv16): (f: bv16)
    ensures f < 16
  {
    Field(op, 0, 1)
  }

  function X(op: bv16): (x: int)
    ensures 0 <= x < NumRegisters
  {
    Field(op, 1, 1) as int
  }

  function Y(op: bv16): (y: int)
    ensures 0 <= y < NumRegisters
  {
    Field(op, 2, 1) as int
  }

  function N(op: bv16): (n: bv16)
    ensures n < 16
  {
    Field(op, 3, 1)
  }

  function NN(op: bv16): (b: bv8)
    ensures b as bv16 == Field(op, 2, 2)
  {
    Field(op, 2, 2) as bv8
  }

  function NNN(op: bv16): (a: bv16)
    ensures a < 0x1000
  {
    Field(op, 1, 3)
  }

  /** `true` as Chip.cpp stores it in a register. */
  function Bit(b: bool): (v: bv8)
    ensures v == 0 || v == 1
    ensures v == 1 <==> b
  {
    if b then 1 else 0
  }

  /** Two bytes read as a big-endian instruction word. */
  function Word(hi: bv8, lo: bv8): bv16 {
    (hi as bv16 << 8) | lo as bv16
  }

  /** A byte added to a word: the exact sum, which Chip.cpp stores in an
      `unsigned short`, so truncated to 16 bits. */
  function AddByte(w: bv16, b: bv8): bv16 {
    w + b as bv16
  }

  /** Whether the exact sum of a word and a byte exceeds `bound`. */
  function SumExceeds(w: bv16, b: bv8, bound: bv32): bool {
    w as bv32 + b as bv32 > bound
  }

  /** Whether adding two bytes carries out of the low eight bits. */
  function CarryOut(a: bv8, b: bv8): bool {
    a as bv16 + b as bv16 > 255
  }

  /** Address of the glyph of digit `v`: five bytes per glyph. */
  function GlyphAddress(v: bv8): bv16 {
    v as bv16 * 5
  }

  /** The word sum is the exact sum truncated to 16 bits. */
  lemma AddByteExact(w: bv16, b: bv8)
    ensures AddByte(w, b) as bv32 == (w as bv32 + b as bv32) & 0xFFFF
  {
  }

  /** The carry is that of the exact sum. */
  lemma CarryOutExact(a: bv8, b: bv8)
    ensures CarryOut(a, b) <==> a as int + b as int > 255
  {
  }

  /** The glyph of `v` starts at `5 * v`. */
  lemma GlyphAddressExact(v: bv8)
    ensures GlyphAddress(v) as int == 5 * v as int
  {
  }

  /** `n` zero bytes. */
  function Zeros(n: nat): (z: seq<bv8>)
    ensures |z| == n
    ensures forall k :: 0 <= k < n ==> z[k] == 0
  {
    seq(n, _ => 0)
  }

  function BlankDisplay(): (d: seq<bv8>)
    ensures |d| == Sprite.Cells
    ensures forall k :: 0 <= k < |d| ==> d[k] == 0
  {
    Zeros(Sprite.Cells)
  }

  // -----------------------------------------------------------------------
  // Instruction handlers.

  /** 00E0 clears the display; 00EE pops the return address; any other 0NNN
      does nothing. The handler matches the whole word. */
  function Hex0(s: State, op: bv16): (t: State)
    requires Valid(s)
    requires op == 0x00EE ==> s.sp > 0
    ensures Valid(t)
    ensures t == s.(display := t.display, drawFlag := t.drawFlag, sp := t.sp, pc := t.pc)
    ensures t.drawFlag == (s.drawFlag || op == 0x00E0)
    ensures op == 0x00EE ==> t.sp == s.sp - 1 && t.pc == s.stack[t.sp as int]
    ensures op != 0x00EE ==> t.sp == s.sp && t.pc == s.pc
  {
    if op == 0x00E0 then s.(display := BlankDisplay(), drawFlag := true)
    else if op == 0x00EE then
      var sp := s.sp - 1;
      s.(sp := sp, pc := s.stack[sp as int])
    else s
  }

  /** 1NNN jumps to NNN; 2NNN first pushes the address of the call itself.
      Both set the jump flag. */
  function GoToAddress(s: State, op: bv16): (t: State)
    requires Valid(s)
    requires Family(op) == 2 ==> (s.sp as int) < StackDepth
    ensures Valid(t) && t == s.(stack := t.stack, sp := t.sp, pc := NNN(op))
  {
    var s1 := if Family(op) == 2 then s.(stack := s.stack[s.sp as int := s.pc], sp := s.sp + 1) else s;
    s1.(pc := NNN(op))
  }

  /** The condition under which 3XNN, 4XNN, 5XY_, 9XY_ skip. The low nibble
      of 5XY_ and 9XY_ is not looked at. */
  predicate SkipTaken(registers: seq<bv8>, op: bv16)
    requires |registers| == NumRegisters
  {
    var vx := registers[X(op)];
    var f := Family(op);
    if f == 3 then vx == NN(op)
    else if f == 4 then vx != NN(op)
    else if f == 5 then vx == registers[Y(op)]
    else if f == 9 then vx != registers[Y(op)]
    else false
  }

  function SkipNextInstruction(s: State, op: bv16): (t: State)
    requires Valid(s)
    ensures Valid(t)
    ensures SkipTaken(s.registers, op) ==> t == s.(pc := s.pc + 2)
    ensures !SkipTaken(s.registers, op) ==> t == s
  {
    if SkipTaken(s.registers, op) then s.(pc := s.pc + 2) else s
  }

  /** 6XNN: VX := NN. */
  function Hex6(s: State, op: bv16): (t: State)
    requires Valid(s)
    ensures Valid(t) && t == s.(registers := t.registers)
  {
    s.(registers := s.registers[X(op) := NN(op)])
  }

  /** 7XNN: VX := VX + NN, modulo 256 (the adder of 8XY4), without touching
      VF. */
  function Hex7(s: State, op: bv16): (t: State)
    requires Valid(s)
    ensures Valid(t) && t == s.(registers := t.registers)
  {
    s.(registers := s.registers[X(op) := AluResult(4, s.registers[X(op)], NN(op))])
  }

  /** The value `8XYn` computes from its operands `a` (VX) and `b` (VY). */
  function AluResult(n: bv16, a: bv8, b: bv8): bv8 {
    if n == 0 then b
    else if n == 1 then a | b
    else if n == 2 then a & b
    else if n == 3 then a ^ b
    else if n == 4 then a + b
    else if n == 5 then a - b
    else if n == 6 then a >> 1
    else if n == 7 then b - a
    else a << 1
  }

  /** The `8XYn` that write the flag register VF. */
  predicate WritesFlag(n: bv16) {
    n == 4 || n == 5 || n == 6 || n == 7 || n == 0xE
  }

  /** What they write there: the carry, "no borrow", or the bit shifted out. */
  function AluFlag(n: bv16, a: bv8, b: bv8): bv8 {
    if n == 4 then Bit(CarryOut(a, b))
    else if n == 5 then Bit(a > b)
    else if n == 6 then a & 1
    else if n == 7 then Bit(b > a)
    else Bit(a & 0x80 > 0)
  }

  /** The register file after `8XYn`, or nothing for an unhandled `n`. The
      flag is written before the result for n = 5, 6, 7, E, so when X or Y
      is F the result reads the new flag; the sum of n = 4 is taken first. */
  function Alu(v: seq<bv8>, x: int, y: int, n: bv16): (r: Option<seq<bv8>>)
    requires |v| == NumRegisters && 0 <= x < NumRegisters && 0 <= y < NumRegisters
    ensures r.Some? ==> |r.value| == NumRegisters
    ensures r.Some? <==> n <= 7 || n == 0xE
  {
    if !(n <= 7 || n == 0xE) then None
    else if !WritesFlag(n) then Some(v[x := AluResult(n, v[x], v[y])])
    else if n == 4 then Some(v[VF := AluFlag(n, v[x], v[y])][x := AluResult(n, v[x], v[y])])
    else
      var w := v[VF := AluFlag(n, v[x], v[y])];
      Some(w[x := AluResult(n, w[x], w[y])])
  }

  function Hex8(s: State, op: bv16): (r: Result)
    requires Valid(s)
    ensures r.Ok? ==> Valid(r.state) && r.state == s.(registers := r.state.registers)
    ensures r.Fatal? <==> !(N(op) <= 7 || N(op) == 0xE)
  {
    match Alu(s.registers, X(op), Y(op), N(op))
    case Some(v) => Ok(s.(registers := v))
    case None => Fatal(op)
  }

  /** ANNN: I := NNN. */
  function HexA(s: State, op: bv16): (t: State)
    requires Valid(s)
    ensures Valid(t) && t == s.(I := t.I)
    ensures t.I == NNN(op) && t.I < 0x1000
  {
    s.(I := NNN(op))
  }

  /** BNNN: jump to NNN + V0 (at most 0x10FE, so nothing wraps); the
      handler sets the jump flag. */
  function HexB(s: State, op: bv16): (t: State)
    requires Valid(s)
    ensures Valid(t)
    ensures t == s.(pc := t.pc)
  {
    s.(pc := AddByte(NNN(op), s.registers[0]))
  }

  /** CXNN: VX := random byte AND NN. */
  function HexC(s: State, op: bv16, random: bv8): (t: State)
    requires Valid(s)
    ensures Valid(t) && t == s.(registers := t.registers)
  {
    s.(registers := s.registers[X(op) := random & NN(op)])
  }

  /** The sprite DXYN draws: N bytes from I. With N = 0 the row loop reads
      nothing, whatever I is. */
  function SpriteAt(memory: seq<bv8>, I: bv16, op: bv16): (sprite: seq<bv8>)
    requires N(op) == 0 || I as int + N(op) as int <= |memory|
    ensures |sprite| == N(op) as int
  {
    if N(op) == 0 then [] else memory[I as int .. I as int + N(op) as int]
  }

  /** What DXYN needs: a sprite of N > 0 rows lies in memory, and every lit
      pixel falls on the display (Chip.cpp wraps nothing and checks nothing). It reads
      only the fields it names, so that a state differing elsewhere (in the
      jump flag, say) is seen at once to satisfy it too. */
  predicate DrawDefined(memory: seq<bv8>, registers: seq<bv8>, I: bv16, op: bv16)
    requires |registers| == NumRegisters
  {
    (N(op) == 0 || I as int + N(op) as int <= |memory|)
    && Sprite.Fits(Sprite.Cells, registers[X(op)], registers[Y(op)], Sprite.Pattern(SpriteAt(memory, I, op)))
  }

  /** DXYN: draw at (VX, VY) and set VF to whether a lit cell was erased. */
  function HexD(s: State, op: bv16): (t: State)
    requires Valid(s)
    requires DrawDefined(s.memory, s.registers, s.I, op)
    ensures Valid(t) && t == s.(registers := t.registers, display := t.display, drawFlag := true)
  {
    DrawAt(s, s.registers[X(op)], s.registers[Y(op)], SpriteAt(s.memory, s.I, op))
  }

  /** Drawing `sprite` at `(x, y)`: VF becomes whether a lit cell was erased. */
  function DrawAt(s: State, x: bv8, y: bv8, sprite: seq<bv8>): (t: State)
    requires Valid(s) && Sprite.Fits(Sprite.Cells, x, y, Sprite.Pattern(sprite))
    ensures Valid(t) && t == s.(registers := t.registers, display := t.display, drawFlag := true)
  {
    var c := Sprite.Draw(Sprite.Canvas(s.display, false), x, y, Sprite.Pattern(sprite));
    s.(registers := s.registers[VF := Bit(c.collided)], display := c.cells, drawFlag := true)
  }

  /** Whether the CHIP-8 key named by VX is down: the key is looked up in the
      scancode table before the sub-instruction is decoded, so VX must name a
      key for every EX__ instruction. */
  predicate KeyDefined(s: State, op: bv16, keyboard: seq<bool>)
    requires Valid(s)
  {
    s.registers[X(op)] < 16 && |keyboard| == Keypad.NumScancodes
  }

  function KeyDown(s: State, op: bv16, keyboard: seq<bool>): bool
    requires Valid(s) && KeyDefined(s, op, keyboard)
  {
    Keypad.KeyLookupDistinct();
    keyboard[Keypad.KeyLookup[s.registers[X(op)] as int]]
  }

  /** EX9E skips if the key is down, EXA1 if it is up. */
  function HexE(s: State, op: bv16, keyboard: seq<bool>): (r: Result)
    requires Valid(s) && KeyDefined(s, op, keyboard)
    ensures r.Ok? ==> Valid(r.state) && r.state == s.(pc := r.state.pc)
    ensures r.Fatal? <==> NN(op) != 0x9E && NN(op) != 0xA1
  {
    var down := KeyDown(s, op, keyboard);
    if NN(op) == 0x9E then Ok(if down then s.(pc := s.pc + 2) else s)
    else if NN(op) == 0xA1 then Ok(if !down then s.(pc := s.pc + 2) else s)
    else Fatal(op)
  }

  /** The three decimal digits of a byte, most significant first. */
  function Bcd(v: bv8): (d: seq<bv8>)
    ensures |d| == 3
  {
    [v / 100, (v / 10) % 10, v % 10]
  }

  /** What an FX__ instruction needs of the state: FX33 writes I .. I+2 and
      FX55 / FX65 touch I .. I+X, all inside memory. */
  predicate StoreDefined(s: State, op: bv16) {
    (NN(op) == 0x33 ==> s.I as int + 2 < MemorySize)
    && ((NN(op) == 0x55 || NN(op) == 0x65) ==> s.I as int + X(op) < MemorySize)
  }

  /** `memory` with `values` written from address `at`. */
  function Poke(memory: seq<bv8>, at: int, values: seq<bv8>): (m: seq<bv8>)
    requires 0 <= at && at + |values| <= |memory|
    ensures |m| == |memory|
  {
    memory[..at] + values + memory[at + |values|..]
  }

  /** FX07: VX := delay timer; FX15: delay timer := VX; FX18: sound timer
      := VX. */
  function Timers(s: State, x: int, nn: bv8): (t: State)
    requires Valid(s) && 0 <= x < NumRegisters
    ensures Valid(t) && t == s.(registers := t.registers, st := t.st, dt := t.dt)
    ensures nn == 0x07 ==> t.registers == s.registers[x := s.dt] && t.dt == s.dt && t.st == s.st
    ensures nn == 0x15 ==> t.dt == s.registers[x] && t.registers == s.registers && t.st == s.st
    ensures nn == 0x18 ==> t.st == s.registers[x] && t.registers == s.registers && t.dt == s.dt
  {
    if nn == 0x07 then s.(registers := s.registers[x := s.dt])
    else if nn == 0x15 then s.(dt := s.registers[x])
    else s.(st := s.registers[x])
  }

  /** FX29: I := the address of the glyph of the digit in VX. */
  function PointToGlyph(s: State, x: int): (t: State)
    requires Valid(s) && 0 <= x < NumRegisters
    ensures Valid(t) && t == s.(I := t.I)
  {
    s.(I := GlyphAddress(s.registers[x]))
  }

  /** FX0A: VX := the first key pressed among `events`. */
  function WaitForKey(s: State, x: int, events: seq<Keypad.Event>): (t: State)
    requires Valid(s) && 0 <= x < NumRegisters
    ensures Valid(t) && t == s.(registers := t.registers)
  {
    match Keypad.FirstKey(events)
    case Some(k) => s.(registers := s.registers[x := k])
    case None => s
  }

  /** FX1E: VF := whether I + VX passes 0xFFF, then I := I + VX. */
  function AddToI(s: State, x: int): (t: State)
    requires Valid(s) && 0 <= x < NumRegisters
    ensures Valid(t) && t == s.(registers := t.registers, I := t.I)
  {
    var v := s.registers[VF := Bit(SumExceeds(s.I, s.registers[x], 0xFFF))];
    s.(registers := v, I := AddByte(s.I, v[x]))
  }

  /** FX33: the digits of VX at I, I+1, I+2. */
  function StoreDigits(s: State, x: int): (t: State)
    requires Valid(s) && 0 <= x < NumRegisters && s.I as int + 2 < MemorySize
    ensures Valid(t) && t == s.(memory := t.memory)
  {
    s.(memory := Poke(s.memory, s.I as int, Bcd(s.registers[x])))
  }

  /** FX55: V0 .. VX to I .. I+X. */
  function SaveRegisters(s: State, x: int): (t: State)
    requires Valid(s) && 0 <= x < NumRegisters && s.I as int + x < MemorySize
    ensures Valid(t) && t == s.(memory := t.memory)
  {
    s.(memory := Poke(s.memory, s.I as int, s.registers[..x + 1]))
  }

  /** FX65: V0 .. VX from I .. I+X. */
  function RestoreRegisters(s: State, x: int): (t: State)
    requires Valid(s) && 0 <= x < NumRegisters && s.I as int + x < MemorySize
    ensures Valid(t) && t == s.(registers := t.registers)
  {
    s.(registers := s.memory[s.I as int .. s.I as int + x + 1] + s.registers[x + 1..])
  }

  /** The low bytes of the FX__ instructions the interpreter handles. */
  predicate HandledF(nn: bv8) {
    nn == 0x07 || nn == 0x0A || nn == 0x15 || nn == 0x18 || nn == 0x1E
    || nn == 0x29 || nn == 0x33 || nn == 0x55 || nn == 0x65
  }

  /** The FX__ instructions, told apart by their low byte. */
  function HexF(s: State, op: bv16, events: seq<Keypad.Event>): (r: Result)
    requires Valid(s) && StoreDefined(s, op)
    ensures r.Ok? ==> Valid(r.state)
    ensures r.Fatal? ==> r.opcode == op
  {
    var x := X(op);
    var nn := NN(op);
    if nn == 0x07 || nn == 0x15 || nn == 0x18 then Ok(Timers(s, x, nn))
    else if nn == 0x0A then Ok(WaitForKey(s, x, events))
    else if nn == 0x1E then Ok(AddToI(s, x))
    else if nn == 0x29 then Ok(PointToGlyph(s, x))
    else if nn == 0x33 then Ok(StoreDigits(s, x))
    else if nn == 0x55 then Ok(SaveRegisters(s, x))
    else if nn == 0x65 then Ok(RestoreRegisters(s, x))
    else Fatal(op)
  }

  // -----------------------------------------------------------------------
  // The cycle.

  /** Everything Chip.cpp leaves undefined is excluded: reading the
      instruction past the end of memory, returning on an empty stack,
      calling on a full one, drawing outside memory or the display, naming a
      non-key in EX__, storing past the end of memory. */
  predicate Defined(s: State, op: bv16, inp: Input)
    requires Valid(s)
  {
    var f := Family(op);
    (op == 0x00EE ==> s.sp > 0)
    && (f == 2 ==> (s.sp as int) < StackDepth)
    && (f == 0xD ==> DrawDefined(s.memory, s.registers, s.I, op))
    && (f == 0xE ==> KeyDefined(s, op, inp.keyboard))
    && (f == 0xF ==> StoreDefined(s, op))
  }

  /** Dispatch on the first nibble; every value 0 .. F has a handler. */
  function Execute(s: State, op: bv16, inp: Input): (r: Result)
    requires Valid(s) && Defined(s, op, inp)
    ensures r.Ok? ==> Valid(r.state)
    ensures r.Fatal? ==> r.opcode == op && Family(op) in {0x8, 0xE, 0xF}
  {
    var f := Family(op);
    if f == 0 then Ok(Hex0(s, op))
    else if f == 1 || f == 2 then Ok(GoToAddress(s, op))
    else if f == 3 || f == 4 || f == 5 || f == 9 then Ok(SkipNextInstruction(s, op))
    else if f == 6 then Ok(Hex6(s, op))
    else if f == 7 then Ok(Hex7(s, op))
    else if f == 8 then Hex8(s, op)
    else if f == 0xA then Ok(HexA(s, op))
    else if f == 0xB then Ok(HexB(s, op))
    else if f == 0xC then Ok(HexC(s, op, inp.random))
    else if f == 0xD then Ok(HexD(s, op))
    else if f == 0xE then HexE(s, op, inp.keyboard)
    else HexF(s, op, inp.events)
  }

  predicate CanFetch(s: State) {
    s.pc as int + 1 < MemorySize
  }

  /** The instruction at `pc`, high byte first. */
  function Fetch(s: State): (op: bv16)
    requires Valid(s) && CanFetch(s)
  {
    Word(s.memory[s.pc as int], s.memory[s.pc as int + 1])
  }

  /** A cycle with this input is defined. */
  predicate Safe(s: State, inp: Input) {
    Valid(s) && CanFetch(s) && Defined(s, Fetch(s), inp)
  }

  /** The handlers that set the jump flag: 1NNN and 2NNN (`goToAddress`)
      and BNNN. The flag is cleared before every instruction and read only
      at the end of the cycle, so it is a function of the instruction and is
      not kept in the state. */
  predicate SetsJumpFlag(op: bv16) {
    Family(op) == 1 || Family(op) == 2 || Family(op) == 0xB
  }

  /** Fetch, execute, and move to the next instruction unless the handler
      set the jump flag. */
  function Cycle(s: State, inp: Input): (r: Result)
    requires Safe(s, inp)
    ensures r.Ok? ==> Valid(r.state)
  {
    var op := Fetch(s);
    match Execute(s, op, inp)
    case Fatal(o) => Fatal(o)
    case Ok(t) => Ok(if SetsJumpFlag(op) then t else t.(pc := t.pc + 2))
  }

  /** Every cycle of the run is defined (a run may stop on an unhandled
      instruction, after which nothing more happens). */
  predicate RunSafe(s: State, inputs: seq<Input>)
    decreases |inputs|
  {
    |inputs| == 0
    || (Safe(s, inputs[0])
        && match Cycle(s, inputs[0])
           case Ok(t) => RunSafe(t, inputs[1..])
           case Fatal(_) => true)
  }

  /** One cycle per input, stopping at the first unhandled instruction. */
  function Run(s: State, inputs: seq<Input>): (r: Result)
    requires Valid(s) && RunSafe(s, inputs)
    ensures r.Ok? ==> Valid(r.state)
    decreases |inputs|
  {
    if |inputs| == 0 then Ok(s)
    else
      match Cycle(s, inputs[0])
      case Fatal(o) => Fatal(o)
      case Ok(t) => Run(t, inputs[1..])
  }

  /** The 60 Hz timers count down and stop at 0. */
  function Tick(s: State): State {
    s.(dt := CountDown(s.dt), st := CountDown(s.st))
  }

  /** One step of a timer: down by one, but not below 0. */
  function CountDown(v: bv8): bv8 {
    if v > 0 then v - 1 else 0
  }

  /** One frame of the main loop: nine cycles, then the timers. */
  function Frame(s: State, inputs: seq<Input>): (r: Result)
    requires Valid(s) && |inputs| == CyclesPerFrame && RunSafe(s, inputs)
    ensures r.Ok? ==> Valid(r.state)
  {
    match Run(s, inputs)
    case Fatal(o) => Fatal(o)
    case Ok(t) => Ok(Tick(t))
  }

  // -----------------------------------------------------------------------
  // Power-on state and program loading.

  /** Everything zero, the glyphs at 0 .. 79, execution from 0x200. */
  function Init(): (s: State)
    ensures Valid(s)
    ensures s.pc == ProgramStart && s.sp == 0 && s.I == 0 && s.drawFlag
    ensures s.memory[..|Font|] == Font
    ensures forall k :: |Font| <= k < MemorySize ==> s.memory[k] == 0
    ensures s.registers == Zeros(NumRegisters) && s.st == 0 && s.dt == 0
    ensures forall k :: 0 <= k < StackDepth ==> s.stack[k] == 0
    ensures s.display == BlankDisplay()
  {
    State(
      memory := Font + Zeros(MemorySize - |Font|),
      registers := Zeros(NumRegisters),
      I := 0,
      pc := ProgramStart,
      sp := 0,
      stack := seq(StackDepth, _ => 0 as bv16),
      st := 0,
      dt := 0,
      display := BlankDisplay(),
      drawFlag := true)
  }

  /** The program image is copied to 0x200; nothing else changes. A file
      longer than the space above 0x200 would run past the array. */
  function LoadRom(s: State, rom: seq<bv8>): (t: State)
    requires Valid(s) && |rom| <= MemorySize - ProgramStart as int
    ensures Valid(t) && t == s.(memory := t.memory)
    ensures t.memory[ProgramStart as int .. ProgramStart as int + |rom|] == rom
    ensures forall k :: 0 <= k < MemorySize ==>
      (ProgramStart as int <= k < ProgramStart as int + |rom| || t.memory[k] == s.memory[k])
  {
    s.(memory := Poke(s.memory, ProgramStart as int, rom))
  }
}
