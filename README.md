# CHIP-8 interpreter core in Dafny

This project models the engine of a CHIP-8 interpreter, that is, the class `Chip` of `Chip.cpp` / `Chip.h`.

## What the class does

- It holds the machine state:
  - 0xfff bytes of memory;
  - sixteen byte registers V0..VF;
  - the 16-bit index register `I` and program counter `pc`;
  - a sixteen-entry return stack with its byte stack pointer `sp`;
  - the delay and sound timers;
  - a 64x32 display of one byte per cell;
  - the `drawFlag` and `jumpFlag` flags.
- One cycle fetches the big-endian instruction at `pc`. It dispatches on the first nibble to one handler of the family `hex0` to `hexF`. Then it advances `pc` by two unless the handler jumped.
- A frame runs nine cycles, then counts both timers down by one, stopping at zero.
- The constructor does this:
  - it clears the state;
  - it places the sixteen five-byte hexadecimal glyphs at addresses 0..79;
  - it starts at 0x200.
- A program is loaded by copying its bytes to 0x200.

## How the model is built

The model has two layers.

- **Values.** Module `Machine` describes the machine as a value:
  - a `State` datatype;
  - one function per handler;
  - `Execute`, `Cycle`, `Run` and `Frame`;
  - `Init` and `LoadRom`.

  Instruction fields are cut out of the opcode by `Nibbles.Field`. That function is the meaning of the source's `getHex`.
- **The imperative class.** Module `Emulator` holds class `Chip`. It has the source's arrays (`memory`, `registers`, `stack`, `display`) and scalar fields. Its methods follow the handlers statement by statement, with the same loops:
  - the nibble-mask loop of `getHex`;
  - the row and bit loops of the draw;
  - the glyph copy;
  - the BCD and register-transfer loops;
  - the nine-cycle loop.

  Each method is proved to leave the object in the state that the matching `Machine` function computes from the old state (`Abs()`).

The properties of the instruction set are proved about the `Machine` functions, in these modules:

- `ControlFlow`: jumps, calls, returns, skips, and where `pc` ends up;
- `AluLaws`: the register arithmetic and its flags;
- `Sprite` and `DisplayLaws`: the XOR sprite draw and its collision flag;
- `StorageLaws`: the BCD, register save/restore and timer instructions;
- `Runs`: the display invariant over runs and frames, boot, timers, and a small program run.

## Inputs

What the source reads from the host becomes an input to the model:

- **Random byte.** Passed for `CXNN`, in `Input.random`.
- **Keyboard state.** For `EX9E`/`EXA1`, this is the host's keyboard state array. It has 512 scancode entries and is passed in `Input.keyboard`.
- **Wait events.** For `FX0A`, this is the sequence of host events delivered while waiting, in `Input.events`.

## Where the model follows the code rather than the usual CHIP-8 description

- **Memory size.** Memory is 0xfff bytes, not 4096. The last address is 0xFFE, and a fetch needs `pc + 1 < 0xfff`.
- **5XY_ and 9XY_.** These compare Vx with Vy whatever the low nibble is.
- **8XY6 and 8XYE.** These shift Vx (Vy is ignored).
- **Flag order.** 8XY4/5/6/7/E and FX1E write VF before the result. So with X = F the result overwrites the flag: the register ends up holding the result, and in FX1E the new flag is what is added to `I`.
- **FX55 and FX65.** These leave `I` unchanged, although the comments next to them say `I` advances.
- **Display wrap-around.** DXYN indexes the display linearly, at `x + column + (y + row) * 64`, and wraps nothing. A pixel past the right edge therefore lands on the next row, in the cell Chip.cpp's index names, and the model does the same (`Sprite.RightEdgeSpills`). Only a lit pixel whose index reaches 2048, past the end of the array, is undefined behaviour, and the model requires every lit pixel to stay below it.
- **drawFlag.** It is set by 00E0, DXYN and the constructor and is never cleared in the core.

## Model

| member | source | states |
|---|---|---|
| Nibbles.Nibble | Chip.cpp:232-259 | the i-th nibble of a word (0 = most significant) is below 16 |
| Nibbles.GetHex | Chip.cpp:232-259 | the mask-building loop returns exactly `Field(w, p, len)` for every field the source's asserts admit (`0 < len`, `p <= 4`, `p + len <= 4`) |
| Nibbles.FieldIsShiftMask | Chip.cpp:232-259 | a field equals `(w >> 4*(4-p-len)) & (16^len - 1)`, the word shifted right and reduced modulo 16^len |
| Nibbles.FieldIgnoresOtherNibbles | Chip.cpp:232-259 | a field depends only on the nibbles it covers |
| Nibbles.FieldExamples | Chip.cpp:232-259 | for 0xD123: nibble 0 is 0xD, nibbles 1..3 are 0x123, nibbles 2..3 are 0x23, nibble 3 is 0x3 |
| Nibbles.MaskThenShift | Chip.cpp:247-258 | masking with the accumulated mask and shifting right by `4*(4-p-len)` gives the field |
| Keypad.FindIndex | Chip.cpp:266-269 | linear search: the first index holding the code, or the table length when the code is absent |
| Keypad.LookupScancode | Chip.cpp:266-269 | returns a key below 16 exactly when the scancode is in the key table, and that key's entry is the scancode; otherwise returns 16 |
| Keypad.KeyLookupDistinct | Chip.cpp:60-65 | the key table has 16 distinct scancodes, all below 512 |
| Keypad.LookupOfKey | Chip.cpp:266-269 | looking up key k's scancode gives k back |
| Keypad.FirstAccepted | Chip.cpp:524-536 | the position of the first event that is a key-down of a mapped key; every earlier event is skipped |
| Keypad.FirstKey | Chip.cpp:524-536 | a key is found exactly when some event is an accepted key-down; it is below 16 and is mapped to that event's scancode |
| Keypad.KeyByte | Chip.cpp:528-532 | the key number stored into a byte register keeps its value |
| Keypad.WaitEndsWithKey | Chip.cpp:524-536 | skipped events followed by a key-down of key k's scancode end the wait with k |
| Keypad.FirstKeyAt | Chip.cpp:524-536 | the first accepted event decides the key |
| Keypad.NoFirstKey | Chip.cpp:524-536 | with no accepted event the wait ends without a key |
| Machine.Family | Chip.cpp:669 | the dispatch nibble is below 16 |
| Machine.X | Chip.cpp:366 | the X field names one of the 16 registers |
| Machine.Y | Chip.cpp:367 | the Y field names one of the 16 registers |
| Machine.N | Chip.cpp:447 | the last nibble is below 16 |
| Machine.NN | Chip.cpp:355 | the low byte is the two-nibble field 2..3 read into a byte |
| Machine.NNN | Chip.cpp:308 | the address field is below 0x1000 |
| Machine.Bit | Chip.cpp:391 | a condition stored into VF is 1 if it holds, else 0 |
| Machine.AddByteExact | Chip.cpp:432 | adding a byte to a 16-bit register is the sum modulo 65536 |
| Machine.CarryOutExact | Chip.cpp:390 | the carry is set exactly when Vx + Vy > 255 |
| Machine.GlyphAddressExact | Chip.cpp:554-557 | the glyph address is exactly 5 * Vx (no wrap for a byte) |
| Machine.Zeros | Chip.cpp:18-21 | n zero bytes |
| Machine.BlankDisplay | Chip.cpp:277 | 64*32 cells, all 0 |
| Machine.Hex0 | Chip.cpp:271-289 | 00E0 sets drawFlag; other instructions keep it. 00EE pops: `sp` decreases by one and `pc` becomes the saved return address. Any other 0___ leaves `sp` and `pc` unchanged. Nothing but display, drawFlag, `sp` and `pc` changes |
| Machine.GoToAddress | Chip.cpp:291-317 | `pc := NNN`; only the stack and `sp` may change besides (2NNN pushes) |
| Machine.SkipNextInstruction | Chip.cpp:319-349 | `pc` advances by 2 exactly when the skip condition holds, otherwise nothing changes |
| Machine.Hex6 | Chip.cpp:352-356 | only registers change |
| Machine.Hex7 | Chip.cpp:358-362 | only registers change |
| Machine.Alu | Chip.cpp:364-421 | defined exactly for sub-opcodes 0..7 and E, and then yields 16 registers |
| Machine.Hex8 | Chip.cpp:364-421 | fails exactly on a sub-opcode other than 0..7 or E; otherwise only registers change |
| Machine.HexA | Chip.cpp:423-427 | `I` becomes NNN, so it stays below 0x1000, and nothing else changes |
| Machine.HexB | Chip.cpp:429-434 | only `pc` changes |
| Machine.HexC | Chip.cpp:436-440 | only registers change |
| Machine.SpriteAt | Chip.cpp:454-458 | the sprite has N bytes; it is read from memory only when N > 0, so DXY0 needs nothing of `I` |
| Machine.HexD | Chip.cpp:442-472 | only registers, display and drawFlag change, and drawFlag ends true |
| Machine.DrawAt | Chip.cpp:450-471 | drawing a sprite changes only registers, display and drawFlag; drawFlag ends true |
| Machine.HexE | Chip.cpp:474-502 | fails exactly when the low byte is neither 9E nor A1; otherwise only `pc` changes |
| Machine.Bcd | Chip.cpp:558-570 | three bytes |
| Machine.Poke | Chip.cpp:573-576 | writing into memory keeps its size |
| Machine.Timers | Chip.cpp:511-547 | FX07 sets Vx to the delay timer, FX15 sets the delay timer to Vx, FX18 sets the sound timer to Vx; in each case the other two of registers, delay and sound timer are unchanged, and nothing else changes |
| Machine.PointToGlyph | Chip.cpp:554-557 | only `I` changes |
| Machine.WaitForKey | Chip.cpp:515-539 | only registers change |
| Machine.AddToI | Chip.cpp:548-553 | only registers and `I` change |
| Machine.StoreDigits | Chip.cpp:558-570 | only memory changes |
| Machine.SaveRegisters | Chip.cpp:571-577 | only memory changes |
| Machine.RestoreRegisters | Chip.cpp:578-585 | only registers change |
| Machine.HexF | Chip.cpp:504-592 | an error carries the instruction itself |
| Machine.Execute | Chip.cpp:669-716 | only the 8, E and F families can fail, and a failure carries the instruction |
| Machine.Cycle | Chip.cpp:661-720 | a cycle keeps the state well-formed |
| Machine.Run | Chip.cpp:154-158 | a run of cycles keeps the state well-formed |
| Machine.Frame | Chip.cpp:154-168 | a frame keeps the state well-formed |
| Machine.Init | Chip.cpp:16-75 | `pc = 0x200`, `sp = 0`, `I = 0`, `drawFlag` set; the 80 glyph bytes at 0..79 and zero memory above; all registers, stack entries, both timers and every display cell zero |
| Machine.LoadRom | Chip.cpp:106 | the program's bytes sit at 0x200..; every other byte and all other state is unchanged |
| ControlFlow.FetchIsBigEndian | Chip.cpp:663 | the fetched word has `memory[pc]` as high byte and `memory[pc+1]` as low byte, so the family is the high nibble of `memory[pc]` and NN is `memory[pc+1]` |
| ControlFlow.CycleAfter | Chip.cpp:661-720 | after the handler, `pc` advances by 2 unless the instruction is 1NNN, 2NNN or BNNN |
| ControlFlow.RunStep | Chip.cpp:154-158 | a run is a first cycle followed by the run of the rest, stopping at an error |
| ControlFlow.RunOne | Chip.cpp:154-158 | a run of one cycle is that cycle |
| ControlFlow.RunTwo | Chip.cpp:154-158 | a run of two cycles is the two cycles in turn |
| ControlFlow.JumpGoesToAddress | Chip.cpp:291-317 | a 1NNN cycle sets `pc` to exactly NNN and changes nothing else |
| ControlFlow.CallPushesReturnAddress | Chip.cpp:295-316 | a 2NNN cycle stores `pc` at `stack[sp]`, increments `sp` and sets `pc` to NNN, nothing else |
| ControlFlow.ExecuteGoTo | Chip.cpp:674-677 | 1NNN and 2NNN dispatch to goToAddress |
| ControlFlow.ReturnResumesAfterCall | Chip.cpp:280-283 | an 00EE cycle decrements `sp` and continues at the popped address + 2 |
| ControlFlow.ExecuteHex0 | Chip.cpp:671-673 | the 0 family dispatches to hex0 |
| ControlFlow.CallThenReturn | Chip.cpp:280-317 | a call whose target holds 00EE, run for two cycles, restores `sp` and resumes at the call's address + 2, with the saved address left in the stack |
| ControlFlow.ReturnStep | Chip.cpp:280-283 | one 00EE cycle from any state with a non-empty stack |
| ControlFlow.PushPop | Chip.cpp:280-302 | pushing then popping restores `sp` and gives `pc + 2` |
| ControlFlow.ExecuteSkip | Chip.cpp:678-683 | the 3, 4, 5 and 9 families dispatch to skipNextInstruction |
| ControlFlow.SkipAdvancesPc | Chip.cpp:319-349 | a skip cycle changes only `pc`: +4 when the condition holds, +2 otherwise |
| ControlFlow.SkipTakenStep | Chip.cpp:319-349 | a skip cycle whose condition holds advances `pc` by 4 |
| ControlFlow.SkipTwice | Chip.cpp:319-349 | the skip's +2 and the cycle's +2 add to +4 |
| ControlFlow.JumpWithOffset | Chip.cpp:429-434 | a BNNN cycle sets `pc` to NNN + V0 (16-bit) and changes nothing else |
| ControlFlow.ExecuteOffsetJump | Chip.cpp:696-698 | the B family dispatches to hexB |
| ControlFlow.OffsetTargetNoWrap | Chip.cpp:432 | NNN + V0 lies between NNN and 0x10FE, so it can exceed 0xFFF but never wraps |
| ControlFlow.ExecuteKeepsPc | Chip.cpp:669-716 | every handler other than the jumps, call, return and skips leaves `pc` unchanged |
| ControlFlow.PcAdvances | Chip.cpp:661-720 | a cycle of such an instruction ends with `pc + 2` |
| ControlFlow.ExecuteFails | Chip.cpp:364-592 | the handler fails exactly on an unhandled 8XY_, EX__ or FX__ sub-opcode, with that instruction |
| ControlFlow.CycleFails | Chip.cpp:661-720 | a cycle fails exactly when the fetched instruction is unhandled |
| ControlFlow.ExecuteKey | Chip.cpp:474-502 | EX9E/EXA1 change only `pc`, by +2 exactly when the key is held (9E) or not held (A1) |
| ControlFlow.KeySkipAdvancesPc | Chip.cpp:474-502 | a key-skip cycle advances `pc` by 4 when the condition holds and by 2 otherwise |
| AluLaws.AluRegisters | Chip.cpp:364-421 | an 8XY_ instruction writes only Vx and VF: VF gets the flag (or is untouched for 0..3), and with X = F the result wins over the flag |
| AluLaws.LogicOps | Chip.cpp:371-386 | 8XY0..3 write no flag and compute VY, VX or VY, VX and VY, VX xor VY |
| AluLaws.AddWithCarry | Chip.cpp:387-394 | 8XY4: the result is the sum mod 256 and the flag is the carry bit, set exactly when the sum exceeds 255 |
| AluLaws.SubtractWithBorrow | Chip.cpp:395-399 | 8XY5: result + Vy = Vx mod 256, the exact difference when Vx >= Vy; the flag is set exactly when Vx > Vy (strictly) |
| AluLaws.ReverseSubtract | Chip.cpp:405-409 | 8XY7 is 8XY5 with the operands swapped, flag included |
| AluLaws.ShiftRight | Chip.cpp:400-404 | 8XY6: Vx / 2, flag = low bit of Vx; Vy is ignored |
| AluLaws.ShiftLeft | Chip.cpp:410-414 | 8XYE: Vx * 2 mod 256, flag = high bit of Vx |
| AluLaws.AddImmediate | Chip.cpp:358-362 | 7XNN: Vx := Vx + NN mod 256, every other register (VF included) untouched |
| AluLaws.LoadImmediate | Chip.cpp:352-356 | 6XNN: Vx := NN, every other register untouched |
| AluLaws.RandomMasked | Chip.cpp:436-440 | CXNN: Vx := random & NN, so Vx has no bit outside NN and is at most NN; other registers untouched |
| AluLaws.Hex8Registers | Chip.cpp:364-421 | a handled 8XY_ changes only the registers, as Alu says |
| DisplayLaws.SpriteOf | Chip.cpp:454-458 | the bit pattern of the N sprite rows |
| DisplayLaws.DrawInstruction | Chip.cpp:442-472 | DXYN flips exactly the cells under set sprite bits, VF = 1 iff one of them was on, other registers unchanged, drawFlag true |
| DisplayLaws.DrawKeepsCellsBinary | Chip.cpp:465 | drawing keeps every cell 0 or 1 |
| DisplayLaws.RedrawDefined | Chip.cpp:442-472 | when X, Y differ from F, the same DXYN can be repeated and draws the same sprite at the same place |
| DisplayLaws.DrawTwiceErases | Chip.cpp:442-472 | drawing the same sprite at the same place twice restores the display |
| DisplayLaws.ClearBlanks | Chip.cpp:275-278 | 00E0 zeroes every cell, sets drawFlag and changes nothing else |
| DisplayLaws.DrawAfterClear | Chip.cpp:442-472 | drawing on a cleared screen never collides; drawing the same sprite again collides exactly when the sprite has a set bit |
| DisplayLaws.DrawNothing | Chip.cpp:442-472 | DXY0 is defined for every I and only clears VF and sets drawFlag |
| Sprite.Bits | Chip.cpp:458-460 | a sprite row is eight pixels |
| Sprite.BitsByShift | Chip.cpp:460 | pixel c of a row is the test `row & (0x80 >> c) != 0` |
| Sprite.Pattern | Chip.cpp:454-458 | one pixel row per sprite byte |
| Sprite.PatternRow | Chip.cpp:456-460 | row r of the pattern is the pixels of sprite byte r |
| Sprite.RightEdgeSpills | Chip.cpp:462-465 | the display index does not wrap: column c >= 4 of a sprite at x = 60 is column c - 4 of the next row |
| Sprite.Plot | Chip.cpp:462-465 | plotting keeps the display size |
| Sprite.DrawRow | Chip.cpp:458-467 | drawing a row keeps the display size |
| Sprite.DrawRows | Chip.cpp:454-468 | drawing rows keeps the display size |
| Sprite.Draw | Chip.cpp:452-468 | drawing keeps the display size |
| Sprite.Flipped | Chip.cpp:465 | the reference display after a draw has the same size |
| Sprite.DrawRowCells | Chip.cpp:458-467 | after a row, a cell is flipped iff a set pixel of that row covers it |
| Sprite.DrawRowCollision | Chip.cpp:460-463 | a row collides iff a set pixel of it lands on a cell that was on |
| Sprite.DrawRowsCells | Chip.cpp:454-468 | after n rows, a cell is flipped iff a set pixel of those rows covers it |
| Sprite.RowSeesOriginal | Chip.cpp:454-468 | rows of a fitting sprite cover distinct cells, so each row tests the original display |
| Sprite.DrawRowsCollision | Chip.cpp:452-468 | the collision flag after n rows is: the old flag, or a set pixel of those rows hit a lit cell |
| Sprite.DrawSpec | Chip.cpp:452-468 | the loop's result equals the reference: cells under set bits flipped, collision iff one of them was lit |
| Sprite.DrawTwiceRestores | Chip.cpp:465 | XOR-drawing the same pattern twice gives back the original cells |
| Sprite.DrawKeepsBinary | Chip.cpp:465 | a 0/1 display stays 0/1 |
| Sprite.RedrawCollides | Chip.cpp:460-463 | on a blank display the first draw does not collide and the second collides iff the pattern has a set bit |
| StorageLaws.HexFDispatch | Chip.cpp:504-592 | each handled FX__ low byte selects its operation; any other is fatal with the instruction |
| StorageLaws.HexFFrame | Chip.cpp:504-592 | FX__ succeeds exactly for 07, 0A, 15, 18, 1E, 29, 33, 55, 65, and then leaves `pc`, `sp`, the stack, display and drawFlag unchanged |
| StorageLaws.HelpersKeepControl | Chip.cpp:511-585 | none of the FX__ operations touches `pc`, `sp`, the stack, display or drawFlag |
| StorageLaws.PokeReads | Chip.cpp:573-576 | after a write the range reads back the values and every other byte is unchanged |
| StorageLaws.PokeAppend | Chip.cpp:573-576 | writing one more byte at the end of a range extends the written range |
| StorageLaws.PokePrepend | Chip.cpp:563-567 | writing one byte just before a range extends the written range downward |
| StorageLaws.LoadAppend | Chip.cpp:580-583 | loading one more register extends the loaded prefix |
| StorageLaws.PokeByAddress | Chip.cpp:573-576 | memory that holds the values in the range and the old bytes elsewhere is that write |
| StorageLaws.BcdDigits | Chip.cpp:558-570 | the hundreds digit is at most 2, the other digits are below 10, and 100*d0 + 10*d1 + d2 = Vx |
| StorageLaws.BcdExamples | Chip.cpp:558-570 | 250 -> 2,5,0; 7 -> 0,0,7; 199 -> 1,9,9 |
| StorageLaws.DigitsStored | Chip.cpp:558-570 | FX33 writes the three digits to I, I+1, I+2 and no other byte |
| StorageLaws.SaveWrites | Chip.cpp:571-577 | FX55 writes V0..Vx to I..I+x and no other byte, `I` unchanged |
| StorageLaws.RestoreReads | Chip.cpp:578-585 | FX65 loads V0..Vx from I..I+x and keeps the higher registers, `I` unchanged |
| StorageLaws.SaveRestore | Chip.cpp:571-585 | FX55 then FX65 with the same X gives back the registers |
| StorageLaws.DelayTimerRoundTrip | Chip.cpp:511-543 | FX15 stores Vx in the delay timer only, and FX07 reads it back exactly |
| StorageLaws.SoundTimerSet | Chip.cpp:544-547 | FX18 stores Vx in the sound timer and changes nothing else |
| StorageLaws.IndexAdvance | Chip.cpp:548-553 | FX1E: VF = 1 iff I + Vx > 0xFFF; `I := I + Vx` mod 65536, where with X = F the new flag is added; other registers unchanged |
| StorageLaws.GlyphOfDigit | Chip.cpp:554-557 | FX29 for a digit d points I at 5*d, where the five bytes of d's glyph lie |
| StorageLaws.GlyphInFont | Chip.cpp:40-57 | every digit's glyph lies inside the 80 font bytes |
| StorageLaws.WaitStoresKey | Chip.cpp:515-539 | FX0A skips events until a key-down of a mapped scancode and stores that key in Vx, nothing else |
| StorageLaws.WaitWithoutKey | Chip.cpp:515-539 | without an accepted key-down FX0A changes nothing |
| Runs.RunAppend | Chip.cpp:154-158 | a run of a + b is the run of a followed by the run of b, an error stopping it |
| Runs.ExecuteKeepsConsistent | Chip.cpp:669-716 | every handler keeps every display cell 0 or 1 |
| Runs.ExecuteDraw | Chip.cpp:702-704 | the D family dispatches to hexD |
| Runs.ExecuteStore | Chip.cpp:708-710 | the F family dispatches to hexF |
| Runs.ExecuteDisplay | Chip.cpp:669-716 | outside DXYN and 00E0 no instruction touches the display; 00E0 blanks it |
| Runs.CycleKeepsConsistent | Chip.cpp:661-720 | a cycle keeps the display 0/1 |
| Runs.RunKeepsConsistent | Chip.cpp:154-158 | any run keeps the display 0/1 |
| Runs.FrameKeepsConsistent | Chip.cpp:154-168 | a frame keeps the display 0/1 |
| Runs.BootConsistent | Chip.cpp:16-75 | the constructed machine, and the one with a program loaded, have a 0/1 display |
| Runs.BootFetchesProgram | Chip.cpp:106 | after loading, the first fetch reads the program's first two bytes and the font is intact |
| Runs.TickCountsDown | Chip.cpp:164-168 | the frame's tick decrements each positive timer by one, leaves a zero timer at zero, and changes nothing else |
| Runs.Ticks | Chip.cpp:164-168 | n ticks change only the timers |
| Runs.TicksCountDown | Chip.cpp:164-168 | after n ticks a timer holds max(t - n, 0), so it never goes below zero |
| Runs.TickStep | Chip.cpp:164-168 | a tick is max(t - 1, 0) |
| Runs.ClearLoopStarts | Chip.cpp:106 | loading 00E0; 1200 leaves the machine at its first instruction with a blank screen |
| Runs.ClearLoopCycle | Chip.cpp:661-720 | each cycle of that program succeeds, stays in the loop and leaves both timers unchanged |
| Runs.ClearStep | Chip.cpp:275-278 | its first instruction blanks the screen, sets drawFlag and moves to 0x202 |
| Runs.ClearLoopRuns | Chip.cpp:154-158 | any run of that program succeeds, stays in the loop and leaves both timers unchanged |
| Runs.ClearLoopFrame | Chip.cpp:154-168 | any frame of that program succeeds and stays in the loop, and each timer goes down by one unless it is 0 |
| Runs.Frames | Chip.cpp:131-182 | successive frames of the main loop keep the state well-formed |
| Runs.ClearLoopFrames | Chip.cpp:131-182 | over n frames the program succeeds and stays in the loop, and each timer holds max(t - n, 0) |
| Runs.ClearLoopTimersExpire | Chip.cpp:131-182 | after 255 frames both timers are 0, as `Ticks` predicts |
| Emulator.Chip.constructor | Chip.cpp:16-75 | the fresh object's state is `Init()` (arrays of the source's sizes), and `jumpFlag` is false |
| Emulator.Chip.ClearBytes | Chip.cpp:18-21 | every byte of the array becomes 0 |
| Emulator.Chip.ClearWords | Chip.cpp:20 | every stack entry becomes 0 |
| Emulator.Chip.CopyFont | Chip.cpp:67-70 | the copy loop leaves the 80 glyph bytes at 0..79 and zeros above |
| Emulator.Chip.LoadRom | Chip.cpp:106 | the object's state becomes `Machine.LoadRom` of the old state |
| Emulator.Chip.Hex0 | Chip.cpp:271-289 | the new state is `Machine.Hex0` of the old one |
| Emulator.Chip.GoToAddress | Chip.cpp:291-317 | the new state is `Machine.GoToAddress` of the old one and `jumpFlag` is set |
| Emulator.Chip.SkipNextInstruction | Chip.cpp:319-349 | the new state is `Machine.SkipNextInstruction` of the old one |
| Emulator.Chip.SkipCondition | Chip.cpp:325-346 | the computed condition is `SkipTaken` |
| Emulator.Chip.Hex6 | Chip.cpp:352-356 | the new state is `Machine.Hex6` of the old one |
| Emulator.Chip.Hex7 | Chip.cpp:358-362 | the new state is `Machine.Hex7` of the old one |
| Emulator.Chip.AddImmediate | Chip.cpp:361 | only Vx changes, to Vx + NN mod 256 |
| Emulator.Chip.Hex8 | Chip.cpp:364-421 | returns true exactly when `Machine.Hex8` succeeds, and then the new state is its result |
| Emulator.Chip.Arithmetic | Chip.cpp:369-420 | succeeds exactly when `Alu` is defined, and the registers become its result |
| Emulator.Chip.Logic | Chip.cpp:371-386 | the registers become `Alu` for 8XY0..3 |
| Emulator.Chip.LogicResult | Chip.cpp:371-386 | the value stored in Vx for 8XY0..3 |
| Emulator.Chip.Sum | Chip.cpp:387-394 | the registers become `Alu` for 8XY4 (flag first, then result) |
| Emulator.Chip.Subtract | Chip.cpp:395-399 | the registers become `Alu` for 8XY5 |
| Emulator.Chip.ShiftRight | Chip.cpp:400-404 | the registers become `Alu` for 8XY6 |
| Emulator.Chip.SubtractReversed | Chip.cpp:405-409 | the registers become `Alu` for 8XY7 |
| Emulator.Chip.ShiftLeft | Chip.cpp:410-414 | the registers become `Alu` for 8XYE |
| Emulator.Chip.HexA | Chip.cpp:423-427 | the new state is `Machine.HexA` of the old one |
| Emulator.Chip.HexB | Chip.cpp:429-434 | the new state is `Machine.HexB` of the old one and `jumpFlag` is set |
| Emulator.Chip.HexC | Chip.cpp:436-440 | the new state is `Machine.HexC` of the old one for the given random byte |
| Emulator.Chip.HexD | Chip.cpp:442-472 | the new state is `Machine.HexD` of the old one |
| Emulator.Chip.DrawAt | Chip.cpp:450-471 | VF cleared, sprite drawn, drawFlag set: the new state is `Machine.DrawAt` |
| Emulator.Chip.DrawSprite | Chip.cpp:454-468 | the row loop leaves the display and VF as `Sprite.DrawRows` over all rows, other registers unchanged |
| Emulator.Chip.DrawSpriteStep | Chip.cpp:456-467 | one row more of `Sprite.DrawRows` |
| Emulator.Chip.DrawSpriteRow | Chip.cpp:458-467 | the bit loop leaves the display and VF as `Sprite.DrawRow` |
| Emulator.Chip.DrawPixel | Chip.cpp:460-466 | one pixel more of `Sprite.DrawRow` |
| Emulator.Chip.FlipCell | Chip.cpp:462-465 | one cell is XORed with 1 and VF set when it was on, as `Sprite.Plot` |
| Emulator.Chip.HexE | Chip.cpp:474-502 | returns true exactly when `Machine.HexE` succeeds, and then the new state is its result |
| Emulator.Chip.KeyState | Chip.cpp:480-482 | the key state read is whether Vx's scancode is held |
| Emulator.Chip.HexF | Chip.cpp:504-592 | returns true exactly when `Machine.HexF` succeeds, and then the new state is its result |
| Emulator.Chip.HexFTimersAndKeys | Chip.cpp:511-547 | the same for FX07, FX0A, FX15, FX18 |
| Emulator.Chip.HexFIndex | Chip.cpp:548-557 | the same for FX1E, FX29 |
| Emulator.Chip.HexFMemory | Chip.cpp:558-585 | the same for FX33, FX55, FX65 |
| Emulator.Chip.TransferTimer | Chip.cpp:511-547 | the new state is `Machine.Timers` of the old one |
| Emulator.Chip.AddToIndex | Chip.cpp:548-553 | the new state is `Machine.AddToI` of the old one |
| Emulator.Chip.PointToGlyph | Chip.cpp:554-557 | the new state is `Machine.PointToGlyph` of the old one |
| Emulator.Chip.WaitForKey | Chip.cpp:515-539 | the event loop leaves the state `Machine.WaitForKey` of the old one |
| Emulator.Chip.StoreDigits | Chip.cpp:558-570 | the new state is `Machine.StoreDigits` of the old one |
| Emulator.Chip.WriteDigits | Chip.cpp:562-567 | the digit loop writes `Bcd(Vx)` at I..I+2 and nothing else |
| Emulator.Chip.SaveRegisters | Chip.cpp:571-577 | the new state is `Machine.SaveRegisters` of the old one |
| Emulator.Chip.WriteRegisters | Chip.cpp:573-576 | the copy loop writes V0..Vx at I..I+x and nothing else |
| Emulator.Chip.RestoreRegisters | Chip.cpp:578-585 | the new state is `Machine.RestoreRegisters` of the old one |
| Emulator.Chip.LoadRegisters | Chip.cpp:580-583 | the copy loop loads V0..Vx from I..I+x and keeps the rest |
| Emulator.Chip.EmulateCycle | Chip.cpp:661-720 | returns true exactly when `Machine.Cycle` succeeds, and then the new state is its result |
| Emulator.Chip.Dispatch | Chip.cpp:669-716 | the switch has the effect of `Machine.Execute`, and `jumpFlag` ends set exactly for 1NNN, 2NNN, BNNN |
| Emulator.Chip.DispatchControl | Chip.cpp:671-683 | the same for the 0..5 and 9 families |
| Emulator.Chip.DispatchRegisters | Chip.cpp:684-692 | the same for the 6, 7, 8 families |
| Emulator.Chip.DispatchIndex | Chip.cpp:693-701 | the same for the A, B, C families |
| Emulator.Chip.DispatchDevices | Chip.cpp:702-707 | the same for the D, E families |
| Emulator.Chip.HexFCycle | Chip.cpp:708-710 | the same for the F family |
| Emulator.Chip.EmulateFrame | Chip.cpp:154-168 | nine cycles then the timer tick: returns true exactly when `Machine.Frame` succeeds, and then the new state is its result |
| Emulator.Chip.TickTimers | Chip.cpp:164-168 | the new state is `Tick` of the old one |

## Left out

- SDL setup, window and rendering (`initSDL`, `renderDisplay`): presentation through a library outside the core.
- `setPixel` and its wrap-around: it is never called by the draw instruction.
- The frame loop's event polling, quit and escape handling, the FPS counter and the `SDL_Delay` pacing in `emulate`: host I/O and wall-clock time. Only the nine cycles and the timer tick are modelled.
- `random()` and its generator: the random byte is an input of `CXNN`.
- The host keyboard: `EX9E`/`EXA1` receive the keyboard state array as an input. `FX0A` receives the events delivered while it waits.
- Machine.WaitForKey: when the event sequence runs out, the register is left unchanged. This stands for the host's wait call failing. Blocking forever is not modelled.
- Machine.LoadRom: the file is not opened or read. Only the copy of the program bytes to 0x200 is modelled, for a program that fits in memory. The source reads without a bound, and reports an unopenable file by exiting; neither is modelled.
- `other.loadApplication` and the `chip8` class: chip8.h is not part of this model.
- `disassembleChip8`: it is only referenced from commented-out code.
- The diagnostic `printf` calls and `main.cpp` (argument count check).
- The `exit(1)` on an unhandled instruction: modelled as a `Fatal(opcode)` result that stops the run, rather than as process exit.
- Undefined behaviour that the source does not check is excluded by preconditions (`CanFetch`, `Defined`, `DrawDefined`, `KeyDefined`, `StoreDefined`). Excluded are:
  - a fetch past the end of memory;
  - a call on a full stack;
  - a return on an empty stack;
  - a draw of N > 0 rows whose sprite runs past the end of memory (DXY0 reads no memory and is defined for every `I`);
  - a lit pixel at display index 2048 or more;
  - a key register of 16 or more;
  - an FX33/FX55/FX65 transfer past the end of memory.
- Emulator.Chip.constructor: `jumpFlag` is left uninitialised by the source's constructor. The model sets it to false. Every cycle clears it before use, so its initial value is never read.
- Machine.State: the jump flag is not part of the value state. It is cleared before every instruction and set only by 1NNN, 2NNN and BNNN, so `Machine.Cycle` computes it from the instruction (`SetsJumpFlag`). The class keeps the field.
- Machine.HexF, Machine.Execute, Machine.Cycle, Machine.Run, Machine.Frame: their own contracts give only well-formedness and the error cases. The effect of each instruction is stated by the lemmas in `ControlFlow`, `AluLaws`, `DisplayLaws`, `StorageLaws` and `Runs`.
