/** Whole runs: composing runs, the machine invariant every cycle and frame
    keeps from power-on, the timers, and a two-instruction program that
    clears the screen forever. */
module Runs {
  import opened Machine
  import Sprite
  import ControlFlow
  import StorageLaws
  import DisplayLaws

  /** A run over `a + b` is the run over `a` followed by the run over `b`. */
  lemma {:induction false} RunAppend(s: State, a: seq<Input>, b: seq<Input>)
    requires Valid(s) && RunSafe(s, a)
    requires Run(s, a).Ok? ==> RunSafe(Run(s, a).state, b)
    ensures RunSafe(s, a + b)
    ensures Run(s, a + b) == (match Run(s, a) case Fatal(o) => Fatal(o) case Ok(t) => Run(t, b))
    decreases |a|
  {
    if |a| == 0 {
      assert a + b == b;
    } else {
      assert (a + b)[0] == a[0];
      assert (a + b)[1..] == a[1..] + b;
      match Cycle(s, a[0])
      case Fatal(_) =>
      case Ok(t) => RunAppend(t, a[1..], b);
    }
  }

  // -----------------------------------------------------------------------
  // The machine invariant.

  /** The fixed sizes hold and every display cell is off or on. */
  predicate Consistent(s: State) {
    Valid(s) && Sprite.Binary(s.display)
  }

  lemma ExecuteKeepsConsistent(s: State, op: bv16, inp: Input)
    requires Consistent(s) && Defined(s, op, inp)
    ensures Execute(s, op, inp).Ok? ==> Consistent(Execute(s, op, inp).state)
  {
    var f := Family(op);
    if f == 0xD {
      ExecuteDraw(s, op, inp);
      DisplayLaws.DrawKeepsCellsBinary(s, op);
    } else if f == 0xF {
      ExecuteStore(s, op, inp);
      StorageLaws.HexFFrame(s, op, inp.events);
    } else {
      ExecuteDisplay(s, op, inp);
    }
  }

  lemma ExecuteDraw(s: State, op: bv16, inp: Input)
    requires Valid(s) && Defined(s, op, inp) && Family(op) == 0xD
    ensures DrawDefined(s.memory, s.registers, s.I, op)
    ensures Execute(s, op, inp) == Ok(HexD(s, op))
  {
  }

  lemma ExecuteStore(s: State, op: bv16, inp: Input)
    requires Valid(s) && Defined(s, op, inp) && Family(op) == 0xF
    ensures StoreDefined(s, op)
    ensures Execute(s, op, inp) == HexF(s, op, inp.events)
  {
  }

  /** Only 00E0 and DXYN touch the display; 00E0 blanks it. */
  lemma ExecuteDisplay(s: State, op: bv16, inp: Input)
    requires Valid(s) && Defined(s, op, inp) && Family(op) != 0xD && Family(op) != 0xF
    ensures Execute(s, op, inp).Ok? && op != 0x00E0 ==> Execute(s, op, inp).state.display == s.display
    ensures Execute(s, op, inp).Ok? && op == 0x00E0 ==> Execute(s, op, inp).state.display == BlankDisplay()
  {
  }

  lemma CycleKeepsConsistent(s: State, inp: Input)
    requires Consistent(s) && Safe(s, inp)
    ensures Cycle(s, inp).Ok? ==> Consistent(Cycle(s, inp).state)
  {
    ExecuteKeepsConsistent(s, Fetch(s), inp);
  }

  lemma {:induction false} RunKeepsConsistent(s: State, inputs: seq<Input>)
    requires Consistent(s) && RunSafe(s, inputs)
    ensures Run(s, inputs).Ok? ==> Consistent(Run(s, inputs).state)
    decreases |inputs|
  {
    if |inputs| > 0 {
      CycleKeepsConsistent(s, inputs[0]);
      match Cycle(s, inputs[0])
      case Fatal(_) =>
      case Ok(t) => RunKeepsConsistent(t, inputs[1..]);
    }
  }

  lemma FrameKeepsConsistent(s: State, inputs: seq<Input>)
    requires Consistent(s) && |inputs| == CyclesPerFrame && RunSafe(s, inputs)
    ensures Frame(s, inputs).Ok? ==> Consistent(Frame(s, inputs).state)
  {
    RunKeepsConsistent(s, inputs);
  }

  /** The power-on state is consistent, and so is it with a program loaded. */
  lemma BootConsistent(rom: seq<bv8>)
    requires |rom| <= MemorySize - ProgramStart as int
    ensures Consistent(Init()) && Consistent(LoadRom(Init(), rom))
  {
  }

  /** With a program loaded, the first instruction fetched is its first two
      bytes, and the glyphs are still in place below it. */
  lemma BootFetchesProgram(rom: seq<bv8>)
    requires 2 <= |rom| <= MemorySize - ProgramStart as int
    ensures CanFetch(LoadRom(Init(), rom))
    ensures Fetch(LoadRom(Init(), rom)) == Word(rom[0], rom[1])
    ensures LoadRom(Init(), rom).memory[..|Font|] == Font
  {
    var s := LoadRom(Init(), rom);
    assert s.memory[ProgramStart as int] == rom[0];
    assert s.memory[ProgramStart as int + 1] == rom[1];
    assert forall k :: 0 <= k < |Font| ==> s.memory[k] == Init().memory[k];
    assert s.memory[..|Font|] == Init().memory[..|Font|];
  }

  // -----------------------------------------------------------------------
  // The timers.

  /** A frame's timer step changes the timers only: each that is running
      goes down by one, and one at 0 stays there. */
  lemma TickCountsDown(s: State)
    ensures Tick(s) == s.(dt := Tick(s).dt, st := Tick(s).st)
    ensures s.dt > 0 ==> Tick(s).dt + 1 == s.dt
    ensures s.st > 0 ==> Tick(s).st + 1 == s.st
    ensures s.dt == 0 ==> Tick(s).dt == 0
    ensures s.st == 0 ==> Tick(s).st == 0
  {
  }

  /** The timers after `n` frames of the main loop that do not set them. */
  function Ticks(s: State, n: nat): (t: State)
    ensures t == s.(dt := t.dt, st := t.st)
  {
    if n == 0 then s else Tick(Ticks(s, n - 1))
  }

  /** Each timer runs down one step per frame and then stays at 0. */
  lemma {:induction false} TicksCountDown(s: State, n: nat)
    ensures Ticks(s, n).dt as int == if s.dt as int >= n then s.dt as int - n else 0
    ensures Ticks(s, n).st as int == if s.st as int >= n then s.st as int - n else 0
  {
    if n > 0 {
      TicksCountDown(s, n - 1);
      TickStep(Ticks(s, n - 1).dt);
      TickStep(Ticks(s, n - 1).st);
    }
  }

  lemma TickStep(v: bv8)
    ensures CountDown(v) as int == if v as int >= 1 then v as int - 1 else 0
  {
  }

  // -----------------------------------------------------------------------
  // A program: 0x200: 00E0 (clear), 0x202: 1200 (jump to 0x200).

  const ClearLoop: seq<bv8> := [0x00, 0xE0, 0x12, 0x00]

  /** The state while the program runs: it is in place, the pc is at one of
      its two instructions, and the display is blank. */
  predicate InClearLoop(s: State) {
    Valid(s) && s.memory[0x200..0x204] == ClearLoop
    && (s.pc == 0x200 || s.pc == 0x202)
    && forall k :: 0 <= k < Sprite.Cells ==> s.display[k] == 0
  }

  lemma ClearLoopStarts()
    ensures InClearLoop(LoadRom(Init(), ClearLoop))
  {
  }

  /** Each cycle of the program keeps it running and leaves the timers as
      they were: neither instruction touches them. */
  lemma ClearLoopCycle(s: State, inp: Input)
    requires InClearLoop(s)
    ensures Safe(s, inp) && Cycle(s, inp).Ok? && InClearLoop(Cycle(s, inp).state)
    ensures Cycle(s, inp).state.dt == s.dt && Cycle(s, inp).state.st == s.st
  {
    if s.pc == 0x200 {
      assert s.memory[0x200] == 0x00 && s.memory[0x201] == 0xE0;
      ClearStep(s, inp);
    } else {
      assert s.memory[0x202] == 0x12 && s.memory[0x203] == 0x00;
      assert Fetch(s) == 0x1200;
      ControlFlow.JumpGoesToAddress(s, inp);
    }
  }

  lemma ClearStep(s: State, inp: Input)
    requires InClearLoop(s) && s.pc == 0x200
    ensures Safe(s, inp) && Cycle(s, inp) == Ok(s.(display := BlankDisplay(), drawFlag := true, pc := 0x202))
  {
    assert Fetch(s) == 0x00E0;
    ControlFlow.ExecuteHex0(s, Fetch(s), inp);
    ControlFlow.CycleAfter(s, inp, Hex0(s, 0x00E0));
  }

  /** The program never stops, keeps the display blank, keeps the pc at one
      of its two instructions and leaves the timers alone, whatever the
      input. */
  lemma {:induction false} ClearLoopRuns(s: State, inputs: seq<Input>)
    requires InClearLoop(s)
    ensures RunSafe(s, inputs) && Run(s, inputs).Ok? && InClearLoop(Run(s, inputs).state)
    ensures Run(s, inputs).state.dt == s.dt && Run(s, inputs).state.st == s.st
    decreases |inputs|
  {
    if |inputs| > 0 {
      ClearLoopCycle(s, inputs[0]);
      ClearLoopRuns(Cycle(s, inputs[0]).state, inputs[1..]);
    }
  }

  /** A frame of the program runs its nine cycles and then each timer that
      is running goes down by one. */
  lemma ClearLoopFrame(s: State, inputs: seq<Input>)
    requires InClearLoop(s) && |inputs| == CyclesPerFrame
    ensures RunSafe(s, inputs) && Frame(s, inputs).Ok? && InClearLoop(Frame(s, inputs).state)
    ensures Frame(s, inputs).state.dt == CountDown(s.dt) && Frame(s, inputs).state.st == CountDown(s.st)
  {
    ClearLoopRuns(s, inputs);
  }

  // -----------------------------------------------------------------------
  // Successive frames of the main loop.

  /** Every frame has its nine inputs and runs without an undefined step. */
  predicate FramesSafe(s: State, frames: seq<seq<Input>>)
    decreases |frames|
  {
    Valid(s) &&
    (|frames| == 0
     || (|frames[0]| == CyclesPerFrame && RunSafe(s, frames[0])
         && match Frame(s, frames[0])
            case Ok(t) => FramesSafe(t, frames[1..])
            case Fatal(_) => true))
  }

  /** The main loop, one frame per element of `frames`, stopping at the
      first unhandled instruction. */
  function Frames(s: State, frames: seq<seq<Input>>): (r: Result)
    requires FramesSafe(s, frames)
    ensures r.Ok? ==> Valid(r.state)
    decreases |frames|
  {
    if |frames| == 0 then Ok(s)
    else
      match Frame(s, frames[0])
      case Fatal(o) => Fatal(o)
      case Ok(t) => Frames(t, frames[1..])
  }

  /** Over any number of frames the program keeps running and its timers
      behave as the timer step alone would have them: each runs down one
      step per frame and then stays at 0. */
  lemma {:induction false} ClearLoopFrames(s: State, frames: seq<seq<Input>>)
    requires InClearLoop(s)
    requires forall i :: 0 <= i < |frames| ==> |frames[i]| == CyclesPerFrame
    ensures FramesSafe(s, frames) && Frames(s, frames).Ok? && InClearLoop(Frames(s, frames).state)
    ensures Frames(s, frames).state.dt as int == if s.dt as int >= |frames| then s.dt as int - |frames| else 0
    ensures Frames(s, frames).state.st as int == if s.st as int >= |frames| then s.st as int - |frames| else 0
    decreases |frames|
  {
    if |frames| > 0 {
      ClearLoopFrame(s, frames[0]);
      TickStep(s.dt);
      TickStep(s.st);
      ClearLoopFrames(Frame(s, frames[0]).state, frames[1..]);
    }
  }

  /** The timers of the program agree with `Ticks`, so after 255 frames
      both are at 0, whatever they started at. */
  lemma ClearLoopTimersExpire(s: State, frames: seq<seq<Input>>)
    requires InClearLoop(s) && |frames| == 255
    requires forall i :: 0 <= i < |frames| ==> |frames[i]| == CyclesPerFrame
    ensures FramesSafe(s, frames) && Frames(s, frames).Ok?
    ensures Frames(s, frames).state.dt == Ticks(s, 255).dt == 0
    ensures Frames(s, frames).state.st == Ticks(s, 255).st == 0
  {
    ClearLoopFrames(s, frames);
    TicksCountDown(s, 255);
  }
}
