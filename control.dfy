/** Control flow, one cycle at a time: where each instruction sends the pc,
    the call stack, and which instructions stop the program. */
module ControlFlow {
  import opened Nibbles
  import opened Machine
  import StorageLaws

  // -----------------------------------------------------------------------
  // Fetch, dispatch and runs.

  /** The instruction word is big-endian: its high byte is the one at `pc`. */
  lemma FetchIsBigEndian(s: State)
    requires Valid(s) && CanFetch(s)
    ensures Fetch(s) >> 8 == s.memory[s.pc as int] as bv16
    ensures Fetch(s) & 0xFF == s.memory[s.pc as int + 1] as bv16
    ensures Family(Fetch(s)) == (s.memory[s.pc as int] >> 4) as bv16
    ensures NN(Fetch(s)) == s.memory[s.pc as int + 1]
  {
  }

  /** The cycle after an instruction whose handler yields `t`: `t` itself
      when the handler jumped, `t` at the next instruction otherwise. */
  lemma CycleAfter(s: State, inp: Input, t: State)
    requires Safe(s, inp) && Execute(s, Fetch(s), inp) == Ok(t)
    ensures SetsJumpFlag(Fetch(s)) ==> Cycle(s, inp) == Ok(t)
    ensures !SetsJumpFlag(Fetch(s)) ==> Cycle(s, inp) == Ok(t.(pc := t.pc + 2))
  {
  }

  /** The first cycle of a run: the run stops there when that cycle stops
      the program, and otherwise goes on from the state it leaves. */
  lemma RunStep(s: State, inputs: seq<Input>)
    requires Valid(s) && |inputs| > 0 && RunSafe(s, inputs)
    ensures Safe(s, inputs[0])
    ensures Cycle(s, inputs[0]).Fatal? ==> Run(s, inputs) == Fatal(Cycle(s, inputs[0]).opcode)
    ensures Cycle(s, inputs[0]).Ok? ==> RunSafe(Cycle(s, inputs[0]).state, inputs[1..])
    ensures Cycle(s, inputs[0]).Ok? ==> Run(s, inputs) == Run(Cycle(s, inputs[0]).state, inputs[1..])
  {
  }

  /** A run of one cycle. */
  lemma RunOne(s: State, i1: Input, t: State)
    requires Safe(s, i1) && Cycle(s, i1) == Ok(t)
    ensures RunSafe(s, [i1]) && Run(s, [i1]) == Ok(t)
  {
    assert [i1][1..] == [];
  }

  /** A run of two cycles. */
  lemma RunTwo(s: State, i1: Input, i2: Input, t: State, u: State)
    requires Safe(s, i1) && Cycle(s, i1) == Ok(t)
    requires Safe(t, i2) && Cycle(t, i2) == Ok(u)
    ensures RunSafe(s, [i1, i2]) && Run(s, [i1, i2]) == Ok(u)
  {
    RunOne(t, i2, u);
    assert [i1, i2][1..] == [i2];
  }

  // -----------------------------------------------------------------------
  // Control flow.

  /** 1NNN continues at NNN and changes nothing else. */
  lemma JumpGoesToAddress(s: State, inp: Input)
    requires Valid(s) && CanFetch(s) && Family(Fetch(s)) == 1
    ensures Safe(s, inp)
    ensures Cycle(s, inp) == Ok(s.(pc := NNN(Fetch(s))))
  {
    ExecuteGoTo(s, Fetch(s), inp);
    CycleAfter(s, inp, GoToAddress(s, Fetch(s)));
  }

  /** 2NNN pushes the address of the call and continues at NNN. */
  lemma CallPushesReturnAddress(s: State, inp: Input)
    requires Valid(s) && CanFetch(s) && Family(Fetch(s)) == 2 && (s.sp as int) < StackDepth
    ensures Safe(s, inp)
    ensures Cycle(s, inp) == Ok(s.(stack := s.stack[s.sp as int := s.pc], sp := s.sp + 1, pc := NNN(Fetch(s))))
  {
    ExecuteGoTo(s, Fetch(s), inp);
    CycleAfter(s, inp, GoToAddress(s, Fetch(s)));
  }

  lemma ExecuteGoTo(s: State, op: bv16, inp: Input)
    requires Valid(s) && (Family(op) == 1 || Family(op) == 2)
    requires Family(op) == 2 ==> (s.sp as int) < StackDepth
    ensures Defined(s, op, inp)
    ensures Execute(s, op, inp) == Ok(GoToAddress(s, op))
  {
  }

  /** 00EE pops the saved address and continues after it. */
  lemma ReturnResumesAfterCall(s: State, inp: Input)
    requires Valid(s) && CanFetch(s) && Fetch(s) == 0x00EE && s.sp > 0
    ensures Safe(s, inp)
    ensures Cycle(s, inp) == Ok(s.(sp := s.sp - 1, pc := s.stack[(s.sp - 1) as int] + 2))
  {
    ExecuteHex0(s, Fetch(s), inp);
    CycleAfter(s, inp, Hex0(s, Fetch(s)));
  }

  lemma ExecuteHex0(s: State, op: bv16, inp: Input)
    requires Valid(s) && Family(op) == 0 && (op == 0x00EE ==> s.sp > 0)
    ensures Defined(s, op, inp)
    ensures Execute(s, op, inp) == Ok(Hex0(s, op))
  {
  }

  /** A call to a subroutine that returns at once resumes after the call,
      with the stack pointer back where it was. */
  lemma CallThenReturn(s: State, i1: Input, i2: Input)
    requires Valid(s) && CanFetch(s) && Family(Fetch(s)) == 2 && (s.sp as int) < StackDepth
    requires NNN(Fetch(s)) as int + 1 < MemorySize
    requires s.memory[NNN(Fetch(s)) as int] == 0x00 && s.memory[NNN(Fetch(s)) as int + 1] == 0xEE
    ensures RunSafe(s, [i1, i2])
    ensures Run(s, [i1, i2]) == Ok(s.(stack := s.stack[s.sp as int := s.pc], pc := s.pc + 2))
  {
    CallPushesReturnAddress(s, i1);
    var t := s.(stack := s.stack[s.sp as int := s.pc], sp := s.sp + 1, pc := NNN(Fetch(s)));
    assert t.pc == NNN(Fetch(s)) && t.memory == s.memory;
    var u := ReturnStep(t, i2);
    PushPop(s, t, u);
    RunTwo(s, i1, i2, t, u);
  }

  lemma ReturnStep(t: State, i2: Input) returns (u: State)
    requires Valid(t) && CanFetch(t) && t.sp > 0
    requires t.memory[t.pc as int] == 0x00 && t.memory[t.pc as int + 1] == 0xEE
    ensures Safe(t, i2) && Cycle(t, i2) == Ok(u)
    ensures u == t.(sp := t.sp - 1, pc := t.stack[(t.sp - 1) as int] + 2)
  {
    assert Fetch(t) == 0x00EE;
    ReturnResumesAfterCall(t, i2);
    u := t.(sp := t.sp - 1, pc := t.stack[(t.sp - 1) as int] + 2);
  }

  /** Pushing the pc and popping it again. */
  lemma PushPop(s: State, t: State, u: State)
    requires Valid(s) && (s.sp as int) < StackDepth
    requires t == s.(stack := s.stack[s.sp as int := s.pc], sp := s.sp + 1, pc := t.pc)
    requires u == t.(sp := t.sp - 1, pc := t.stack[(t.sp - 1) as int] + 2)
    ensures u == s.(stack := s.stack[s.sp as int := s.pc], pc := s.pc + 2)
  {
    assert t.sp - 1 == s.sp;
  }

  lemma ExecuteSkip(s: State, op: bv16, inp: Input)
    requires Valid(s) && Family(op) in {3, 4, 5, 9}
    ensures Defined(s, op, inp)
    ensures Execute(s, op, inp) == Ok(SkipNextInstruction(s, op))
  {
  }

  /** The conditional skips go two instructions ahead when their condition
      holds and one otherwise, changing nothing else. */
  lemma SkipAdvancesPc(s: State, inp: Input)
    requires Valid(s) && CanFetch(s) && Family(Fetch(s)) in {3, 4, 5, 9}
    ensures Safe(s, inp)
    ensures SkipTaken(s.registers, Fetch(s)) ==> Cycle(s, inp) == Ok(s.(pc := s.pc + 4))
    ensures !SkipTaken(s.registers, Fetch(s)) ==> Cycle(s, inp) == Ok(s.(pc := s.pc + 2))
  {
    ExecuteSkip(s, Fetch(s), inp);
    if SkipTaken(s.registers, Fetch(s)) {
      SkipTakenStep(s, inp);
    } else {
      CycleAfter(s, inp, s);
    }
  }

  lemma SkipTakenStep(s: State, inp: Input)
    requires Valid(s) && CanFetch(s) && Family(Fetch(s)) in {3, 4, 5, 9}
    requires SkipTaken(s.registers, Fetch(s))
    ensures Safe(s, inp) && Cycle(s, inp) == Ok(s.(pc := s.pc + 4))
  {
    ExecuteSkip(s, Fetch(s), inp);
    var t := s.(pc := s.pc + 2);
    CycleAfter(s, inp, t);
    SkipTwice(s, t);
  }

  lemma SkipTwice(s: State, t: State)
    requires Valid(s) && t == s.(pc := s.pc + 2)
    ensures t.(pc := t.pc + 2) == s.(pc := s.pc + 4)
  {
  }

  /** BNNN continues at NNN + V0. */
  lemma JumpWithOffset(s: State, inp: Input)
    requires Valid(s) && CanFetch(s) && Family(Fetch(s)) == 0xB
    ensures Safe(s, inp)
    ensures Cycle(s, inp) == Ok(s.(pc := AddByte(NNN(Fetch(s)), s.registers[0])))
  {
    var op := Fetch(s);
    ExecuteOffsetJump(s, op, inp);
    var t := HexB(s, op);
    CycleAfter(s, inp, t);
  }

  lemma ExecuteOffsetJump(s: State, op: bv16, inp: Input)
    requires Valid(s) && Family(op) == 0xB
    ensures Defined(s, op, inp)
    ensures Execute(s, op, inp) == Ok(HexB(s, op))
  {
  }

  /** The BNNN target never wraps: it is at most 0xFFF + 0xFF. */
  lemma OffsetTargetNoWrap(a: bv16, v: bv8)
    requires a < 0x1000
    ensures a <= AddByte(a, v) <= 0x10FE
  {
  }

  /** The instructions after which execution simply moves on to the next
      one. */
  predicate Sequential(op: bv16) {
    var f := Family(op);
    (f == 0 && op != 0x00EE) || f == 6 || f == 7 || f == 8 || f == 0xA || f == 0xC || f == 0xD || f == 0xF
  }

  /** The instructions the interpreter does not handle: it reports them and
      stops. */
  predicate Unhandled(op: bv16) {
    var f := Family(op);
    (f == 8 && !(N(op) <= 7 || N(op) == 0xE))
    || (f == 0xE && NN(op) != 0x9E && NN(op) != 0xA1)
    || (f == 0xF && !HandledF(NN(op)))
  }

  /** The handlers of the sequential instructions leave the pc alone. */
  lemma ExecuteKeepsPc(s: State, op: bv16, inp: Input)
    requires Valid(s) && Defined(s, op, inp) && Sequential(op)
    ensures Execute(s, op, inp).Ok? ==> Execute(s, op, inp).state.pc == s.pc
  {
    if Family(op) == 0xF {
      StorageLaws.HexFFrame(s, op, inp.events);
    }
  }

  /** After a sequential instruction the pc has moved past it. */
  lemma PcAdvances(s: State, inp: Input)
    requires Safe(s, inp) && Sequential(Fetch(s))
    ensures Cycle(s, inp).Ok? ==> Cycle(s, inp).state.pc == s.pc + 2
  {
    ExecuteKeepsPc(s, Fetch(s), inp);
    if Execute(s, Fetch(s), inp).Ok? {
      CycleAfter(s, inp, Execute(s, Fetch(s), inp).state);
    }
  }

  /** A handler fails exactly on an unhandled instruction, and reports it. */
  lemma ExecuteFails(s: State, op: bv16, inp: Input)
    requires Valid(s) && Defined(s, op, inp)
    ensures Execute(s, op, inp).Fatal? <==> Unhandled(op)
    ensures Execute(s, op, inp).Fatal? ==> Execute(s, op, inp).opcode == op
  {
    if Family(op) == 0xF {
      StorageLaws.HexFFrame(s, op, inp.events);
    }
  }

  /** A cycle stops exactly on an unhandled instruction, and reports it. */
  lemma CycleFails(s: State, inp: Input)
    requires Safe(s, inp)
    ensures Cycle(s, inp).Fatal? <==> Unhandled(Fetch(s))
    ensures Cycle(s, inp).Fatal? ==> Cycle(s, inp).opcode == Fetch(s)
  {
    ExecuteFails(s, Fetch(s), inp);
  }

  /** Whether EX9E / EXA1 skip: EX9E when the key in VX is down, EXA1 when
      it is up. */
  predicate KeySkipTaken(s: State, op: bv16, keyboard: seq<bool>)
    requires Valid(s) && KeyDefined(s, op, keyboard)
  {
    (NN(op) == 0x9E && KeyDown(s, op, keyboard)) || (NN(op) == 0xA1 && !KeyDown(s, op, keyboard))
  }

  lemma ExecuteKey(s: State, op: bv16, inp: Input)
    requires Valid(s) && Family(op) == 0xE && KeyDefined(s, op, inp.keyboard)
    requires NN(op) == 0x9E || NN(op) == 0xA1
    ensures Defined(s, op, inp)
    ensures KeySkipTaken(s, op, inp.keyboard) ==> Execute(s, op, inp) == Ok(s.(pc := s.pc + 2))
    ensures !KeySkipTaken(s, op, inp.keyboard) ==> Execute(s, op, inp) == Ok(s)
  {
  }

  /** EX9E and EXA1 go two instructions ahead when they skip and one
      otherwise. */
  lemma KeySkipAdvancesPc(s: State, inp: Input)
    requires Valid(s) && CanFetch(s) && Family(Fetch(s)) == 0xE && KeyDefined(s, Fetch(s), inp.keyboard)
    requires NN(Fetch(s)) == 0x9E || NN(Fetch(s)) == 0xA1
    ensures Safe(s, inp)
    ensures KeySkipTaken(s, Fetch(s), inp.keyboard) ==> Cycle(s, inp) == Ok(s.(pc := s.pc + 4))
    ensures !KeySkipTaken(s, Fetch(s), inp.keyboard) ==> Cycle(s, inp) == Ok(s.(pc := s.pc + 2))
  {
    ExecuteKey(s, Fetch(s), inp);
    if KeySkipTaken(s, Fetch(s), inp.keyboard) {
      var t := s.(pc := s.pc + 2);
      CycleAfter(s, inp, t);
      SkipTwice(s, t);
    } else {
      CycleAfter(s, inp, s);
    }
  }
}
