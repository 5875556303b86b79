/** The register instructions: what each `8XYn` computes and which
    registers it writes, in which order, and the immediate forms 6XNN, 7XNN
    and CXNN. */
module AluLaws {
  import opened Machine

  /** Which registers `8XYn` writes and what: VX gets the result, VF the
      flag (unless X is F, when the result lands on top of it), nothing else
      changes. For n = 5, 6, 7, E the operands are read after the flag has
      been written; for n = 4 they are read before. */
  lemma AluRegisters(v: seq<bv8>, x: int, y: int, n: bv16)
    requires |v| == NumRegisters && 0 <= x < NumRegisters && 0 <= y < NumRegisters
    requires n <= 7 || n == 0xE
    ensures Alu(v, x, y, n).Some?
    ensures forall k :: 0 <= k < NumRegisters && k != x && k != VF ==> Alu(v, x, y, n).value[k] == v[k]
    ensures x != VF && !WritesFlag(n) ==> Alu(v, x, y, n).value[VF] == v[VF]
    ensures x != VF && WritesFlag(n) ==> Alu(v, x, y, n).value[VF] == AluFlag(n, v[x], v[y])
    ensures n == 4 || !WritesFlag(n) ==> Alu(v, x, y, n).value[x] == AluResult(n, v[x], v[y])
    ensures WritesFlag(n) && n != 4 ==>
      var f := AluFlag(n, v[x], v[y]);
      Alu(v, x, y, n).value[x] == AluResult(n, if x == VF then f else v[x], if y == VF then f else v[y])
  {
  }

  /** 8XY0 .. 8XY3 leave VF alone: 8XY0 copies VY, 8XY1 / 8XY2 / 8XY3 take
      the bitwise or / and / exclusive or of VX and VY. */
  lemma LogicOps(a: bv8, b: bv8)
    ensures !WritesFlag(0) && !WritesFlag(1) && !WritesFlag(2) && !WritesFlag(3)
    ensures AluResult(0, a, b) == b
    ensures AluResult(1, a, b) == a | b
    ensures AluResult(2, a, b) == a & b
    ensures AluResult(3, a, b) == a ^ b
  {
  }

  /** 8XY4 adds modulo 256 and sets VF to the carry out of the low byte. */
  lemma AddWithCarry(a: bv8, b: bv8)
    ensures AluResult(4, a, b) as bv16 == (a as bv16 + b as bv16) & 0xFF
    ensures AluFlag(4, a, b) as bv16 == (a as bv16 + b as bv16) >> 8
    ensures AluFlag(4, a, b) == 1 <==> a as bv16 + b as bv16 > 0xFF
  {
  }

  /** 8XY5 subtracts modulo 256 (adding VY back restores VX) and sets VF
      when VX is strictly greater than VY: equal operands clear it. */
  lemma SubtractWithBorrow(a: bv8, b: bv8)
    ensures AluResult(5, a, b) + b == a
    ensures a >= b ==> AluResult(5, a, b) as bv16 == a as bv16 - b as bv16
    ensures AluFlag(5, a, b) == 1 <==> a > b
    ensures AluFlag(5, a, a) == 0
  {
  }

  /** 8XY7 is 8XY5 with the operands swapped. */
  lemma ReverseSubtract(a: bv8, b: bv8)
    ensures AluResult(7, a, b) == AluResult(5, b, a)
    ensures AluFlag(7, a, b) == AluFlag(5, b, a)
  {
  }

  /** 8XY6 halves VX and puts the bit shifted out in VF; VY is not read. */
  lemma ShiftRight(a: bv8, b: bv8, b': bv8)
    ensures AluResult(6, a, b) == a / 2
    ensures AluFlag(6, a, b) == a % 2
    ensures AluResult(6, a, b) == AluResult(6, a, b') && AluFlag(6, a, b) == AluFlag(6, a, b')
  {
  }

  /** 8XYE doubles VX modulo 256 and puts the bit shifted out in VF. */
  lemma ShiftLeft(a: bv8, b: bv8)
    ensures AluResult(0xE, a, b) as bv16 == (a as bv16 * 2) & 0xFF
    ensures AluFlag(0xE, a, b) == a / 128
  {
  }

  /** 7XNN adds NN modulo 256 and, unlike 8XY4, leaves the flag alone
      (unless X is F). */
  lemma AddImmediate(s: State, op: bv16)
    requires Valid(s)
    ensures Hex7(s, op).registers[X(op)] == AluResult(4, s.registers[X(op)], NN(op))
    ensures forall k :: 0 <= k < NumRegisters && k != X(op) ==> Hex7(s, op).registers[k] == s.registers[k]
  {
  }

  /** 6XNN loads NN. */
  lemma LoadImmediate(s: State, op: bv16)
    requires Valid(s)
    ensures Hex6(s, op).registers[X(op)] == NN(op)
    ensures forall k :: 0 <= k < NumRegisters && k != X(op) ==> Hex6(s, op).registers[k] == s.registers[k]
  {
  }

  /** CXNN keeps only the bits of the random byte that NN selects. */
  lemma RandomMasked(s: State, op: bv16, random: bv8)
    requires Valid(s)
    ensures HexC(s, op, random).registers[X(op)] & !NN(op) == 0
    ensures HexC(s, op, random).registers[X(op)] <= NN(op)
    ensures HexC(s, op, random).registers[X(op)] == random & NN(op)
    ensures forall k :: 0 <= k < NumRegisters && k != X(op) ==> HexC(s, op, random).registers[k] == s.registers[k]
  {
  }

  /** The 8XYn handler runs the register instructions on the register
      file and touches nothing else. */
  lemma Hex8Registers(s: State, op: bv16)
    requires Valid(s) && (N(op) <= 7 || N(op) == 0xE)
    ensures Hex8(s, op) == Ok(s.(registers := Alu(s.registers, X(op), Y(op), N(op)).value))
  {
  }
}
