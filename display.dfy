/** The display instructions: 00E0 and DXYN. */
module DisplayLaws {
  import opened Machine
  import Sprite

  /** The pattern DXYN draws in state `s`. */
  function SpriteOf(s: State, op: bv16): (p: seq<seq<bool>>)
    requires Valid(s) && DrawDefined(s.memory, s.registers, s.I, op)
    ensures |p| == N(op) as int
  {
    Sprite.Pattern(SpriteAt(s.memory, s.I, op))
  }

  /** DXYN flips exactly the cells under the lit pixels of the N-row sprite
      at I, drawn at (VX, VY); VF becomes 1 exactly when one of them was on;
      no other register changes. */
  lemma DrawInstruction(s: State, op: bv16)
    requires Valid(s) && DrawDefined(s.memory, s.registers, s.I, op)
    ensures var vx, vy := s.registers[X(op)], s.registers[Y(op)];
      HexD(s, op).display == Sprite.Flipped(s.display, vx, vy, SpriteOf(s, op))
      && HexD(s, op).registers[VF] == Bit(Sprite.Hit(s.display, vx, vy, SpriteOf(s, op)))
    ensures forall k :: 0 <= k < NumRegisters && k != VF ==> HexD(s, op).registers[k] == s.registers[k]
    ensures HexD(s, op).drawFlag
  {
    var vx, vy := s.registers[X(op)], s.registers[Y(op)];
    Sprite.DrawSpec(Sprite.Canvas(s.display, false), vx, vy, SpriteOf(s, op));
  }

  /** DXYN keeps every display cell 0 or 1. */
  lemma DrawKeepsCellsBinary(s: State, op: bv16)
    requires Valid(s) && DrawDefined(s.memory, s.registers, s.I, op)
    requires Sprite.Binary(s.display)
    ensures Sprite.Binary(HexD(s, op).display)
  {
    var vx, vy := s.registers[X(op)], s.registers[Y(op)];
    Sprite.DrawKeepsBinary(Sprite.Canvas(s.display, false), vx, vy, SpriteOf(s, op));
  }

  /** After a DXYN whose coordinates are not in VF, the same DXYN can run
      again and draws the same sprite at the same place. */
  lemma RedrawDefined(s: State, op: bv16)
    requires Valid(s) && DrawDefined(s.memory, s.registers, s.I, op)
    requires X(op) != VF && Y(op) != VF
    ensures DrawDefined(HexD(s, op).memory, HexD(s, op).registers, HexD(s, op).I, op)
    ensures SpriteOf(HexD(s, op), op) == SpriteOf(s, op)
    ensures HexD(s, op).registers[X(op)] == s.registers[X(op)]
    ensures HexD(s, op).registers[Y(op)] == s.registers[Y(op)]
  {
  }

  /** Drawing the same sprite twice at the same place restores the display. */
  lemma DrawTwiceErases(s: State, op: bv16)
    requires Valid(s) && DrawDefined(s.memory, s.registers, s.I, op)
    requires X(op) != VF && Y(op) != VF
    ensures DrawDefined(HexD(s, op).memory, HexD(s, op).registers, HexD(s, op).I, op)
    ensures HexD(HexD(s, op), op).display == s.display
  {
    RedrawDefined(s, op);
    var vx, vy := s.registers[X(op)], s.registers[Y(op)];
    Sprite.DrawTwiceRestores(s.display, vx, vy, SpriteOf(s, op), false, false);
  }

  /** 00E0 turns every cell off. */
  lemma ClearBlanks(s: State)
    requires Valid(s)
    ensures forall k :: 0 <= k < Sprite.Cells ==> Hex0(s, 0x00E0).display[k] == 0
    ensures Hex0(s, 0x00E0).drawFlag
    ensures Hex0(s, 0x00E0) == s.(display := Hex0(s, 0x00E0).display, drawFlag := true)
  {
  }

  /** Right after 00E0, a DXYN collides with nothing; drawing it a second
      time collides exactly when the sprite has a lit pixel. */
  lemma DrawAfterClear(s: State, op: bv16)
    requires Valid(s)
    requires DrawDefined(s.memory, s.registers, s.I, op)
    requires X(op) != VF && Y(op) != VF
    ensures var t := Hex0(s, 0x00E0);
      DrawDefined(t.memory, t.registers, t.I, op) && HexD(t, op).registers[VF] == 0
    ensures var t := Hex0(s, 0x00E0);
      DrawDefined(HexD(t, op).memory, HexD(t, op).registers, HexD(t, op).I, op)
      && (HexD(HexD(t, op), op).registers[VF] == 1 <==> Sprite.AnyLit(SpriteOf(s, op)))
  {
    var t := Hex0(s, 0x00E0);
    assert t.memory == s.memory && t.registers == s.registers && t.I == s.I;
    RedrawDefined(t, op);
    var vx, vy := s.registers[X(op)], s.registers[Y(op)];
    Sprite.RedrawCollides(t.display, vx, vy, SpriteOf(s, op));
  }

  /** DXY0 reads no memory, so it is defined whatever I holds (past the end
      of memory too): it clears VF, sets the draw flag and leaves the display
      as it was. */
  lemma DrawNothing(s: State, op: bv16)
    requires Valid(s) && N(op) == 0
    ensures DrawDefined(s.memory, s.registers, s.I, op)
    ensures HexD(s, op) == s.(registers := s.registers[VF := 0], drawFlag := true)
  {
    var vx, vy := s.registers[X(op)], s.registers[Y(op)];
    assert SpriteOf(s, op) == [];
    Sprite.DrawSpec(Sprite.Canvas(s.display, false), vx, vy, []);
    assert Sprite.Flipped(s.display, vx, vy, []) == s.display;
  }
}
