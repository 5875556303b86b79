/** Sprite drawing on the 64 x 32 monochrome display. A sprite is a list of
    byte rows; the most significant bit of a row is its leftmost pixel. Every
    lit bit flips the display cell under it, and drawing reports whether any
    flipped cell was on before. The display is stored row by row, one byte
    per cell, and nothing wraps: cell `(x + c, y + r)` is byte
    `x + c + (y + r) * 64`.

    Drawing is defined on the sprite's bit pattern (one `seq<bool>` of eight
    entries per row), which `Pattern` extracts from the bytes. */
module Sprite {

  const Width: int := 64
  const Height: int := 32
  const Cells: int := 2048

  /** The eight pixels of a sprite row, leftmost (most significant) first. */
  function Bits(row: bv8): (b: seq<bool>)
    ensures |b| == 8
  {
    [row & 0x80 != 0, row & 0x40 != 0, row & 0x20 != 0, row & 0x10 != 0,
     row & 0x08 != 0, row & 0x04 != 0, row & 0x02 != 0, row & 0x01 != 0]
  }

  /** Pixel `c` of a row is the bit Chip.cpp tests with `0x80 >> c`. */
  lemma BitsByShift(row: bv8, c: int)
    requires 0 <= c < 8
    ensures Bits(row)[c] == (row & (0x80 >> c) != 0)
  {
    if c == 0 { } else if c == 1 { } else if c == 2 { } else if c == 3 { }
    else if c == 4 { } else if c == 5 { } else if c == 6 { } else { }
  }

  /** The bit pattern of a sprite stored as bytes. */
  function Pattern(sprite: seq<bv8>): (p: seq<seq<bool>>)
    ensures |p| == |sprite|
  {
    if |sprite| == 0 then [] else Pattern(sprite[..|sprite| - 1]) + [Bits(sprite[|sprite| - 1])]
  }

  /** Row `r` of the pattern is the bits of byte `r`. */
  lemma {:induction false} PatternRow(sprite: seq<bv8>, r: int)
    requires 0 <= r < |sprite|
    ensures Pattern(sprite)[r] == Bits(sprite[r])
  {
    if r < |sprite| - 1 {
      PatternRow(sprite[..|sprite| - 1], r);
    }
  }

  /** The display byte under column `c` of row `r` of a sprite drawn at
      `(x, y)`. */
  function Cell(x: bv8, y: bv8, r: int, c: int): int {
    x as int + c + (y as int + r) * 64
  }

  /** Nothing wraps at the right edge: a column past 63 is the next row's
      cell, so a sprite drawn at x = 60 puts its last four pixels at the
      start of the row below. */
  lemma RightEdgeSpills(y: bv8, r: int, c: int)
    requires 4 <= c < 8
    ensures Cell(60, y, r, c) == Cell(0, y, r + 1, c - 4)
  {
  }

  /** The display together with the collision flag being accumulated. */
  datatype Canvas = Canvas(cells: seq<bv8>, collided: bool)

  /** Every lit pixel of row `r` falls on a cell of a display of `size`
      bytes. Chip.cpp does not check this. */
  predicate RowFits(size: int, x: bv8, y: bv8, r: nat, bits: seq<bool>) {
    |bits| <= 8 && forall c :: 0 <= c < |bits| && bits[c] ==> Cell(x, y, r, c) < size
  }

  predicate Fits(size: int, x: bv8, y: bv8, p: seq<seq<bool>>) {
    forall r :: 0 <= r < |p| ==> RowFits(size, x, y, r, p[r])
  }

  /** Flip one cell, noting a collision when it was on. */
  function Plot(d: Canvas, k: int): (e: Canvas)
    requires 0 <= k < |d.cells|
    ensures |e.cells| == |d.cells|
  {
    Canvas(d.cells[k := d.cells[k] ^ 1], d.collided || d.cells[k] == 1)
  }

  /** Columns `0 .. n-1` of row `r`, drawn left to right. */
  function DrawRow(d: Canvas, x: bv8, y: bv8, r: nat, bits: seq<bool>, n: int): (e: Canvas)
    requires 0 <= n <= |bits|
    requires RowFits(|d.cells|, x, y, r, bits)
    ensures |e.cells| == |d.cells|
    decreases n
  {
    if n == 0 then d
    else
      var e := DrawRow(d, x, y, r, bits, n - 1);
      if bits[n - 1] then Plot(e, Cell(x, y, r, n - 1)) else e
  }

  /** Rows `0 .. n-1` of the pattern, drawn top to bottom. */
  function DrawRows(d: Canvas, x: bv8, y: bv8, p: seq<seq<bool>>, n: int): (e: Canvas)
    requires 0 <= n <= |p|
    requires Fits(|d.cells|, x, y, p)
    ensures |e.cells| == |d.cells|
    decreases n
  {
    if n == 0 then d
    else DrawRow(DrawRows(d, x, y, p, n - 1), x, y, n - 1, p[n - 1], |p[n - 1]|)
  }

  /** Row `n` of a sprite that fits is a row that fits. */
  lemma RowOfSprite(size: int, x: bv8, y: bv8, sprite: seq<bv8>, n: nat, pixel: bv8)
    requires n < |sprite| && Fits(size, x, y, Pattern(sprite)) && pixel == sprite[n]
    ensures RowFits(size, x, y, n, Bits(pixel))
  {
    PatternRow(sprite, n);
  }

  /** One more row of the sprite bytes `sprite`: row `n` is drawn from its
      byte, `pixel`. */
  lemma DrawRowsStep(d: Canvas, x: bv8, y: bv8, sprite: seq<bv8>, n: nat, before: Canvas, pixel: bv8, after: Canvas)
    requires n < |sprite| && Fits(|d.cells|, x, y, Pattern(sprite)) && pixel == sprite[n]
    requires RowFits(|d.cells|, x, y, n, Bits(pixel))
    requires before == DrawRows(d, x, y, Pattern(sprite), n)
    requires after == DrawRow(before, x, y, n, Bits(pixel), 8)
    ensures after == DrawRows(d, x, y, Pattern(sprite), n + 1)
  {
    PatternRow(sprite, n);
  }

  function Draw(d: Canvas, x: bv8, y: bv8, p: seq<seq<bool>>): (e: Canvas)
    requires Fits(|d.cells|, x, y, p)
    ensures |e.cells| == |d.cells|
  {
    DrawRows(d, x, y, p, |p|)
  }

  // ---------------------------------------------------------------------
  // A reference description of drawing, cell by cell.

  /** Some lit pixel among the first `n` columns of row `r` lies on cell `k`. */
  predicate CoveredInRow(x: bv8, y: bv8, r: int, bits: seq<bool>, n: int, k: int)
    requires n <= |bits|
  {
    exists c :: 0 <= c < n && bits[c] && Cell(x, y, r, c) == k
  }

  /** Some lit pixel among the first `n` columns of row `r` lies on a cell
      that is on in `cells`. */
  predicate HitInRow(cells: seq<bv8>, x: bv8, y: bv8, r: int, bits: seq<bool>, n: int)
    requires n <= |bits|
  {
    exists c :: 0 <= c < n && bits[c] && 0 <= Cell(x, y, r, c) < |cells| && cells[Cell(x, y, r, c)] == 1
  }

  /** Some lit pixel of the first `n` rows lies on cell `k`. */
  predicate CoveredInRows(x: bv8, y: bv8, p: seq<seq<bool>>, n: int, k: int)
    requires n <= |p|
  {
    exists r :: 0 <= r < n && CoveredInRow(x, y, r, p[r], |p[r]|, k)
  }

  /** Some lit pixel of the first `n` rows lies on a cell that is on. */
  predicate HitInRows(cells: seq<bv8>, x: bv8, y: bv8, p: seq<seq<bool>>, n: int)
    requires n <= |p|
  {
    exists r :: 0 <= r < n && HitInRow(cells, x, y, r, p[r], |p[r]|)
  }

  predicate Covered(x: bv8, y: bv8, p: seq<seq<bool>>, k: int) {
    CoveredInRows(x, y, p, |p|, k)
  }

  predicate Hit(cells: seq<bv8>, x: bv8, y: bv8, p: seq<seq<bool>>) {
    HitInRows(cells, x, y, p, |p|)
  }

  /** The display after drawing, described cell by cell. */
  function Flipped(cells: seq<bv8>, x: bv8, y: bv8, p: seq<seq<bool>>): (f: seq<bv8>)
    ensures |f| == |cells|
  {
    seq(|cells|, k requires 0 <= k < |cells| => if Covered(x, y, p, k) then cells[k] ^ 1 else cells[k])
  }

  lemma {:induction false} DrawRowCells(d: Canvas, x: bv8, y: bv8, r: nat, bits: seq<bool>, n: int, k: int)
    requires 0 <= n <= |bits|
    requires RowFits(|d.cells|, x, y, r, bits)
    requires 0 <= k < |d.cells|
    ensures DrawRow(d, x, y, r, bits, n).cells[k] ==
      if CoveredInRow(x, y, r, bits, n, k) then d.cells[k] ^ 1 else d.cells[k]
    decreases n
  {
    if n > 0 {
      DrawRowCells(d, x, y, r, bits, n - 1, k);
      if CoveredInRow(x, y, r, bits, n, k) && !CoveredInRow(x, y, r, bits, n - 1, k) {
        var c :| 0 <= c < n && bits[c] && Cell(x, y, r, c) == k;
        assert c == n - 1;
      }
      if bits[n - 1] && Cell(x, y, r, n - 1) == k {
        assert CoveredInRow(x, y, r, bits, n, k);
      }
    }
  }

  lemma {:induction false} DrawRowCollision(d: Canvas, x: bv8, y: bv8, r: nat, bits: seq<bool>, n: int)
    requires 0 <= n <= |bits|
    requires RowFits(|d.cells|, x, y, r, bits)
    ensures DrawRow(d, x, y, r, bits, n).collided ==
      (d.collided || HitInRow(d.cells, x, y, r, bits, n))
    decreases n
  {
    if n > 0 {
      DrawRowCollision(d, x, y, r, bits, n - 1);
      if bits[n - 1] {
        var k := Cell(x, y, r, n - 1);
        DrawRowCells(d, x, y, r, bits, n - 1, k);
        assert !CoveredInRow(x, y, r, bits, n - 1, k);
        if d.cells[k] == 1 {
          assert HitInRow(d.cells, x, y, r, bits, n);
        }
      }
      if HitInRow(d.cells, x, y, r, bits, n) && !HitInRow(d.cells, x, y, r, bits, n - 1) {
        var c :| 0 <= c < n && bits[c] && 0 <= Cell(x, y, r, c) < |d.cells| && d.cells[Cell(x, y, r, c)] == 1;
        assert c == n - 1;
      }
    }
  }

  lemma {:induction false} DrawRowsCells(d: Canvas, x: bv8, y: bv8, p: seq<seq<bool>>, n: int, k: int)
    requires 0 <= n <= |p|
    requires Fits(|d.cells|, x, y, p)
    requires 0 <= k < |d.cells|
    ensures DrawRows(d, x, y, p, n).cells[k] ==
      if CoveredInRows(x, y, p, n, k) then d.cells[k] ^ 1 else d.cells[k]
    decreases n
  {
    if n > 0 {
      var e := DrawRows(d, x, y, p, n - 1);
      DrawRowsCells(d, x, y, p, n - 1, k);
      assert RowFits(|e.cells|, x, y, n - 1, p[n - 1]);
      DrawRowCells(e, x, y, n - 1, p[n - 1], |p[n - 1]|, k);
      if CoveredInRow(x, y, n - 1, p[n - 1], |p[n - 1]|, k) {
        assert CoveredInRows(x, y, p, n, k);
      } else if CoveredInRows(x, y, p, n, k) {
        var r :| 0 <= r < n && CoveredInRow(x, y, r, p[r], |p[r]|, k);
        assert r < n - 1;
      }
    }
  }

  /** A row is drawn onto cells the earlier rows left as they were. */
  lemma RowSeesOriginal(d: Canvas, x: bv8, y: bv8, p: seq<seq<bool>>, n: int)
    requires 0 < n <= |p|
    requires Fits(|d.cells|, x, y, p)
    ensures HitInRow(DrawRows(d, x, y, p, n - 1).cells, x, y, n - 1, p[n - 1], |p[n - 1]|)
      == HitInRow(d.cells, x, y, n - 1, p[n - 1], |p[n - 1]|)
  {
    var e := DrawRows(d, x, y, p, n - 1);
    var bits := p[n - 1];
    assert RowFits(|d.cells|, x, y, n - 1, bits);
    forall c | 0 <= c < |bits| && bits[c]
      ensures e.cells[Cell(x, y, n - 1, c)] == d.cells[Cell(x, y, n - 1, c)]
    {
      var k := Cell(x, y, n - 1, c);
      DrawRowsCells(d, x, y, p, n - 1, k);
    }
  }

  lemma {:induction false} DrawRowsCollision(d: Canvas, x: bv8, y: bv8, p: seq<seq<bool>>, n: int)
    requires 0 <= n <= |p|
    requires Fits(|d.cells|, x, y, p)
    ensures DrawRows(d, x, y, p, n).collided == (d.collided || HitInRows(d.cells, x, y, p, n))
    decreases n
  {
    if n > 0 {
      var e := DrawRows(d, x, y, p, n - 1);
      DrawRowsCollision(d, x, y, p, n - 1);
      assert RowFits(|e.cells|, x, y, n - 1, p[n - 1]);
      DrawRowCollision(e, x, y, n - 1, p[n - 1], |p[n - 1]|);
      RowSeesOriginal(d, x, y, p, n);
      if HitInRow(d.cells, x, y, n - 1, p[n - 1], |p[n - 1]|) {
        assert HitInRows(d.cells, x, y, p, n);
      }
      if HitInRows(d.cells, x, y, p, n) && !HitInRows(d.cells, x, y, p, n - 1) {
        var r :| 0 <= r < n && HitInRow(d.cells, x, y, r, p[r], |p[r]|);
        assert r == n - 1;
      }
    }
  }

  // ---------------------------------------------------------------------
  // Properties of drawing.

  /** Drawing flips exactly the cells under lit pixels, and collides
      exactly when one of those cells was on. */
  lemma DrawSpec(d: Canvas, x: bv8, y: bv8, p: seq<seq<bool>>)
    requires Fits(|d.cells|, x, y, p)
    ensures Draw(d, x, y, p) == Canvas(Flipped(d.cells, x, y, p), d.collided || Hit(d.cells, x, y, p))
  {
    var e := Draw(d, x, y, p);
    forall k | 0 <= k < |d.cells|
      ensures e.cells[k] == Flipped(d.cells, x, y, p)[k]
    {
      DrawRowsCells(d, x, y, p, |p|, k);
    }
    DrawRowsCollision(d, x, y, p, |p|);
  }

  /** Drawing the same sprite twice at the same place restores the display. */
  lemma DrawTwiceRestores(cells: seq<bv8>, x: bv8, y: bv8, p: seq<seq<bool>>, b1: bool, b2: bool)
    requires Fits(|cells|, x, y, p)
    ensures Draw(Canvas(Draw(Canvas(cells, b1), x, y, p).cells, b2), x, y, p).cells == cells
  {
    var once := Draw(Canvas(cells, b1), x, y, p).cells;
    DrawSpec(Canvas(cells, b1), x, y, p);
    DrawSpec(Canvas(once, b2), x, y, p);
  }

  /** Every cell is off or on. */
  predicate Binary(cells: seq<bv8>) {
    forall k :: 0 <= k < |cells| ==> cells[k] == 0 || cells[k] == 1
  }

  lemma DrawKeepsBinary(d: Canvas, x: bv8, y: bv8, p: seq<seq<bool>>)
    requires Fits(|d.cells|, x, y, p)
    requires Binary(d.cells)
    ensures Binary(Draw(d, x, y, p).cells)
  {
    DrawSpec(d, x, y, p);
  }

  /** Some pixel of the pattern is lit. */
  predicate AnyLit(p: seq<seq<bool>>) {
    exists r, c :: 0 <= r < |p| && 0 <= c < |p[r]| && p[r][c]
  }

  /** On a blank display nothing collides; drawing the same sprite again
      then collides exactly when the sprite has a lit pixel. */
  lemma RedrawCollides(cells: seq<bv8>, x: bv8, y: bv8, p: seq<seq<bool>>)
    requires Fits(|cells|, x, y, p)
    requires forall k :: 0 <= k < |cells| ==> cells[k] == 0
    ensures !Draw(Canvas(cells, false), x, y, p).collided
    ensures Draw(Canvas(Draw(Canvas(cells, false), x, y, p).cells, false), x, y, p).collided <==> AnyLit(p)
  {
    var once := Draw(Canvas(cells, false), x, y, p).cells;
    DrawSpec(Canvas(cells, false), x, y, p);
    DrawSpec(Canvas(once, false), x, y, p);
    if AnyLit(p) {
      var r, c :| 0 <= r < |p| && 0 <= c < |p[r]| && p[r][c];
      var k := Cell(x, y, r, c);
      assert RowFits(|cells|, x, y, r, p[r]);
      assert CoveredInRow(x, y, r, p[r], |p[r]|, k);
      assert Covered(x, y, p, k);
      assert once[k] == 1;
      assert HitInRow(once, x, y, r, p[r], |p[r]|);
    }
  }
}
