/**
 * Dxyn, the sprite-drawing arm of `execute_opcode` (src/main.rs): what it
 * does to the screen and to VF. The interpreter defines it pixel by pixel,
 * in the order of the source's two loops; here that definition is brought
 * into closed form and its properties are proved: the screen stays made of
 * 0s and 1s, VF is only ever OR-ed with 1, and drawing the same sprite twice
 * gives the screen back.
 */
module Drawing {
  import opened Types
  import opened Bits
  import Cpu
  import Memory
  import opened Opcode
  import opened Interpreter
  import Properties

  // ------------------------------------------------------------- closed form

  /** Column (or line) arithmetic of the wrap-around: `(v + b) % w == c` picks out `b`. */
  lemma WrapOffset(v: int, b: int, c: int, w: int)
    requires w > 0 && 0 <= b < w && 0 <= c < w
    ensures (v + b) % w == c <==> (c - v) % w == b
  {
    if (v + b) % w == c {
      var q := (v + b) / w;
      assert v + b == q * w + c;
      assert c - v == (-q) * w + b;
      DivMod(c - v, w, -q, b);
    }
    if (c - v) % w == b {
      var q := (c - v) / w;
      assert c - v == q * w + b;
      assert v + b == (-q) * w + c;
      DivMod(v + b, w, -q, c);
    }
  }

  /** Line `vy + row` (wrapped) is line `r` exactly when `r` is `row` lines below `vy` (wrapped). */
  lemma LineOffset(vy: Byte, row: nat, r: int)
    requires row < Height && 0 <= r < Height
    ensures WrapLine(vy + row) == r <==> WrapLine(r - vy) == row
  {
    WrapOffset(vy, row, r, 32);
  }

  /** Column `vx + bit` (wrapped) is column `c` exactly when `c` is `bit` columns right of `vx` (wrapped). */
  lemma ColumnOffset(vx: Byte, bit: nat, c: int)
    requires bit < Width && 0 <= c < Width
    ensures WrapColumn(vx + bit) == c <==> WrapColumn(c - vx) == bit
  {
    WrapOffset(vx, bit, c, 64);
  }

  /** When y is not VF, Vy stays put while Dxyn draws, so row `row` goes to line `(Vy + row) % 32`. */
  lemma LineFixed(v: seq<Byte>, k: Canvas, y: Nibble, row: nat)
    requires |v| == Cpu.RegisterCount && y != VF
    ensures SpriteLine(v, k, y, row) == WrapLine(v[y] + row)
  {
  }

  /** Sprite row `row` lands on line `r` exactly when `r` is `row` lines below Vy (wrapped), when y is not VF. */
  lemma RowHit(v: seq<Byte>, k: Canvas, y: Nibble, row: nat, r: int)
    requires |v| == Cpu.RegisterCount && y != VF && row < Height && 0 <= r < Height
    ensures r == SpriteLine(v, k, y, row) <==> WrapLine(r - v[y]) == row
  {
    LineFixed(v, k, y, row);
    LineOffset(v[y], row, r);
  }

  /** When x is not VF, Vx stays put while Dxyn draws, so bit `bit` goes to column `(Vx + bit) % 64`. */
  lemma ColumnFixed(v: seq<Byte>, k: Canvas, x: Nibble, bit: nat)
    requires |v| == Cpu.RegisterCount && x != VF
    ensures SpriteColumn(v, k, x, bit) == WrapColumn(v[x] + bit)
  {
  }

  /** Pixel `col` of a sprite row, counted from the left (the most significant bit); 0 past the eighth. */
  function PixelOf(sb: Byte, col: int): (b: nat)
    ensures b < 2
  {
    if 0 <= col < 8 then BitAt(sb, 7 - col) else 0
  }

  /** Pixel `col` of row `line` of a sprite; 0 outside the sprite. */
  function SpritePixel(sprite: seq<Byte>, line: int, col: int): (b: nat)
    ensures b < 2
  {
    if 0 <= line < |sprite| then PixelOf(sprite[line], col) else 0
  }

  /**
   * The sprite pixel that Dxyn XORs into screen cell `(r, c)` when the
   * sprite's top-left corner is at column `vx`, line `vy`: wrap-around
   * puts sprite pixel `((r - vy) % 32, (c - vx) % 64)` there.
   */
  function SpriteBit(vx: Byte, vy: Byte, sprite: seq<Byte>, r: int, c: int): (b: nat)
    ensures b < 2
  {
    SpritePixel(sprite, WrapLine(r - vy), WrapColumn(c - vx))
  }

  /** Off the sprite, XOR-ing in its pixel leaves a cell alone. */
  lemma SpriteBitOutside(vx: Byte, vy: Byte, sprite: seq<Byte>, r: int, c: int, s0: Byte)
    ensures XorBit(s0, SpriteBit(vx, vy, sprite, r, c)) ==
      if WrapColumn(c - vx) < 8 && 0 <= WrapLine(r - vy) < |sprite|
      then XorBit(s0, SpritePixel(sprite, WrapLine(r - vy), WrapColumn(c - vx)))
      else s0
  {
  }

  /**
   * How two successive stretches of a loop combine on one cell: the first
   * handles position `lo` alone (`here`), the second positions `lo + 1 ..
   * hi`; together they handle `lo .. hi`.
   */
  lemma CombineStretches(s0: Byte, s1: Byte, s2: Byte, hit: bool, here: bool, lo: int, pos: int, hi: int, b: nat, b': nat)
    requires b < 2 && b' < 2 && lo < hi
    requires here <==> hit && pos == lo
    requires here ==> b == b'
    requires s1 == if here then XorBit(s0, b) else s0
    requires s2 == if hit && lo + 1 <= pos < hi then XorBit(s1, b') else s1
    ensures s2 == if hit && lo <= pos < hi then XorBit(s0, b') else s0
  {
  }

  /** One pixel of Dxyn touches exactly the cell at column `(Vx + bit) % 64` of line `yAxis`. */
  lemma PixelEffect(k: Canvas, v: seq<Byte>, x: Nibble, sb: Byte, yAxis: int, bit: nat, r: int, c: int)
    requires CanvasOk(k) && |v| == Cpu.RegisterCount && 0 <= yAxis < Height && bit < 8
    requires x != VF && 0 <= r < Height && 0 <= c < Width
    ensures DrawPixel(k, v, x, sb, yAxis, bit).screen[Cell(r, c)] ==
      if r == yAxis && c == WrapColumn(v[x] + bit) then XorBit(k.screen[Cell(r, c)], PixelOf(sb, bit))
      else k.screen[Cell(r, c)]
  {
    ColumnFixed(v, k, x, bit);
    if r != yAxis || c != WrapColumn(v[x] + bit) {
      assert Cell(r, c) != Cell(yAxis, WrapColumn(v[x] + bit));
    }
  }

  /** The closed form of Dxyn's inner loop from bit `b0` on, at cell `(r, c)`, when x is not VF. */
  predicate BitsClosedAt(k: Canvas, v: seq<Byte>, x: Nibble, sb: Byte, yAxis: int, b0: nat, r: int, c: int)
    requires CanvasOk(k) && |v| == Cpu.RegisterCount && 0 <= yAxis < Height && b0 <= 8
    requires 0 <= r < Height && 0 <= c < Width
  {
    DrawBits(k, v, x, sb, yAxis, b0).screen[Cell(r, c)] ==
      if r == yAxis && b0 <= WrapColumn(c - v[x]) < 8
      then XorBit(k.screen[Cell(r, c)], PixelOf(sb, WrapColumn(c - v[x])))
      else k.screen[Cell(r, c)]
  }

  /** The inductive step of `BitsClosed`. */
  lemma BitsClosedStep(k: Canvas, v: seq<Byte>, x: Nibble, sb: Byte, yAxis: int, b0: nat, r: int, c: int)
    requires CanvasOk(k) && |v| == Cpu.RegisterCount && 0 <= yAxis < Height && b0 < 8
    requires x != VF && 0 <= r < Height && 0 <= c < Width
    requires BitsClosedAt(DrawPixel(k, v, x, sb, yAxis, b0), v, x, sb, yAxis, b0 + 1, r, c)
    ensures BitsClosedAt(k, v, x, sb, yAxis, b0, r, c)
  {
    var k1 := DrawPixel(k, v, x, sb, yAxis, b0);
    var p := Cell(r, c);
    var s2 := DrawBits(k1, v, x, sb, yAxis, b0 + 1).screen[p];
    PixelEffect(k, v, x, sb, yAxis, b0, r, c);
    ColumnOffset(v[x], b0, c);
    assert DrawBits(k, v, x, sb, yAxis, b0).screen[p] == s2;
    CombineStretches(k.screen[p], k1.screen[p], s2, r == yAxis, r == yAxis && c == WrapColumn(v[x] + b0), b0, WrapColumn(c - v[x]), 8,
      PixelOf(sb, b0), PixelOf(sb, WrapColumn(c - v[x])));
  }

  /** One sprite byte of Dxyn from bit `b0` on, in closed form, when x is not VF. */
  lemma {:induction false} BitsClosed(k: Canvas, v: seq<Byte>, x: Nibble, sb: Byte, yAxis: int, b0: nat, r: int, c: int)
    requires CanvasOk(k) && |v| == Cpu.RegisterCount && 0 <= yAxis < Height && b0 <= 8
    requires x != VF && 0 <= r < Height && 0 <= c < Width
    ensures BitsClosedAt(k, v, x, sb, yAxis, b0, r, c)
    decreases 8 - b0
  {
    if b0 < 8 {
      BitsClosed(DrawPixel(k, v, x, sb, yAxis, b0), v, x, sb, yAxis, b0 + 1, r, c);
      BitsClosedStep(k, v, x, sb, yAxis, b0, r, c);
    }
  }

  /** The closed form of Dxyn's outer loop from row `row0` on, at cell `(r, c)`, when neither x nor y is VF. */
  predicate RowsClosedAt(k: Canvas, v: seq<Byte>, x: Nibble, y: Nibble, sprite: seq<Byte>, row0: nat, r: int, c: int)
    requires CanvasOk(k) && |v| == Cpu.RegisterCount && row0 <= |sprite|
    requires 0 <= r < Height && 0 <= c < Width
  {
    DrawRows(k, v, x, y, sprite, row0).screen[Cell(r, c)] ==
      if WrapColumn(c - v[x]) < 8 && row0 <= WrapLine(r - v[y]) < |sprite|
      then XorBit(k.screen[Cell(r, c)], SpritePixel(sprite, WrapLine(r - v[y]), WrapColumn(c - v[x])))
      else k.screen[Cell(r, c)]
  }

  /** Dxyn's outer loop, one row unrolled, at cell `p`. */
  lemma RowsUnfold(k: Canvas, v: seq<Byte>, x: Nibble, y: Nibble, sprite: seq<Byte>, row0: nat, p: int)
    requires CanvasOk(k) && |v| == Cpu.RegisterCount && row0 < |sprite| && 0 <= p < Cells
    ensures DrawRows(k, v, x, y, sprite, row0).screen[p] ==
      DrawRows(DrawBits(k, v, x, sprite[row0], SpriteLine(v, k, y, row0), 0), v, x, y, sprite, row0 + 1).screen[p]
  {
  }

  /** The inductive step of `RowsClosed`. */
  lemma RowsClosedStep(k: Canvas, v: seq<Byte>, x: Nibble, y: Nibble, sprite: seq<Byte>, row0: nat, r: int, c: int)
    requires CanvasOk(k) && |v| == Cpu.RegisterCount && row0 < |sprite| <= Height
    requires x != VF && y != VF && 0 <= r < Height && 0 <= c < Width
    requires BitsClosedAt(k, v, x, sprite[row0], SpriteLine(v, k, y, row0), 0, r, c)
    requires RowsClosedAt(DrawBits(k, v, x, sprite[row0], SpriteLine(v, k, y, row0), 0), v, x, y, sprite, row0 + 1, r, c)
    ensures RowsClosedAt(k, v, x, y, sprite, row0, r, c)
  {
    var yAxis := SpriteLine(v, k, y, row0);
    var k1 := DrawBits(k, v, x, sprite[row0], yAxis, 0);
    var line, col := WrapLine(r - v[y]), WrapColumn(c - v[x]);
    var p := Cell(r, c);
    var s2 := DrawRows(k1, v, x, y, sprite, row0 + 1).screen[p];
    RowHit(v, k, y, row0, r);
    RowsUnfold(k, v, x, y, sprite, row0, p);
    CombineStretches(k.screen[p], k1.screen[p], s2, col < 8, r == yAxis && 0 <= col < 8, row0, line, |sprite|,
      PixelOf(sprite[row0], col), SpritePixel(sprite, line, col));
  }

  /** The sprite bytes of Dxyn from `row0` on, in closed form, when neither x nor y is VF. */
  lemma {:induction false} RowsClosed(k: Canvas, v: seq<Byte>, x: Nibble, y: Nibble, sprite: seq<Byte>, row0: nat, r: int, c: int)
    requires CanvasOk(k) && |v| == Cpu.RegisterCount && row0 <= |sprite| <= Height
    requires x != VF && y != VF && 0 <= r < Height && 0 <= c < Width
    ensures RowsClosedAt(k, v, x, y, sprite, row0, r, c)
    decreases |sprite| - row0
  {
    if row0 < |sprite| {
      BitsClosed(k, v, x, sprite[row0], SpriteLine(v, k, y, row0), 0, r, c);
      RowsClosed(DrawBits(k, v, x, sprite[row0], SpriteLine(v, k, y, row0), 0), v, x, y, sprite, row0 + 1, r, c);
      RowsClosedStep(k, v, x, y, sprite, row0, r, c);
    }
  }

  /** One cell of the screen after Dxyn's two loops, when neither x nor y is VF. */
  lemma DrawCell(k: Canvas, v: seq<Byte>, x: Nibble, y: Nibble, sprite: seq<Byte>, r: int, c: int)
    requires CanvasOk(k) && |v| == Cpu.RegisterCount && |sprite| <= Height
    requires x != VF && y != VF && 0 <= r < Height && 0 <= c < Width
    ensures DrawRows(k, v, x, y, sprite, 0).screen[Cell(r, c)] == XorBit(k.screen[Cell(r, c)], SpriteBit(v[x], v[y], sprite, r, c))
  {
    RowsClosed(k, v, x, y, sprite, 0, r, c);
    assert RowsClosedAt(k, v, x, y, sprite, 0, r, c);
    SpriteBitOutside(v[x], v[y], sprite, r, c, k.screen[Cell(r, c)]);
  }

  /**
   * With x and y other than VF, Dxyn XORs the sprite into the screen: every
   * cell becomes itself XOR the sprite pixel over it.
   */
  lemma DrawXorsSprite(m: Machine, x: Nibble, y: Nibble, n: Nibble)
    requires WellFormed(m) && x != VF && y != VF && m.cpu.i + n < Memory.RamSize
    ensures forall row, col :: 0 <= row < Height && 0 <= col < Width ==>
      Draw(m, x, y, n).screen[Cell(row, col)] ==
      XorBit(m.screen[Cell(row, col)], SpriteBit(m.cpu.v[x], m.cpu.v[y], m.ram[m.cpu.i .. m.cpu.i + n + 1], row, col))
  {
    var sprite := m.ram[m.cpu.i .. m.cpu.i + n + 1];
    var k := Canvas(m.screen, m.cpu.v[VF]);
    DrawIs(m, x, y, n, DrawRows(k, m.cpu.v, x, y, sprite, 0));
    forall row, col | 0 <= row < Height && 0 <= col < Width
      ensures Draw(m, x, y, n).screen[Cell(row, col)] ==
        XorBit(m.screen[Cell(row, col)], SpriteBit(m.cpu.v[x], m.cpu.v[y], sprite, row, col))
    {
      DrawCell(k, m.cpu.v, x, y, sprite, row, col);
    }
  }

  /** XOR-ing the same bit in twice changes nothing. */
  lemma XorBitTwice(s: Byte, b: nat)
    requires b < 2
    ensures XorBit(XorBit(s, b), b) == s
  {
  }

  /** Two screens that agree cell by cell are the same screen. */
  lemma SameScreen(a: seq<Byte>, b: seq<Byte>)
    requires |a| == Cells && |b| == Cells
    requires forall row, col :: 0 <= row < Height && 0 <= col < Width ==> a[Cell(row, col)] == b[Cell(row, col)]
    ensures a == b
  {
    forall p | 0 <= p < Cells
      ensures a[p] == b[p]
    {
      assert p == Cell(p / 64, p % 64);
    }
  }

  /** With x and y other than VF, drawing the same sprite twice restores the screen. */
  lemma DrawTwiceRestores(m: Machine, x: Nibble, y: Nibble, n: Nibble)
    requires WellFormed(m) && x != VF && y != VF && m.cpu.i + n < Memory.RamSize
    ensures Draw(Draw(m, x, y, n), x, y, n).screen == m.screen
  {
    var m1 := Draw(m, x, y, n);
    var m2 := Draw(m1, x, y, n);
    var sprite := m.ram[m.cpu.i .. m.cpu.i + n + 1];
    assert m1.ram[m1.cpu.i .. m1.cpu.i + n + 1] == sprite;
    assert m1.cpu.v[x] == m.cpu.v[x] && m1.cpu.v[y] == m.cpu.v[y];
    DrawXorsSprite(m, x, y, n);
    DrawXorsSprite(m1, x, y, n);
    forall row, col | 0 <= row < Height && 0 <= col < Width
      ensures m2.screen[Cell(row, col)] == m.screen[Cell(row, col)]
    {
      XorBitTwice(m.screen[Cell(row, col)], SpriteBit(m.cpu.v[x], m.cpu.v[y], sprite, row, col));
    }
    SameScreen(m2.screen, m.screen);
  }

  // -------------------------------------------------------------- VF flag

  /** VF is either left as it was or has 1 OR-ed into it. */
  predicate FlagRaised(before: Byte, after: Byte)
  {
    after == before || after == OrBit(before, 1)
  }

  /** Two raisings in a row are one raising. */
  lemma FlagRaisedTwice(f0: Byte, f1: Byte, f2: Byte)
    requires FlagRaised(f0, f1) && FlagRaised(f1, f2)
    ensures FlagRaised(f0, f2)
  {
  }

  lemma {:induction false} BitsFlag(k: Canvas, v: seq<Byte>, x: Nibble, sb: Byte, yAxis: int, b0: nat)
    requires CanvasOk(k) && |v| == Cpu.RegisterCount && 0 <= yAxis < Height && b0 <= 8
    ensures FlagRaised(k.vf, DrawBits(k, v, x, sb, yAxis, b0).vf)
    decreases 8 - b0
  {
    if b0 < 8 {
      var k1 := DrawPixel(k, v, x, sb, yAxis, b0);
      BitsFlag(k1, v, x, sb, yAxis, b0 + 1);
      FlagRaisedTwice(k.vf, k1.vf, DrawBits(k1, v, x, sb, yAxis, b0 + 1).vf);
    }
  }

  lemma {:induction false} RowsFlag(k: Canvas, v: seq<Byte>, x: Nibble, y: Nibble, sprite: seq<Byte>, row0: nat)
    requires CanvasOk(k) && |v| == Cpu.RegisterCount && row0 <= |sprite|
    ensures FlagRaised(k.vf, DrawRows(k, v, x, y, sprite, row0).vf)
    decreases |sprite| - row0
  {
    if row0 < |sprite| {
      var k1 := DrawBits(k, v, x, sprite[row0], SpriteLine(v, k, y, row0), 0);
      BitsFlag(k, v, x, sprite[row0], SpriteLine(v, k, y, row0), 0);
      RowsFlag(k1, v, x, y, sprite, row0 + 1);
      FlagRaisedTwice(k.vf, k1.vf, DrawRows(k1, v, x, y, sprite, row0 + 1).vf);
    }
  }

  /**
   * Dxyn never clears VF, whatever x and y are: it either leaves it as it
   * was or ORs 1 into it, so a VF of 0 ends as the collision flag 0 or 1.
   */
  lemma DrawCollisionFlag(m: Machine, x: Nibble, y: Nibble, n: Nibble)
    requires WellFormed(m) && m.cpu.i + n < Memory.RamSize
    ensures FlagRaised(m.cpu.v[VF], Draw(m, x, y, n).cpu.v[VF])
    ensures m.cpu.v[VF] == 0 ==> Draw(m, x, y, n).cpu.v[VF] < 2
  {
    RowsFlag(Canvas(m.screen, m.cpu.v[VF]), m.cpu.v, x, y, m.ram[m.cpu.i .. m.cpu.i + n + 1], 0);
  }

  /** Setting a bit twice is setting it once: two OR-ings combine into one. */
  lemma OrBitTwice(f: Byte, a: nat, b: nat)
    requires a < 2 && b < 2
    ensures OrBit(OrBit(f, a), b) == OrBit(f, if a == 1 || b == 1 then 1 else 0)
  {
  }

  /** Bit `bit` of sprite byte `sb`, drawn on line `yAxis` from column `vx`, is a 1 over a lit cell of `s`. */
  predicate PixelHits(s: seq<Byte>, vx: Byte, sb: Byte, yAxis: int, bit: int)
    requires |s| == Cells && 0 <= yAxis < Height
  {
    0 <= bit < 8 && PixelOf(sb, bit) == 1 && s[Cell(yAxis, WrapColumn(vx + bit))] % 2 == 1
  }

  /** A collision on one sprite byte: some bit from `b0` on hits a lit cell. */
  predicate BitsCollide(s: seq<Byte>, vx: Byte, sb: Byte, yAxis: int, b0: nat)
    requires |s| == Cells && 0 <= yAxis < Height
  {
    exists bit: int :: b0 <= bit < 8 && PixelHits(s, vx, sb, yAxis, bit)
  }

  /** Sprite row `row`, drawn on line `(vy + row) % 32`, collides. */
  predicate RowHits(s: seq<Byte>, vx: Byte, vy: Byte, sprite: seq<Byte>, row: int)
    requires |s| == Cells
  {
    0 <= row < |sprite| && BitsCollide(s, vx, sprite[row], WrapLine(vy + row), 0)
  }

  /** A collision on sprite rows `row0..`. */
  predicate RowsCollide(s: seq<Byte>, vx: Byte, vy: Byte, sprite: seq<Byte>, row0: nat)
    requires |s| == Cells
  {
    exists row: int :: row0 <= row < |sprite| && RowHits(s, vx, vy, sprite, row)
  }

  /** The sprite pixel over cell `(r, c)` is a 1 and the cell is lit (`color & cell` is 1). */
  predicate CellHit(s: seq<Byte>, vx: Byte, vy: Byte, sprite: seq<Byte>, r: int, c: int)
    requires |s| == Cells
  {
    0 <= r < Height && 0 <= c < Width && SpriteBit(vx, vy, sprite, r, c) == 1 && s[Cell(r, c)] % 2 == 1
  }

  /** Dxyn's collision test on the screen before it draws: some 1-bit of the sprite lands on a lit cell. */
  predicate Collides(s: seq<Byte>, vx: Byte, vy: Byte, sprite: seq<Byte>)
    requires |s| == Cells
  {
    exists r: int, c: int :: 0 <= r < Height && 0 <= c < Width && CellHit(s, vx, vy, sprite, r, c)
  }

  /** The bit a collision on one sprite byte is found at. */
  lemma CollidingBit(s: seq<Byte>, vx: Byte, sb: Byte, yAxis: int, b0: nat) returns (bit: int)
    requires |s| == Cells && 0 <= yAxis < Height && BitsCollide(s, vx, sb, yAxis, b0)
    ensures b0 <= bit && PixelHits(s, vx, sb, yAxis, bit)
  {
    bit :| b0 <= bit < 8 && PixelHits(s, vx, sb, yAxis, bit);
  }

  /** The row a collision on sprite rows is found in. */
  lemma CollidingRow(s: seq<Byte>, vx: Byte, vy: Byte, sprite: seq<Byte>, row0: nat) returns (row: int)
    requires |s| == Cells && RowsCollide(s, vx, vy, sprite, row0)
    ensures row0 <= row && RowHits(s, vx, vy, sprite, row)
  {
    row :| row0 <= row < |sprite| && RowHits(s, vx, vy, sprite, row);
  }

  /** Two screens that agree on line `line` see the same collisions there. */
  lemma BitsCollideSameLine(s1: seq<Byte>, s2: seq<Byte>, vx: Byte, sb: Byte, line: int, b0: nat)
    requires |s1| == Cells && |s2| == Cells && 0 <= line < Height
    requires forall c :: 0 <= c < Width ==> s1[Cell(line, c)] == s2[Cell(line, c)]
    ensures BitsCollide(s1, vx, sb, line, b0) == BitsCollide(s2, vx, sb, line, b0)
  {
    if BitsCollide(s1, vx, sb, line, b0) {
      var bit := CollidingBit(s1, vx, sb, line, b0);
      assert PixelHits(s2, vx, sb, line, bit);
    }
    if BitsCollide(s2, vx, sb, line, b0) {
      var bit := CollidingBit(s2, vx, sb, line, b0);
      assert PixelHits(s1, vx, sb, line, bit);
    }
  }

  /** A collision from bit `b0` on is one at bit `b0` or one from bit `b0 + 1` on. */
  lemma BitsCollideUnfold(s: seq<Byte>, vx: Byte, sb: Byte, yAxis: int, b0: nat)
    requires |s| == Cells && 0 <= yAxis < Height && b0 < 8
    ensures BitsCollide(s, vx, sb, yAxis, b0) <==> PixelHits(s, vx, sb, yAxis, b0) || BitsCollide(s, vx, sb, yAxis, b0 + 1)
  {
    if BitsCollide(s, vx, sb, yAxis, b0) {
      var bit := CollidingBit(s, vx, sb, yAxis, b0);
      if bit != b0 {
        assert BitsCollide(s, vx, sb, yAxis, b0 + 1);
      }
    }
    if PixelHits(s, vx, sb, yAxis, b0) {
      assert BitsCollide(s, vx, sb, yAxis, b0);
    }
  }

  /** One pixel of Dxyn ORs into VF its bit AND the cell it lands on, when x is not VF. */
  lemma PixelFlag(k: Canvas, v: seq<Byte>, x: Nibble, sb: Byte, yAxis: int, b0: nat)
    requires CanvasOk(k) && |v| == Cpu.RegisterCount && 0 <= yAxis < Height && b0 < 8 && x != VF
    ensures DrawPixel(k, v, x, sb, yAxis, b0).vf == OrBit(k.vf, if PixelHits(k.screen, v[x], sb, yAxis, b0) then 1 else 0)
  {
    ColumnFixed(v, k, x, b0);
  }

  /** One pixel of Dxyn leaves bit `bit` of its byte the same collision to find, for a later bit, when x is not VF. */
  lemma PixelKeepsLaterHit(k: Canvas, v: seq<Byte>, x: Nibble, sb: Byte, yAxis: int, b0: nat, bit: int)
    requires CanvasOk(k) && |v| == Cpu.RegisterCount && 0 <= yAxis < Height && b0 < bit < 8 && x != VF
    ensures PixelHits(DrawPixel(k, v, x, sb, yAxis, b0).screen, v[x], sb, yAxis, bit) == PixelHits(k.screen, v[x], sb, yAxis, bit)
  {
    var c0 := WrapColumn(v[x] + b0);
    var c := WrapColumn(v[x] + bit);
    ColumnOffset(v[x], b0, c0);
    ColumnOffset(v[x], bit, c0);
    PixelEffect(k, v, x, sb, yAxis, b0, yAxis, c);
  }

  /** One pixel of Dxyn leaves the later bits of its byte the same collisions to find, when x is not VF. */
  lemma PixelKeepsLaterCollisions(k: Canvas, v: seq<Byte>, x: Nibble, sb: Byte, yAxis: int, b0: nat)
    requires CanvasOk(k) && |v| == Cpu.RegisterCount && 0 <= yAxis < Height && b0 < 8 && x != VF
    ensures BitsCollide(DrawPixel(k, v, x, sb, yAxis, b0).screen, v[x], sb, yAxis, b0 + 1) ==
      BitsCollide(k.screen, v[x], sb, yAxis, b0 + 1)
  {
    var s1 := DrawPixel(k, v, x, sb, yAxis, b0).screen;
    if BitsCollide(s1, v[x], sb, yAxis, b0 + 1) {
      var bit := CollidingBit(s1, v[x], sb, yAxis, b0 + 1);
      PixelKeepsLaterHit(k, v, x, sb, yAxis, b0, bit);
    }
    if BitsCollide(k.screen, v[x], sb, yAxis, b0 + 1) {
      var bit := CollidingBit(k.screen, v[x], sb, yAxis, b0 + 1);
      PixelKeepsLaterHit(k, v, x, sb, yAxis, b0, bit);
    }
  }

  /** One sprite byte from bit `b0` on raises VF exactly when one of its 1-bits lands on a lit cell, when x is not VF. */
  lemma {:induction false} BitsCollideFlag(k: Canvas, v: seq<Byte>, x: Nibble, sb: Byte, yAxis: int, b0: nat)
    requires CanvasOk(k) && |v| == Cpu.RegisterCount && 0 <= yAxis < Height && b0 <= 8 && x != VF
    ensures DrawBits(k, v, x, sb, yAxis, b0).vf == OrBit(k.vf, if BitsCollide(k.screen, v[x], sb, yAxis, b0) then 1 else 0)
    decreases 8 - b0
  {
    if b0 < 8 {
      var k1 := DrawPixel(k, v, x, sb, yAxis, b0);
      PixelFlag(k, v, x, sb, yAxis, b0);
      PixelKeepsLaterCollisions(k, v, x, sb, yAxis, b0);
      BitsCollideUnfold(k.screen, v[x], sb, yAxis, b0);
      BitsCollideFlag(k1, v, x, sb, yAxis, b0 + 1);
      OrBitTwice(k.vf, if PixelHits(k.screen, v[x], sb, yAxis, b0) then 1 else 0,
        if BitsCollide(k.screen, v[x], sb, yAxis, b0 + 1) then 1 else 0);
    } else {
      if BitsCollide(k.screen, v[x], sb, yAxis, b0) {
        var bit := CollidingBit(k.screen, v[x], sb, yAxis, b0);
        assert false;
      }
    }
  }

  /** A collision from row `row0` on is one in row `row0` or one from row `row0 + 1` on. */
  lemma RowsCollideUnfold(s: seq<Byte>, vx: Byte, vy: Byte, sprite: seq<Byte>, row0: nat)
    requires |s| == Cells && row0 < |sprite|
    ensures RowsCollide(s, vx, vy, sprite, row0) <==> RowHits(s, vx, vy, sprite, row0) || RowsCollide(s, vx, vy, sprite, row0 + 1)
  {
    if RowsCollide(s, vx, vy, sprite, row0) {
      var row := CollidingRow(s, vx, vy, sprite, row0);
      if row != row0 {
        assert RowsCollide(s, vx, vy, sprite, row0 + 1);
      }
    }
    if RowHits(s, vx, vy, sprite, row0) {
      assert RowsCollide(s, vx, vy, sprite, row0);
    }
  }

  /** Drawing one sprite byte on its line leaves every other line as it was, when x is not VF. */
  lemma BitsKeepOtherLine(k: Canvas, v: seq<Byte>, x: Nibble, sb: Byte, yAxis: int, line: int)
    requires CanvasOk(k) && |v| == Cpu.RegisterCount && 0 <= yAxis < Height && x != VF
    requires 0 <= line < Height && line != yAxis
    ensures forall c :: 0 <= c < Width ==> DrawBits(k, v, x, sb, yAxis, 0).screen[Cell(line, c)] == k.screen[Cell(line, c)]
  {
    forall c | 0 <= c < Width
      ensures DrawBits(k, v, x, sb, yAxis, 0).screen[Cell(line, c)] == k.screen[Cell(line, c)]
    {
      BitsClosed(k, v, x, sb, yAxis, 0, line, c);
    }
  }

  /** Drawing row `row0` leaves a later row the same collision to find, when neither x nor y is VF. */
  lemma RowKeepsLaterHit(k: Canvas, v: seq<Byte>, x: Nibble, y: Nibble, sprite: seq<Byte>, row0: nat, row: int)
    requires CanvasOk(k) && |v| == Cpu.RegisterCount && row0 < row < |sprite| <= Height && x != VF && y != VF
    ensures RowHits(DrawBits(k, v, x, sprite[row0], WrapLine(v[y] + row0), 0).screen, v[x], v[y], sprite, row) ==
      RowHits(k.screen, v[x], v[y], sprite, row)
  {
    var line := WrapLine(v[y] + row0);
    var l := WrapLine(v[y] + row);
    LineOffset(v[y], row0, line);
    LineOffset(v[y], row, line);
    BitsKeepOtherLine(k, v, x, sprite[row0], line, l);
    BitsCollideSameLine(DrawBits(k, v, x, sprite[row0], line, 0).screen, k.screen, v[x], sprite[row], l, 0);
  }

  /** Drawing row `row0` leaves the later rows the same collisions to find, when neither x nor y is VF. */
  lemma RowKeepsLaterCollisions(k: Canvas, v: seq<Byte>, x: Nibble, y: Nibble, sprite: seq<Byte>, row0: nat)
    requires CanvasOk(k) && |v| == Cpu.RegisterCount && row0 < |sprite| <= Height && x != VF && y != VF
    ensures RowsCollide(DrawBits(k, v, x, sprite[row0], WrapLine(v[y] + row0), 0).screen, v[x], v[y], sprite, row0 + 1) ==
      RowsCollide(k.screen, v[x], v[y], sprite, row0 + 1)
  {
    var s1 := DrawBits(k, v, x, sprite[row0], WrapLine(v[y] + row0), 0).screen;
    if RowsCollide(s1, v[x], v[y], sprite, row0 + 1) {
      var row := CollidingRow(s1, v[x], v[y], sprite, row0 + 1);
      RowKeepsLaterHit(k, v, x, y, sprite, row0, row);
    }
    if RowsCollide(k.screen, v[x], v[y], sprite, row0 + 1) {
      var row := CollidingRow(k.screen, v[x], v[y], sprite, row0 + 1);
      RowKeepsLaterHit(k, v, x, y, sprite, row0, row);
    }
  }

  /** Dxyn's outer loop, one row unrolled, when y is not VF. */
  lemma RowsStep(k: Canvas, v: seq<Byte>, x: Nibble, y: Nibble, sprite: seq<Byte>, row0: nat)
    requires CanvasOk(k) && |v| == Cpu.RegisterCount && row0 < |sprite| && y != VF
    ensures DrawRows(k, v, x, y, sprite, row0) ==
      DrawRows(DrawBits(k, v, x, sprite[row0], WrapLine(v[y] + row0), 0), v, x, y, sprite, row0 + 1)
  {
    LineFixed(v, k, y, row0);
  }

  /** Drawing row `row0` ORs its own collision into VF, when x is not VF. */
  lemma RowFlag(k: Canvas, v: seq<Byte>, x: Nibble, y: Nibble, sprite: seq<Byte>, row0: nat)
    requires CanvasOk(k) && |v| == Cpu.RegisterCount && row0 < |sprite| && x != VF
    ensures DrawBits(k, v, x, sprite[row0], WrapLine(v[y] + row0), 0).vf ==
      OrBit(k.vf, if RowHits(k.screen, v[x], v[y], sprite, row0) then 1 else 0)
  {
    BitsCollideFlag(k, v, x, sprite[row0], WrapLine(v[y] + row0), 0);
  }

  /** The inductive step of `RowsCollideFlag`. */
  lemma RowsCollideFlagStep(k: Canvas, v: seq<Byte>, x: Nibble, y: Nibble, sprite: seq<Byte>, row0: nat)
    requires CanvasOk(k) && |v| == Cpu.RegisterCount && row0 < |sprite| <= Height && x != VF && y != VF
    requires var k1 := DrawBits(k, v, x, sprite[row0], WrapLine(v[y] + row0), 0);
      DrawRows(k1, v, x, y, sprite, row0 + 1).vf == OrBit(k1.vf, if RowsCollide(k1.screen, v[x], v[y], sprite, row0 + 1) then 1 else 0)
    ensures DrawRows(k, v, x, y, sprite, row0).vf ==
      OrBit(k.vf, if RowsCollide(k.screen, v[x], v[y], sprite, row0) then 1 else 0)
  {
    RowsStep(k, v, x, y, sprite, row0);
    RowFlag(k, v, x, y, sprite, row0);
    RowKeepsLaterCollisions(k, v, x, y, sprite, row0);
    RowsCollideUnfold(k.screen, v[x], v[y], sprite, row0);
    OrBitTwice(k.vf, if RowHits(k.screen, v[x], v[y], sprite, row0) then 1 else 0,
      if RowsCollide(k.screen, v[x], v[y], sprite, row0 + 1) then 1 else 0);
  }

  /** Sprite rows from `row0` on raise VF exactly when one of their 1-bits lands on a lit cell, when neither x nor y is VF. */
  lemma {:induction false} RowsCollideFlag(k: Canvas, v: seq<Byte>, x: Nibble, y: Nibble, sprite: seq<Byte>, row0: nat)
    requires CanvasOk(k) && |v| == Cpu.RegisterCount && row0 <= |sprite| <= Height && x != VF && y != VF
    ensures DrawRows(k, v, x, y, sprite, row0).vf ==
      OrBit(k.vf, if RowsCollide(k.screen, v[x], v[y], sprite, row0) then 1 else 0)
    decreases |sprite| - row0
  {
    if row0 < |sprite| {
      RowsCollideFlag(DrawBits(k, v, x, sprite[row0], WrapLine(v[y] + row0), 0), v, x, y, sprite, row0 + 1);
      RowsCollideFlagStep(k, v, x, y, sprite, row0);
    } else {
      if RowsCollide(k.screen, v[x], v[y], sprite, row0) {
        var row := CollidingRow(k.screen, v[x], v[y], sprite, row0);
        assert false;
      }
    }
  }

  /** A cell-by-cell collision is found by the row-by-row test. */
  lemma CollidesThenRows(s: seq<Byte>, vx: Byte, vy: Byte, sprite: seq<Byte>)
    requires |s| == Cells && |sprite| <= Height && Collides(s, vx, vy, sprite)
    ensures RowsCollide(s, vx, vy, sprite, 0)
  {
    var r: int, c: int :| 0 <= r < Height && 0 <= c < Width && CellHit(s, vx, vy, sprite, r, c);
    var row, bit := WrapLine(r - vy), WrapColumn(c - vx);
    LineOffset(vy, row, r);
    ColumnOffset(vx, bit, c);
    assert PixelHits(s, vx, sprite[row], WrapLine(vy + row), bit);
    assert RowHits(s, vx, vy, sprite, row);
  }

  /** A pixel that hits, found row by row, is a cell that hits. */
  lemma PixelHitIsCellHit(s: seq<Byte>, vx: Byte, vy: Byte, sprite: seq<Byte>, row: int, bit: int)
    requires |s| == Cells && 0 <= row < |sprite| <= Height && PixelHits(s, vx, sprite[row], WrapLine(vy + row), bit)
    ensures CellHit(s, vx, vy, sprite, WrapLine(vy + row), WrapColumn(vx + bit))
  {
    LineOffset(vy, row, WrapLine(vy + row));
    ColumnOffset(vx, bit, WrapColumn(vx + bit));
  }

  /** A row-by-row collision is a cell-by-cell one. */
  lemma RowsThenCollides(s: seq<Byte>, vx: Byte, vy: Byte, sprite: seq<Byte>)
    requires |s| == Cells && |sprite| <= Height && RowsCollide(s, vx, vy, sprite, 0)
    ensures Collides(s, vx, vy, sprite)
  {
    var row := CollidingRow(s, vx, vy, sprite, 0);
    var bit := CollidingBit(s, vx, sprite[row], WrapLine(vy + row), 0);
    PixelHitIsCellHit(s, vx, vy, sprite, row, bit);
  }

  /**
   * With x and y other than VF, Dxyn ORs into VF exactly the collision
   * test: VF gains a 1 when some 1-bit of the sprite lands on a lit cell,
   * and is left as it was otherwise.
   */
  lemma DrawCollision(m: Machine, x: Nibble, y: Nibble, n: Nibble)
    requires WellFormed(m) && x != VF && y != VF && m.cpu.i + n < Memory.RamSize
    ensures Draw(m, x, y, n).cpu.v[VF] ==
      OrBit(m.cpu.v[VF], if Collides(m.screen, m.cpu.v[x], m.cpu.v[y], m.ram[m.cpu.i .. m.cpu.i + n + 1]) then 1 else 0)
  {
    var sprite := m.ram[m.cpu.i .. m.cpu.i + n + 1];
    RowsCollideFlag(Canvas(m.screen, m.cpu.v[VF]), m.cpu.v, x, y, sprite, 0);
    if Collides(m.screen, m.cpu.v[x], m.cpu.v[y], sprite) {
      CollidesThenRows(m.screen, m.cpu.v[x], m.cpu.v[y], sprite);
    }
    if RowsCollide(m.screen, m.cpu.v[x], m.cpu.v[y], sprite, 0) {
      RowsThenCollides(m.screen, m.cpu.v[x], m.cpu.v[y], sprite);
    }
  }

  /** Drawing on a blank screen (right after 00E0, say) collides with nothing, so VF stays as it was. */
  lemma DrawOnBlankKeepsFlag(m: Machine, x: Nibble, y: Nibble, n: Nibble)
    requires WellFormed(m) && x != VF && y != VF && m.cpu.i + n < Memory.RamSize && m.screen == BlankScreen()
    ensures Draw(m, x, y, n).cpu.v[VF] == m.cpu.v[VF]
  {
    var sprite := m.ram[m.cpu.i .. m.cpu.i + n + 1];
    forall r, c | 0 <= r < Height && 0 <= c < Width
      ensures !CellHit(m.screen, m.cpu.v[x], m.cpu.v[y], sprite, r, c)
    {
      assert m.screen[Cell(r, c)] == 0;
    }
    DrawCollision(m, x, y, n);
  }

  // ------------------------------------------------------- 0/1 screen cells

  lemma {:induction false} BitsBinary(k: Canvas, v: seq<Byte>, x: Nibble, sb: Byte, yAxis: int, b0: nat)
    requires CanvasOk(k) && |v| == Cpu.RegisterCount && 0 <= yAxis < Height && b0 <= 8
    requires Binary(k.screen)
    ensures Binary(DrawBits(k, v, x, sb, yAxis, b0).screen)
    decreases 8 - b0
  {
    if b0 < 8 {
      var k1 := DrawPixel(k, v, x, sb, yAxis, b0);
      BitsBinary(k1, v, x, sb, yAxis, b0 + 1);
    }
  }

  lemma {:induction false} RowsBinary(k: Canvas, v: seq<Byte>, x: Nibble, y: Nibble, sprite: seq<Byte>, row0: nat)
    requires CanvasOk(k) && |v| == Cpu.RegisterCount && row0 <= |sprite|
    requires Binary(k.screen)
    ensures Binary(DrawRows(k, v, x, y, sprite, row0).screen)
    decreases |sprite| - row0
  {
    if row0 < |sprite| {
      var k1 := DrawBits(k, v, x, sprite[row0], SpriteLine(v, k, y, row0), 0);
      BitsBinary(k, v, x, sprite[row0], SpriteLine(v, k, y, row0), 0);
      RowsBinary(k1, v, x, y, sprite, row0 + 1);
    }
  }

  /** Dxyn keeps a screen of 0s and 1s that way, whatever x and y are. */
  lemma DrawKeepsBinary(m: Machine, x: Nibble, y: Nibble, n: Nibble)
    requires WellFormed(m) && m.cpu.i + n < Memory.RamSize && ScreenBinary(m)
    ensures ScreenBinary(Draw(m, x, y, n))
  {
    var k := Canvas(m.screen, m.cpu.v[VF]);
    var sprite := m.ram[m.cpu.i .. m.cpu.i + n + 1];
    DrawIs(m, x, y, n, DrawRows(k, m.cpu.v, x, y, sprite, 0));
    RowsBinary(k, m.cpu.v, x, y, sprite, 0);
  }

  /** No arm of `execute_opcode` puts anything but 0 or 1 into a cell. */
  lemma OperateKeepsBinary(m: Machine, instr: Instr, inp: Input)
    requires WellFormed(m) && ValidInput(inp) && CanRun(instr, inp) && ScreenBinary(m)
    requires Operate(m, instr, inp).Ok?
    ensures ScreenBinary(Operate(m, instr, inp).value.0)
  {
    Properties.OperateScreen(m, instr, inp);
    if instr.Drw? {
      assert Operate(m, instr, inp).value.0 == Draw(m, instr.x, instr.y, instr.n);
      DrawKeepsBinary(m, instr.x, instr.y, instr.n);
    }
  }

  /** A screen of 0s and 1s stays one across `tick`. */
  lemma TickKeepsBinary(m: Machine, inp: Input)
    requires WellFormed(m) && ValidInput(inp) && ScreenBinary(m)
    requires WaitsForKey(m) ==> AnyPressed(inp.polled)
    requires Tick(m, inp).Ok?
    ensures ScreenBinary(Tick(m, inp).value)
  {
    var m0 := m.(screenChanged := false);
    assert Fetch(m0) == Fetch(m);
    OperateKeepsBinary(m0, Decode(Fetch(m).value), inp);
  }
}
