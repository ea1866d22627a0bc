/**
 * The sprite-drawing loop of instruction Dxyn, step by step as the engine runs
 * it, and its closed form.
 *
 * The engine clears VF and then, for every sprite row and every bit of that row,
 * re-reads Vy (once per row) and Vx (once per bit) from the live register file,
 * ORs `color & pixel` into VF and XORs `color` into the pixel. Because the
 * coordinates are re-read, a draw whose x or y operand is 15 follows the running
 * collision flag; the closed form below is therefore stated for x, y != 15.
 *
 * The loops are written as "the iterations from `bit` (or `row`) on", so that a
 * loop that has done the first iterations is specified by what is left to do.
 */
module Sprite {
  import opened Bytes
  import opened Config

  /** What the drawing loop changes: the framebuffer (rows of pixels) and the registers. */
  datatype Frame = Frame(screen: seq<seq<U8>>, regs: seq<U8>)

  /** The length of row `r`. */
  function RowLength(s: seq<seq<U8>>, r: int): nat
    requires 0 <= r < |s|
  {
    |s[r]|
  }

  /** HEIGHT rows of WIDTH pixels. */
  predicate IsScreen(s: seq<seq<U8>>)
  {
    |s| == HEIGHT && forall r :: 0 <= r < HEIGHT ==> RowLength(s, r) == WIDTH
  }

  /**
   * Pixel (r, c) of a framebuffer. The quantified facts below are stated with
   * this function so that they are used only where a proof names a pixel.
   */
  function Pixel(s: seq<seq<U8>>, r: int, c: int): U8
    requires IsScreen(s) && 0 <= r < HEIGHT && 0 <= c < WIDTH
  {
    assert RowLength(s, r) == WIDTH;
    s[r][c]
  }

  /** The framebuffer with pixel (r, c) set to `v`. */
  function SetPixel(s: seq<seq<U8>>, r: int, c: int, v: U8): (t: seq<seq<U8>>)
    requires IsScreen(s) && 0 <= r < HEIGHT && 0 <= c < WIDTH
    ensures IsScreen(t)
  {
    SetPixelShape(s, r, c, v);
    s[r := s[r][c := v]]
  }

  /** Setting pixel (r, c) changes that pixel and no other. */
  lemma PixelOfSet(s: seq<seq<U8>>, r: int, c: int, v: U8)
    requires IsScreen(s) && 0 <= r < HEIGHT && 0 <= c < WIDTH
    ensures forall i, j :: 0 <= i < HEIGHT && 0 <= j < WIDTH ==>
      Pixel(SetPixel(s, r, c, v), i, j) == if i == r && j == c then v else Pixel(s, i, j)
  {
    SetPixelShape(s, r, c, v);
  }

  lemma SetPixelShape(s: seq<seq<U8>>, r: int, c: int, v: U8)
    requires IsScreen(s) && 0 <= r < HEIGHT && 0 <= c < WIDTH
    ensures RowLength(s, r) == WIDTH
    ensures var t := s[r := s[r][c := v]];
      IsScreen(t) &&
      forall i, j :: 0 <= i < HEIGHT && 0 <= j < WIDTH ==> Pixel(t, i, j) == if i == r && j == c then v else Pixel(s, i, j)
  {
    assert RowLength(s, r) == WIDTH;
    var t := s[r := s[r][c := v]];
    forall i | 0 <= i < HEIGHT
      ensures RowLength(t, i) == WIDTH
    {
      assert RowLength(s, i) == WIDTH;
    }
    forall i, j | 0 <= i < HEIGHT && 0 <= j < WIDTH
      ensures Pixel(t, i, j) == if i == r && j == c then v else Pixel(s, i, j)
    {
      assert RowLength(s, i) == WIDTH;
    }
  }

  /** Every pixel is 0 or 1. */
  predicate Binary(s: seq<seq<U8>>)
    requires IsScreen(s)
  {
    forall r, c :: 0 <= r < HEIGHT && 0 <= c < WIDTH ==> Pixel(s, r, c) <= 1
  }

  /** Column `bit` places right of `vx`, wrapping around the right edge. */
  function ColumnAt(vx: int, bit: int): nat
  {
    (vx + bit) % WIDTH
  }

  /** Row `row` places below `vy`, wrapping around the bottom edge. */
  function RowAt(vy: int, row: int): nat
  {
    (vy + row) % HEIGHT
  }

  predicate WellFormed(f: Frame)
  {
    IsScreen(f.screen) && |f.regs| == REGISTER_COUNT
  }

  /** `flag | (color & pixel)`: the collision flag after drawing `color` over `pixel`. */
  function Collision(flag: U8, color: U8, pixel: U8): U8
  {
    Or(flag, And(color, pixel))
  }

  /** On 0/1 values the flag is set iff it was set or a set bit meets a lit pixel. */
  lemma CollisionOnBits(flag: U8, color: U8, pixel: U8)
    requires flag <= 1 && color <= 1 && pixel <= 1
    ensures var v := Collision(flag, color, pixel);
      v <= 1 && (v == 1 <==> flag == 1 || (color == 1 && pixel == 1))
  {
    OnBits(color, pixel);
    OnBits(flag, And(color, pixel));
  }

  /** One iteration of the inner loop: bit `bit` of the row byte, drawn on row `cy`. */
  function DrawPixel(f: Frame, x: nat, cy: nat, rowByte: U8, bit: nat): (g: Frame)
    requires WellFormed(f) && x < REGISTER_COUNT && cy < HEIGHT && bit < 8
    ensures WellFormed(g)
  {
    var cx := ColumnAt(f.regs[x] as int, bit);
    var color := Bit(rowByte, bit);
    var pixel := Pixel(f.screen, cy, cx);
    Frame(SetPixel(f.screen, cy, cx, Xor(pixel, color)), f.regs[VF := Collision(f.regs[VF], color, pixel)])
  }

  /**
   * Iterations `bit` to 7 of the inner loop for one sprite row. (`rowByte` is
   * named in the decreases clause so that a literal `bit` alone does not make
   * the verifier unroll all eight iterations.)
   */
  function DrawBits(f: Frame, x: nat, cy: nat, rowByte: U8, bit: nat): (g: Frame)
    requires WellFormed(f) && x < REGISTER_COUNT && cy < HEIGHT && bit <= 8
    ensures WellFormed(g)
    decreases rowByte, 8 - bit
  {
    if bit == 8 then f
    else DrawBits(DrawPixel(f, x, cy, rowByte, bit), x, cy, rowByte, bit + 1)
  }

  /** Iterations `row` to the end of the outer loop; each row reads Vy when it starts. */
  function DrawRows(f: Frame, x: nat, y: nat, sprite: seq<U8>, row: nat): (g: Frame)
    requires WellFormed(f) && x < REGISTER_COUNT && y < REGISTER_COUNT && row <= |sprite|
    ensures WellFormed(g)
    decreases |sprite| - row
  {
    if row == |sprite| then f
    else DrawRows(DrawBits(f, x, RowAt(f.regs[y] as int, row), sprite[row], 0), x, y, sprite, row + 1)
  }

  /** The loop over every row of the sprite. */
  function Draw(f: Frame, x: nat, y: nat, sprite: seq<U8>): (g: Frame)
    requires WellFormed(f) && x < REGISTER_COUNT && y < REGISTER_COUNT
    ensures WellFormed(g)
  {
    DrawRows(f, x, y, sprite, 0)
  }

  // ---------------------------------------------------------------------------
  // Wrap-around and 0/1 arithmetic


  /** How far column c lies right of vx, with wrap-around. */
  function ColumnOffset(vx: int, c: int): nat
  {
    (c - vx) % WIDTH
  }

  /** How far row r lies below vy, with wrap-around. */
  function RowOffset(vy: int, r: int): nat
  {
    (r - vy) % HEIGHT
  }

  /** Column c lies `bit` places right of v exactly when it is ColumnAt(v, bit). */
  lemma WrapColumn(v: int, bit: int, c: int)
    requires 0 <= bit < WIDTH && 0 <= c < WIDTH
    ensures ColumnOffset(v, c) == bit <==> c == ColumnAt(v, bit)
  {
  }

  /** Row r lies `row` places below v exactly when it is RowAt(v, row). */
  lemma WrapRow(v: int, row: int, r: int)
    requires 0 <= row < HEIGHT && 0 <= r < HEIGHT
    ensures RowOffset(v, r) == row <==> r == RowAt(v, row)
  {
  }

  /** Pixel `p` drawn over by sprite bit `m`, for 0/1 values. */
  function Toggle(p: U8, m: U8): (t: U8)
    requires p <= 1 && m <= 1
    ensures t <= 1
  {
    if m == 1 then 1 - p else p
  }

  /** XOR on 0/1 values is Toggle. */
  lemma ToggleIsXor(p: U8, m: U8)
    requires p <= 1 && m <= 1
    ensures Xor(p, m) == Toggle(p, m)
  {
    OnBits(p, m);
  }

  // ---------------------------------------------------------------------------
  // One sprite row

  /**
   * `g` is `f` with bits `lo` to 7 of `rowByte` XORed into row `cy`, bit k at
   * column ColumnAt(vx, k).
   */
  ghost predicate RowToggled(f: seq<seq<U8>>, g: seq<seq<U8>>, vx: int, cy: nat, rowByte: U8, lo: nat)
    requires IsScreen(f) && IsScreen(g)
  {
    forall r, c :: 0 <= r < HEIGHT && 0 <= c < WIDTH ==>
      Pixel(g, r, c) ==
        if r == cy && lo <= ColumnOffset(vx, c) < 8 then Xor(Pixel(f, r, c), Bit(rowByte, ColumnOffset(vx, c)))
        else Pixel(f, r, c)
  }

  /** XORing bit `lo` in first and then bits `lo + 1` to 7 is XORing bits `lo` to 7. */
  lemma RowToggledStep(f: seq<seq<U8>>, g: seq<seq<U8>>, vx: int, cy: nat, rowByte: U8, lo: nat)
    requires IsScreen(f) && IsScreen(g) && lo < 8 && cy < HEIGHT
    requires var cx := ColumnAt(vx, lo);
      RowToggled(SetPixel(f, cy, cx, Xor(Pixel(f, cy, cx), Bit(rowByte, lo))), g, vx, cy, rowByte, lo + 1)
    ensures RowToggled(f, g, vx, cy, rowByte, lo)
  {
    var cx := ColumnAt(vx, lo);
    var h := SetPixel(f, cy, cx, Xor(Pixel(f, cy, cx), Bit(rowByte, lo)));
    PixelOfSet(f, cy, cx, Xor(Pixel(f, cy, cx), Bit(rowByte, lo)));
    forall r, c | 0 <= r < HEIGHT && 0 <= c < WIDTH
      ensures Pixel(g, r, c) ==
        if r == cy && lo <= ColumnOffset(vx, c) < 8 then Xor(Pixel(f, r, c), Bit(rowByte, ColumnOffset(vx, c)))
        else Pixel(f, r, c)
    {
      WrapColumn(vx, lo, c);
      assert Pixel(g, r, c) == if r == cy && lo + 1 <= ColumnOffset(vx, c) < 8
        then Xor(Pixel(h, r, c), Bit(rowByte, ColumnOffset(vx, c))) else Pixel(h, r, c);
      if r != cy || c != cx {
        assert Pixel(h, r, c) == Pixel(f, r, c);
      }
    }
  }

  /** A row drawn over a 0/1 framebuffer leaves it 0/1. */
  lemma RowToggledBinary(f: seq<seq<U8>>, g: seq<seq<U8>>, vx: int, cy: nat, rowByte: U8, lo: nat)
    requires IsScreen(f) && IsScreen(g) && Binary(f)
    requires RowToggled(f, g, vx, cy, rowByte, lo)
    ensures Binary(g)
  {
    forall r, c | 0 <= r < HEIGHT && 0 <= c < WIDTH
      ensures Pixel(g, r, c) <= 1
    {
      if r == cy && lo <= ColumnOffset(vx, c) < 8 {
        ToggleIsXor(Pixel(f, r, c), Bit(rowByte, ColumnOffset(vx, c)));
      }
    }
  }

  /** The inner loop leaves every register other than VF alone. */
  lemma {:induction false} DrawBitsRegs(f: Frame, x: nat, cy: nat, rowByte: U8, bit: nat)
    requires WellFormed(f) && x < REGISTER_COUNT && cy < HEIGHT && bit <= 8
    ensures var g := DrawBits(f, x, cy, rowByte, bit); g.regs == f.regs[VF := g.regs[VF]]
    decreases 8 - bit
  {
    if bit < 8 {
      DrawBitsRegs(DrawPixel(f, x, cy, rowByte, bit), x, cy, rowByte, bit + 1);
    }
  }

  /** For x != 15, iterations `bit` to 7 XOR exactly bits `bit` to 7 of the row byte in at Vx. */
  lemma {:induction false} DrawBitsScreen(f: Frame, x: nat, cy: nat, rowByte: U8, bit: nat)
    requires WellFormed(f) && x < VF && cy < HEIGHT && bit <= 8
    ensures RowToggled(f.screen, DrawBits(f, x, cy, rowByte, bit).screen, f.regs[x] as int, cy, rowByte, bit)
    decreases 8 - bit
  {
    if bit < 8 {
      var h := DrawPixel(f, x, cy, rowByte, bit);
      DrawBitsScreen(h, x, cy, rowByte, bit + 1);
      assert h.regs[x] == f.regs[x];
      var cx := ColumnAt(f.regs[x] as int, bit);
      assert h.screen == SetPixel(f.screen, cy, cx, Xor(Pixel(f.screen, cy, cx), Bit(rowByte, bit)));
      RowToggledStep(f.screen, DrawBits(f, x, cy, rowByte, bit).screen, f.regs[x] as int, cy, rowByte, bit);
    }
  }

  /** One of the set bits `lo` to 7 of `rowByte`, drawn on row `cy` from column `vx`, meets a lit pixel of `s`. */
  predicate RowHits(s: seq<seq<U8>>, cy: nat, vx: int, rowByte: U8, lo: nat)
    requires IsScreen(s) && cy < HEIGHT
  {
    exists bit :: lo <= bit < 8 && Bit(rowByte, bit) == 1 && Pixel(s, cy, ColumnAt(vx, bit)) == 1
  }

  lemma RowHitsStep(s: seq<seq<U8>>, cy: nat, vx: int, rowByte: U8, lo: nat)
    requires IsScreen(s) && cy < HEIGHT && lo < 8
    ensures RowHits(s, cy, vx, rowByte, lo) <==>
      (Bit(rowByte, lo) == 1 && Pixel(s, cy, ColumnAt(vx, lo)) == 1) || RowHits(s, cy, vx, rowByte, lo + 1)
  {
    if RowHits(s, cy, vx, rowByte, lo) {
      var bit :| lo <= bit < 8 && Bit(rowByte, bit) == 1 && Pixel(s, cy, ColumnAt(vx, bit)) == 1;
      if bit > lo {
        assert RowHits(s, cy, vx, rowByte, lo + 1);
      }
    }
  }

  /** Changing the pixel bit `lo` lands on does not affect whether bits `lo + 1` to 7 hit. */
  lemma RowHitsUpdate(s: seq<seq<U8>>, cy: nat, vx: int, rowByte: U8, lo: nat, v: U8)
    requires IsScreen(s) && cy < HEIGHT && lo < 8
    ensures var cx := ColumnAt(vx, lo);
      RowHits(SetPixel(s, cy, cx, v), cy, vx, rowByte, lo + 1) <==> RowHits(s, cy, vx, rowByte, lo + 1)
  {
    var cx := ColumnAt(vx, lo);
    var t := SetPixel(s, cy, cx, v);
    PixelOfSet(s, cy, cx, v);
    forall bit | lo + 1 <= bit < 8
      ensures Pixel(t, cy, ColumnAt(vx, bit)) == Pixel(s, cy, ColumnAt(vx, bit))
    {
      WrapColumn(vx, lo, ColumnAt(vx, bit));
      WrapColumn(vx, bit, ColumnAt(vx, bit));
    }
  }

  /** Setting one pixel to 0 or 1 keeps a framebuffer 0/1. */
  lemma BinaryUpdate(s: seq<seq<U8>>, cy: nat, cx: nat, v: U8)
    requires IsScreen(s) && Binary(s) && cy < HEIGHT && cx < WIDTH && v <= 1
    ensures Binary(SetPixel(s, cy, cx, v))
  {
    var t := SetPixel(s, cy, cx, v);
    PixelOfSet(s, cy, cx, v);
    forall r, c | 0 <= r < HEIGHT && 0 <= c < WIDTH
      ensures Pixel(t, r, c) <= 1
    {
      assert Pixel(t, r, c) == if r == cy && c == cx then v else Pixel(s, r, c);
    }
  }

  /** For x != 15 on a 0/1 framebuffer, VF ends up set iff it was set or one of bits `bit` to 7 met a lit pixel. */
  lemma {:induction false} DrawBitsFlag(f: Frame, x: nat, cy: nat, rowByte: U8, bit: nat)
    requires WellFormed(f) && x < VF && cy < HEIGHT && bit <= 8
    requires Binary(f.screen) && f.regs[VF] <= 1
    ensures var v := DrawBits(f, x, cy, rowByte, bit).regs[VF];
      v <= 1 && (v == 1 <==> f.regs[VF] == 1 || RowHits(f.screen, cy, f.regs[x] as int, rowByte, bit))
    decreases 8 - bit
  {
    if bit < 8 {
      var vx := f.regs[x] as int;
      var cx := ColumnAt(vx, bit);
      var color := Bit(rowByte, bit);
      var pixel := Pixel(f.screen, cy, cx);
      var p := Xor(pixel, color);
      var h := DrawPixel(f, x, cy, rowByte, bit);
      assert h.screen == SetPixel(f.screen, cy, cx, p);
      assert h.regs[VF] == Collision(f.regs[VF], color, pixel);
      assert h.regs[x] == f.regs[x];
      ToggleIsXor(pixel, color);
      BinaryUpdate(f.screen, cy, cx, p);
      CollisionOnBits(f.regs[VF], color, pixel);
      DrawBitsFlag(h, x, cy, rowByte, bit + 1);
      RowHitsUpdate(f.screen, cy, vx, rowByte, bit, p);
      RowHitsStep(f.screen, cy, vx, rowByte, bit);
    }
  }

  // ---------------------------------------------------------------------------
  // The whole sprite

  /**
   * The sprite bit that lands on pixel (r, c) when rows `lo` to the end of
   * `sprite` are drawn at (vx, vy) with wrap-around, or 0 when none does.
   * With at most HEIGHT rows and 8 bits per row, at most one sprite bit lands on
   * any pixel.
   */
  function Mask(sprite: seq<U8>, lo: nat, vx: int, vy: int, r: int, c: int): (m: U8)
    ensures m <= 1
  {
    var row := RowOffset(vy, r);
    var col := ColumnOffset(vx, c);
    if lo <= row < |sprite| && col < 8 then Bit(sprite[row], col) else 0
  }

  /** `g` is the 0/1 framebuffer `f` with rows `lo` to the end of the sprite drawn at (vx, vy). */
  ghost predicate Drawn(f: seq<seq<U8>>, g: seq<seq<U8>>, sprite: seq<U8>, lo: nat, vx: int, vy: int)
    requires IsScreen(f) && IsScreen(g) && Binary(f)
  {
    forall r, c :: 0 <= r < HEIGHT && 0 <= c < WIDTH ==>
      Pixel(g, r, c) == Toggle(Pixel(f, r, c), Mask(sprite, lo, vx, vy, r, c))
  }

  /** A framebuffer with a sprite drawn on it is still 0/1. */
  lemma DrawnBinary(f: seq<seq<U8>>, g: seq<seq<U8>>, sprite: seq<U8>, lo: nat, vx: int, vy: int)
    requires IsScreen(f) && IsScreen(g) && Binary(f)
    requires Drawn(f, g, sprite, lo, vx, vy)
    ensures Binary(g)
  {
    forall r, c | 0 <= r < HEIGHT && 0 <= c < WIDTH
      ensures Pixel(g, r, c) <= 1
    {
      assert Pixel(g, r, c) == Toggle(Pixel(f, r, c), Mask(sprite, lo, vx, vy, r, c));
    }
  }

  /** Drawing row `lo` and then rows `lo + 1` to the end draws rows `lo` to the end. */
  lemma DrawnStep(f: seq<seq<U8>>, h: seq<seq<U8>>, g: seq<seq<U8>>, sprite: seq<U8>, lo: nat, vx: int, vy: int)
    requires IsScreen(f) && IsScreen(h) && IsScreen(g) && Binary(f) && Binary(h)
    requires lo < |sprite| <= HEIGHT
    requires RowToggled(f, h, vx, RowAt(vy, lo), sprite[lo], 0)
    requires Drawn(h, g, sprite, lo + 1, vx, vy)
    ensures Drawn(f, g, sprite, lo, vx, vy)
  {
    var cy := RowAt(vy, lo);
    forall r, c | 0 <= r < HEIGHT && 0 <= c < WIDTH
      ensures Pixel(g, r, c) == Toggle(Pixel(f, r, c), Mask(sprite, lo, vx, vy, r, c))
    {
      WrapRow(vy, lo, r);
      var col := ColumnOffset(vx, c);
      assert Pixel(g, r, c) == Toggle(Pixel(h, r, c), Mask(sprite, lo + 1, vx, vy, r, c));
      if r == cy && col < 8 {
        ToggleIsXor(Pixel(f, r, c), Bit(sprite[lo], col));
      } else {
        assert Pixel(h, r, c) == Pixel(f, r, c);
      }
    }
  }

  /** Some set bit of rows `lo` to the end of the sprite, drawn at (vx, vy), lands on a lit pixel of `s`. */
  predicate Collides(s: seq<seq<U8>>, sprite: seq<U8>, lo: nat, vx: int, vy: int)
    requires IsScreen(s)
  {
    exists row, bit :: lo <= row < |sprite| && 0 <= bit < 8 && Bit(sprite[row], bit) == 1 &&
      Pixel(s, RowAt(vy, row), ColumnAt(vx, bit)) == 1
  }

  lemma CollidesStep(s: seq<seq<U8>>, sprite: seq<U8>, lo: nat, vx: int, vy: int)
    requires IsScreen(s) && lo < |sprite|
    ensures Collides(s, sprite, lo, vx, vy) <==>
      RowHits(s, RowAt(vy, lo), vx, sprite[lo], 0) || Collides(s, sprite, lo + 1, vx, vy)
  {
    var cy := RowAt(vy, lo);
    if Collides(s, sprite, lo, vx, vy) {
      var row, bit :| lo <= row < |sprite| && 0 <= bit < 8 && Bit(sprite[row], bit) == 1 &&
        Pixel(s, RowAt(vy, row), ColumnAt(vx, bit)) == 1;
      if row > lo {
        assert Collides(s, sprite, lo + 1, vx, vy);
      } else {
        assert RowHits(s, cy, vx, sprite[lo], 0);
      }
    }
    if RowHits(s, cy, vx, sprite[lo], 0) {
      var bit :| 0 <= bit < 8 && Bit(sprite[lo], bit) == 1 && Pixel(s, cy, ColumnAt(vx, bit)) == 1;
      assert Collides(s, sprite, lo, vx, vy);
    }
  }

  /** Rows after `lo` do not reach row `lo`'s screen row, so drawing row `lo` does not change whether they collide. */
  lemma CollidesAfterRow(f: seq<seq<U8>>, h: seq<seq<U8>>, sprite: seq<U8>, lo: nat, vx: int, vy: int)
    requires IsScreen(f) && IsScreen(h) && lo < |sprite| <= HEIGHT
    requires RowToggled(f, h, vx, RowAt(vy, lo), sprite[lo], 0)
    ensures Collides(h, sprite, lo + 1, vx, vy) <==> Collides(f, sprite, lo + 1, vx, vy)
  {
    forall row, bit | lo + 1 <= row < |sprite| && 0 <= bit < 8
      ensures Pixel(h, RowAt(vy, row), ColumnAt(vx, bit)) == Pixel(f, RowAt(vy, row), ColumnAt(vx, bit))
    {
      WrapRow(vy, lo, RowAt(vy, row));
      WrapRow(vy, row, RowAt(vy, row));
    }
  }

  /** The outer loop leaves every register other than VF alone. */
  lemma {:induction false} DrawRowsRegs(f: Frame, x: nat, y: nat, sprite: seq<U8>, row: nat)
    requires WellFormed(f) && x < REGISTER_COUNT && y < REGISTER_COUNT && row <= |sprite|
    ensures var g := DrawRows(f, x, y, sprite, row); g.regs == f.regs[VF := g.regs[VF]]
    decreases |sprite| - row
  {
    if row < |sprite| {
      var cy := RowAt(f.regs[y] as int, row);
      var h := DrawBits(f, x, cy, sprite[row], 0);
      var g := DrawRows(f, x, y, sprite, row);
      assert h.regs == f.regs[VF := h.regs[VF]] by {
        DrawBitsRegs(f, x, cy, sprite[row], 0);
      }
      assert g.regs == h.regs[VF := g.regs[VF]] by {
        DrawRowsRegs(h, x, y, sprite, row + 1);
      }
      assert f.regs[VF := h.regs[VF]][VF := g.regs[VF]] == f.regs[VF := g.regs[VF]];
    }
  }

  /** One whole sprite row, for x != 15: registers other than VF kept, the row XORed in, the framebuffer still 0/1. */
  lemma DrawRowScreen(f: Frame, x: nat, cy: nat, rowByte: U8)
    requires WellFormed(f) && x < VF && cy < HEIGHT && Binary(f.screen)
    ensures var h := DrawBits(f, x, cy, rowByte, 0);
      && h.regs == f.regs[VF := h.regs[VF]]
      && RowToggled(f.screen, h.screen, f.regs[x] as int, cy, rowByte, 0)
      && Binary(h.screen)
  {
    var h := DrawBits(f, x, cy, rowByte, 0);
    DrawBitsRegs(f, x, cy, rowByte, 0);
    DrawBitsScreen(f, x, cy, rowByte, 0);
    RowToggledBinary(f.screen, h.screen, f.regs[x] as int, cy, rowByte, 0);
  }

  /** For x, y != 15 on a 0/1 framebuffer, rows `row` to the end are drawn at (Vx, Vy). */
  lemma {:induction false} DrawRowsScreen(f: Frame, x: nat, y: nat, sprite: seq<U8>, row: nat)
    requires WellFormed(f) && x < VF && y < VF && row <= |sprite| <= HEIGHT
    requires Binary(f.screen)
    ensures Drawn(f.screen, DrawRows(f, x, y, sprite, row).screen, sprite, row, f.regs[x] as int, f.regs[y] as int)
    decreases |sprite| - row
  {
    if row < |sprite| {
      var vx := f.regs[x] as int;
      var vy := f.regs[y] as int;
      var cy := RowAt(vy, row);
      var h := DrawBits(f, x, cy, sprite[row], 0);
      DrawRowScreen(f, x, cy, sprite[row]);
      assert h.regs[x] == f.regs[x] && h.regs[y] == f.regs[y];
      DrawRowsScreen(h, x, y, sprite, row + 1);
      DrawnStep(f.screen, h.screen, DrawRows(f, x, y, sprite, row).screen, sprite, row, vx, vy);
    }
  }

  /**
   * Sprite row `row`, for x, y != 15 on a 0/1 framebuffer: afterwards VF is set
   * or the remaining rows collide exactly when, before it, VF was set or rows
   * `row` on collide; x and y keep their values and the framebuffer stays 0/1.
   */
  lemma DrawRowFlag(f: Frame, x: nat, y: nat, sprite: seq<U8>, row: nat) returns (h: Frame)
    requires WellFormed(f) && x < VF && y < VF && row < |sprite| <= HEIGHT
    requires Binary(f.screen) && f.regs[VF] <= 1
    ensures WellFormed(h) && h.regs[x] == f.regs[x] && h.regs[y] == f.regs[y]
    ensures DrawRows(f, x, y, sprite, row) == DrawRows(h, x, y, sprite, row + 1)
    ensures Binary(h.screen) && h.regs[VF] <= 1
    ensures var vx := f.regs[x] as int;
      var vy := f.regs[y] as int;
      (h.regs[VF] == 1 || Collides(h.screen, sprite, row + 1, vx, vy)) <==>
      (f.regs[VF] == 1 || Collides(f.screen, sprite, row, vx, vy))
  {
    var vx := f.regs[x] as int;
    var vy := f.regs[y] as int;
    var cy := RowAt(vy, row);
    h := DrawBits(f, x, cy, sprite[row], 0);
    DrawRowScreen(f, x, cy, sprite[row]);
    DrawBitsFlag(f, x, cy, sprite[row], 0);
    CollidesAfterRow(f.screen, h.screen, sprite, row, vx, vy);
    CollidesStep(f.screen, sprite, row, vx, vy);
  }

  /** For x, y != 15 on a 0/1 framebuffer, VF ends up set iff it was set or a set bit of rows `row` on met a lit pixel. */
  lemma {:induction false} DrawRowsFlag(f: Frame, x: nat, y: nat, sprite: seq<U8>, row: nat)
    requires WellFormed(f) && x < VF && y < VF && row <= |sprite| <= HEIGHT
    requires Binary(f.screen) && f.regs[VF] <= 1
    ensures DrawRows(f, x, y, sprite, row).regs[VF] <= 1
    ensures DrawRows(f, x, y, sprite, row).regs[VF] == 1 <==>
      f.regs[VF] == 1 || Collides(f.screen, sprite, row, f.regs[x] as int, f.regs[y] as int)
    decreases |sprite| - row
  {
    if row < |sprite| {
      var h := DrawRowFlag(f, x, y, sprite, row);
      DrawRowsFlag(h, x, y, sprite, row + 1);
    } else {
      assert DrawRows(f, x, y, sprite, row) == f;
      assert !Collides(f.screen, sprite, row, f.regs[x] as int, f.regs[y] as int);
    }
  }

  /** Drawing bits `bit` to 7 of a row keeps a framebuffer 0/1, whatever x is. */
  lemma {:induction false} DrawBitsBinary(f: Frame, x: nat, cy: nat, rowByte: U8, bit: nat)
    requires WellFormed(f) && x < REGISTER_COUNT && cy < HEIGHT && bit <= 8
    requires Binary(f.screen)
    ensures Binary(DrawBits(f, x, cy, rowByte, bit).screen)
    decreases 8 - bit
  {
    if bit < 8 {
      var cx := ColumnAt(f.regs[x] as int, bit);
      var pixel := Pixel(f.screen, cy, cx);
      OnBits(pixel, Bit(rowByte, bit));
      BinaryUpdate(f.screen, cy, cx, Xor(pixel, Bit(rowByte, bit)));
      DrawBitsBinary(DrawPixel(f, x, cy, rowByte, bit), x, cy, rowByte, bit + 1);
    }
  }

  /** Drawing rows `row` on keeps a framebuffer 0/1, whatever x and y are. */
  lemma {:induction false} DrawRowsBinary(f: Frame, x: nat, y: nat, sprite: seq<U8>, row: nat)
    requires WellFormed(f) && x < REGISTER_COUNT && y < REGISTER_COUNT && row <= |sprite|
    requires Binary(f.screen)
    ensures Binary(DrawRows(f, x, y, sprite, row).screen)
    decreases |sprite| - row
  {
    if row < |sprite| {
      var cy := RowAt(f.regs[y] as int, row);
      DrawBitsBinary(f, x, cy, sprite[row], 0);
      DrawRowsBinary(DrawBits(f, x, cy, sprite[row], 0), x, y, sprite, row + 1);
    }
  }

  /**
   * Drawing a whole sprite, with x and y other than 15, over a 0/1 framebuffer
   * with VF cleared: every sprite bit is XORed onto its wrapped-around pixel, the
   * framebuffer stays 0/1, VF becomes 1 exactly when a set bit met a lit pixel,
   * and no other register changes.
   */
  lemma DrawClosedForm(f: Frame, x: nat, y: nat, sprite: seq<U8>)
    requires WellFormed(f) && x < VF && y < VF && |sprite| <= HEIGHT
    requires Binary(f.screen) && f.regs[VF] == 0
    ensures var g := Draw(f, x, y, sprite);
      var vx := f.regs[x] as int;
      var vy := f.regs[y] as int;
      && Drawn(f.screen, g.screen, sprite, 0, vx, vy)
      && Binary(g.screen)
      && g.regs == f.regs[VF := if Collides(f.screen, sprite, 0, vx, vy) then 1 else 0]
  {
    var g := Draw(f, x, y, sprite);
    DrawRowsScreen(f, x, y, sprite, 0);
    DrawnBinary(f.screen, g.screen, sprite, 0, f.regs[x] as int, f.regs[y] as int);
    DrawRowsFlag(f, x, y, sprite, 0);
    DrawRowsRegs(f, x, y, sprite, 0);
  }

  // ---------------------------------------------------------------------------
  // Any x and y: until the first collision VF stays 0, so Vx and Vy keep their
  // values even when x or y is 15; after it VF stays 1.

  /** With VF set on a 0/1 framebuffer, drawing bits `bit` to 7 leaves it set, whatever x is. */
  lemma {:induction false} DrawBitsStaysSet(f: Frame, x: nat, cy: nat, rowByte: U8, bit: nat)
    requires WellFormed(f) && x < REGISTER_COUNT && cy < HEIGHT && bit <= 8
    requires Binary(f.screen) && f.regs[VF] == 1
    ensures DrawBits(f, x, cy, rowByte, bit).regs[VF] == 1
    decreases 8 - bit
  {
    if bit < 8 {
      var cx := ColumnAt(f.regs[x] as int, bit);
      var color := Bit(rowByte, bit);
      var pixel := Pixel(f.screen, cy, cx);
      ToggleIsXor(pixel, color);
      CollisionOnBits(1, color, pixel);
      BinaryUpdate(f.screen, cy, cx, Xor(pixel, color));
      DrawBitsStaysSet(DrawPixel(f, x, cy, rowByte, bit), x, cy, rowByte, bit + 1);
    }
  }

  /** With VF set on a 0/1 framebuffer, drawing rows `row` on leaves it set, whatever x and y are. */
  lemma {:induction false} DrawRowsStaysSet(f: Frame, x: nat, y: nat, sprite: seq<U8>, row: nat)
    requires WellFormed(f) && x < REGISTER_COUNT && y < REGISTER_COUNT && row <= |sprite|
    requires Binary(f.screen) && f.regs[VF] == 1
    ensures DrawRows(f, x, y, sprite, row).regs[VF] == 1
    decreases |sprite| - row
  {
    if row < |sprite| {
      var cy := RowAt(f.regs[y] as int, row);
      DrawBitsStaysSet(f, x, cy, sprite[row], 0);
      DrawBitsBinary(f, x, cy, sprite[row], 0);
      DrawRowsStaysSet(DrawBits(f, x, cy, sprite[row], 0), x, y, sprite, row + 1);
    }
  }

  /**
   * With VF clear, when no set bit of bits `bit` to 7 meets a lit pixel, the
   * registers are left as they are and exactly those bits are XORed in at Vx,
   * whatever x is.
   */
  lemma {:induction false} DrawBitsNoHit(f: Frame, x: nat, cy: nat, rowByte: U8, bit: nat)
    requires WellFormed(f) && x < REGISTER_COUNT && cy < HEIGHT && bit <= 8
    requires Binary(f.screen) && f.regs[VF] == 0
    requires !RowHits(f.screen, cy, f.regs[x] as int, rowByte, bit)
    ensures var g := DrawBits(f, x, cy, rowByte, bit);
      g.regs == f.regs && RowToggled(f.screen, g.screen, f.regs[x] as int, cy, rowByte, bit)
    decreases 8 - bit
  {
    if bit < 8 {
      var vx := f.regs[x] as int;
      var cx := ColumnAt(vx, bit);
      var color := Bit(rowByte, bit);
      var pixel := Pixel(f.screen, cy, cx);
      var p := Xor(pixel, color);
      var h := DrawPixel(f, x, cy, rowByte, bit);
      RowHitsStep(f.screen, cy, vx, rowByte, bit);
      CollisionOnBits(0, color, pixel);
      assert h.regs == f.regs;
      assert h.screen == SetPixel(f.screen, cy, cx, p);
      ToggleIsXor(pixel, color);
      BinaryUpdate(f.screen, cy, cx, p);
      RowHitsUpdate(f.screen, cy, vx, rowByte, bit, p);
      DrawBitsNoHit(h, x, cy, rowByte, bit + 1);
      RowToggledStep(f.screen, DrawBits(f, x, cy, rowByte, bit).screen, vx, cy, rowByte, bit);
    }
  }

  /**
   * One pixel drawn with VF clear, for any x: either VF is now set, or that
   * pixel did not collide, the registers are unchanged and the collision lies
   * in a later bit.
   */
  lemma DrawPixelHit(f: Frame, x: nat, cy: nat, rowByte: U8, bit: nat) returns (h: Frame)
    requires WellFormed(f) && x < REGISTER_COUNT && cy < HEIGHT && bit <= 8
    requires Binary(f.screen) && f.regs[VF] == 0
    requires RowHits(f.screen, cy, f.regs[x] as int, rowByte, bit)
    ensures bit < 8 && WellFormed(h) && Binary(h.screen)
    ensures DrawBits(f, x, cy, rowByte, bit) == DrawBits(h, x, cy, rowByte, bit + 1)
    ensures h.regs[VF] == 1 ||
      (h.regs == f.regs && RowHits(h.screen, cy, f.regs[x] as int, rowByte, bit + 1))
  {
    var vx := f.regs[x] as int;
    RowHitsStep(f.screen, cy, vx, rowByte, bit);
    var cx := ColumnAt(vx, bit);
    var color := Bit(rowByte, bit);
    var pixel := Pixel(f.screen, cy, cx);
    var p := Xor(pixel, color);
    h := DrawPixel(f, x, cy, rowByte, bit);
    CollisionOnBits(0, color, pixel);
    assert h.screen == SetPixel(f.screen, cy, cx, p);
    ToggleIsXor(pixel, color);
    BinaryUpdate(f.screen, cy, cx, p);
    if !(color == 1 && pixel == 1) {
      assert h.regs == f.regs;
      RowHitsUpdate(f.screen, cy, vx, rowByte, bit, p);
    }
  }

  /** With VF clear, when a set bit of bits `bit` to 7 meets a lit pixel, VF ends up set, whatever x is. */
  lemma {:induction false} DrawBitsHit(f: Frame, x: nat, cy: nat, rowByte: U8, bit: nat)
    requires WellFormed(f) && x < REGISTER_COUNT && cy < HEIGHT && bit <= 8
    requires Binary(f.screen) && f.regs[VF] == 0
    requires RowHits(f.screen, cy, f.regs[x] as int, rowByte, bit)
    ensures DrawBits(f, x, cy, rowByte, bit).regs[VF] == 1
    decreases 8 - bit
  {
    var h := DrawPixelHit(f, x, cy, rowByte, bit);
    if h.regs[VF] == 1 {
      DrawBitsStaysSet(h, x, cy, rowByte, bit + 1);
    } else {
      DrawBitsHit(h, x, cy, rowByte, bit + 1);
    }
  }

  /**
   * With VF clear, when no set bit of rows `row` on meets a lit pixel, the
   * registers are left as they are and the rows are drawn at (Vx, Vy), whatever
   * x and y are.
   */
  lemma {:induction false} DrawRowsNoHit(f: Frame, x: nat, y: nat, sprite: seq<U8>, row: nat)
    requires WellFormed(f) && x < REGISTER_COUNT && y < REGISTER_COUNT && row <= |sprite| <= HEIGHT
    requires Binary(f.screen) && f.regs[VF] == 0
    requires !Collides(f.screen, sprite, row, f.regs[x] as int, f.regs[y] as int)
    ensures var g := DrawRows(f, x, y, sprite, row);
      g.regs == f.regs && Drawn(f.screen, g.screen, sprite, row, f.regs[x] as int, f.regs[y] as int)
    decreases |sprite| - row
  {
    if row < |sprite| {
      var vx := f.regs[x] as int;
      var vy := f.regs[y] as int;
      var cy := RowAt(vy, row);
      var h := DrawBits(f, x, cy, sprite[row], 0);
      CollidesStep(f.screen, sprite, row, vx, vy);
      DrawBitsNoHit(f, x, cy, sprite[row], 0);
      RowToggledBinary(f.screen, h.screen, vx, cy, sprite[row], 0);
      CollidesAfterRow(f.screen, h.screen, sprite, row, vx, vy);
      DrawRowsNoHit(h, x, y, sprite, row + 1);
      DrawnStep(f.screen, h.screen, DrawRows(f, x, y, sprite, row).screen, sprite, row, vx, vy);
    }
  }

  /**
   * One row drawn with VF clear, for any x and y: either VF is now set, or
   * nothing collided in that row, the registers are unchanged and the
   * collision lies in a later row.
   */
  lemma DrawRowHit(f: Frame, x: nat, y: nat, sprite: seq<U8>, row: nat) returns (h: Frame)
    requires WellFormed(f) && x < REGISTER_COUNT && y < REGISTER_COUNT && row <= |sprite| <= HEIGHT
    requires Binary(f.screen) && f.regs[VF] == 0
    requires Collides(f.screen, sprite, row, f.regs[x] as int, f.regs[y] as int)
    ensures row < |sprite| && WellFormed(h) && Binary(h.screen)
    ensures DrawRows(f, x, y, sprite, row) == DrawRows(h, x, y, sprite, row + 1)
    ensures h.regs[VF] == 1 ||
      (h.regs == f.regs && Collides(h.screen, sprite, row + 1, f.regs[x] as int, f.regs[y] as int))
  {
    var vx := f.regs[x] as int;
    var vy := f.regs[y] as int;
    var cy := RowAt(vy, row);
    CollidesStep(f.screen, sprite, row, vx, vy);
    h := DrawBits(f, x, cy, sprite[row], 0);
    DrawBitsBinary(f, x, cy, sprite[row], 0);
    if RowHits(f.screen, cy, vx, sprite[row], 0) {
      DrawBitsHit(f, x, cy, sprite[row], 0);
    } else {
      DrawBitsNoHit(f, x, cy, sprite[row], 0);
      CollidesAfterRow(f.screen, h.screen, sprite, row, vx, vy);
    }
  }

  /** With VF clear, when a set bit of rows `row` on meets a lit pixel, VF ends up set, whatever x and y are. */
  lemma {:induction false} DrawRowsHit(f: Frame, x: nat, y: nat, sprite: seq<U8>, row: nat)
    requires WellFormed(f) && x < REGISTER_COUNT && y < REGISTER_COUNT && row <= |sprite| <= HEIGHT
    requires Binary(f.screen) && f.regs[VF] == 0
    requires Collides(f.screen, sprite, row, f.regs[x] as int, f.regs[y] as int)
    ensures DrawRows(f, x, y, sprite, row).regs[VF] == 1
    decreases |sprite| - row
  {
    var h := DrawRowHit(f, x, y, sprite, row);
    if h.regs[VF] == 1 {
      DrawRowsStaysSet(h, x, y, sprite, row + 1);
    } else {
      DrawRowsHit(h, x, y, sprite, row + 1);
    }
  }

  /**
   * Drawing a whole sprite over a 0/1 framebuffer with VF cleared, for any x
   * and y (15 included): VF ends up 1 exactly when a set bit drawn at (Vx, Vy)
   * meets a lit pixel, and when none does, no register changes and every sprite
   * bit is XORed onto its wrapped-around pixel.
   */
  lemma DrawWithoutCollision(f: Frame, x: nat, y: nat, sprite: seq<U8>)
    requires WellFormed(f) && x < REGISTER_COUNT && y < REGISTER_COUNT && |sprite| <= HEIGHT
    requires Binary(f.screen) && f.regs[VF] == 0
    ensures var g := Draw(f, x, y, sprite);
      var vx := f.regs[x] as int;
      var vy := f.regs[y] as int;
      && (g.regs[VF] == 1 <==> Collides(f.screen, sprite, 0, vx, vy))
      && (!Collides(f.screen, sprite, 0, vx, vy) ==> g.regs == f.regs && Drawn(f.screen, g.screen, sprite, 0, vx, vy))
  {
    if Collides(f.screen, sprite, 0, f.regs[x] as int, f.regs[y] as int) {
      DrawRowsHit(f, x, y, sprite, 0);
    } else {
      DrawRowsNoHit(f, x, y, sprite, 0);
    }
  }

  /** Drawing the same sprite twice at the same place restores the framebuffer. */
  lemma DrawnTwice(f: seq<seq<U8>>, g: seq<seq<U8>>, h: seq<seq<U8>>, sprite: seq<U8>, vx: int, vy: int)
    requires IsScreen(f) && IsScreen(g) && IsScreen(h) && Binary(f) && Binary(g)
    requires Drawn(f, g, sprite, 0, vx, vy) && Drawn(g, h, sprite, 0, vx, vy)
    ensures h == f
  {
    forall r | 0 <= r < HEIGHT
      ensures h[r] == f[r]
    {
      assert RowLength(h, r) == WIDTH && RowLength(f, r) == WIDTH;
      forall c | 0 <= c < WIDTH
        ensures h[r][c] == f[r][c]
      {
        assert Pixel(g, r, c) == Toggle(Pixel(f, r, c), Mask(sprite, 0, vx, vy, r, c));
        assert Pixel(h, r, c) == Toggle(Pixel(g, r, c), Mask(sprite, 0, vx, vy, r, c));
      }
    }
  }

  /** Sprite bit (row, bit) is the one that `Drawn` places on its wrapped-around pixel. */
  lemma MaskAt(sprite: seq<U8>, vx: int, vy: int, row: nat, bit: nat)
    requires row < |sprite| <= HEIGHT && bit < 8
    ensures Mask(sprite, 0, vx, vy, RowAt(vy, row), ColumnAt(vx, bit)) == Bit(sprite[row], bit)
  {
    WrapRow(vy, row, RowAt(vy, row));
    WrapColumn(vx, bit, ColumnAt(vx, bit));
  }

  /** On a blank framebuffer a sprite does not collide; drawn again over itself, it collides iff it has a set bit. */
  lemma RedrawCollides(f: seq<seq<U8>>, g: seq<seq<U8>>, sprite: seq<U8>, vx: int, vy: int)
    requires IsScreen(f) && IsScreen(g) && Binary(f) && |sprite| <= HEIGHT
    requires forall r, c :: 0 <= r < HEIGHT && 0 <= c < WIDTH ==> Pixel(f, r, c) == 0
    requires Drawn(f, g, sprite, 0, vx, vy)
    ensures !Collides(f, sprite, 0, vx, vy)
    ensures Collides(g, sprite, 0, vx, vy) <==>
      exists row, bit :: 0 <= row < |sprite| && 0 <= bit < 8 && Bit(sprite[row], bit) == 1
  {
    if exists row, bit :: 0 <= row < |sprite| && 0 <= bit < 8 && Bit(sprite[row], bit) == 1 {
      var row, bit :| 0 <= row < |sprite| && 0 <= bit < 8 && Bit(sprite[row], bit) == 1;
      MaskAt(sprite, vx, vy, row, bit);
      var r, c := RowAt(vy, row), ColumnAt(vx, bit);
      assert Pixel(g, r, c) == Toggle(Pixel(f, r, c), Mask(sprite, 0, vx, vy, r, c));
    }
  }
}
