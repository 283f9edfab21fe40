/** Internal resolution is presentation only (libretro.c): the tail rows blanked after a frame
  * and the light-gun aim must come out the same at every N.
  *
  * The core renders tomWidth x tomHeight stock pixels and presents N times that in each
  * direction; the framebuffer is flat, row after row. */
module HiRes {

  const MAX_BLANK_TAIL_ROWS := 32
  const MIN_BLANK_COVERAGE_NUM := 3
  const MIN_BLANK_COVERAGE_DEN := 4
  const BLACK := 0xFF000000

  type Pixel = int

  // ---------------------------------------------------------------- products and quotients

  lemma Ordered(a: nat, b: nat, w: nat)
    requires a <= b
    ensures a * w <= b * w
  {
  }

  lemma NextRow(y: nat, w: nat)
    ensures (y + 1) * w == y * w + w
  {
  }

  lemma Cancel(a: nat, b: nat, w: nat)
    requires a * w < b * w
    ensures a < b
  {
    if b <= a {
      Ordered(b, a, w);
    }
  }

  /** Where pixel (x, y) falls in a flat frame, relative to row s. */
  lemma IndexSide(x: nat, y: nat, w: nat, s: nat)
    requires x < w
    ensures y < s ==> y * w + x < s * w
    ensures y >= s ==> y * w + x >= s * w
  {
    NextRow(y, w);
    if y < s {
      Ordered(y + 1, s, w);
    } else {
      Ordered(s, y, w);
    }
  }

  lemma Undo(a: nat, n: nat)
    requires n >= 1
    ensures (a * n) / n == a
  {
    var q, r := (a * n) / n, (a * n) % n;
    assert a * n == q * n + r;
    assert (a - q) * n == r;
    if a - q >= 1 {
      Ordered(1, a - q, n);
    }
  }

  /** Dividing by n compares rows of the big frame with rows of the small one. */
  lemma Quotient(y: nat, s: nat, n: nat)
    requires n >= 1
    ensures y / n < s <==> y < s * n
  {
    var q := y / n;
    assert q * n <= y < q * n + n;
    NextRow(q, n);
    if q < s {
      Ordered(q + 1, s, n);
    } else {
      Ordered(s, q, n);
    }
  }

  // ---------------------------------------------------------------- tail blanking

  /** The decision, in stock rows. */
  predicate Blanks(written: nat, stockHeight: nat) {
    && 0 < written < stockHeight
    && stockHeight - written <= MAX_BLANK_TAIL_ROWS
    && written * MIN_BLANK_COVERAGE_DEN >= stockHeight * MIN_BLANK_COVERAGE_NUM
  }

  /** What the frame holds afterwards. */
  function Blanked(f: seq<Pixel>, w: nat, h: nat, n: nat, written: nat): (r: seq<Pixel>)
    requires n >= 1 && |f| == w * h
    ensures |r| == |f|
  {
    if Blanks(written, h / n) then
      seq(|f|, i requires 0 <= i < |f| => if i < written * n * w then f[i] else BLACK)
    else f
  }

  /** The big frame shows every pixel of the small one as an n x n box. */
  ghost predicate Boxes(n: nat, w: nat, h: nat, small: seq<Pixel>, big: seq<Pixel>) {
    && n >= 1 && |small| == w * h && |big| == (w * n) * (h * n)
    && forall x: nat, y: nat :: x < w * n && y < h * n ==> Boxed(n, w, small, big, x, y)
  }

  ghost predicate Boxed(n: nat, w: nat, small: seq<Pixel>, big: seq<Pixel>, x: nat, y: nat)
    requires n >= 1
  {
    var i, j := y * (w * n) + x, (y / n) * w + x / n;
    0 <= i < |big| && 0 <= j < |small| && big[i] == small[j]
  }

  /** Blanking commutes with box replication, for every N: the big frame is blanked exactly when
    * the stock one is, and box-replicates it again afterwards. */
  lemma BlankingBoxes(n: nat, w: nat, h: nat, small: seq<Pixel>, big: seq<Pixel>, written: nat)
    requires Boxes(n, w, h, small, big)
    ensures Blanks(written, (h * n) / n) <==> Blanks(written, h / 1)
    ensures Boxes(n, w, h, Blanked(small, w, h, 1, written), Blanked(big, w * n, h * n, n, written))
  {
    Undo(h, n);
    var s, b := Blanked(small, w, h, 1, written), Blanked(big, w * n, h * n, n, written);
    forall x: nat, y: nat | x < w * n && y < h * n
      ensures Boxed(n, w, s, b, x, y)
    {
      assert Boxed(n, w, small, big, x, y);
      Quotient(x, w, n);
      Quotient(y, written, n);
      IndexSide(x, y, w * n, written * n);
      IndexSide(x / n, y / n, w, written);
      assert written * 1 * w == written * w;
    }
  }

  /** When it happens: with some but not all of the rows rendered, at most 32 of them missing and at
    * least three quarters there; and then the missing rows are opaque black. */
  lemma TailIsBlack(f: seq<Pixel>, w: nat, h: nat, n: nat, written: nat, x: nat, y: nat)
    requires n >= 1 && |f| == w * h && x < w && y < h && written * n <= y
    ensures y * w + x < |f|
    ensures var rows := h / n;
      Blanked(f, w, h, n, written)[y * w + x] ==
        if 0 < written < rows && rows - written <= 32 && 4 * written >= 3 * rows then 0xFF000000 else f[y * w + x]
  {
    IndexSide(x, y, w, h);
    IndexSide(x, y, w, written * n);
  }

  /** No rendered row is touched, at any N. */
  lemma RenderedRowsStay(f: seq<Pixel>, w: nat, h: nat, n: nat, written: nat, x: nat, y: nat)
    requires n >= 1 && |f| == w * h && x < w && y < h && y < written * n
    ensures y * w + x < |f| && Blanked(f, w, h, n, written)[y * w + x] == f[y * w + x]
  {
    IndexSide(x, y, w, h);
    IndexSide(x, y, w, written * n);
  }

  method BlankRow(buf: array<Pixel>, line: nat, width: nat)
    requires line + width <= buf.Length
    modifies buf
    ensures forall i :: line <= i < line + width ==> buf[i] == BLACK
    ensures forall i :: 0 <= i < buf.Length && !(line <= i < line + width) ==> buf[i] == old(buf[i])
  {
    var col := 0;
    while col < width
      invariant 0 <= col <= width
      invariant forall i :: line <= i < line + col ==> buf[i] == BLACK
      invariant forall i :: 0 <= i < buf.Length && !(line <= i < line + col) ==> buf[i] == old(buf[i])
    {
      buf[line + col] := BLACK;
      col := col + 1;
    }
  }

  /** Rows first .. height of a flat frame. */
  method BlankRows(buf: array<Pixel>, width: nat, first: nat, height: nat)
    requires first <= height && height * width <= buf.Length
    modifies buf
    ensures forall i :: 0 <= i < buf.Length ==>
      buf[i] == if first * width <= i < height * width then BLACK else old(buf[i])
  {
    var row, line := first, first * width;
    ghost var start := line;
    while row < height
      invariant first <= row <= height && line == row * width && start <= line <= buf.Length
      invariant forall i :: start <= i < line ==> buf[i] == BLACK
      invariant forall i :: 0 <= i < buf.Length && !(start <= i < line) ==> buf[i] == old(buf[i])
    {
      NextRow(row, width);
      Ordered(row + 1, height, width);
      BlankRow(buf, line, width);
      row, line := row + 1, line + width;
    }
  }

  /** The fix-up block at the end of retro_run. */
  method BlankTail(buf: array<Pixel>, gameWidth: nat, gameHeight: nat, hiresN: nat, written: nat)
    requires hiresN >= 1 && buf.Length >= gameWidth * gameHeight
    modifies buf
    ensures buf[..gameWidth * gameHeight]
         == Blanked(old(buf[..gameWidth * gameHeight]), gameWidth, gameHeight, hiresN, written)
    ensures buf[gameWidth * gameHeight..] == old(buf[gameWidth * gameHeight..])
  {
    var stockHeight := gameHeight / hiresN;
    if written > 0 && written < stockHeight && stockHeight - written <= MAX_BLANK_TAIL_ROWS
       && written * MIN_BLANK_COVERAGE_DEN >= stockHeight * MIN_BLANK_COVERAGE_NUM
    {
      Ordered(written, stockHeight, hiresN);
      BlankRows(buf, gameWidth, written * hiresN, gameHeight);
      ghost var total := gameWidth * gameHeight;
      assert total == gameHeight * gameWidth;
    }
  }

  // ---------------------------------------------------------------- light gun

  datatype Aim = Aim(col: int, row: int, offscreen: bool)

  /** The two divisions and the scaling of one 16-bit coordinate pair. */
  function AimAt(n: nat, gameWidth: nat, gameHeight: nat, gx: int, gy: int, off: bool): Aim {
    var natW, natH := if n > 0 then gameWidth / n else 0, if n > 0 then gameHeight / n else 0;
    if natW <= 0 || natH <= 0 then Aim(0, 0, true)
    else
      var col, row := ((gx + 0x8000) * natW) / 0x10000, ((gy + 0x8000) * natH) / 0x10000;
      Aim(col, row, off || col < 0 || col >= natW || row < 0 || row >= natH)
  }

  predicate Is16Bit(g: int) { -0x8000 <= g < 0x8000 }

  lemma Scaled(k: nat, w: nat)
    requires k < 0x10000 && w >= 1
    ensures 0 <= (k * w) / 0x10000 < w
    ensures w <= 0x8000 ==> k * w < 0x8000_0000
  {
    Ordered(k, 0xFFFF, w);
    Share(k * w, w);
  }

  lemma Share(p: nat, w: nat)
    requires p <= 0xFFFF * w && w >= 1
    ensures p / 0x10000 < w
  {
  }

  /** The aim does not depend on the internal resolution, is inside the stock frame for every
    * 16-bit coordinate, and is off-screen only when the frontend says so or there is no frame
    * yet; the product stays inside a signed 32-bit int for every frame up to 32768 wide. */
  lemma AimIgnoresResolution(n: nat, w: nat, h: nat, gx: int, gy: int, off: bool)
    requires n >= 1 && Is16Bit(gx) && Is16Bit(gy)
    ensures var a := AimAt(n, w * n, h * n, gx, gy, off);
      && a == AimAt(1, w, h, gx, gy, off)
      && (a.offscreen <==> off || w == 0 || h == 0)
      && (w > 0 && h > 0 ==> 0 <= a.col < w && 0 <= a.row < h)
    ensures w <= 0x8000 ==> (gx + 0x8000) * w < 0x8000_0000
  {
    Undo(w, n);
    Undo(h, n);
    if w > 0 {
      Scaled(gx + 0x8000, w);
    }
    if h > 0 {
      Scaled(gy + 0x8000, h);
    }
  }

  /** Before there is a frame, and while its size is not known, the gun points nowhere. */
  lemma NoFrameNoAim(n: nat, gameWidth: nat, gameHeight: nat, gx: int, gy: int, off: bool)
    requires n == 0 || gameWidth < n || gameHeight < n
    ensures AimAt(n, gameWidth, gameHeight, gx, gy, off) == Aim(0, 0, true)
  {
  }

  /** Where it aims: the coordinate's share of the 16-bit range, rounded down, is the column's share of
    * the frame; the same for rows, by the other coordinate. */
  lemma AimIsProportional(n: nat, w: nat, h: nat, gx: int, gy: int, off: bool)
    requires n >= 1 && w > 0 && h > 0
    ensures var a := AimAt(n, w * n, h * n, gx, gy, off);
      && a.col * 0x10000 <= (gx + 0x8000) * w < (a.col + 1) * 0x10000
      && a.row * 0x10000 <= (gy + 0x8000) * h < (a.row + 1) * 0x10000
  {
    Undo(w, n);
    Undo(h, n);
  }

  /** Every column of the stock frame can be aimed at. */
  lemma EveryColumnReachable(w: nat, h: nat, c: nat) returns (gx: int)
    requires c < w <= 0x10000 && h >= 1
    ensures Is16Bit(gx) && AimAt(1, w, h, gx, 0, false).col == c
  {
    var k := (c * 0x10000 + w - 1) / w;
    var r := (c * 0x10000 + w - 1) % w;
    assert k * w == c * 0x10000 + (w - 1 - r);
    Cancel(k, 0x10000, w);
    gx := k - 0x8000;
    Scaled(k, w);
    Floor(k * w, c, w - 1 - r);
  }

  lemma Floor(p: nat, c: nat, r: nat)
    requires p == c * 0x10000 + r && r < 0x10000
    ensures p / 0x10000 == c
  {
  }
}
