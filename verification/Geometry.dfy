/** The frame that maps the model's image coordinates to the screen, and the fit
    that sizes the image (desktop-shell/src/geometry.rs), over exact rationals:
    a scale is srcW / imgW, and every floor and ceiling is of that quotient. */
module Geometry {
  import opened Wrappers

  datatype Frame = Frame(originX: int, originY: int, srcW: nat, srcH: nat, imgW: nat, imgH: nat)

  datatype Point = Point(x: int, y: int)

  datatype Region = Region(x0: int, y0: int, x1: int, y1: int)

  function Floor(a: nat, b: nat): nat
    requires b > 0
  {
    a / b
  }

  // The floor of n * srcW / imgW, in halves: n counts half image pixels.
  function FloorHalves(f: Frame, n: nat): nat
    requires f.imgW > 0
  {
    Floor(n * f.srcW, 2 * f.imgW)
  }

  function ToPhysical(f: Frame, x: int, y: int): Option<Point> {
    if x < 0 || y < 0 || x >= f.imgW || y >= f.imgH then None
    else Some(Point(f.originX + FloorHalves(f, 2 * x + 1), f.originY + FloorHalves(f, 2 * y + 1)))
  }

  function ToImage(f: Frame, px: int, py: int): Option<Point> {
    var rx, ry := px - f.originX, py - f.originY;
    if rx < 0 || ry < 0 || rx >= f.srcW || ry >= f.srcH then None
    else if f.imgW == 0 then Some(Point(rx, ry))
    else Some(Point(Floor(rx * f.imgW, f.srcW), Floor(ry * f.imgW, f.srcW)))
  }

  function Rounded(a: nat, b: nat): nat
    requires b > 0
  {
    Floor(a + b / 2, b)
  }

  function Max(a: int, b: int): int {
    if a < b then b else a
  }

  function Fit(srcW: nat, srcH: nat, maxW: nat, maxH: nat): (nat, nat) {
    if srcW == 0 || srcH == 0 then (0, 0)
    else
      var h := if srcW > maxW then Rounded(srcH * maxW, srcW) else srcH;
      var w := if srcW > maxW then maxW else srcW;
      if h > maxH then (Max(Rounded(w * maxH, h), 1), Max(maxH, 1)) else (Max(w, 1), Max(h, 1))
  }

  function FrameFor(originX: int, originY: int, srcW: nat, srcH: nat, maxW: nat, maxH: nat): Frame {
    var size := Fit(srcW, srcH, maxW, maxH);
    Frame(originX, originY, srcW, srcH, size.0, size.1)
  }

  function Ordered(r: Region): Region {
    Region(if r.x0 < r.x1 then r.x0 else r.x1, if r.y0 < r.y1 then r.y0 else r.y1,
           Max(r.x0, r.x1), Max(r.y0, r.y1))
  }

  function CeilHalves(f: Frame, n: nat): nat
    requires f.imgW > 0
  {
    Floor(n * f.srcW + 2 * f.imgW - 1, 2 * f.imgW)
  }

  function ZoomFrame(f: Frame, region: Region, maxW: nat, maxH: nat): Option<Frame> {
    var r := Ordered(region);
    if r.x0 < 0 || r.y0 < 0 || r.x1 > f.imgW || r.y1 > f.imgH || r.x1 <= r.x0 || r.y1 <= r.y0 then None
    else
      var px0, py0 := f.originX + FloorHalves(f, 2 * r.x0), f.originY + FloorHalves(f, 2 * r.y0);
      var px1, py1 := f.originX + CeilHalves(f, 2 * r.x1), f.originY + CeilHalves(f, 2 * r.y1);
      Some(FrameFor(px0, py0, Max(px1 - px0, 1), Max(py1 - py0, 1), maxW, maxH))
  }

  // ---- Quotients --------------------------------------------------------------------

  lemma Quotient(a: nat, b: nat)
    requires b > 0
    ensures Floor(a, b) * b <= a < (Floor(a, b) + 1) * b
  {
  }

  lemma MulMono(a: nat, b: nat, c: nat)
    requires a <= b
    ensures a * c <= b * c
  {
  }

  lemma QuotientAtMost(a: nat, b: nat, q: nat)
    requires b > 0 && a < (q + 1) * b
    ensures Floor(a, b) <= q
  {
    hide Floor;
    Quotient(a, b);
    if Floor(a, b) > q {
      MulMono(q + 1, Floor(a, b), b);
    }
  }

  lemma QuotientAtLeast(a: nat, b: nat, q: nat)
    requires b > 0 && q * b <= a
    ensures q <= Floor(a, b)
  {
    hide Floor;
    Quotient(a, b);
    if Floor(a, b) < q {
      MulMono(Floor(a, b) + 1, q, b);
    }
  }

  lemma QuotientIs(a: nat, b: nat, q: nat)
    requires b > 0 && q * b <= a < (q + 1) * b
    ensures Floor(a, b) == q
  {
    hide Floor;
    QuotientAtMost(a, b, q);
    QuotientAtLeast(a, b, q);
  }

  lemma QuotientMono(a: nat, b: nat, c: nat)
    requires c > 0 && a <= b
    ensures Floor(a, c) <= Floor(b, c)
  {
    hide Floor;
    Quotient(a, c);
    QuotientAtLeast(b, c, Floor(a, c));
  }

  // ---- The fit ---------------------------------------------------------------------

  lemma RoundedIsNear(a: nat, b: nat)
    requires b > 0
    ensures 2 * a - b <= 2 * (Rounded(a, b) * b) <= 2 * a + b
  {
    Quotient(a + b / 2, b);
  }

  // Scaling down by m / b, rounding, never scales up.
  lemma RoundedShrinks(n: nat, m: nat, b: nat)
    requires m < b
    ensures Rounded(n * m, b) <= n
  {
    MulMono(m, b - 1, n);
    assert n * m <= n * (b - 1) == n * b - n;
    assert n * m + b / 2 < (n + 1) * b;
    QuotientAtMost(n * m + b / 2, b, n);
  }

  /** The image is never larger than the source or the limits, and never empty;
      one limited only by its width keeps the shape to half a row. */
  lemma FitFits(srcW: nat, srcH: nat, maxW: nat, maxH: nat)
    requires srcW > 0 && srcH > 0 && maxW > 0 && maxH > 0
    ensures var (w, h) := Fit(srcW, srcH, maxW, maxH);
            && 1 <= w <= srcW && w <= maxW && 1 <= h <= srcH && h <= maxH
            && (srcW <= maxW && srcH <= maxH ==> w == srcW && h == srcH)
            && (srcW > maxW && 1 < h < maxH ==> w == maxW && 2 * (srcH * w) - srcW <= 2 * (h * srcW) <= 2 * (srcH * w) + srcW)
  {
    var h := if srcW > maxW then Rounded(srcH * maxW, srcW) else srcH;
    var w := if srcW > maxW then maxW else srcW;
    if srcW > maxW {
      RoundedShrinks(srcH, maxW, srcW);
      RoundedIsNear(srcH * maxW, srcW);
    }
    if h > maxH {
      RoundedShrinks(w, maxH, h);
    }
  }

  /** One limited by its height, once its width is, has that height and, unless it is a
      single column, the width that keeps the shape to half a column. */
  lemma FitKeepsTheShape(srcW: nat, srcH: nat, maxW: nat, maxH: nat)
    requires srcW > 0 && srcH > 0 && maxW > 0 && maxH > 0
    ensures var midW := if srcW > maxW then maxW else srcW;
            var midH := if srcW > maxW then Rounded(srcH * maxW, srcW) else srcH;
            var (w, h) := Fit(srcW, srcH, maxW, maxH);
            midH > maxH ==>
              && h == maxH
              && (w > 1 ==> 2 * (midW * maxH) - midH <= 2 * (w * midH) <= 2 * (midW * maxH) + midH)
              && (w == 1 ==> 2 * (midW * maxH) <= 2 * midH + midH)
  {
    var midW := if srcW > maxW then maxW else srcW;
    var midH := if srcW > maxW then Rounded(srcH * maxW, srcW) else srcH;
    if midH > maxH {
      RoundedIsNear(midW * maxH, midH);
      hide Rounded;
      var w := Rounded(midW * maxH, midH);
      assert w <= 1 ==> w * midH <= midH;
    }
  }

  // ---- Points -----------------------------------------------------------------------

  // Half a pixel never reaches the next whole one.
  lemma HalvesBelow(f: Frame, n: nat, q: nat)
    requires f.imgW > 0 && n < 2 * q && f.srcW > 0
    ensures FloorHalves(f, n) < CeilHalves(f, 2 * q)
  {
    var d := 2 * f.imgW;
    Quotient(n * f.srcW, d);
    MulMono(n + 1, 2 * q, f.srcW);
    assert (n + 1) * f.srcW == n * f.srcW + f.srcW;
    QuotientAtLeast(2 * q * f.srcW + d - 1, d, Floor(n * f.srcW, d) + 1) by {
      assert (Floor(n * f.srcW, d) + 1) * d == n * f.srcW / d * d + d;
    }
  }

  lemma HalvesMono(f: Frame, n: nat, m: nat)
    requires f.imgW > 0 && n <= m
    ensures FloorHalves(f, n) <= FloorHalves(f, m) && CeilHalves(f, n) <= CeilHalves(f, m)
  {
    MulMono(n, m, f.srcW);
    QuotientMono(n * f.srcW, m * f.srcW, 2 * f.imgW);
    QuotientMono(n * f.srcW + 2 * f.imgW - 1, m * f.srcW + 2 * f.imgW - 1, 2 * f.imgW);
  }

  lemma WholeWidth(f: Frame)
    requires f.imgW > 0
    ensures CeilHalves(f, 2 * f.imgW) == f.srcW
  {
    var d := 2 * f.imgW;
    assert d * f.srcW + d - 1 < (f.srcW + 1) * d;
    QuotientIs(d * f.srcW + d - 1, d, f.srcW);
  }

  /** A pixel of the image is inside the source, in x. */
  lemma PhysicalIsInside(f: Frame, x: int, y: int)
    requires f.srcW > 0 && ToPhysical(f, x, y).Some?
    ensures var p := ToPhysical(f, x, y).value;
            f.originX <= p.x < f.originX + f.srcW && f.originY <= p.y
  {
    HalvesBelow(f, 2 * x + 1, f.imgW);
    WholeWidth(f);
  }

  // What the middle of pixel x, floored, is worth in image widths.
  lemma MiddleOfPixel(f: Frame, x: nat)
    requires 0 < f.imgW
    ensures var q := FloorHalves(f, 2 * x + 1);
            2 * (q * f.imgW) <= 2 * (x * f.srcW) + f.srcW < 2 * (q * f.imgW) + 2 * f.imgW
  {
    hide Floor;
    var q := FloorHalves(f, 2 * x + 1);
    Quotient((2 * x + 1) * f.srcW, 2 * f.imgW);
    assert q * (2 * f.imgW) == 2 * (q * f.imgW);
    assert (q + 1) * (2 * f.imgW) == 2 * (q * f.imgW) + 2 * f.imgW;
    assert (2 * x + 1) * f.srcW == 2 * (x * f.srcW) + f.srcW;
  }

  // How far into an image pixel the left edge of screen pixel x * srcW / imgW lies,
  // in imgW-ths.
  function Remainder(f: Frame, x: nat): nat
    requires f.imgW > 0
  {
    x * f.srcW % f.imgW
  }

  lemma RemainderIs(f: Frame, x: nat)
    requires f.imgW > 0
    ensures Remainder(f, x) < f.imgW
    ensures x * f.srcW == Floor(x * f.srcW, f.imgW) * f.imgW + Remainder(f, x)
  {
  }

  // A pixel comes back to itself: its middle, floored to a screen pixel, is not
  // floored below its left edge.
  ghost predicate ComesBack(f: Frame, x: nat)
    requires f.imgW > 0
  {
    Remainder(f, x) == 0 || 2 * Remainder(f, x) + f.srcW >= 2 * f.imgW
  }

  // The screen pixel under the middle of pixel x is at or past its left edge exactly
  // when the pixel comes back.
  lemma PastTheEdge(f: Frame, x: nat)
    requires 0 < f.imgW
    ensures x * f.srcW <= FloorHalves(f, 2 * x + 1) * f.imgW <==> ComesBack(f, x)
  {
    hide Floor, Remainder;
    var q, k, r := FloorHalves(f, 2 * x + 1), Floor(x * f.srcW, f.imgW), Remainder(f, x);
    MiddleOfPixel(f, x);
    RemainderIs(f, x);
    hide FloorHalves;
    // 2 * q * imgW <= 2 * k * imgW + 2 * r + srcW < 2 * (q + 1) * imgW
    assert (q + 1) * f.imgW == q * f.imgW + f.imgW && (k + 1) * f.imgW == k * f.imgW + f.imgW;
    if q < k {
      MulMono(q + 1, k, f.imgW);
    } else if q > k {
      MulMono(k + 1, q, f.imgW);
    }
  }

  // Back from the screen: at most one pixel short.
  lemma BackFromHalves(f: Frame, x: nat)
    requires 0 < f.imgW <= f.srcW
    ensures var back := Floor(FloorHalves(f, 2 * x + 1) * f.imgW, f.srcW);
            x - 1 <= back <= x && (back == x <==> ComesBack(f, x))
  {
    hide Floor, FloorHalves, ComesBack;
    var w, p := f.srcW, FloorHalves(f, 2 * x + 1) * f.imgW;
    MiddleOfPixel(f, x);
    PastTheEdge(f, x);
    assert (x + 1) * w == x * w + w;
    QuotientAtMost(p, w, x);
    if x * w <= p {
      QuotientAtLeast(p, w, x);
    } else {
      assert (x - 1) * w == x * w - w;
      QuotientAtLeast(p, w, x - 1);
      QuotientAtMost(p, w, x - 1);
    }
  }

  /** Pointing at a pixel and asking where the cursor is gives the pixel back, or
      the one before it; and exactly when each coordinate comes back is told by
      its remainder alone. */
  lemma ThereAndBack(f: Frame, x: int, y: int)
    requires 0 < f.imgW <= f.srcW && ToPhysical(f, x, y).Some?
    requires ToPhysical(f, x, y).value.y < f.originY + f.srcH
    ensures var p := ToPhysical(f, x, y).value;
            var back := ToImage(f, p.x, p.y);
            && back.Some?
            && x - 1 <= back.value.x <= x && y - 1 <= back.value.y <= y
            && (back.value.x == x <==> ComesBack(f, x))
            && (back.value.y == y <==> ComesBack(f, y))
  {
    hide ComesBack;
    PhysicalIsInside(f, x, y);
    BackFromHalves(f, x);
    BackFromHalves(f, y);
  }

  /** Some scales lose pixels: five screen pixels on four. */
  lemma OnePixelShort()
    ensures var f := Frame(0, 0, 5, 5, 4, 4);
            ToPhysical(f, 1, 1) == Some(Point(1, 1)) && ToImage(f, 1, 1) == Some(Point(0, 0))
  {
  }

  // ---- Which scales lose none ---------------------------------------------------------

  function Gcd(a: nat, b: nat): nat
    decreases b
  {
    if b == 0 then a else Gcd(b, a % b)
  }

  ghost predicate Divides(d: nat, n: nat) {
    exists k: nat :: n == k * d
  }

  lemma DividesIs(d: nat, n: nat, k: nat)
    requires n == k * d
    ensures Divides(d, n)
  {
  }

  lemma SumOfMultiples(d: nat, a: nat, b: nat, k: nat)
    requires Divides(d, a) && Divides(d, b)
    ensures Divides(d, k * a + b)
  {
    var m: nat :| a == m * d;
    var n: nat :| b == n * d;
    assert k * a + b == (k * m + n) * d;
    DividesIs(d, k * a + b, k * m + n);
  }

  lemma {:induction false} GcdDivides(a: nat, b: nat)
    ensures Divides(Gcd(a, b), a) && Divides(Gcd(a, b), b)
    decreases b
  {
    if b == 0 {
      DividesIs(a, a, 1);
      DividesIs(a, 0, 0);
    } else {
      GcdDivides(b, a % b);
      assert a == a / b * b + a % b;
      SumOfMultiples(Gcd(a, b), b, a % b, a / b);
    }
  }

  // The greatest common divisor is a combination of its numbers.
  lemma {:induction false} GcdCombines(a: nat, b: nat) returns (u: int, v: int)
    ensures u * a + v * b == Gcd(a, b)
    decreases b
  {
    if b == 0 {
      return 1, 0;
    }
    var s, t := GcdCombines(b, a % b);
    var k := a / b;
    assert a == k * b + a % b;
    assert t * (a % b) == t * a - t * (k * b) == t * a - t * k * b;
    assert (s - t * k) * b == s * b - t * k * b;
    return t, s - t * k;
  }

  lemma RemainderOf(a: int, b: nat, k: int, r: nat)
    requires a == k * b + r && r < b
    ensures a % b == r
  {
    var q := a / b;
    assert a == q * b + a % b;
    SmallMultiple(q - k, b, r - a % b);
  }

  lemma SmallMultiple(d: int, b: nat, e: int)
    requires d * b == e && e + b > 0 && e < b
    ensures d == 0
  {
    assert d * b + (-d) * b == 0;
    if d > 0 {
      MulMono(1, d, b);
    } else if d < 0 {
      MulMono(1, -d, b);
    }
  }

  // Some column's remainder is the divisor itself, unless the divisor is everything.
  lemma LeastRemainder(f: Frame) returns (x: nat)
    requires 0 < f.imgW && Gcd(f.srcW, f.imgW) < f.imgW
    ensures x < f.imgW && Remainder(f, x) == Gcd(f.srcW, f.imgW)
  {
    var w, i, g := f.srcW, f.imgW, Gcd(f.srcW, f.imgW);
    var u, v := GcdCombines(w, i);
    x := u % i;
    hide Gcd;
    assert u * w == u / i * i * w + x * w by {
      assert u == u / i * i + x;
    }
    MultiplesApart(u / i, i, w, v);
    RemainderOf(x * w, i, -v - u / i * w, g);
  }

  lemma MultiplesApart(k: int, i: int, w: int, v: int)
    ensures (-v - k * w) * i == -(v * i) - k * i * w
  {
    assert (-v - k * w) * i == -v * i - k * w * i;
  }

  // And every other remainder is a multiple of it.
  lemma RemaindersAreMultiples(f: Frame, x: nat)
    requires 0 < f.imgW && Remainder(f, x) != 0
    ensures Remainder(f, x) >= Gcd(f.srcW, f.imgW)
  {
    hide Floor, Remainder, Gcd;
    GcdDivides(f.srcW, f.imgW);
    RemainderIs(f, x);
    LeftOver(x, f.srcW, Floor(x * f.srcW, f.imgW), f.imgW, Gcd(f.srcW, f.imgW), Remainder(f, x));
  }

  lemma LeftOver(x: nat, w: nat, k: nat, i: nat, g: nat, r: nat)
    requires Divides(g, w) && Divides(g, i) && x * w == k * i + r && r != 0
    ensures r >= g
  {
    var a: nat :| w == a * g;
    var b: nat :| i == b * g;
    Reassociate(x, a, g);
    Reassociate(k, b, g);
    assert (x * a - k * b) * g == x * a * g - k * b * g;
    MultipleIsAtLeast(x * a - k * b, g, r);
  }

  lemma Reassociate(a: nat, b: nat, c: nat)
    ensures a * (b * c) == a * b * c
  {
  }

  lemma MultipleIsAtLeast(m: int, g: nat, r: nat)
    requires r == m * g && r != 0
    ensures r >= g
  {
    assert m * g + (-m) * g == 0;
    if m > 0 {
      MulMono(1, m, g);
    } else {
      MulMono(0, -m, g);
    }
  }

  /** Every column of the image comes back exactly when the scale and what the two
      widths share leave room for it: from 1920 to 1280 all do, from 5 to 4 not. */
  lemma EveryColumnComesBack(f: Frame)
    requires 0 < f.imgW <= f.srcW
    ensures (forall x: nat | x < f.imgW :: ComesBack(f, x)) <==> f.srcW + 2 * Gcd(f.srcW, f.imgW) >= 2 * f.imgW
  {
    hide Remainder, Gcd;
    var g := Gcd(f.srcW, f.imgW);
    if f.srcW + 2 * g >= 2 * f.imgW {
      forall x: nat | x < f.imgW
        ensures ComesBack(f, x)
      {
        if Remainder(f, x) != 0 {
          RemaindersAreMultiples(f, x);
        }
      }
    } else {
      GcdIsPositive(f.srcW, f.imgW);
      var x := LeastRemainder(f);
      assert !ComesBack(f, x);
    }
  }

  lemma {:induction false} GcdIsPositive(a: nat, b: nat)
    requires b > 0
    ensures Gcd(a, b) > 0
    decreases b
  {
    if a % b > 0 {
      GcdIsPositive(b, a % b);
    }
  }

  lemma FullHdComesBack(originX: int, originY: int, srcH: nat, imgH: nat, x: nat)
    requires x < 1280
    ensures ComesBack(Frame(originX, originY, 1920, srcH, 1280, imgH), x)
  {
    hide ComesBack;
    var f := Frame(originX, originY, 1920, srcH, 1280, imgH);
    assert Gcd(1920, 1280) == Gcd(1280, 640) == Gcd(640, 0);
    EveryColumnComesBack(f);
  }

  // Every row lands at most one screen pixel past the bottom.
  ghost predicate RowsStayInside(f: Frame) {
    forall y :: 0 <= y < f.imgH ==> ToPhysical(f, 0, y).Some? && ToPhysical(f, 0, y).value.y <= f.originY + f.srcH
  }

  /** For any frame: every row lands at most one screen pixel past the bottom
      exactly when the last one does. */
  lemma LastRowDecides(f: Frame)
    requires f.imgW > 0 && f.imgH > 0
    ensures RowsStayInside(f) <==> (2 * f.imgH - 1) * f.srcW < 2 * f.imgW * (f.srcH + 1)
  {
    hide FloorHalves, Floor;
    var n, d := 2 * f.imgH - 1, 2 * f.imgW;
    assert ToPhysical(f, 0, f.imgH - 1).Some?;
    assert 2 * (f.imgH - 1) + 1 == n;
    assert (f.srcH + 1) * d == 2 * f.imgW * (f.srcH + 1);
    LastRow(f, n);
    forall y: nat | y < f.imgH
      ensures FloorHalves(f, 2 * y + 1) <= FloorHalves(f, n)
    {
      HalvesMono(f, 2 * y + 1, n);
    }
  }

  lemma LastRow(f: Frame, n: nat)
    requires f.imgW > 0
    ensures FloorHalves(f, n) <= f.srcH <==> n * f.srcW < (f.srcH + 1) * (2 * f.imgW)
  {
    hide Floor;
    if n * f.srcW < (f.srcH + 1) * (2 * f.imgW) {
      QuotientAtMost(n * f.srcW, 2 * f.imgW, f.srcH);
    } else {
      QuotientAtLeast(n * f.srcW, 2 * f.imgW, f.srcH + 1);
    }
  }

  /** For an image limited only by its width, every row lands at most one screen
      pixel past the bottom exactly when the source is less than twice its
      height plus one, scaled, in width: a flatter source is shown as one row
      that can point far below it. */
  lemma RowsStayWithinOne(originX: int, originY: int, srcW: nat, srcH: nat, maxW: nat, maxH: nat)
    requires srcH > 0 && 0 < maxW < srcW && maxH > 0 && Rounded(srcH * maxW, srcW) <= maxH
    ensures var f := FrameFor(originX, originY, srcW, srcH, maxW, maxH);
            RowsStayInside(f) <==> srcW < 2 * maxW * (srcH + 1)
  {
    hide RowsStayInside, Rounded;
    var f := FrameFor(originX, originY, srcW, srcH, maxW, maxH);
    var h := Rounded(srcH * maxW, srcW);
    RoundedIsNear(srcH * maxW, srcW);
    LastRowDecides(f);
    hide FrameFor, Fit;
    RowCondition(srcW, srcH, maxW, h);
  }

  // Rounded to at least half a row, the condition on the last one is met anyway.
  lemma RowCondition(srcW: nat, srcH: nat, maxW: nat, h: nat)
    requires maxW > 0 && 2 * (srcH * maxW) - srcW <= 2 * (h * srcW) <= 2 * (srcH * maxW) + srcW
    ensures (2 * Max(h, 1) - 1) * srcW < 2 * maxW * (srcH + 1) <==> srcW < 2 * maxW * (srcH + 1)
  {
    assert 2 * maxW * (srcH + 1) == 2 * (srcH * maxW) + 2 * maxW;
    if h >= 1 {
      MulMono(1, h, srcW);
      assert (2 * h - 1) * srcW == 2 * (h * srcW) - srcW;
    }
  }

  /** For an image limited only by its height, that is a condition on the width its
      columns are rounded to. */
  lemma TallRowsStayWithinOne(originX: int, originY: int, srcW: nat, srcH: nat, maxW: nat, maxH: nat)
    requires 0 < srcW <= maxW && 0 < maxH < srcH
    ensures RowsStayInside(FrameFor(originX, originY, srcW, srcH, maxW, maxH)) <==>
            (2 * maxH - 1) * srcW < 2 * Max(Rounded(srcW * maxH, srcH), 1) * (srcH + 1)
  {
    hide RowsStayInside, Rounded;
    LastRowDecides(FrameFor(originX, originY, srcW, srcH, maxW, maxH));
  }

  /** And it can fail: a column three pixels wide and 3000 high, shown 1280 high,
      is one pixel wide, and its last rows point past the bottom. */
  lemma ATallColumnPointsBelow()
    ensures var f := FrameFor(0, 0, 3, 3000, 1280, 1280);
            f.imgW == 1 && f.imgH == 1280 && ToPhysical(f, 0, 1279) == Some(Point(1, 3838))
  {
  }

  // ---- Zoom ---------------------------------------------------------------------------

  /** A zoom covers what it zooms into: the screen point of every pixel of the
      region is inside the new frame, and the new frame is inside the old one
      in x. */
  lemma ZoomCovers(f: Frame, region: Region, maxW: nat, maxH: nat, x: int, y: int)
    requires f.srcW > 0 && ZoomFrame(f, region, maxW, maxH).Some?
    requires Ordered(region).x0 <= x < Ordered(region).x1 && Ordered(region).y0 <= y < Ordered(region).y1
    ensures var z := ZoomFrame(f, region, maxW, maxH).value;
            var p := ToPhysical(f, x, y);
            && p.Some?
            && z.originX <= p.value.x < z.originX + z.srcW
            && z.originY <= p.value.y < z.originY + z.srcH
  {
    var r := Ordered(region);
    HalvesMono(f, 2 * r.x0, 2 * x + 1);
    HalvesMono(f, 2 * r.y0, 2 * y + 1);
    HalvesBelow(f, 2 * x + 1, r.x1);
    HalvesBelow(f, 2 * y + 1, r.y1);
  }

  // The scaled edge a zoom starts from and the one it ends at, to the pixel.
  ghost predicate Tight(from: int, size: nat, lo: nat, hi: nat, f: Frame) {
    && from * f.imgW <= lo * f.srcW < (from + 1) * f.imgW
    && (from + size) * f.imgW - f.imgW < hi * f.srcW <= (from + size) * f.imgW
  }

  lemma HalvesAreEdges(f: Frame, n: nat)
    requires f.imgW > 0
    ensures FloorHalves(f, 2 * n) * f.imgW <= n * f.srcW < (FloorHalves(f, 2 * n) + 1) * f.imgW
    ensures CeilHalves(f, 2 * n) * f.imgW - f.imgW < n * f.srcW <= CeilHalves(f, 2 * n) * f.imgW
  {
    hide Floor;
    var q, c, w := FloorHalves(f, 2 * n), CeilHalves(f, 2 * n), f.imgW;
    Quotient(2 * n * f.srcW, 2 * w);
    Quotient(2 * n * f.srcW + 2 * w - 1, 2 * w);
    assert 2 * n * f.srcW == 2 * (n * f.srcW);
    Doubled(q, w);
    Doubled(q + 1, w);
    Doubled(c, w);
    Doubled(c + 1, w);
    assert (c + 1) * w == c * w + w;
  }

  lemma Doubled(a: int, b: int)
    ensures a * (2 * b) == 2 * (a * b)
  {
  }

  /** A zoom shows no more than it must: each of its edges is less than one screen pixel
      outside the region's, in x and in y. */
  lemma ZoomIsTight(f: Frame, region: Region, maxW: nat, maxH: nat)
    requires f.srcW > 0 && ZoomFrame(f, region, maxW, maxH).Some?
    ensures var z, r := ZoomFrame(f, region, maxW, maxH).value, Ordered(region);
            && Tight(z.originX - f.originX, z.srcW, r.x0, r.x1, f)
            && Tight(z.originY - f.originY, z.srcH, r.y0, r.y1, f)
  {
    hide FloorHalves, CeilHalves, Fit;
    var r := Ordered(region);
    HalvesBelow(f, 2 * r.x0, r.x1);
    HalvesBelow(f, 2 * r.y0, r.y1);
    HalvesAreEdges(f, r.x0);
    HalvesAreEdges(f, r.x1);
    HalvesAreEdges(f, r.y0);
    HalvesAreEdges(f, r.y1);
  }

  ghost predicate InsideX(inner: Frame, outer: Frame) {
    outer.originX <= inner.originX && inner.originX + inner.srcW <= outer.originX + outer.srcW
  }

  lemma ZoomIsNested(f: Frame, region: Region, maxW: nat, maxH: nat)
    requires f.srcW > 0 && ZoomFrame(f, region, maxW, maxH).Some?
    ensures InsideX(ZoomFrame(f, region, maxW, maxH).value, f) && ZoomFrame(f, region, maxW, maxH).value.srcW > 0
  {
    var r := Ordered(region);
    HalvesBelow(f, 2 * r.x0, r.x1);
    HalvesMono(f, 2 * r.x1, 2 * f.imgW);
    WholeWidth(f);
  }

  // One zoom after another, each into the image the last one returned.
  function Zooms(f: Frame, regions: seq<Region>, maxW: nat, maxH: nat): Option<Frame>
    decreases |regions|
  {
    if regions == [] then Some(f)
    else
      match ZoomFrame(f, regions[0], maxW, maxH)
      case None => None
      case Some(z) => Zooms(z, regions[1..], maxW, maxH)
  }

  /** Any chain of zooms stays inside the frame it started from, in x. */
  lemma {:induction false} ZoomsStayInside(f: Frame, regions: seq<Region>, maxW: nat, maxH: nat)
    requires f.srcW > 0 && Zooms(f, regions, maxW, maxH).Some?
    ensures InsideX(Zooms(f, regions, maxW, maxH).value, f)
    decreases |regions|
  {
    hide ZoomFrame;
    if regions != [] {
      ZoomIsNested(f, regions[0], maxW, maxH);
      ZoomsStayInside(ZoomFrame(f, regions[0], maxW, maxH).value, regions[1..], maxW, maxH);
    }
  }
}
