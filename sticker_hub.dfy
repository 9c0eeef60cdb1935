/**
 * The sticker studio: the magic-wand erase that makes every pixel whose
 * colour is close to a clicked seed colour transparent, and the white
 * outline built from eight stacked drop shadows.
 *
 * The canvas bitmap is the flat RGBA byte buffer of `ImageData`: pixel `p`
 * occupies bytes `4p .. 4p+3` (red, green, blue, alpha), and the pixel at
 * column `x` of row `y` is pixel `y * width + x`.
 */
module StickerHub {
  import opened Wrappers

  newtype byte = x: int | 0 <= x < 256

  datatype Rgb = Rgb(r: int, g: int, b: int)

  /** The least value of the colour-tolerance slider (its range is 1 to 150). */
  const MinTolerance := 1

  /** Squared Euclidean distance between two colours in RGB space. */
  function SquaredDistance(c: Rgb, d: Rgb): int
  {
    (c.r - d.r) * (c.r - d.r) + (c.g - d.g) * (c.g - d.g) + (c.b - d.b) * (c.b - d.b)
  }

  /**
   * `sqrt(distance) < tolerance`. For an integer squared distance and an
   * integer tolerance this is exactly `0 < tolerance && distance < tolerance²`:
   * a square root is never negative, and it is below a positive integer
   * exactly when its square is.
   */
  predicate WithinTolerance(c: Rgb, target: Rgb, tolerance: int)
  {
    0 < tolerance && SquaredDistance(c, target) < tolerance * tolerance
  }

  /** The red, green and blue bytes of pixel `p`. */
  function PixelRgb(s: seq<byte>, p: nat): Rgb
    requires 4 * p + 2 < |s|
  {
    Rgb(s[4 * p] as int, s[4 * p + 1] as int, s[4 * p + 2] as int)
  }

  /** The byte offset of the seed pixel at column `x` of row `y`. */
  function SeedOffset(width: int, x: int, y: int): int
  {
    (y * width + x) * 4
  }

  /**
   * The seed colour: the RGB bytes at the seed offset. Reading outside the
   * buffer yields `undefined`, every distance to which is `NaN`, so no pixel
   * can be within tolerance of it; that case is `None`.
   */
  function SeedColor(s: seq<byte>, width: int, x: int, y: int): (c: Option<Rgb>)
    ensures c.Some? <==> 0 <= SeedOffset(width, x, y) && SeedOffset(width, x, y) + 2 < |s|
    ensures c.Some? ==> c.value == PixelRgb(s, y * width + x)
  {
    var i := SeedOffset(width, x, y);
    if 0 <= i && i + 2 < |s| then Some(Rgb(s[i] as int, s[i + 1] as int, s[i + 2] as int)) else None
  }

  /**
   * The erase as a walk over the buffer four bytes at a time: a pixel whose
   * colour is within tolerance of `target` gets alpha 0, every other byte
   * is kept. Fewer than four trailing bytes are left alone.
   */
  function Erase(s: seq<byte>, target: Rgb, tolerance: int): (r: seq<byte>)
    ensures |r| == |s|
    decreases |s|
  {
    if |s| < 4 then s
    else
      var alpha := if WithinTolerance(Rgb(s[0] as int, s[1] as int, s[2] as int), target, tolerance) then 0 else s[3];
      [s[0], s[1], s[2], alpha] + Erase(s[4..], target, tolerance)
  }

  /** Byte `k` after the erase, stated one byte at a time. */
  function ErasedByte(s: seq<byte>, target: Rgb, tolerance: int, k: nat): byte
    requires k < |s|
  {
    if k % 4 == 3 && WithinTolerance(PixelRgb(s, k / 4), target, tolerance) then 0 else s[k]
  }

  /** The walk and the byte-wise statement agree on every byte. */
  lemma {:induction false} EraseAt(s: seq<byte>, target: Rgb, tolerance: int, k: nat)
    requires k < |s|
    ensures |Erase(s, target, tolerance)| == |s|
    ensures Erase(s, target, tolerance)[k] == ErasedByte(s, target, tolerance, k)
  {
    if |s| >= 4 {
      var rest := s[4..];
      if k >= 4 {
        EraseAt(rest, target, tolerance, k - 4);
        assert (k - 4) % 4 == k % 4 && (k - 4) / 4 == k / 4 - 1;
        if k % 4 == 3 {
          var p := (k - 4) / 4;
          assert 4 * p == 4 * (k / 4) - 4;
          assert PixelRgb(rest, p) == PixelRgb(s, k / 4);
        }
      }
    }
  }

  /** The erase keeps the buffer's length and every red, green and blue byte. */
  lemma EraseKeepsRgb(s: seq<byte>, target: Rgb, tolerance: int, k: nat)
    requires k < |s| && k % 4 != 3
    ensures |Erase(s, target, tolerance)| == |s|
    ensures Erase(s, target, tolerance)[k] == s[k]
  {
    EraseAt(s, target, tolerance, k);
  }

  /**
   * The alpha of pixel `p` becomes 0 exactly when its colour is within
   * tolerance of the target; otherwise it is unchanged.
   */
  lemma EraseAlpha(s: seq<byte>, target: Rgb, tolerance: int, p: nat)
    requires 4 * p + 3 < |s|
    ensures WithinTolerance(PixelRgb(s, p), target, tolerance) ==> Erase(s, target, tolerance)[4 * p + 3] == 0
    ensures !WithinTolerance(PixelRgb(s, p), target, tolerance) ==> Erase(s, target, tolerance)[4 * p + 3] == s[4 * p + 3]
  {
    EraseAt(s, target, tolerance, 4 * p + 3);
  }

  /** A transparent pixel stays transparent: repeated clicks only add transparency. */
  lemma EraseNeverRestores(s: seq<byte>, target: Rgb, tolerance: int, p: nat)
    requires 4 * p + 3 < |s| && s[4 * p + 3] == 0
    ensures Erase(s, target, tolerance)[4 * p + 3] == 0
  {
    EraseAlpha(s, target, tolerance, p);
  }

  /**
   * The erase is a global threshold, not a flood fill: two pixels of the
   * same colour, wherever they are, both become transparent or both keep
   * their alpha.
   */
  lemma EraseIsGlobal(s: seq<byte>, target: Rgb, tolerance: int, p: nat, q: nat)
    requires 4 * p + 3 < |s| && 4 * q + 3 < |s|
    requires PixelRgb(s, p) == PixelRgb(s, q)
    ensures || (Erase(s, target, tolerance)[4 * p + 3] == 0 && Erase(s, target, tolerance)[4 * q + 3] == 0)
            || (Erase(s, target, tolerance)[4 * p + 3] == s[4 * p + 3] && Erase(s, target, tolerance)[4 * q + 3] == s[4 * q + 3])
  {
    EraseAlpha(s, target, tolerance, p);
    EraseAlpha(s, target, tolerance, q);
  }

  /** A larger tolerance accepts every colour a smaller one accepts. */
  lemma WithinToleranceMonotone(c: Rgb, target: Rgb, t1: int, t2: int)
    requires t1 <= t2 && WithinTolerance(c, target, t1)
    ensures WithinTolerance(c, target, t2)
  {
    assert t1 * t1 <= t1 * t2 <= t2 * t2;
  }

  /** Every pixel whose colour the `t1` test admits is erased with any `t2 >= t1`. */
  lemma EraseMonotoneInTolerance(s: seq<byte>, target: Rgb, t1: int, t2: int, p: nat)
    requires t1 <= t2 && 4 * p + 3 < |s|
    requires WithinTolerance(PixelRgb(s, p), target, t1)
    ensures Erase(s, target, t1)[4 * p + 3] == 0
    ensures Erase(s, target, t2)[4 * p + 3] == 0
  {
    WithinToleranceMonotone(PixelRgb(s, p), target, t1, t2);
    EraseAlpha(s, target, t1, p);
    EraseAlpha(s, target, t2, p);
  }

  /** A pixel transparent after an erase with `t1` is transparent after one with any `t2 >= t1`. */
  lemma ErasedStaysErased(s: seq<byte>, target: Rgb, t1: int, t2: int, p: nat)
    requires t1 <= t2 && 4 * p + 3 < |s|
    requires Erase(s, target, t1)[4 * p + 3] == 0
    ensures Erase(s, target, t2)[4 * p + 3] == 0
  {
    EraseAlpha(s, target, t1, p);
    EraseAlpha(s, target, t2, p);
    if WithinTolerance(PixelRgb(s, p), target, t1) {
      WithinToleranceMonotone(PixelRgb(s, p), target, t1, t2);
    }
  }

  /** With tolerance 0 (or below) the strict comparison admits no pixel. */
  lemma {:induction false} EraseWithoutTolerance(s: seq<byte>, target: Rgb, tolerance: int)
    requires tolerance <= 0
    ensures Erase(s, target, tolerance) == s
  {
    if |s| >= 4 {
      EraseWithoutTolerance(s[4..], target, tolerance);
    }
  }

  /** No two byte colours are 442 or more apart. */
  lemma SquaredDistanceBound(c: Rgb, d: Rgb)
    requires 0 <= c.r < 256 && 0 <= c.g < 256 && 0 <= c.b < 256
    requires 0 <= d.r < 256 && 0 <= d.g < 256 && 0 <= d.b < 256
    ensures SquaredDistance(c, d) <= 3 * 255 * 255
  {
    ChannelBound(c.r - d.r);
    ChannelBound(c.g - d.g);
    ChannelBound(c.b - d.b);
  }

  lemma ChannelBound(e: int)
    requires -256 < e < 256
    ensures e * e <= 255 * 255
  {
    var f := if e < 0 then -e else e;
    assert e * e == f * f;
    assert f * f <= f * 255 <= 255 * 255;
  }

  /** A tolerance of 442 or more makes every pixel transparent, whatever the target. */
  lemma EraseWithFullTolerance(s: seq<byte>, target: Rgb, tolerance: int, p: nat)
    requires 0 <= target.r < 256 && 0 <= target.g < 256 && 0 <= target.b < 256
    requires tolerance >= 442 && 4 * p + 3 < |s|
    ensures Erase(s, target, tolerance)[4 * p + 3] == 0
  {
    SquaredDistanceBound(PixelRgb(s, p), target);
    assert 442 * 442 <= tolerance * tolerance by {
      WithinToleranceMonotoneSquares(442, tolerance);
    }
    EraseAlpha(s, target, tolerance, p);
  }

  lemma WithinToleranceMonotoneSquares(a: int, b: int)
    requires 0 <= a <= b
    ensures a * a <= b * b
  {
    assert a * a <= a * b <= b * b;
  }

  /** 441 is not enough: black is not within 441 of white. */
  lemma FullToleranceIsTight()
    ensures !WithinTolerance(Rgb(0, 0, 0), Rgb(255, 255, 255), 441)
  {
    assert SquaredDistance(Rgb(0, 0, 0), Rgb(255, 255, 255)) == 195075;
  }

  /**
   * Two erases in a row on the byte buffer: a pixel ends transparent when
   * either colour test admits it, and otherwise keeps its alpha. The second
   * erase tests the same colours as the first, because the first wrote no
   * colour byte of the buffer.
   */
  lemma EraseTwice(s: seq<byte>, c1: Rgb, t1: int, c2: Rgb, t2: int, p: nat)
    requires 4 * p + 3 < |s|
    ensures |Erase(Erase(s, c1, t1), c2, t2)| == |s|
    ensures Erase(Erase(s, c1, t1), c2, t2)[4 * p + 3]
         == if WithinTolerance(PixelRgb(s, p), c1, t1) || WithinTolerance(PixelRgb(s, p), c2, t2)
            then 0 else s[4 * p + 3]
  {
    var once := Erase(s, c1, t1);
    EraseKeepsRgb(s, c1, t1, 4 * p);
    EraseKeepsRgb(s, c1, t1, 4 * p + 1);
    EraseKeepsRgb(s, c1, t1, 4 * p + 2);
    assert PixelRgb(once, p) == PixelRgb(s, p);
    EraseAlpha(s, c1, t1, p);
    EraseAlpha(once, c2, t2, p);
  }

  /** Clicking the same seed twice with the same tolerance changes nothing more. */
  lemma EraseIdempotent(s: seq<byte>, target: Rgb, tolerance: int)
    ensures Erase(Erase(s, target, tolerance), target, tolerance) == Erase(s, target, tolerance)
  {
    var once := Erase(s, target, tolerance);
    var twice := Erase(once, target, tolerance);
    forall k | 0 <= k < |s|
      ensures twice[k] == once[k]
    {
      if k % 4 == 3 {
        EraseTwice(s, target, tolerance, target, tolerance, k / 4);
        EraseAlpha(s, target, tolerance, k / 4);
      } else {
        EraseKeepsRgb(once, target, tolerance, k);
      }
    }
  }

  /** A seed inside the image reads the clicked pixel's colour. */
  lemma SeedInside(s: seq<byte>, width: nat, height: nat, x: int, y: int)
    requires |s| == 4 * (width * height)
    requires 0 <= x < width && 0 <= y < height
    ensures y * width + x < width * height
    ensures SeedColor(s, width, x, y) == Some(PixelRgb(s, y * width + x))
  {
    assert y * width <= (height - 1) * width;
  }

  /**
   * The pure meaning of a canvas click: nothing happens when magic-wand
   * mode is off or the seed lies outside the buffer; otherwise the erase
   * runs with the seed colour.
   */
  function Click(wandOn: bool, s: seq<byte>, width: int, x: int, y: int, tolerance: int): (r: seq<byte>)
    ensures |r| == |s|
    ensures !wandOn || SeedColor(s, width, x, y).None? ==> r == s
  {
    if !wandOn then s
    else match SeedColor(s, width, x, y)
      case None => s
      case Some(target) => Erase(s, target, tolerance)
  }

  /** With any tolerance from the slider, the clicked pixel itself is erased. */
  lemma ClickErasesSeed(s: seq<byte>, width: nat, height: nat, x: int, y: int, tolerance: int)
    requires |s| == 4 * (width * height)
    requires 0 <= x < width && 0 <= y < height && tolerance >= MinTolerance
    ensures y * width + x < width * height
    ensures |Click(true, s, width, x, y, tolerance)| == |s|
    ensures Click(true, s, width, x, y, tolerance)[4 * (y * width + x) + 3] == 0
  {
    SeedInside(s, width, height, x, y);
    var p := y * width + x;
    assert 4 * p + 3 < |s|;
    var c := PixelRgb(s, p);
    assert SeedColor(s, width, x, y) == Some(c);
    assert Click(true, s, width, x, y, tolerance) == Erase(s, c, tolerance);
    SelfWithinTolerance(c, tolerance);
    EraseAlpha(s, c, tolerance, p);
  }

  /** Every colour is within any positive tolerance of itself. */
  lemma SelfWithinTolerance(c: Rgb, tolerance: int)
    requires tolerance >= 1
    ensures WithinTolerance(c, c, tolerance)
  {
    assert SquaredDistance(c, c) == 0;
    assert tolerance * tolerance >= tolerance;
  }

  /** The four bytes of pixel `p` after the erase. */
  lemma ErasedPixel(s: seq<byte>, target: Rgb, tolerance: int, p: nat)
    requires 4 * p + 3 < |s|
    ensures ErasedByte(s, target, tolerance, 4 * p) == s[4 * p]
    ensures ErasedByte(s, target, tolerance, 4 * p + 1) == s[4 * p + 1]
    ensures ErasedByte(s, target, tolerance, 4 * p + 2) == s[4 * p + 2]
    ensures ErasedByte(s, target, tolerance, 4 * p + 3)
         == if WithinTolerance(PixelRgb(s, p), target, tolerance) then 0 else s[4 * p + 3]
  {
    assert (4 * p + 3) / 4 == p;
  }

  /** A buffer that holds the erased value at every byte is the erase. */
  lemma ErasedBytes(s: seq<byte>, r: seq<byte>, target: Rgb, tolerance: int)
    requires |r| == |s|
    requires forall k :: 0 <= k < |s| ==> r[k] == ErasedByte(s, target, tolerance, k)
    ensures r == Erase(s, target, tolerance)
  {
    forall k | 0 <= k < |s|
      ensures r[k] == Erase(s, target, tolerance)[k]
    {
      EraseAt(s, target, tolerance, k);
    }
  }

  /**
   * The erase loop over the canvas buffer: it steps through the pixels
   * four bytes at a time and writes 0 into the alpha byte of each pixel
   * within tolerance of `target`.
   */
  method EraseInPlace(data: array<byte>, target: Rgb, tolerance: int)
    requires data.Length % 4 == 0
    modifies data
    ensures data[..] == Erase(old(data[..]), target, tolerance)
  {
    ghost var before := data[..];
    ghost var pixels := data.Length / 4;
    assert data.Length == 4 * pixels;
    var i := 0;
    ghost var p := 0;
    while i < data.Length
      invariant 0 <= p <= pixels && i == 4 * p
      invariant forall k :: 0 <= k < i ==> data[k] == ErasedByte(before, target, tolerance, k)
      invariant forall k :: i <= k < data.Length ==> data[k] == before[k]
    {
      var r, g, b := data[i], data[i + 1], data[i + 2];
      ErasedPixel(before, target, tolerance, p);
      if WithinTolerance(Rgb(r as int, g as int, b as int), target, tolerance) {
        data[i + 3] := 0;
      }
      i := i + 4;
      p := p + 1;
    }
    ErasedBytes(before, data[..], target, tolerance);
  }

  /**
   * The canvas click handler. `data` is the canvas's `ImageData` buffer of
   * `width * height` pixels and (`x`, `y`) the clicked pixel; the source
   * does no bounds check on it.
   */
  method HandleCanvasClick(wandOn: bool, data: array<byte>, width: nat, height: nat, x: int, y: int, tolerance: int)
    requires data.Length == 4 * (width * height)
    modifies data
    ensures !wandOn ==> data[..] == old(data[..])
    ensures data[..] == Click(wandOn, old(data[..]), width, x, y, tolerance)
  {
    if !wandOn {
      return;
    }
    var i := SeedOffset(width, x, y);
    if !(0 <= i && i + 2 < data.Length) {
      // The seed reads `undefined`; every comparison with it fails.
      return;
    }
    var target := Rgb(data[i] as int, data[i + 1] as int, data[i + 2] as int);
    assert SeedColor(data[..], width, x, y) == Some(target);
    EraseInPlace(data, target, tolerance);
  }

  // ---------------------------------------------------------------------
  // The outline filter

  datatype FilterOp =
    | DropShadow(dx: int, dy: int, blur: int, color: string)
    | Contrast(percent: int)

  const ShadowColor := "white"

  /**
   * The CSS `filter` of the sticker preview: eight drop shadows offset by
   * the outline width in the eight compass directions, then a contrast of
   * `100 + smoothness` percent.
   */
  function OutlineFilter(w: int, smoothness: int): (r: seq<FilterOp>)
    ensures |r| == 9
  {
    [ DropShadow(w, 0, 0, ShadowColor), DropShadow(-w, 0, 0, ShadowColor),
      DropShadow(0, w, 0, ShadowColor), DropShadow(0, -w, 0, ShadowColor),
      DropShadow(w, w, 0, ShadowColor), DropShadow(-w, -w, 0, ShadowColor),
      DropShadow(w, -w, 0, ShadowColor), DropShadow(-w, w, 0, ShadowColor),
      Contrast(100 + smoothness) ]
  }

  /**
   * `(dx, dy)` is one of the eight compass steps of length `w`: each
   * coordinate is `-w`, `0` or `w` times a unit, and not both units are 0.
   */
  predicate IsCompassStep(dx: int, dy: int, w: int)
  {
    exists a: int, b: int :: -1 <= a <= 1 && -1 <= b <= 1 && (a != 0 || b != 0) && dx == a * w && dy == b * w
  }

  /** The filter is eight sharp white shadows followed by one contrast step. */
  lemma OutlineFilterShape(w: int, smoothness: int)
    ensures |OutlineFilter(w, smoothness)| == 9
    ensures forall i :: 0 <= i < 8 ==>
              (OutlineFilter(w, smoothness)[i].DropShadow? && OutlineFilter(w, smoothness)[i].blur == 0
               && OutlineFilter(w, smoothness)[i].color == ShadowColor)
    ensures OutlineFilter(w, smoothness)[8] == Contrast(100 + smoothness)
  {
  }

  /** Every shadow is offset by a compass step of length `w`. */
  lemma OutlineShadowIsCompassStep(w: int, smoothness: int, i: nat)
    requires i < 8
    ensures OutlineFilter(w, smoothness)[i].DropShadow?
    ensures IsCompassStep(OutlineFilter(w, smoothness)[i].dx, OutlineFilter(w, smoothness)[i].dy, w)
  {
    var units := [(1, 0), (-1, 0), (0, 1), (0, -1), (1, 1), (-1, -1), (1, -1), (-1, 1)];
    var a, b := units[i].0, units[i].1;
    assert OutlineFilter(w, smoothness)[i].dx == a * w && OutlineFilter(w, smoothness)[i].dy == b * w;
  }

  /** Every compass step of length `w` is the offset of some shadow. */
  lemma OutlineCoversCompassStep(w: int, smoothness: int, a: int, b: int)
    requires -1 <= a <= 1 && -1 <= b <= 1 && (a != 0 || b != 0)
    ensures exists i :: 0 <= i < 8 && OutlineFilter(w, smoothness)[i] == DropShadow(a * w, b * w, 0, ShadowColor)
  {
    var f := OutlineFilter(w, smoothness);
    var i := if a == 1 && b == 0 then 0
      else if a == -1 && b == 0 then 1
      else if a == 0 && b == 1 then 2
      else if a == 0 && b == -1 then 3
      else if a == 1 && b == 1 then 4
      else if a == -1 && b == -1 then 5
      else if a == 1 && b == -1 then 6
      else 7;
    assert f[i] == DropShadow(a * w, b * w, 0, ShadowColor);
  }

  /** For a non-zero width no two shadows coincide. */
  lemma OutlineShadowsDistinct(w: int, smoothness: int, i: nat, j: nat)
    requires w != 0 && i < j < 8
    ensures OutlineFilter(w, smoothness)[i] != OutlineFilter(w, smoothness)[j]
  {
  }

  /** With outline width 0 every shadow sits at offset `(0, 0)`, under the silhouette. */
  lemma OutlineWidthZero(smoothness: int)
    ensures forall i :: 0 <= i < 8 ==> OutlineFilter(0, smoothness)[i] == DropShadow(0, 0, 0, ShadowColor)
  {
  }

  /** The halo is point-symmetric: every shadow has its mirror image in the stack. */
  lemma OutlineSymmetric(w: int, smoothness: int, i: nat)
    requires i < 8
    ensures exists j :: (0 <= j < 8 && OutlineFilter(w, smoothness)[j] ==
      DropShadow(-OutlineFilter(w, smoothness)[i].dx, -OutlineFilter(w, smoothness)[i].dy, 0, ShadowColor))
  {
    var j := if i % 2 == 0 then i + 1 else i - 1;
    assert OutlineFilter(w, smoothness)[j] ==
      DropShadow(-OutlineFilter(w, smoothness)[i].dx, -OutlineFilter(w, smoothness)[i].dy, 0, ShadowColor);
  }
}
