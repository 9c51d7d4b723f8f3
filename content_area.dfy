/** DetectVerticalContentArea: the band of an image left after cutting off the black strips
  * at its top and bottom. The bitmap is a two-dimensional array indexed [y, x], so
  * Length0 is its height and Length1 its width. */
module ContentArea {
  import opened Drawing

  /** (R + G + B) / 3 < 20, with C#'s integer division of non-negative numbers. */
  predicate IsDark(c: Rgb) { (c.r + c.g + c.b) / 3 < 20 }

  /** Math.Max(1, width / 32): the distance between sampled columns. */
  function Step(width: nat): (step: nat)
    ensures step >= 1
  {
    if width / 32 > 1 then width / 32 else 1
  }

  /** The number of sampled columns x, x + step, ... below width. */
  function SamplesFrom(width: int, step: nat, x: nat): nat
    requires step > 0
    decreases width - x
  {
    if x < width then 1 + SamplesFrom(width, step, x + step) else 0
  }

  /** The number of dark pixels among the sampled columns x, x + step, ... of row y. */
  function DarkFrom(bmp: array2<Rgb>, y: nat, step: nat, x: nat): (n: nat)
    requires y < bmp.Length0 && step > 0
    reads bmp
    ensures n <= SamplesFrom(bmp.Length1, step, x)
    decreases bmp.Length1 - x
  {
    if x < bmp.Length1 then (if IsDark(bmp[y, x]) then 1 else 0) + DarkFrom(bmp, y, step, x + step)
    else 0
  }

  /** IsRowMostlyBlack: there are samples and at least 90% of them are dark
    * (darkCount >= total * 0.9, exact in doubles for counts this small). */
  predicate DarkRow(bmp: array2<Rgb>, y: nat)
    requires y < bmp.Length0
    reads bmp
  {
    var step := Step(bmp.Length1);
    var total := SamplesFrom(bmp.Length1, step, 0);
    total > 0 && 10 * DarkFrom(bmp, y, step, 0) >= 9 * total
  }

  /** The columns x, x + step, ..., x + (k - 1) * step are all sampled when the last of them
    * lies inside the image. */
  lemma {:induction false} SamplesAtLeast(width: nat, step: nat, x: nat, k: nat)
    requires step > 0 && x + k * step < width + step
    ensures SamplesFrom(width, step, x) >= k
    decreases k
  {
    if k > 0 {
      assert x + (k - 1) * step + step == x + k * step;
      SamplesAtLeast(width, step, x + step, k - 1);
    }
  }

  /** Every row of an image at least one pixel wide has samples, and at least 32 of them
    * once the image is 32 pixels wide. */
  lemma SampleBounds(width: nat)
    ensures SamplesFrom(width, Step(width), 0) > 0 <==> width > 0
    ensures width >= 32 ==> SamplesFrom(width, Step(width), 0) >= 32
  {
    var step := Step(width);
    if width >= 32 {
      assert 32 * step <= width;
      SamplesAtLeast(width, step, 0, 32);
    }
  }

  /** The first row at or after t that the top loop stops at: the first row that is not
    * dark, but never past the last row. */
  function TopFrom(bmp: array2<Rgb>, t: nat): (r: nat)
    reads bmp
    ensures t <= r && (r <= bmp.Length0 - 1 || r == t)
    ensures forall y :: t <= y < r ==> DarkRow(bmp, y)
    ensures r < bmp.Length0 - 1 ==> !DarkRow(bmp, r)
    decreases bmp.Length0 - t
  {
    if t < bmp.Length0 - 1 && DarkRow(bmp, t) then TopFrom(bmp, t + 1) else t
  }

  /** The row the bottom loop stops at, counting down from b: the last row that is not
    * dark, but never above top. */
  function BottomFrom(bmp: array2<Rgb>, top: nat, b: int): (r: int)
    requires b < bmp.Length0
    reads bmp
    ensures r <= b && (r >= top || r == b)
    ensures forall y :: r < y <= b ==> DarkRow(bmp, y)
    ensures r > top ==> !DarkRow(bmp, r)
    decreases b
  {
    if b > top && DarkRow(bmp, b) then BottomFrom(bmp, top, b - 1) else b
  }

  /** The rectangle DetectVerticalContentArea returns. */
  function Area(bmp: array2<Rgb>): Rect
    reads bmp
  {
    var height := bmp.Length0;
    var top := TopFrom(bmp, 0);
    var bottom := BottomFrom(bmp, top, height - 1);
    if bottom <= top + height / 10 then Rect(0, 0, bmp.Length1, height)
    else Rect(0, top, bmp.Length1, bottom - top + 1)
  }

  /** IsRowMostlyBlack(y), with its loop over the sampled columns. */
  method IsRowMostlyBlack(bmp: array2<Rgb>, y: nat) returns (black: bool)
    requires y < bmp.Length0
    ensures black == DarkRow(bmp, y)
  {
    var width := bmp.Length1;
    var step := Step(width);
    var darkCount := 0;
    var total := 0;
    var x := 0;
    while x < width
      invariant darkCount + DarkFrom(bmp, y, step, x) == DarkFrom(bmp, y, step, 0)
      invariant total + SamplesFrom(width, step, x) == SamplesFrom(width, step, 0)
      decreases width - x
    {
      if IsDark(bmp[y, x]) {
        darkCount := darkCount + 1;
      }
      total := total + 1;
      x := x + step;
    }
    black := total > 0 && 10 * darkCount >= 9 * total;
  }

  /** The top loop: skip dark rows, never past the last row. */
  method SkipDarkTop(bmp: array2<Rgb>) returns (top: nat)
    ensures top == TopFrom(bmp, 0)
  {
    top := 0;
    while top < bmp.Length0 - 1
      invariant TopFrom(bmp, top) == TopFrom(bmp, 0)
      decreases bmp.Length0 - top
    {
      var black := IsRowMostlyBlack(bmp, top);
      if !black {
        return;
      }
      top := top + 1;
    }
  }

  /** The bottom loop: skip dark rows upwards, never above top. */
  method SkipDarkBottom(bmp: array2<Rgb>, top: nat) returns (bottom: int)
    ensures bottom == BottomFrom(bmp, top, bmp.Length0 - 1)
  {
    bottom := bmp.Length0 - 1;
    while bottom > top
      invariant bottom < bmp.Length0
      invariant BottomFrom(bmp, top, bottom) == BottomFrom(bmp, top, bmp.Length0 - 1)
    {
      var black := IsRowMostlyBlack(bmp, bottom);
      if !black {
        return;
      }
      bottom := bottom - 1;
    }
  }

  /** DetectVerticalContentArea(bmp) */
  method DetectVerticalContentArea(bmp: array2<Rgb>) returns (rect: Rect)
    ensures rect == Area(bmp)
  {
    var width := bmp.Length1;
    var height := bmp.Length0;
    var top := SkipDarkTop(bmp);
    var bottom := SkipDarkBottom(bmp, top);
    if bottom <= top + height / 10 {
      return Rect(0, 0, width, height);
    }
    var newHeight := bottom - top + 1;
    rect := Rect(0, top, width, newHeight);
  }

  /** The area spans the whole width and lies inside the image; when it is not the whole
    * image, every row above it and below it is dark, its first and last rows are not, and it
    * is more than a tenth of the height plus one row tall. */
  lemma AreaShape(bmp: array2<Rgb>)
    ensures var r := Area(bmp);
      r.x == 0 && r.width == bmp.Length1 && 0 <= r.y && 0 <= r.height && r.y + r.height <= bmp.Length0
    ensures var r := Area(bmp);
      r != Rect(0, 0, bmp.Length1, bmp.Length0) ==> (
        (forall y :: 0 <= y < r.y ==> DarkRow(bmp, y))
        && (forall y :: r.y + r.height <= y < bmp.Length0 ==> DarkRow(bmp, y))
        && !DarkRow(bmp, r.y) && !DarkRow(bmp, r.y + r.height - 1)
        && r.height > bmp.Length0 / 10 + 1)
  {
    var height := bmp.Length0;
    var top := TopFrom(bmp, 0);
    var bottom := BottomFrom(bmp, top, height - 1);
    if bottom > top + height / 10 {
      assert bottom > top;
      assert top < height - 1;
    }
  }

  /** Rows that are dark where the loops stop are cut off: the image is kept whole exactly
    * when the band between the stopping rows is at most a tenth of the height. */
  lemma WholeImageWhenMostlyDark(bmp: array2<Rgb>)
    ensures var top := TopFrom(bmp, 0);
      var bottom := BottomFrom(bmp, top, bmp.Length0 - 1);
      (Area(bmp) == Rect(0, 0, bmp.Length1, bmp.Length0)) <==> (bottom <= top + bmp.Length0 / 10
        || (top == 0 && bottom == bmp.Length0 - 1))
  {
  }
}
