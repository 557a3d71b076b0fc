/** The frame-rate counter: every frame adds a sample to a running 32-bit total, and every
    60th frame publishes that wrapped total divided by 60 and starts over. The sample, the rounded reciprocal
    of the frame time, and QualitySettings.vSyncCount are inputs of Update. */
module FrameCounter {

  const FramesPerReading := 60
  const TwoTo31 := 0x8000_0000
  const TwoTo32 := 0x1_0000_0000

  /** A C# int. */
  type Int32 = x: int | -TwoTo31 <= x < TwoTo31

  /** The largest sample for which sixty of them cannot overflow an int. */
  const MaxSafeSample := (TwoTo31 - 1) / FramesPerReading

  /** C#'s unchecked 32-bit int arithmetic: x reduced into [-2^31, 2^31) modulo 2^32. */
  function Wrap32(x: int): (r: Int32)
    ensures (r - x) % TwoTo32 == 0
    ensures -TwoTo31 <= x < TwoTo31 ==> r == x
  {
    (x + TwoTo31) % TwoTo32 - TwoTo31
  }

  /** C#'s int division by a positive divisor, which truncates toward zero. */
  function TruncDiv(a: int, b: int): (q: int)
    requires b > 0
    ensures a >= 0 ==> 0 <= q && q * b <= a < (q + 1) * b
    ensures a < 0 ==> q <= 0 && (q - 1) * b < a <= q * b
  {
    if a >= 0 then DivBounds(a, b); a / b else DivBounds(-a, b); -((-a) / b)
  }

  lemma DivBounds(a: nat, b: int)
    requires b > 0
    ensures 0 <= a / b && (a / b) * b <= a < (a / b + 1) * b
  {
    assert a == (a / b) * b + a % b;
  }

  function Sum(s: seq<int>): int {
    if s == [] then 0 else Sum(s[..|s| - 1]) + s[|s| - 1]
  }

  lemma {:induction false} ModShift(x: int, q: int)
    ensures (x + q * TwoTo32) % TwoTo32 == x % TwoTo32
  {
    var d := x / TwoTo32;
    var m := x % TwoTo32;
    assert x + q * TwoTo32 == (d + q) * TwoTo32 + m;
  }

  /** Adding to a wrapped total wraps to the same value as adding to the exact total. */
  lemma {:induction false} Wrap32Add(a: int, b: int)
    ensures Wrap32(Wrap32(a) + b) == Wrap32(a + b)
  {
    var q := (a + TwoTo31) / TwoTo32;
    assert Wrap32(a) == a - q * TwoTo32;
    ModShift(a + b + TwoTo31, -q);
  }

  /** A sum of samples that each lie in [lo, hi] lies between |s| * lo and |s| * hi. */
  lemma {:induction false} SumBounds(s: seq<int>, lo: int, hi: int)
    requires forall i :: 0 <= i < |s| ==> lo <= s[i] <= hi
    ensures |s| * lo <= Sum(s) <= |s| * hi
  {
    if s != [] {
      var init := s[..|s| - 1];
      assert forall i :: 0 <= i < |init| ==> init[i] == s[i];
      SumBounds(init, lo, hi);
      assert |s| * lo == |init| * lo + lo && |s| * hi == |init| * hi + hi;
    }
  }

  /** For sixty samples that are non-negative and at most MaxSafeSample (any frame rate a real
      screen reaches), the total does not overflow, and the published average is the floor of
      the true mean, lying between the smallest and largest bound of the samples. */
  lemma AverageOfReading(s: seq<int>, lo: int, hi: int)
    requires |s| == FramesPerReading
    requires 0 <= lo <= hi <= MaxSafeSample
    requires forall i :: 0 <= i < |s| ==> lo <= s[i] <= hi
    ensures Wrap32(Sum(s)) == Sum(s)
    ensures TruncDiv(Wrap32(Sum(s)), FramesPerReading) == Sum(s) / FramesPerReading
    ensures lo <= TruncDiv(Wrap32(Sum(s)), FramesPerReading) <= hi
  {
    SumBounds(s, lo, hi);
  }

  datatype Color = Color(r: real, g: real, b: real, a: real)

  /** The text of the label: what the scene put there, or "{n} FPS" with the number n. */
  datatype FpsText = Initial(text: string) | Fps(n: int)

  /** The component. `samples` is the ghost record of the samples since the last reading. */
  class FPSDisplay {
    const syncedColor: Color
    const normalColor: Color
    var frameCount: Int32
    var totalFPS: Int32
    var text: FpsText
    var color: Color
    ghost var samples: seq<Int32>

    /** Between readings fewer than 60 samples are held, and the total is their wrapped sum. */
    ghost predicate Valid()
      reads this
    {
      0 <= frameCount < FramesPerReading && frameCount == |samples| && totalFPS == Wrap32(Sum(samples))
    }

    /** The serialized colours and the label's initial state; the counters start at 0. */
    constructor (syncedColor: Color, normalColor: Color, text: FpsText, color: Color)
      ensures Valid() && samples == []
      ensures this.syncedColor == syncedColor && this.normalColor == normalColor
      ensures this.text == text && this.color == color
    {
      this.syncedColor := syncedColor;
      this.normalColor := normalColor;
      this.text := text;
      this.color := color;
      frameCount := 0;
      totalFPS := 0;
      samples := [];
    }

    /** One frame. On the 60th sample since the last reading, the text shows the wrapped
        32-bit total of those 60 samples divided by 60, truncated toward zero (the truncated
        average when the sum fits, see AverageOfReading), and both counters return to 0;
        otherwise the text is left alone. The colour follows vSyncCount on every frame. */
    method Update(sample: Int32, vSyncCount: int)
      requires Valid()
      modifies this`frameCount, this`totalFPS, this`text, this`color, this`samples
      ensures Valid()
      ensures old(frameCount) < FramesPerReading - 1 ==>
        samples == old(samples) + [sample] && frameCount == old(frameCount) + 1 && text == old(text)
      ensures old(frameCount) == FramesPerReading - 1 ==>
        samples == [] && frameCount == 0 && totalFPS == 0 &&
        text == Fps(TruncDiv(Wrap32(Sum(old(samples) + [sample])), FramesPerReading))
      ensures color == if vSyncCount > 0 then syncedColor else normalColor
    {
      ghost var all := samples + [sample];
      assert all[..|all| - 1] == samples;
      Wrap32Add(Sum(samples), sample);
      frameCount := frameCount + 1;
      totalFPS := Wrap32(totalFPS + sample);
      samples := all;

      if frameCount % FramesPerReading == 0 {
        text := Fps(TruncDiv(totalFPS, frameCount));
        totalFPS := 0;
        frameCount := 0;
        samples := [];
      }

      if vSyncCount > 0 {
        color := syncedColor;
      } else {
        color := normalColor;
      }
    }
  }
}
