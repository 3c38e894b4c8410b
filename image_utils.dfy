/** The perceptual-signature arithmetic of `ImageUtils`: the mean-threshold
    bitmap over a 32x32 grayscale grid, the 4x4x4 colour histogram over a
    64x64 grid, the Hamming distance and similarity percentage between
    bitmaps, the squared Euclidean distance between histograms, and the
    70/30 blend of the two scores. Decoding an image into pixels is done by
    the browser and is not part of the model: every operation starts from
    the pixel array. */
module ImageUtils {
  import opened Base

  type Channel = c: int | 0 <= c < 256

  /** One RGBA pixel of `getImageData` (alpha is never read). */
  datatype Pixel = Pixel(r: Channel, g: Channel, b: Channel)

  /** Side of the grid the bitmap signature is drawn on. */
  const SignatureSide: nat := 32
  /** Side of the grid the histogram is drawn on. */
  const HistogramSide: nat := 64
  /** Bins per colour channel. */
  const BinsPerChannel: nat := 4
  const BinCount: nat := 64

  /** Gray value 0.299 R + 0.587 G + 0.114 B, scaled by 1000 so that every
      comparison against the mean is exact. */
  function Luma(p: Pixel): (y: int)
    ensures 0 <= y <= 255000
  {
    299 * p.r + 587 * p.g + 114 * p.b
  }

  // ---------------------------------------------------------------------
  // Hamming distance

  /** Number of positions at which the two strings hold different characters. */
  function Differences(s1: string, s2: string): nat
    requires |s1| == |s2|
  {
    if s1 == [] then 0
    else Differences(s1[..|s1| - 1], s2[..|s2| - 1]) + (if s1[|s1| - 1] != s2[|s2| - 1] then 1 else 0)
  }

  /** `calculateHammingDistance`: throws on a length mismatch, otherwise counts
      the differing positions. */
  method HammingDistance(s1: string, s2: string) returns (r: Result<nat>)
    ensures |s1| != |s2| ==> r == Err("Strings must be of the same length")
    ensures |s1| == |s2| ==> r == Ok(Differences(s1, s2))
  {
    if |s1| != |s2| {
      return Err("Strings must be of the same length");
    }
    var distance := 0;
    var i := 0;
    while i < |s1|
      invariant 0 <= i <= |s1|
      invariant distance == Differences(s1[..i], s2[..i])
    {
      assert s1[..i + 1][..i] == s1[..i] && s2[..i + 1][..i] == s2[..i];
      if s1[i] != s2[i] {
        distance := distance + 1;
      }
      i := i + 1;
    }
    assert s1[..i] == s1 && s2[..i] == s2;
    return Ok(distance);
  }

  lemma {:induction false} DifferencesAtMostLength(s1: string, s2: string)
    requires |s1| == |s2|
    ensures Differences(s1, s2) <= |s1|
  {
    if s1 != [] { DifferencesAtMostLength(s1[..|s1| - 1], s2[..|s2| - 1]); }
  }

  lemma {:induction false} DifferencesSymmetric(s1: string, s2: string)
    requires |s1| == |s2|
    ensures Differences(s1, s2) == Differences(s2, s1)
  {
    if s1 != [] { DifferencesSymmetric(s1[..|s1| - 1], s2[..|s2| - 1]); }
  }

  /** Distance 0 exactly for equal strings (so 0 for a string with itself). */
  lemma {:induction false} DifferencesZeroIffEqual(s1: string, s2: string)
    requires |s1| == |s2|
    ensures Differences(s1, s2) == 0 <==> s1 == s2
  {
    if s1 != [] {
      var n := |s1|;
      DifferencesZeroIffEqual(s1[..n - 1], s2[..n - 1]);
      assert s1 == s1[..n - 1] + [s1[n - 1]];
      assert s2 == s2[..n - 1] + [s2[n - 1]];
    }
  }

  /** Distance equals the length when every position differs. */
  lemma {:induction false} DifferencesAllDiffer(s1: string, s2: string)
    requires |s1| == |s2|
    requires forall i :: 0 <= i < |s1| ==> s1[i] != s2[i]
    ensures Differences(s1, s2) == |s1|
  {
    if s1 != [] { DifferencesAllDiffer(s1[..|s1| - 1], s2[..|s2| - 1]); }
  }

  /** `calculateSimilarityPercentage`: 100 - distance / length * 100. An empty
      pair divides 0 by 0 and yields NaN. */
  function SimilarityPercentage(s1: string, s2: string): (r: Result<Num>)
    ensures r.Err? <==> |s1| != |s2|
    ensures |s1| == |s2| == 0 ==> r == Ok(NaN)
    ensures |s1| == |s2| > 0 ==> r.Ok? && r.value.Fin? && 0.0 <= r.value.r <= 100.0
    ensures |s1| > 0 && s1 == s2 ==> r == Ok(Fin(100.0))
    ensures |s1| == |s2| > 0 && (forall i :: 0 <= i < |s1| ==> s1[i] != s2[i]) ==> r == Ok(Fin(0.0))
  {
    if |s1| != |s2| then Err("Strings must be of the same length")
    else if |s1| == 0 then Ok(NaN)
    else
      var d := Differences(s1, s2);
      DifferencesFacts(s1, s2);
      RatioBounds(d, |s1|);
      Ok(Fin(100.0 - d as real / |s1| as real * 100.0))
  }

  lemma RatioBounds(d: nat, n: nat)
    requires 0 < n && d <= n
    ensures 0.0 <= d as real / n as real <= 1.0
    ensures d == 0 ==> d as real / n as real == 0.0
    ensures d == n ==> d as real / n as real == 1.0
  {
    var q := d as real / n as real;
    assert q * n as real == d as real;
  }

  lemma DifferencesFacts(s1: string, s2: string)
    requires |s1| == |s2|
    ensures Differences(s1, s2) <= |s1|
    ensures Differences(s1, s2) == 0 <==> s1 == s2
    ensures (forall i :: 0 <= i < |s1| ==> s1[i] != s2[i]) ==> Differences(s1, s2) == |s1|
  {
    DifferencesAtMostLength(s1, s2);
    DifferencesZeroIffEqual(s1, s2);
    if forall i :: 0 <= i < |s1| ==> s1[i] != s2[i] { DifferencesAllDiffer(s1, s2); }
  }

  // ---------------------------------------------------------------------
  // Euclidean distance between histograms (the square root is left out)

  /** Real product, named so that facts about squares are stated about one term. */
  function Product(a: real, b: real): real { a * b }

  function Square(d: real): real { Product(d, d) }

  function SumSquares(v1: seq<real>, v2: seq<real>): real
    requires |v1| == |v2|
  {
    if v1 == [] then 0.0
    else SumSquares(v1[..|v1| - 1], v2[..|v2| - 1]) + Square(v1[|v1| - 1] - v2[|v2| - 1])
  }

  /** `calculateEuclideanDistance` without the final `Math.sqrt`: throws on a
      length mismatch, otherwise accumulates the squared differences. */
  method EuclideanSquared(v1: seq<real>, v2: seq<real>) returns (r: Result<real>)
    ensures |v1| != |v2| ==> r == Err("Vectors must be of the same length")
    ensures |v1| == |v2| ==> r == Ok(SumSquares(v1, v2))
  {
    if |v1| != |v2| {
      return Err("Vectors must be of the same length");
    }
    var sum := 0.0;
    var i := 0;
    while i < |v1|
      invariant 0 <= i <= |v1|
      invariant sum == SumSquares(v1[..i], v2[..i])
    {
      assert v1[..i + 1][..i] == v1[..i] && v2[..i + 1][..i] == v2[..i];
      var diff := v1[i] - v2[i];
      sum := sum + Square(diff);
      i := i + 1;
    }
    assert v1[..i] == v1 && v2[..i] == v2;
    return Ok(sum);
  }

  /** The sum under the root is never negative, and is zero exactly when the
      vectors are equal. */
  lemma {:induction false} SumSquaresZeroIffEqual(v1: seq<real>, v2: seq<real>)
    requires |v1| == |v2|
    ensures SumSquares(v1, v2) >= 0.0
    ensures v1 == v2 ==> SumSquares(v1, v2) == 0.0
    ensures v1 != v2 ==> SumSquares(v1, v2) > 0.0
  {
    if v1 != [] {
      var n := |v1|;
      var i1, i2 := v1[..n - 1], v2[..n - 1];
      SumSquaresZeroIffEqual(i1, i2);
      var d := v1[n - 1] - v2[n - 1];
      SquarePositive(d);
      assert SumSquares(v1, v2) == SumSquares(i1, i2) + Square(d);
      assert v1 == i1 + [v1[n - 1]];
      assert v2 == i2 + [v2[n - 1]];
      if v1 == v2 {
        assert i1 == i2 && d == 0.0;
      } else if i1 == i2 {
        assert d != 0.0;
      }
    }
  }

  lemma SquarePositive(d: real)
    ensures Square(d) >= 0.0
    ensures d != 0.0 ==> Square(d) > 0.0
  {
    if d > 0.0 {
      PositiveProduct(d, d);
    } else if d < 0.0 {
      PositiveProduct(-d, -d);
      NegatedProduct(d, d);
    }
  }

  lemma PositiveProduct(a: real, b: real)
    requires a > 0.0 && b > 0.0
    ensures Product(a, b) > 0.0
  {
  }

  lemma NegatedProduct(a: real, b: real)
    ensures Product(-a, -b) == Product(a, b)
  {
  }

  // ---------------------------------------------------------------------
  // Bitmap signature

  function SumLuma(ps: seq<Pixel>): int
  {
    if ps == [] then 0 else SumLuma(ps[..|ps| - 1]) + Luma(ps[|ps| - 1])
  }

  /** The signature loops of `calculateImageSignature`: one character per
      pixel, '1' exactly when its gray value is at least the mean gray value
      (`gray >= sum / n`, compared here as `gray * n >= sum`). */
  method BitmapSignature(pixels: seq<Pixel>) returns (signature: string)
    ensures |signature| == |pixels|
    ensures forall i :: 0 <= i < |pixels| ==>
      signature[i] == (if Luma(pixels[i]) * |pixels| >= SumLuma(pixels) then '1' else '0')
    ensures |pixels| > 0 ==> '1' in signature
  {
    var grayValues: seq<int> := [];
    var total := 0;
    var i := 0;
    while i < |pixels|
      invariant 0 <= i <= |pixels|
      invariant |grayValues| == i
      invariant forall k :: 0 <= k < i ==> grayValues[k] == Luma(pixels[k])
      invariant total == SumLuma(pixels[..i])
    {
      assert pixels[..i + 1][..i] == pixels[..i];
      var gray := Luma(pixels[i]);
      grayValues := grayValues + [gray];
      total := total + gray;
      i := i + 1;
    }
    assert pixels[..i] == pixels;
    signature := "";
    i := 0;
    while i < |grayValues|
      invariant 0 <= i <= |grayValues|
      invariant |signature| == i
      invariant forall k :: 0 <= k < i ==>
        signature[k] == (if Luma(pixels[k]) * |pixels| >= total then '1' else '0')
    {
      signature := signature + (if grayValues[i] * |grayValues| >= total then "1" else "0");
      i := i + 1;
    }
    if |pixels| > 0 {
      var m := SomePixelAtLeastMean(pixels);
      assert signature[m] == '1';
    }
  }

  /** In exact arithmetic some pixel is at least as bright as the mean, so a
      non-empty bitmap always holds a '1'. */
  lemma SomePixelAtLeastMean(ps: seq<Pixel>) returns (m: nat)
    requires |ps| > 0
    ensures m < |ps| && Luma(ps[m]) * |ps| >= SumLuma(ps)
  {
    m := Brightest(ps);
    SumAtMostCountTimesMax(ps, Luma(ps[m]));
  }

  /** Index of a brightest pixel. */
  function Brightest(ps: seq<Pixel>): (m: nat)
    requires |ps| > 0
    ensures m < |ps|
    ensures forall i :: 0 <= i < |ps| ==> Luma(ps[i]) <= Luma(ps[m])
  {
    if |ps| == 1 then 0
    else
      var m := Brightest(ps[..|ps| - 1]);
      assert forall i :: 0 <= i < |ps| - 1 ==> ps[..|ps| - 1][i] == ps[i];
      if Luma(ps[|ps| - 1]) > Luma(ps[m]) then |ps| - 1 else m
  }

  lemma {:induction false} SumAtMostCountTimesMax(ps: seq<Pixel>, top: int)
    requires forall i :: 0 <= i < |ps| ==> Luma(ps[i]) <= top
    ensures SumLuma(ps) <= |ps| * top
  {
    if ps != [] {
      var n := |ps| - 1;
      var init := ps[..n];
      assert forall i :: 0 <= i < n ==> init[i] == ps[i];
      SumAtMostCountTimesMax(init, top);
      assert SumLuma(ps) == SumLuma(init) + Luma(ps[n]);
      StepBound(SumLuma(init), Luma(ps[n]), n, top);
    }
  }

  lemma StepBound(a: int, b: int, n: nat, top: int)
    requires a <= n * top && b <= top
    ensures a + b <= (n + 1) * top
  {
    assert (n + 1) * top == n * top + top;
  }

  // ---------------------------------------------------------------------
  // Colour histogram

  /** `Math.floor(c / (256 / 4))`. */
  function ChannelBin(c: Channel): (b: nat)
    ensures b < BinsPerChannel
  {
    c / 64
  }

  /** `r * 4 * 4 + g * 4 + b`: always one of the 64 bins. */
  function BinIndex(p: Pixel): (k: nat)
    ensures k < BinCount
  {
    ChannelBin(p.r) * 16 + ChannelBin(p.g) * 4 + ChannelBin(p.b)
  }

  /** Number of pixels falling in bin k. */
  function CountIn(ps: seq<Pixel>, k: nat): nat
  {
    if ps == [] then 0
    else CountIn(ps[..|ps| - 1], k) + (if BinIndex(ps[|ps| - 1]) == k then 1 else 0)
  }

  /** The binning and normalisation loops of `calculateColorHistogram`: bins
      are incremented in place, then divided by 64 * 64. */
  method ColorHistogram(pixels: seq<Pixel>) returns (histogram: seq<real>)
    ensures |histogram| == BinCount
    ensures forall k :: 0 <= k < BinCount ==>
      histogram[k] == CountIn(pixels, k) as real / (HistogramSide * HistogramSide) as real
  {
    var bins := new real[BinCount](_ => 0.0);
    var i := 0;
    while i < |pixels|
      invariant 0 <= i <= |pixels|
      invariant forall k :: 0 <= k < BinCount ==> bins[k] == CountIn(pixels[..i], k) as real
    {
      assert pixels[..i + 1][..i] == pixels[..i];
      var index := BinIndex(pixels[i]);
      bins[index] := bins[index] + 1.0;
      i := i + 1;
    }
    assert pixels[..i] == pixels;
    var totalPixels := HistogramSide * HistogramSide;
    var j := 0;
    while j < BinCount
      invariant 0 <= j <= BinCount
      invariant forall k :: 0 <= k < j ==> bins[k] == CountIn(pixels, k) as real / totalPixels as real
      invariant forall k :: j <= k < BinCount ==> bins[k] == CountIn(pixels, k) as real
    {
      bins[j] := bins[j] / totalPixels as real;
      j := j + 1;
    }
    histogram := bins[..];
  }

  /** Sum of the counts of bins 0 .. n-1. */
  function CountBelow(ps: seq<Pixel>, n: nat): nat
  {
    if n == 0 then 0 else CountBelow(ps, n - 1) + CountIn(ps, n - 1)
  }

  /** Every pixel lands in exactly one bin, so the raw counts sum to the
      number of pixels (4096 for the 64x64 grid). */
  lemma {:induction false} CountsSumToPixels(ps: seq<Pixel>)
    ensures CountBelow(ps, BinCount) == |ps|
  {
    if ps == [] {
      CountBelowEmpty(BinCount);
    } else {
      var init := ps[..|ps| - 1];
      assert init + [ps[|ps| - 1]] == ps;
      CountsSumToPixels(init);
      CountBelowStep(init, ps[|ps| - 1], BinCount);
    }
  }

  lemma {:induction false} CountBelowEmpty(n: nat)
    ensures CountBelow([], n) == 0
  {
    if n > 0 { CountBelowEmpty(n - 1); }
  }

  lemma {:induction false} CountBelowStep(init: seq<Pixel>, p: Pixel, n: nat)
    ensures CountBelow(init + [p], n)
      == CountBelow(init, n) + (if BinIndex(p) < n then 1 else 0)
  {
    var ps := init + [p];
    assert ps[..|ps| - 1] == init;
    if n > 0 { CountBelowStep(init, p, n - 1); }
  }

  // ---------------------------------------------------------------------
  // Blend of the two scores

  datatype Comparison = Comparison(signatureSimilarity: real, histogramSimilarity: real, weightedSimilarity: real)

  /** The score arithmetic of `compareImages`: the histogram distance is
      capped at 1 and turned into a percentage, then blended 70/30 with the
      bitmap similarity. */
  function Blend(signatureSimilarity: real, histogramDistance: real): (c: Comparison)
    ensures c.signatureSimilarity == signatureSimilarity
    ensures histogramDistance >= 0.0 ==> 0.0 <= c.histogramSimilarity <= 100.0
    ensures histogramDistance >= 1.0 ==> c.histogramSimilarity == 0.0
    ensures histogramDistance >= 0.0 && 0.0 <= signatureSimilarity <= 100.0
      ==> 0.0 <= c.weightedSimilarity <= 100.0
  {
    var histogramSimilarity := 100.0 * (1.0 - MinR(histogramDistance, 1.0));
    Comparison(signatureSimilarity, histogramSimilarity,
               0.7 * signatureSimilarity + 0.3 * histogramSimilarity)
  }
}
