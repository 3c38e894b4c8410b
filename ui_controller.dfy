/** The computing parts of js/ui-controller.js: checking the scan
    settings, the recommended worker count and the labels built on it, the
    two time formatters, the speed formatter's unit loop, and the progress
    percentage. */
module UiController {
  import opened Base

  // ---------------------------------------------------------------------
  // validateScanSettings

  /** A settings field as `typeof v === 'number'` sees it. */
  datatype JsField = Number(v: Num) | NotNumber

  /** The object `getScanSettings` builds and `validateScanSettings`
      corrects in place. */
  class ScanSettings {
    var checkFilenames: bool
    var checkContents: bool
    var checkImages: bool
    var imageSimilarityThreshold: JsField
    var workerCount: JsField

    constructor (checkFilenames: bool, checkContents: bool, checkImages: bool,
                 imageSimilarityThreshold: JsField, workerCount: JsField)
      ensures this.checkFilenames == checkFilenames && this.checkContents == checkContents
      ensures this.checkImages == checkImages
      ensures this.imageSimilarityThreshold == imageSimilarityThreshold && this.workerCount == workerCount
    {
      this.checkFilenames := checkFilenames;
      this.checkContents := checkContents;
      this.checkImages := checkImages;
      this.imageSimilarityThreshold := imageSimilarityThreshold;
      this.workerCount := workerCount;
    }
  }

  /** `navigator.hardwareConcurrency || 2`. */
  function DefaultWorkers(hardwareConcurrency: Option<int>): int
  {
    if hardwareConcurrency.Some? && hardwareConcurrency.value != 0 then hardwareConcurrency.value else 2
  }

  /** The worker count kept by the check: a non-number or a number below 1
      is replaced; NaN compares false and stays. */
  function CheckedWorkerCount(w: JsField, hardwareConcurrency: Option<int>): JsField
  {
    if w.NotNumber? || (w.v.Fin? && w.v.r < 1.0) then Number(Fin(DefaultWorkers(hardwareConcurrency) as real))
    else w
  }

  /** The similarity threshold kept by the check: a non-number or a number
      outside 0..100 becomes 90; NaN stays. */
  function CheckedThreshold(t: JsField): JsField
  {
    if t.NotNumber? || (t.v.Fin? && (t.v.r < 0.0 || t.v.r > 100.0)) then Number(Fin(90.0)) else t
  }

  /** `validateScanSettings(settings)`: throws on a missing object, else
      corrects the two numeric fields in place and returns the same object. */
  method ValidateScanSettings(settings: ScanSettings?, hardwareConcurrency: Option<int>)
    returns (r: Result<ScanSettings>)
    modifies settings
    ensures settings == null ==> r.Err?
    ensures settings != null ==> r.Ok? && r.value == settings
    ensures settings != null ==>
      settings.workerCount == CheckedWorkerCount(old(settings.workerCount), hardwareConcurrency)
      && settings.imageSimilarityThreshold == CheckedThreshold(old(settings.imageSimilarityThreshold))
      && settings.checkFilenames == old(settings.checkFilenames)
      && settings.checkContents == old(settings.checkContents)
      && settings.checkImages == old(settings.checkImages)
  {
    if settings == null {
      return Err("הגדרות סריקה לא תקינות");
    }
    if settings.workerCount.NotNumber? || (settings.workerCount.v.Fin? && settings.workerCount.v.r < 1.0) {
      settings.workerCount := Number(Fin(DefaultWorkers(hardwareConcurrency) as real));
    }
    var t := settings.imageSimilarityThreshold;
    if t.NotNumber? || (t.v.Fin? && (t.v.r < 0.0 || t.v.r > 100.0)) {
      settings.imageSimilarityThreshold := Number(Fin(90.0));
    }
    var same: ScanSettings := settings;
    return Ok(same);
  }

  /** After the check both fields are numbers, the worker count at least 1
      and the threshold within 0..100, unless the field held NaN; checking
      again changes nothing. */
  lemma CheckedFieldsValid(w: JsField, t: JsField, hardwareConcurrency: Option<int>)
    requires hardwareConcurrency.None? || hardwareConcurrency.value >= 0
    ensures var w' := CheckedWorkerCount(w, hardwareConcurrency);
      w'.Number? && (w'.v.Fin? ==> w'.v.r >= 1.0) && (w'.v.NaN? ==> w == Number(NaN))
      && CheckedWorkerCount(w', hardwareConcurrency) == w'
    ensures var t' := CheckedThreshold(t);
      t'.Number? && (t'.v.Fin? ==> 0.0 <= t'.v.r <= 100.0) && (t'.v.NaN? ==> t == Number(NaN))
      && CheckedThreshold(t') == t'
  {
  }

  /** A NaN worker count, what `parseInt` gives for a non-numeric field,
      passes the check. */
  lemma NaNWorkerCountKept(hardwareConcurrency: Option<int>)
    ensures CheckedWorkerCount(Number(NaN), hardwareConcurrency) == Number(NaN)
    ensures CheckedThreshold(Number(NaN)) == Number(NaN)
  {
  }

  /** The check as evidently meant: anything that is not a number of at
      least 1, NaN included, is replaced. */
  function StrictWorkerCount(w: JsField, hardwareConcurrency: Option<int>): JsField
  {
    if w.NotNumber? || w.v.NaN? || w.v.r < 1.0 then Number(Fin(DefaultWorkers(hardwareConcurrency) as real))
    else w
  }

  lemma StrictWorkerCountValid(w: JsField, hardwareConcurrency: Option<int>)
    requires hardwareConcurrency.None? || hardwareConcurrency.value >= 0
    ensures var w' := StrictWorkerCount(w, hardwareConcurrency);
      w'.Number? && w'.v.Fin? && w'.v.r >= 1.0
    ensures w.Number? && w.v.Fin? && w.v.r >= 1.0 ==> StrictWorkerCount(w, hardwareConcurrency) == w
  {
  }

  // ---------------------------------------------------------------------
  // Worker recommendation

  /** `getRecommendedWorkers({cores, memory})`. */
  function RecommendedWorkers(cores: int, memory: real): int
  {
    Min(Min(Max(1, cores - 1), (memory / 2.0).Floor), 8)
  }

  /** Never more than 8 nor more than the cores (with at least one core);
      at least 1 exactly when there are 2 GB of memory, 0 below that. */
  lemma RecommendedWorkersBounds(cores: int, memory: real)
    ensures RecommendedWorkers(cores, memory) <= 8
    ensures cores >= 1 ==> RecommendedWorkers(cores, memory) <= cores
    ensures RecommendedWorkers(cores, memory) >= 1 <==> memory >= 2.0
    ensures 0.0 <= memory < 2.0 ==> RecommendedWorkers(cores, memory) == 0
  {
  }

  /** `getOptimalClass(option, systemInfo)`. */
  function OptimalClass(workerCount: int, cores: int, memory: real): string
  {
    if workerCount > cores then "not-recommended"
    else if workerCount == RecommendedWorkers(cores, memory) then "recommended"
    else ""
  }

  /** The three badges of `getPerformanceImpact`. */
  datatype Impact = MaySlowDown | Optimal | Minimal

  function PerformanceImpact(workerCount: int, cores: int, memory: real): Impact
  {
    if workerCount > cores then MaySlowDown
    else if workerCount == RecommendedWorkers(cores, memory) then Optimal
    else Minimal
  }

  /** The class and the badge agree, and an option over the core count is
      never labelled recommended, even when it is the recommended count. */
  lemma LabelsAgree(workerCount: int, cores: int, memory: real)
    ensures OptimalClass(workerCount, cores, memory) == "recommended"
      <==> PerformanceImpact(workerCount, cores, memory) == Optimal
    ensures OptimalClass(workerCount, cores, memory) == "not-recommended"
      <==> PerformanceImpact(workerCount, cores, memory) == MaySlowDown
    ensures OptimalClass(workerCount, cores, memory) == "recommended"
      <==> workerCount <= cores && workerCount == RecommendedWorkers(cores, memory)
  {
    assert "recommended" != "not-recommended" by { assert "recommended"[0] != "not-recommended"[0]; }
    assert "" != "recommended" && "" != "not-recommended";
  }

  /** The order of the tests matters: with cores = 0 and 4 GB, one worker
      is recommended but is over the core count. The one producer of
      `systemInfo` (js/app.js:818) puts 4 in place of a missing core count
      and nothing in the source calls `getOptimalClass`, so cores = 0 is
      reached only by calling it directly. */
  lemma OverCoreRecommendation()
    ensures RecommendedWorkers(0, 4.0) == 1
    ensures OptimalClass(1, 0, 4.0) == "not-recommended"
  {
  }

  // ---------------------------------------------------------------------
  // static formatTime(ms)

  /** `UIController.formatTime(ms)`: 0, NaN and a missing value give the
      zero text. */
  function StaticFormatTime(ms: Num): string
  {
    if ms.NaN? || ms.r == 0.0 then "0 שניות" else SecondsText((ms.r / 1000.0).Floor)
  }

  /** The text for `seconds = Math.floor(ms / 1000)`. */
  function SecondsText(seconds: int): string
  {
    var minutes := seconds / 60;
    if minutes > 0 then IntToString(minutes) + " דקות ו-" + IntToString(JsRem(seconds, 60)) + " שניות"
    else IntToString(seconds) + " שניות"
  }

  /** From a minute on, the text gives whole minutes and the seconds left
      over (below 60), which together make the whole seconds; below a
      minute it gives the seconds alone. */
  lemma SecondsTextFields(seconds: int)
    ensures seconds >= 60 ==>
      var m, sec := seconds / 60, seconds % 60;
      m > 0 && 0 <= sec < 60 && 60 * m + sec == seconds
      && SecondsText(seconds) == NatToString(m) + " דקות ו-" + NatToString(sec) + " שניות"
    ensures seconds < 60 ==> SecondsText(seconds) == IntToString(seconds) + " שניות"
  {
    if seconds >= 60 {
      assert JsRem(seconds, 60) == seconds % 60;
    }
  }

  /** The whole seconds of a positive `ms` reach a minute exactly from
      60000 on. */
  lemma StaticFormatTimeMinutes(ms: real)
    requires ms > 0.0
    ensures StaticFormatTime(Fin(ms)) == SecondsText((ms / 1000.0).Floor)
    ensures (ms / 1000.0).Floor >= 60 <==> ms >= 60000.0
    ensures (ms / 1000.0).Floor >= 0
  {
  }

  // ---------------------------------------------------------------------
  // formatSpeed

  const SpeedUnits: seq<string> := ["B", "KB", "MB", "GB"]

  /** The loop of `formatSpeed`: divide by 1024 while the value is at least
      1024 and a larger unit is left. */
  function ScaleDown(size: real, unitIndex: nat): (real, nat)
    requires unitIndex <= 3
    decreases 3 - unitIndex
  {
    if size >= 1024.0 && unitIndex < 3 then ScaleDown(size / 1024.0, unitIndex + 1) else (size, unitIndex)
  }

  function Pow1024(i: nat): real
  {
    if i == 0 then 1.0 else 1024.0 * Pow1024(i - 1)
  }

  /** The unit index stays within the four units, the scaled value times
      1024 to the unit index is the input, the value is below 1024 unless
      the largest unit is reached, and at least 1 once it was divided. */
  lemma {:induction false} ScaleDownFacts(size: real, unitIndex: nat)
    requires unitIndex <= 3 && (unitIndex > 0 ==> size >= 1.0)
    ensures var (v, i) := ScaleDown(size, unitIndex);
      unitIndex <= i <= 3
      && v * Pow1024(i) == size * Pow1024(unitIndex)
      && (i < 3 ==> v < 1024.0)
      && (i > 0 ==> v >= 1.0)
    decreases 3 - unitIndex
  {
    if size >= 1024.0 && unitIndex < 3 {
      var next := size / 1024.0;
      ScaleDownFacts(next, unitIndex + 1);
      assert next * Pow1024(unitIndex + 1) == size * Pow1024(unitIndex) by {
        assert Pow1024(unitIndex + 1) == 1024.0 * Pow1024(unitIndex);
        assert next * 1024.0 == size;
        MulAssoc(next, 1024.0, Pow1024(unitIndex));
      }
    }
  }

  lemma MulAssoc(a: real, b: real, c: real)
    ensures a * (b * c) == (a * b) * c
  {
  }

  /** What `formatSpeed` prints: the zero text, or a value and its unit
      (the value's `toFixed(1)` text is not modelled). */
  datatype Speed = ZeroSpeed | Scaled(size: real, unit: string)

  method FormatSpeed(bytesPerSecond: Num) returns (r: Speed)
    ensures bytesPerSecond.NaN? || bytesPerSecond.r == 0.0 ==> r == ZeroSpeed
    ensures bytesPerSecond.Fin? && bytesPerSecond.r != 0.0 ==>
      var (v, i) := ScaleDown(bytesPerSecond.r, 0);
      r == Scaled(v, SpeedUnits[i])
  {
    if bytesPerSecond.NaN? || bytesPerSecond.r == 0.0 {
      return ZeroSpeed;
    }
    var size := bytesPerSecond.r;
    var unitIndex := 0;
    while size >= 1024.0 && unitIndex < |SpeedUnits| - 1
      invariant 0 <= unitIndex <= 3
      invariant ScaleDown(size, unitIndex) == ScaleDown(bytesPerSecond.r, 0)
      decreases 3 - unitIndex
    {
      size := size / 1024.0;
      unitIndex := unitIndex + 1;
    }
    return Scaled(size, SpeedUnits[unitIndex]);
  }

  /** The printed value and unit stand for the input speed: value times
      1024 to the unit's index is the input, and the unit is the largest
      that keeps the value at least 1 (or GB). */
  lemma FormatSpeedUnit(bytesPerSecond: real)
    ensures var (v, i) := ScaleDown(bytesPerSecond, 0);
      i <= 3 && v * Pow1024(i) == bytesPerSecond
      && (i < 3 ==> v < 1024.0) && (i > 0 ==> v >= 1.0)
      && (bytesPerSecond < 1024.0 ==> i == 0 && v == bytesPerSecond)
  {
    ScaleDownFacts(bytesPerSecond, 0);
  }

  // ---------------------------------------------------------------------
  // Module-level formatTime and updateProgress

  /** `String(v).padStart(2, '0')`. */
  function Pad2(v: int): string
  {
    PadStart(IntToString(v), 2, '0')
  }

  /** `formatTime(seconds)`: floor, then hours, minutes and seconds with
      JavaScript's `%=`, each padded to two characters and joined by ':'. */
  function ClockText(seconds: Num): string
  {
    if seconds.NaN? then "NaN:NaN:NaN"
    else
      var n := seconds.r.Floor;
      var hours := n / 3600;
      var rest := JsRem(n, 3600);
      var minutes := rest / 60;
      var secs := JsRem(rest, 60);
      Pad2(hours) + ":" + Pad2(minutes) + ":" + Pad2(secs)
  }

  predicate AllDigits(s: string)
  {
    forall i :: 0 <= i < |s| ==> IsDigit(s[i])
  }

  lemma DigitsHaveNoColon(p: string)
    requires forall i :: 0 <= i < |p| ==> IsDigit(p[i])
    ensures ':' !in p
  {
    forall i | 0 <= i < |p|
      ensures p[i] != ':'
    {
      assert IsDigit(p[i]);
    }
  }

  /** Padding digits with zeros keeps them digits and keeps their value. */
  lemma PadKeepsValue(s: string)
    requires forall i :: 0 <= i < |s| ==> IsDigit(s[i])
    ensures var p := PadStart(s, 2, '0');
      (forall i :: 0 <= i < |p| ==> IsDigit(p[i])) && ParseDigits(p) == ParseDigits(s)
  {
    var p := PadStart(s, 2, '0');
    var z := p[..|p| - |s|];
    assert p == z + s;
    ParseLeadingZeros(z, s);
  }

  lemma ShortNumber(v: nat)
    requires v < 100
    ensures |NatToString(v)| <= 2
  {
    if v >= 10 {
      assert NatToString(v / 10) == [Digit(v / 10)];
    }
  }

  /** A padded field reads back as its value; below 100 it is exactly two
      digits. */
  lemma PaddedField(v: nat)
    ensures var p := Pad2(v);
      AllDigits(p) && ':' !in p
      && ParseDigits(p) == v
      && |p| >= 2 && (v < 100 ==> |p| == 2)
  {
    PadKeepsValue(NatToString(v));
    ParseNatToString(v);
    DigitsHaveNoColon(Pad2(v));
    if v < 100 {
      ShortNumber(v);
    }
  }

  lemma SplitThree(a: string, b: string, c: string)
    requires ':' !in a && ':' !in b && ':' !in c
    ensures Split(a + ":" + b + ":" + c, ':') == [a, b, c]
  {
    assert a + ":" + b + ":" + c == a + [':'] + (b + [':'] + c);
    SplitJoin(a, ':', b + [':'] + c);
    SplitJoin(b, ':', c);
    SplitNoSep(c, ':');
  }

  /** The three fields of a non-negative whole number of seconds. */
  lemma ClockArithmetic(n: nat)
    ensures JsRem(n, 3600) == n % 3600
    ensures JsRem(n % 3600, 60) == n % 60
    ensures 3600 * (n / 3600) + 60 * ((n % 3600) / 60) + n % 60 == n
    ensures (n % 3600) / 60 < 60
  {
    var h, m := n / 3600, (n % 3600) / 60;
    assert n % 3600 == 60 * m + (n % 3600) % 60;
    assert n == 60 * (60 * h + m) + (n % 3600) % 60;
  }

  /** Three padded fields joined by ':' split back into digit fields
      that read back as the numbers. */
  lemma ClockFieldsSplit(h: nat, m: nat, sec: nat)
    requires m < 60 && sec < 60
    ensures var parts := Split(Pad2(h) + ":" + Pad2(m) + ":" + Pad2(sec), ':');
      |parts| == 3
      && AllDigits(parts[0]) && AllDigits(parts[1]) && AllDigits(parts[2])
      && |parts[0]| >= 2 && |parts[1]| == 2 && |parts[2]| == 2
      && ParseDigits(parts[0]) == h && ParseDigits(parts[1]) == m && ParseDigits(parts[2]) == sec
  {
    var a, b, c := Pad2(h), Pad2(m), Pad2(sec);
    PaddedField(h);
    PaddedField(m);
    PaddedField(sec);
    assert Split(a + ":" + b + ":" + c, ':') == [a, b, c] by {
      SplitThree(a, b, c);
    }
  }

  /** For a non-negative input the clock splits at ':' into three digit
      fields, minutes and seconds two digits each and below 60, that read
      back as the whole seconds of the input. */
  lemma ClockRoundTrip(x: real)
    requires x >= 0.0
    ensures var parts := Split(ClockText(Fin(x)), ':');
      |parts| == 3
      && AllDigits(parts[0]) && AllDigits(parts[1]) && AllDigits(parts[2])
      && |parts[0]| >= 2 && |parts[1]| == 2 && |parts[2]| == 2
      && ParseDigits(parts[1]) < 60 && ParseDigits(parts[2]) < 60
      && 3600 * ParseDigits(parts[0]) + 60 * ParseDigits(parts[1]) + ParseDigits(parts[2]) == x.Floor
  {
    var n: nat := x.Floor;
    var h, m, sec := n / 3600, (n % 3600) / 60, n % 60;
    ClockArithmetic(n);
    assert ClockText(Fin(x)) == Pad2(h) + ":" + Pad2(m) + ":" + Pad2(sec);
    ClockFieldsSplit(h, m, sec);
  }

  /** `updateProgress`: the bar's percentage, 0 without a positive
      `totalFiles`. */
  function PercentComplete(totalFiles: Num, filesScanned: nat): int
  {
    if totalFiles.Fin? && totalFiles.r > 0.0 then Min(Round(filesScanned as real / totalFiles.r * 100.0), 99)
    else 0
  }

  /** Between 0 and 99; 99 once every file is scanned; never decreasing as
      files are scanned. */
  lemma PercentCompleteBounds(totalFiles: Num, filesScanned: nat, more: nat)
    ensures 0 <= PercentComplete(totalFiles, filesScanned) <= 99
    ensures totalFiles.Fin? && 0.0 < totalFiles.r <= filesScanned as real ==> PercentComplete(totalFiles, filesScanned) == 99
    ensures PercentComplete(totalFiles, filesScanned) <= PercentComplete(totalFiles, filesScanned + more)
  {
    if totalFiles.Fin? && totalFiles.r > 0.0 {
      var t := totalFiles.r;
      var q1, q2 := filesScanned as real / t, (filesScanned + more) as real / t;
      assert q1 >= 0.0 && q1 <= q2 by {
        assert q1 * t == filesScanned as real;
        assert q2 * t == (filesScanned + more) as real;
        assert (q2 - q1) * t == more as real;
      }
      if t <= filesScanned as real {
        assert q1 >= 1.0 by {
          assert q1 * t == filesScanned as real;
          assert (q1 - 1.0) * t == filesScanned as real - t;
        }
      }
    }
  }
}
