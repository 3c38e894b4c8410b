/** The front end of js/app-new.js as far as it computes rather than
    draws: the message table, the seconds-to-text formatter and its three
    wrappers, the summary rebuilt when the scanner sent none, the progress
    estimator's counters, and the bounded pre-scan that estimates a
    directory's size. */
module AppNew {
  import opened Base
  import opened FsTree
  import DebugScan

  // ---------------------------------------------------------------------
  // translate

  const Translations: map<string, string> := map[
    "calculating" := "Calculating...",
    "scan_stopped" := "Scan stopped",
    "permission_denied" := "Permission denied to access directory",
    "scan_error" := "Error during scan",
    "directory_selection_error" := "Error selecting directory",
    "export_success" := "Results exported successfully",
    "copy_success" := "Path copied successfully",
    "less_than_minute" := "Less than a minute",
    "no_duplicates_found" := "No duplicates found"
  ]

  /** `translations[key] || key`: an empty entry would fall back to the key. */
  function Translate(key: string): string
  {
    if key in Translations && Translations[key] != "" then Translations[key] else key
  }

  /** A known key gives its table entry (no entry is empty), any other key
      comes back unchanged. */
  lemma TranslateLookup(key: string)
    ensures key in Translations ==> Translate(key) == Translations[key]
    ensures key !in Translations ==> Translate(key) == key
  {
    if key in Translations {
      assert Translations[key] != "" by {
        assert forall k :: k in Translations ==> |Translations[k]| >= 12;
      }
    }
  }

  /** `translations[key] || key` as written: `translations` is an object
      literal, so a key naming an `Object.prototype` member gets that
      member back instead of the key. */
  function TranslateAsWritten(key: string): Looked
  {
    WithPrototype(key in Translations, key, Translate(key))
  }

  /** `translate('toString')` returns the inherited function, where an
      unknown key should come back unchanged. */
  lemma TranslatePrototypeEscapes()
    ensures TranslateAsWritten("toString") == InheritedMember("toString") && Translate("toString") == "toString"
  {
    assert "toString" == PrototypeMembers[10];
  }

  // ---------------------------------------------------------------------
  // formatTime

  /** JavaScript's `x % n` for x >= 0 and n > 0. */
  function RealRem(x: real, n: real): real
    requires n > 0.0
  {
    x - n * (x / n).Floor as real
  }

  /** `Math.floor(seconds / 3600)`. */
  function HoursOf(x: real): nat
    requires x >= 0.0
  {
    (x / 3600.0).Floor
  }

  /** `Math.floor((seconds % 3600) / 60)`. */
  function MinutesOf(x: real): nat
    requires x >= 0.0
  {
    (RealRem(x, 3600.0) / 60.0).Floor
  }

  /** `Math.floor(seconds % 60)`. */
  function SecondsOf(x: real): nat
    requires x >= 0.0
  {
    RealRem(x, 60.0).Floor
  }

  /** `timeString` as the three `+=` steps leave it. */
  function TimeText(h: nat, m: nat, s: nat): string
  {
    var withHours := if h > 0 then NatToString(h) + " hours " else "";
    var withMinutes := if m > 0 || h > 0 then withHours + NatToString(m) + " minutes " else withHours;
    if s > 0 || (h == 0 && m == 0) then withMinutes + NatToString(s) + " seconds" else withMinutes
  }

  /** `formatTime(seconds)`; a missing argument is NaN here. */
  function FormatTime(seconds: Num): string
  {
    if seconds.NaN? || seconds.r <= 0.0 then "calculating..."
    else
      var x := seconds.r;
      var text := TimeText(HoursOf(x), MinutesOf(x), SecondsOf(x));
      if x < 10.0 then "few seconds"
      else if Trim(text) == "" then "less than a second"
      else Trim(text)
  }

  // The text as fields: which units are shown, and what they add up to.

  datatype Unit = Hours | Minutes | Seconds

  function UnitWord(u: Unit): string
  {
    match u
    case Hours => "hours"
    case Minutes => "minutes"
    case Seconds => "seconds"
  }

  function UnitSeconds(u: Unit): nat
  {
    match u
    case Hours => 3600
    case Minutes => 60
    case Seconds => 1
  }

  /** The fields shown: hours when there are any; minutes when there are
      any or hours are shown; seconds when there are any or nothing else
      is shown. */
  function Shown(h: nat, m: nat, s: nat): seq<(nat, Unit)>
  {
    (if h > 0 then [(h, Hours)] else [])
    + (if m > 0 || h > 0 then [(m, Minutes)] else [])
    + (if s > 0 || (h == 0 && m == 0) then [(s, Seconds)] else [])
  }

  function Piece(f: (nat, Unit)): string
  {
    NatToString(f.0) + " " + UnitWord(f.1)
  }

  /** Fields written as "<n> <unit>" and separated by single spaces. */
  function Render(fs: seq<(nat, Unit)>): string
  {
    if |fs| == 0 then ""
    else if |fs| == 1 then Piece(fs[0])
    else Piece(fs[0]) + " " + Render(fs[1..])
  }

  /** The number of seconds the fields stand for. */
  function Duration(fs: seq<(nat, Unit)>): nat
  {
    if fs == [] then 0 else fs[0].0 * UnitSeconds(fs[0].1) + Duration(fs[1..])
  }

  lemma Quotient3600(x: real)
    requires x >= 0.0
    ensures (x / 3600.0).Floor == x.Floor / 3600
    ensures RealRem(x, 3600.0).Floor == x.Floor % 3600
  {
    var n := x.Floor;
    var q, r := n / 3600, n % 3600;
    assert n == 3600 * q + r && 0 <= r < 3600;
    assert (3600 * q) as real <= x < (3600 * q + 3600) as real;
    assert q as real <= x / 3600.0 < (q + 1) as real;
  }

  lemma Quotient60(x: real)
    requires x >= 0.0
    ensures (x / 60.0).Floor == x.Floor / 60
    ensures RealRem(x, 60.0).Floor == x.Floor % 60
  {
    var n := x.Floor;
    var q, r := n / 60, n % 60;
    assert n == 60 * q + r && 0 <= r < 60;
    assert (60 * q) as real <= x < (60 * q + 60) as real;
    assert q as real <= x / 60.0 < (q + 1) as real;
  }

  /** The three floors of `formatTime` are those of the whole seconds. */
  lemma HmsOfFloor(x: real)
    requires x >= 0.0
    ensures HoursOf(x) == x.Floor / 3600
    ensures MinutesOf(x) == (x.Floor % 3600) / 60
    ensures SecondsOf(x) == x.Floor % 60
  {
    Quotient3600(x);
    Quotient60(RealRem(x, 3600.0));
    Quotient60(x);
  }

  lemma SplitSeconds(n: nat)
    ensures 3600 * (n / 3600) + 60 * ((n % 3600) / 60) + n % 60 == n
  {
    var q1, r1 := n / 3600, n % 3600;
    var q2, r2 := r1 / 60, r1 % 60;
    assert n == 3600 * q1 + 60 * q2 + r2 && 0 <= r2 < 60;
    assert n == 60 * (60 * q1 + q2) + r2;
  }

  lemma TrimmedWord(w: string)
    requires w != [] && w[0] != ' ' && w[|w| - 1] != ' '
    ensures Trim(w) == w
    ensures Trim(w + " ") == w
  {
    var ws := w + " ";
    assert ws[..|ws| - 1] == w;
  }

  /** A rendering starts with a digit and ends with a letter. */
  lemma {:induction false} RenderEdges(fs: seq<(nat, Unit)>)
    requires fs != []
    ensures var r := Render(fs);
      r != [] && IsDigit(r[0]) && r[|r| - 1] != ' '
  {
    var p := Piece(fs[0]);
    assert IsDigit(NatToString(fs[0].0)[0]);
    assert p[0] == NatToString(fs[0].0)[0];
    if |fs| > 1 {
      RenderEdges(fs[1..]);
      var rest := Render(fs[1..]);
      assert Render(fs) == p + " " + rest;
      assert Render(fs)[|Render(fs)| - 1] == rest[|rest| - 1];
    } else {
      var w := UnitWord(fs[0].1);
      assert p[|p| - 1] == w[|w| - 1];
    }
  }

  lemma WordPieces(v: nat)
    ensures NatToString(v) + " hours " == Piece((v, Hours)) + " "
    ensures NatToString(v) + " minutes " == Piece((v, Minutes)) + " "
    ensures NatToString(v) + " seconds" == Piece((v, Seconds))
  {
  }

  lemma RenderTwo(a: (nat, Unit), b: (nat, Unit))
    ensures Render([a, b]) == Piece(a) + " " + Piece(b)
  {
    assert [a, b][1..] == [b];
  }

  lemma RenderThree(a: (nat, Unit), b: (nat, Unit), c: (nat, Unit))
    ensures Render([a, b, c]) == Piece(a) + " " + (Piece(b) + " " + Piece(c))
  {
    assert [a, b, c][1..] == [b, c];
    RenderTwo(b, c);
  }

  lemma Regroup(x: string, y: string, z: string)
    ensures (x + " ") + (y + " ") + z == x + " " + (y + " " + z)
  {
  }

  lemma TextAllThree(h: nat, m: nat, s: nat)
    requires h > 0 && s > 0
    ensures TimeText(h, m, s) == Render(Shown(h, m, s))
  {
    var a, b, c := (h, Hours), (m, Minutes), (s, Seconds);
    assert TimeText(h, m, s) == (Piece(a) + " ") + (Piece(b) + " ") + Piece(c) by {
      WordPieces(h);
      WordPieces(m);
      WordPieces(s);
    }
    assert Shown(h, m, s) == [a, b, c];
    RenderThree(a, b, c);
    Regroup(Piece(a), Piece(b), Piece(c));
  }

  lemma TextHoursMinutes(h: nat, m: nat)
    requires h > 0
    ensures TimeText(h, m, 0) == Render(Shown(h, m, 0)) + " "
  {
    var a, b := (h, Hours), (m, Minutes);
    WordPieces(h);
    WordPieces(m);
    assert TimeText(h, m, 0) == (Piece(a) + " ") + (Piece(b) + " ");
    assert Shown(h, m, 0) == [a, b];
    RenderTwo(a, b);
  }

  lemma TextMinutesSeconds(m: nat, s: nat)
    requires m > 0 && s > 0
    ensures TimeText(0, m, s) == Render(Shown(0, m, s))
  {
    var b, c := (m, Minutes), (s, Seconds);
    WordPieces(m);
    WordPieces(s);
    assert TimeText(0, m, s) == (Piece(b) + " ") + Piece(c);
    assert Shown(0, m, s) == [b, c];
    RenderTwo(b, c);
  }

  lemma TextMinutesOnly(m: nat)
    requires m > 0
    ensures TimeText(0, m, 0) == Render(Shown(0, m, 0)) + " "
  {
    assert TimeText(0, m, 0) == Piece((m, Minutes)) + " " by {
      WordPieces(m);
    }
    assert Shown(0, m, 0) == [(m, Minutes)];
  }

  lemma TextSecondsOnly(s: nat)
    ensures TimeText(0, 0, s) == Render(Shown(0, 0, s))
  {
    assert TimeText(0, 0, s) == Piece((s, Seconds)) by {
      WordPieces(s);
    }
    assert Shown(0, 0, s) == [(s, Seconds)];
  }

  /** `timeString` is the rendered fields, with a trailing space exactly
      when the seconds field is left out. */
  lemma TimeTextIsRender(h: nat, m: nat, s: nat)
    ensures var fs := Shown(h, m, s);
      TimeText(h, m, s) == if s > 0 || (h == 0 && m == 0) then Render(fs) else Render(fs) + " "
  {
    if h > 0 && s > 0 {
      TextAllThree(h, m, s);
    } else if h > 0 {
      TextHoursMinutes(h, m);
    } else if m > 0 && s > 0 {
      TextMinutesSeconds(m, s);
    } else if m > 0 {
      TextMinutesOnly(m);
    } else {
      TextSecondsOnly(s);
    }
  }

  /** With a field to show, the trimmed text is the rendered fields. */
  lemma TimeTextFields(h: nat, m: nat, s: nat)
    requires h > 0 || m > 0 || s > 0
    ensures Trim(TimeText(h, m, s)) == Render(Shown(h, m, s))
  {
    TimeTextIsRender(h, m, s);
    assert Shown(h, m, s) != [];
    RenderEdges(Shown(h, m, s));
    TrimmedWord(Render(Shown(h, m, s)));
  }

  /** The shown fields: at least one, the first non-zero, minutes and
      seconds below 60 when they are, and together the whole duration. */
  lemma ShownFacts(h: nat, m: nat, s: nat)
    requires h > 0 || m > 0 || s > 0
    requires m < 60 && s < 60
    ensures var fs := Shown(h, m, s);
      fs != [] && fs[0].0 > 0
      && Duration(fs) == 3600 * h + 60 * m + s
      && (forall i :: 0 <= i < |fs| && fs[i].1 != Hours ==> fs[i].0 < 60)
  {
    var fs := Shown(h, m, s);
    if h > 0 && s > 0 {
      assert fs == [(h, Hours), (m, Minutes), (s, Seconds)];
      assert fs[1..][1..] == [(s, Seconds)];
      assert Duration(fs[1..][1..]) == s;
      assert Duration(fs[1..]) == 60 * m + s;
    } else if h > 0 {
      assert fs == [(h, Hours), (m, Minutes)];
      assert fs[1..] == [(m, Minutes)];
      assert Duration(fs[1..]) == 60 * m;
    } else if m > 0 && s > 0 {
      assert fs == [(m, Minutes), (s, Seconds)];
      assert fs[1..] == [(s, Seconds)];
      assert Duration(fs[1..]) == s;
    } else if m > 0 {
      assert fs == [(m, Minutes)];
    } else {
      assert fs == [(s, Seconds)];
    }
  }

  /** From ten seconds on, `formatTime` writes the whole seconds as hours,
      minutes and seconds (minutes and seconds below 60), leaves out only
      leading zero hours and minutes and a trailing zero seconds field,
      and starts with a non-zero field. */
  lemma FormatTimeFields(x: real)
    requires x >= 10.0
    ensures var n := x.Floor;
      var fs := Shown(n / 3600, (n % 3600) / 60, n % 60);
      FormatTime(Fin(x)) == Render(fs)
      && fs != [] && fs[0].0 > 0
      && Duration(fs) == n
      && (forall i :: 0 <= i < |fs| && fs[i].1 != Hours ==> fs[i].0 < 60)
  {
    var n := x.Floor;
    var h, m, s := n / 3600, (n % 3600) / 60, n % 60;
    HmsOfFloor(x);
    assert 3600 * h + 60 * m + s == n && m < 60 && s < 60 by {
      SplitSeconds(n);
    }
    ShownText(h, m, s);
  }

  /** The fields of a non-zero duration: the trimmed text renders them. */
  lemma ShownText(h: nat, m: nat, s: nat)
    requires h > 0 || m > 0 || s > 0
    requires m < 60 && s < 60
    ensures var fs := Shown(h, m, s);
      Trim(TimeText(h, m, s)) == Render(fs) && Trim(TimeText(h, m, s)) != ""
      && fs != [] && fs[0].0 > 0
      && Duration(fs) == 3600 * h + 60 * m + s
      && (forall i :: 0 <= i < |fs| && fs[i].1 != Hours ==> fs[i].0 < 60)
  {
    TimeTextFields(h, m, s);
    ShownFacts(h, m, s);
    RenderEdges(Shown(h, m, s));
  }

  /** The branch for a blank text is dead: from ten seconds on there is
      always a field, below ten the answer is 'few seconds'. */
  lemma FormatTimeNeverBlank(seconds: Num)
    ensures FormatTime(seconds) != "less than a second"
    ensures seconds.NaN? || seconds.r <= 0.0 ==> FormatTime(seconds) == "calculating..."
    ensures seconds.Fin? && 0.0 < seconds.r < 10.0 ==> FormatTime(seconds) == "few seconds"
  {
    if seconds.Fin? && seconds.r >= 10.0 {
      var x := seconds.r;
      var n := x.Floor;
      FormatTimeFields(x);
      var fs := Shown(n / 3600, (n % 3600) / 60, n % 60);
      assert IsDigit(FormatTime(seconds)[0]) by {
        assert IsDigit(NatToString(fs[0].0)[0]);
        assert FormatTime(seconds) == Render(fs);
        assert Render(fs)[0] == Piece(fs[0])[0];
      }
      assert "less than a second"[0] == 'l';
    }
  }

  // ---------------------------------------------------------------------
  // TimeFormatter

  function FormatDuration(seconds: Num): string
  {
    if seconds.Fin? && seconds.r < 30.0 then "less than 30 seconds" else FormatTime(seconds)
  }

  function FormatEstimatedTime(seconds: Num): string
  {
    if seconds.Fin? && seconds.r < 30.0 then "less than 30 seconds" else "~ " + FormatTime(seconds)
  }

  /** `formatElapsedTime(startTime)` with `Date.now()` passed in. */
  function FormatElapsedTime(startTime: int, now: int): string
  {
    FormatTime(Fin((now - startTime) as real / 1000.0))
  }

  /** Below 30 seconds (negative values included) both formatters give the
      fixed text; NaN reaches `formatTime` and gives 'calculating...'
      (behind '~ ' for an estimate); from 30 seconds on they give the
      fields, the estimate behind '~ '. */
  lemma TimeFormatterCases(seconds: Num)
    ensures seconds.Fin? && seconds.r < 30.0 ==>
      FormatDuration(seconds) == "less than 30 seconds" && FormatEstimatedTime(seconds) == "less than 30 seconds"
    ensures seconds.NaN? ==>
      FormatDuration(seconds) == "calculating..." && FormatEstimatedTime(seconds) == "~ calculating..."
    ensures seconds.Fin? && seconds.r >= 30.0 ==>
      var n := seconds.r.Floor;
      var text := Render(Shown(n / 3600, (n % 3600) / 60, n % 60));
      FormatDuration(seconds) == text && FormatEstimatedTime(seconds) == "~ " + text
  {
    if seconds.Fin? && seconds.r >= 30.0 {
      FormatTimeFields(seconds.r);
    }
  }

  /** A clock that has not moved past the start gives 'calculating...',
      one less than ten seconds past it 'few seconds'. */
  lemma ElapsedTimeCases(startTime: int, now: int)
    ensures now <= startTime ==> FormatElapsedTime(startTime, now) == "calculating..."
    ensures startTime < now < startTime + 10000 ==> FormatElapsedTime(startTime, now) == "few seconds"
  {
    if now <= startTime {
      ElapsedNotStarted(startTime, now);
    } else if now < startTime + 10000 {
      ElapsedFewSeconds(startTime, now);
    }
  }

  lemma ElapsedNotStarted(startTime: int, now: int)
    requires now <= startTime
    ensures FormatElapsedTime(startTime, now) == "calculating..."
  {
    MillisToSeconds(now - startTime);
  }

  lemma ElapsedFewSeconds(startTime: int, now: int)
    requires startTime < now < startTime + 10000
    ensures FormatElapsedTime(startTime, now) == "few seconds"
  {
    MillisToSeconds(now - startTime);
    FormatTimeNeverBlank(Fin((now - startTime) as real / 1000.0));
  }

  /** A millisecond difference as seconds: its sign and the ten-second
      threshold. */
  lemma MillisToSeconds(d: int)
    ensures var x := d as real / 1000.0;
      (d <= 0 <==> x <= 0.0) && (d < 10000 <==> x < 10.0)
  {
  }

  // ---------------------------------------------------------------------
  // UI.generateSummary

  /** The `stats` object of a results value, each field possibly missing. */
  datatype StatsIn = StatsIn(filesScanned: Option<nat>, bytesScanned: Option<nat>, timeElapsed: Option<nat>,
                             fileTypes: Option<DebugScan.FileTypes>, totalDuplicatesSize: Option<nat>)

  /** A results value: the lengths of its three lists, when present, and its stats. */
  datatype ResultsIn = ResultsIn(byName: Option<nat>, byContent: Option<nat>, byImage: Option<nat>,
                                 stats: Option<StatsIn>)

  datatype Duplicates = Duplicates(totalCount: nat, byName: nat, byContent: nat, images: nat, totalSize: nat)

  datatype GeneratedSummary = GeneratedSummary(totalFiles: nat, totalSize: nat, scanTime: nat,
                                               fileTypes: DebugScan.FileTypes, duplicates: Duplicates)

  /** `v || 0`. */
  function OrZero(v: Option<nat>): nat
  {
    if v.Some? then v.value else 0
  }

  function GenerateSummary(results: Option<ResultsIn>): (r: Option<GeneratedSummary>)
    ensures results.None? <==> r.None?
    ensures r.Some? ==>
      r.value.duplicates.totalCount == r.value.duplicates.byName + r.value.duplicates.byContent + r.value.duplicates.images
    ensures r.Some? && results.value.stats.None? ==>
      r.value.totalFiles == 0 && r.value.totalSize == 0 && r.value.scanTime == 0
      && r.value.fileTypes == DebugScan.InitialFileTypes && r.value.duplicates.totalSize == 0
  {
    if results.None? then None
    else
      var res := results.value;
      var byName, byContent, byImage := OrZero(res.byName), OrZero(res.byContent), OrZero(res.byImage);
      var stats := if res.stats.Some? then res.stats.value else StatsIn(None, None, None, None, None);
      Some(GeneratedSummary(
        OrZero(stats.filesScanned), OrZero(stats.bytesScanned), OrZero(stats.timeElapsed),
        if stats.fileTypes.Some? then stats.fileTypes.value else DebugScan.InitialFileTypes,
        Duplicates(byName + byContent + byImage, byName, byContent, byImage, OrZero(stats.totalDuplicatesSize))))
  }

  /** What the debug scanner resolves to, as `generateSummary` reads it. */
  function ResultsOfCheck(r: DebugScan.CheckResult): ResultsIn
  {
    ResultsIn(Some(|r.byName|), Some(|r.byContent|), Some(|r.byImage|),
      Some(StatsIn(Some(r.stats.filesScanned), Some(r.stats.bytesScanned), None,
                   Some(r.stats.fileTypes), Some(r.stats.totalDuplicatesSize))))
  }

  /** On what `checkDuplicates` resolves to, the fallback summary is the
      scanner's own summary, with a scan time of 0 (the debug stats have no
      `timeElapsed`). */
  lemma GenerateSummaryOfCheck(preCountedDirs: nat, env: DebugScan.Env, root: Node)
    requires root.Dir?
    ensures var walked := DebugScan.Walk(DebugScan.Initial(preCountedDirs), env, root, "");
      DebugScan.OrderedKeys(walked)
      && var r := DebugScan.Outcome(walked);
      var s := r.summary;
      GenerateSummary(Some(ResultsOfCheck(r)))
        == Some(GeneratedSummary(s.totalFiles, s.totalSize, 0, s.fileTypes,
                                 Duplicates(s.totalCount, s.byName, s.byContent, s.images, s.duplicateSize)))
  {
    DebugScan.CheckDuplicatesConsistent(preCountedDirs, env, root);
  }

  // ---------------------------------------------------------------------
  // ScanEstimator

  function SumSizes(sizes: seq<nat>): nat
  {
    if sizes == [] then 0 else SumSizes(sizes[..|sizes| - 1]) + sizes[|sizes| - 1]
  }

  /** The largest of `start` and the depths seen. */
  function RunningMax(start: int, depths: seq<int>): int
  {
    if depths == [] then start else Max(RunningMax(start, depths[..|depths| - 1]), depths[|depths| - 1])
  }

  /** The `ScanEstimator` object: its counters, the sizes of the files it
      tracked, and the set of inode keys (the code never adds to it). */
  class ScanEstimator {
    var totalScannedBytes: int
    var bytesPerSecond: real
    var estimatedTotalBytes: real
    var estimatedTotalFiles: real
    var lastUpdateTime: int
    var startTime: int
    var scannedInodes: set<string>
    var filesSizeDistribution: seq<nat>
    var depthReached: int
    /** The depths passed to `trackFile` since the last `initialize`. */
    ghost var trackedDepths: seq<int>

    /** The byte total is the sum of the size list, and the depth reached
        the largest depth tracked (0 before any). */
    ghost predicate Valid()
      reads this
    {
      totalScannedBytes == SumSizes(filesSizeDistribution)
      && depthReached == RunningMax(0, trackedDepths)
      && |trackedDepths| == |filesSizeDistribution|
    }

    /** The object literal's initial values. */
    constructor ()
      ensures Valid()
      ensures totalScannedBytes == 0 && bytesPerSecond == 0.0
      ensures estimatedTotalBytes == 0.0 && estimatedTotalFiles == 0.0
      ensures lastUpdateTime == 0 && startTime == 0 && scannedInodes == {}
      ensures filesSizeDistribution == [] && depthReached == 0
    {
      totalScannedBytes := 0;
      bytesPerSecond := 0.0;
      estimatedTotalBytes := 0.0;
      estimatedTotalFiles := 0.0;
      lastUpdateTime := 0;
      startTime := 0;
      scannedInodes := {};
      filesSizeDistribution := [];
      depthReached := 0;
      trackedDepths := [];
    }

    /** `initialize()`, with `Date.now()` passed in. */
    method Initialize(now: int)
      modifies this
      ensures Valid()
      ensures totalScannedBytes == 0 && bytesPerSecond == 0.0
      ensures estimatedTotalBytes == 0.0 && estimatedTotalFiles == 0.0
      ensures lastUpdateTime == 0 && startTime == now && scannedInodes == {}
      ensures filesSizeDistribution == [] && depthReached == 0
    {
      totalScannedBytes := 0;
      bytesPerSecond := 0.0;
      estimatedTotalBytes := 0.0;
      estimatedTotalFiles := 0.0;
      lastUpdateTime := 0;
      startTime := now;
      scannedInodes := {};
      filesSizeDistribution := [];
      depthReached := 0;
      trackedDepths := [];
    }

    /** `trackFile(file, depth)` up to the size list; `Date.now()` is passed in. */
    method TrackFile(size: nat, depth: int, now: int)
      requires Valid()
      modifies this
      ensures Valid()
      ensures lastUpdateTime == if old(lastUpdateTime) == 0 then now else old(lastUpdateTime)
      ensures depthReached == Max(old(depthReached), depth)
      ensures totalScannedBytes == old(totalScannedBytes) + size
      ensures filesSizeDistribution == old(filesSizeDistribution) + [size]
      ensures trackedDepths == old(trackedDepths) + [depth]
      ensures bytesPerSecond == old(bytesPerSecond) && startTime == old(startTime)
      ensures estimatedTotalBytes == old(estimatedTotalBytes) && estimatedTotalFiles == old(estimatedTotalFiles)
      ensures scannedInodes == old(scannedInodes)
    {
      if lastUpdateTime == 0 {
        lastUpdateTime := now;
      }
      depthReached := Max(depthReached, depth);
      totalScannedBytes := totalScannedBytes + size;
      filesSizeDistribution := filesSizeDistribution + [size];
      trackedDepths := trackedDepths + [depth];
      assert filesSizeDistribution[..|filesSizeDistribution| - 1] == old(filesSizeDistribution);
      assert trackedDepths[..|trackedDepths| - 1] == old(trackedDepths);
    }

    /** `getProgressPercent()`: the elapsed-time figures it also computes
        never reach the result. */
    function ProgressPercent(): real
      reads this
    {
      if estimatedTotalFiles <= 0.0 || estimatedTotalBytes <= 0.0 then 0.0
      else
        var filesProgress := (|scannedInodes| as real / estimatedTotalFiles) * 100.0;
        var bytesProgress := (totalScannedBytes as real / estimatedTotalBytes) * 100.0;
        MinR(99.0, filesProgress * 0.7 + bytesProgress * 0.3)
    }

    /** The percentage is 0 until both estimates are positive, never above
        99, and never negative; with no inode recorded it is 30% of the
        byte progress. */
    lemma ProgressPercentBounds()
      requires Valid()
      ensures estimatedTotalFiles <= 0.0 || estimatedTotalBytes <= 0.0 ==> ProgressPercent() == 0.0
      ensures 0.0 <= ProgressPercent() <= 99.0
      ensures estimatedTotalFiles > 0.0 && estimatedTotalBytes > 0.0 && scannedInodes == {} ==>
        ProgressPercent() == MinR(99.0, (totalScannedBytes as real / estimatedTotalBytes) * 100.0 * 0.3)
    {
      if estimatedTotalFiles > 0.0 && estimatedTotalBytes > 0.0 {
        NonNegativeRatio(|scannedInodes| as real, estimatedTotalFiles);
        NonNegativeRatio(totalScannedBytes as real, estimatedTotalBytes);
      }
    }
  }

  lemma NonNegativeRatio(x: real, y: real)
    requires x >= 0.0 && y > 0.0
    ensures x / y >= 0.0
  {
  }

  // ---------------------------------------------------------------------
  // estimateDirectorySize

  /** The options argument; a missing or 0 entry takes its default. */
  datatype EstimateOptions = EstimateOptions(maxFiles: Option<int>, maxTime: Option<int>, maxDepth: Option<int>)

  /** `v || d` on a number. */
  function OrDefault(v: Option<int>, d: int): (r: int)
    ensures v.Some? && v.value != 0 ==> r == v.value
    ensures v.None? || v.value == 0 ==> r == d
  {
    if v.Some? && v.value != 0 then v.value else d
  }

  datatype ScanLimits = ScanLimits(maxFiles: int, maxDepth: int)

  function LimitsOf(o: EstimateOptions): ScanLimits
  {
    ScanLimits(OrDefault(o.maxFiles, 200), OrDefault(o.maxDepth, 3))
  }

  /** The counters of the `stats` object `quickScan` updates. */
  datatype Sample = Sample(totalFiles: nat, totalBytes: nat, sampledFiles: nat, sampledBytes: nat,
                           directoryDepth: nat, subdirectoryCount: nat)

  const NoSample := Sample(0, 0, 0, 0, 0, 0)

  /** `quickScan(handle, depth)`: nothing below `maxDepth` or once enough
      files are sampled; a failing listing ends the loop after what it
      yielded, which is all of `entries`. */
  function Scan(st: Sample, lim: ScanLimits, d: Node, depth: nat): Sample
    requires d.Dir?
    decreases d, 1
  {
    if depth > lim.maxDepth || st.sampledFiles >= lim.maxFiles then st
    else ScanEntries(st.(directoryDepth := Max(st.directoryDepth, depth)), lim, d, 0, depth)
  }

  /** The loop over the entries from the i-th on; it stops once enough
      files are sampled. */
  function ScanEntries(st: Sample, lim: ScanLimits, d: Node, i: nat, depth: nat): Sample
    requires d.Dir? && i <= |d.entries|
    decreases d, 0, |d.entries| - i
  {
    if i == |d.entries| || st.sampledFiles >= lim.maxFiles then st
    else ScanEntries(EntryScan(st, lim, d.entries[i], depth), lim, d, i + 1, depth)
  }

  /** One entry: a file that opens is counted (and sampled below the cap),
      one whose `getFile()` rejects is skipped; a directory is counted and
      scanned one level deeper. */
  function EntryScan(st: Sample, lim: ScanLimits, e: Node, depth: nat): Sample
    decreases e, 2
  {
    if e.File? then
      if !e.opens then st
      else
        var counted := st.(totalFiles := st.totalFiles + 1, totalBytes := st.totalBytes + e.size);
        if counted.sampledFiles < lim.maxFiles
        then counted.(sampledFiles := counted.sampledFiles + 1, sampledBytes := counted.sampledBytes + e.size)
        else counted
    else Scan(st.(subdirectoryCount := st.subdirectoryCount + 1), lim, e, depth + 1)
  }

  /** `quickScan` on the `stats` object, passed in and handed back. */
  method QuickScan(st: Sample, lim: ScanLimits, d: Node, depth: nat) returns (r: Sample)
    requires d.Dir?
    ensures r == Scan(st, lim, d, depth)
    decreases d, 1
  {
    if depth > lim.maxDepth || st.sampledFiles >= lim.maxFiles {
      return st;
    }
    r := st.(directoryDepth := Max(st.directoryDepth, depth));
    var i := 0;
    while i < |d.entries|
      invariant 0 <= i <= |d.entries|
      invariant ScanEntries(r, lim, d, i, depth) == Scan(st, lim, d, depth)
      decreases |d.entries| - i
    {
      if r.sampledFiles >= lim.maxFiles {
        break;
      }
      var e := d.entries[i];
      if e.File? {
        if e.opens {
          r := r.(totalFiles := r.totalFiles + 1, totalBytes := r.totalBytes + e.size);
          if r.sampledFiles < lim.maxFiles {
            r := r.(sampledFiles := r.sampledFiles + 1, sampledBytes := r.sampledBytes + e.size);
          }
        }
      } else {
        r := r.(subdirectoryCount := r.subdirectoryCount + 1);
        r := QuickScan(r, lim, e, depth + 1);
      }
      i := i + 1;
    }
  }

  /** What the sample keeps: every counted file is sampled (no bytes
      without a file), no more than
      `maxFiles` files (none when it is negative), and no depth beyond
      `maxDepth`. */
  ghost predicate SampleInv(st: Sample, lim: ScanLimits)
  {
    st.sampledFiles == st.totalFiles && st.sampledBytes == st.totalBytes
    && (st.sampledFiles == 0 ==> st.sampledBytes == 0)
    && st.sampledFiles <= Max(0, lim.maxFiles) && st.directoryDepth <= Max(0, lim.maxDepth)
  }

  lemma {:induction false} ScanKeepsInv(st: Sample, lim: ScanLimits, d: Node, depth: nat)
    requires d.Dir? && SampleInv(st, lim)
    ensures SampleInv(Scan(st, lim, d, depth), lim)
    decreases d, 1
  {
    if !(depth > lim.maxDepth || st.sampledFiles >= lim.maxFiles) {
      ScanEntriesKeepInv(st.(directoryDepth := Max(st.directoryDepth, depth)), lim, d, 0, depth);
    }
  }

  lemma {:induction false} ScanEntriesKeepInv(st: Sample, lim: ScanLimits, d: Node, i: nat, depth: nat)
    requires d.Dir? && i <= |d.entries| && SampleInv(st, lim)
    ensures SampleInv(ScanEntries(st, lim, d, i, depth), lim)
    decreases d, 0, |d.entries| - i
  {
    if i < |d.entries| && st.sampledFiles < lim.maxFiles {
      EntryScanKeepsInv(st, lim, d.entries[i], depth);
      ScanEntriesKeepInv(EntryScan(st, lim, d.entries[i], depth), lim, d, i + 1, depth);
    }
  }

  lemma {:induction false} EntryScanKeepsInv(st: Sample, lim: ScanLimits, e: Node, depth: nat)
    requires SampleInv(st, lim) && st.sampledFiles < lim.maxFiles
    ensures SampleInv(EntryScan(st, lim, e, depth), lim)
    decreases e, 2
  {
    if e.Dir? {
      ScanKeepsInv(st.(subdirectoryCount := st.subdirectoryCount + 1), lim, e, depth + 1);
    }
  }

  /** The scan sees the tree only down to `maxDepth` levels below `depth`. */
  lemma {:induction false} ScanDepthCap(st: Sample, lim: ScanLimits, d: Node, depth: nat)
    requires d.Dir? && depth <= lim.maxDepth
    ensures Scan(st, lim, d, depth) == Scan(st, lim, Truncate(d, lim.maxDepth - depth), depth)
    decreases d, 1
  {
    if st.sampledFiles < lim.maxFiles {
      ScanEntriesDepthCap(st.(directoryDepth := Max(st.directoryDepth, depth)), lim, d, 0, depth);
    }
  }

  lemma {:induction false} ScanEntriesDepthCap(st: Sample, lim: ScanLimits, d: Node, i: nat, depth: nat)
    requires d.Dir? && i <= |d.entries| && depth <= lim.maxDepth
    ensures ScanEntries(st, lim, d, i, depth) == ScanEntries(st, lim, Truncate(d, lim.maxDepth - depth), i, depth)
    decreases d, 0, |d.entries| - i
  {
    if i < |d.entries| && st.sampledFiles < lim.maxFiles {
      var e := d.entries[i];
      var t := Truncate(d, lim.maxDepth - depth);
      assert t.entries[i] == Prune(e, lim.maxDepth - depth);
      if e.Dir? && depth < lim.maxDepth {
        ScanDepthCap(st.(subdirectoryCount := st.subdirectoryCount + 1), lim, e, depth + 1);
      }
      assert EntryScan(st, lim, e, depth) == EntryScan(st, lim, t.entries[i], depth);
      ScanEntriesDepthCap(EntryScan(st, lim, e, depth), lim, d, i + 1, depth);
    }
  }

  /** The value `estimateDirectorySize` resolves to, without `startTime`. */
  datatype Estimate = Estimate(totalFiles: nat, totalBytes: nat, sampledFiles: nat, sampledBytes: nat,
                               averageFileSize: real, estimatedTotalFiles: real, estimatedTotalBytes: real,
                               estimatedScanTime: real, directoryDepth: nat, subdirectoryCount: nat)

  /** The figures computed after the scan. The first `estimatedScanTime`
      is overwritten under the same condition, so only the second, clamped
      to one second .. one hour, is kept. */
  function Conclude(s: Sample): Estimate
  {
    if s.sampledFiles == 0 then
      Estimate(s.totalFiles, s.totalBytes, s.sampledFiles, s.sampledBytes, 0.0, 0.0, 0.0, 0.0,
               s.directoryDepth, s.subdirectoryCount)
    else
      var average := s.sampledBytes as real / s.sampledFiles as real;
      var fileMultiplier := MaxR(1.0, 1.0 + s.subdirectoryCount as real / 5.0 + s.directoryDepth as real / 2.0);
      var files := MaxR(s.totalFiles as real, s.totalFiles as real * fileMultiplier);
      var bytes := files * average;
      var fileCountBasedTime := files / 1000.0;
      var sizeBasedTime := bytes / 1024.0 / 1024.0 / 100.0;
      var complexityFactor := MinR(1.5, 1.0 + s.directoryDepth as real * 0.1 + s.subdirectoryCount as real * 0.01);
      var scanTime := MaxR(1.0, MinR((fileCountBasedTime * 0.4 + sizeBasedTime * 0.6) * complexityFactor, 3600.0));
      Estimate(s.totalFiles, s.totalBytes, s.sampledFiles, s.sampledBytes, average, files, bytes, scanTime,
               s.directoryDepth, s.subdirectoryCount)
  }

  /** `estimateDirectorySize(root, options)` without its time budget. */
  method EstimateDirectorySize(root: Node, o: EstimateOptions) returns (r: Estimate)
    requires root.Dir?
    ensures r == Conclude(Scan(NoSample, LimitsOf(o), root, 0))
  {
    var sample := QuickScan(NoSample, LimitsOf(o), root, 0);
    r := Conclude(sample);
  }

  /** The estimate samples at most `maxFiles` files, reaches no deeper than
      `maxDepth`, samples every file it counts, never estimates fewer files
      or bytes than it saw, and keeps the time within one second .. one
      hour once it sampled anything (0 otherwise). */
  lemma EstimateBounds(root: Node, o: EstimateOptions)
    requires root.Dir?
    ensures var lim := LimitsOf(o);
      var r := Conclude(Scan(NoSample, lim, root, 0));
      r.sampledFiles == r.totalFiles && r.sampledBytes == r.totalBytes
      && r.sampledFiles <= Max(0, lim.maxFiles) && r.directoryDepth <= Max(0, lim.maxDepth)
      && (r.sampledFiles > 0 ==> 1.0 <= r.estimatedScanTime <= 3600.0)
      && (r.sampledFiles == 0 ==> r.estimatedScanTime == 0.0)
      && r.estimatedTotalFiles >= r.totalFiles as real
      && r.estimatedTotalBytes >= r.totalBytes as real
  {
    var lim := LimitsOf(o);
    ScanKeepsInv(NoSample, lim, root, 0);
    var s := Scan(NoSample, lim, root, 0);
    if s.sampledFiles > 0 {
      EstimateCovers(s);
    }
  }

  lemma EstimateCovers(s: Sample)
    requires s.sampledFiles > 0 && s.sampledFiles == s.totalFiles && s.sampledBytes == s.totalBytes
    ensures Conclude(s).estimatedTotalFiles >= s.totalFiles as real
    ensures Conclude(s).estimatedTotalBytes >= s.totalBytes as real
  {
    var n, b := s.sampledFiles as real, s.sampledBytes as real;
    var average := b / n;
    var files := Conclude(s).estimatedTotalFiles;
    assert files >= n;
    assert average * n == b;
    assert average >= 0.0 by {
      NonNegativeRatio(b, n);
    }
    assert files * average >= n * average by {
      assert (files - n) * average >= 0.0;
    }
  }

  /** Only the top `maxDepth` levels matter: the estimate of a tree is that
      of the tree cut off below them. */
  lemma EstimateDepthCap(root: Node, o: EstimateOptions)
    requires root.Dir? && LimitsOf(o).maxDepth >= 0
    ensures Scan(NoSample, LimitsOf(o), root, 0) == Scan(NoSample, LimitsOf(o), Truncate(root, LimitsOf(o).maxDepth), 0)
  {
    ScanDepthCap(NoSample, LimitsOf(o), root, 0);
  }
}
