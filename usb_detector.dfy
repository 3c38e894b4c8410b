/** `USBDetector`: the connection class read off a write/read speed test.
    The test itself (a 50 MB file written and read back, timed) is an
    argument here: either the two speeds in MB/s or the error it threw. */
module UsbDetector {
  import opened Base

  /** `{writeSpeed, readSpeed}` in MB/s. */
  datatype Speeds = Speeds(writeSpeed: Num, readSpeed: Num)

  /** The tiers of `analyzeSpeed`, fastest first. */
  datatype Tier = Usb32 | Usb31 | Usb30 | Usb2

  /** Optimal results carry `details`, the slow one and the fallback a
      `warning`. */
  datatype Note = Details(details: string) | Warning(warning: string)

  /** The object `detectConnection` resolves to; the fallback has no colour. */
  datatype Connection = Connection(kind: string, speed: Num, isOptimal: bool, note: Note, color: Option<string>)

  /** `(writeSpeed + readSpeed) / 2`; NaN when either speed is. */
  function Average(s: Speeds): Num
  {
    if s.writeSpeed.NaN? || s.readSpeed.NaN? then NaN
    else Fin((s.writeSpeed.r + s.readSpeed.r) / 2.0)
  }

  /** The if/else chain: strictly above 400, 200 and 60 MB/s; everything
      else, NaN included (every comparison with NaN is false), is USB 2.0. */
  function TierOf(avg: Num): Tier
  {
    if avg.Fin? && avg.r > 400.0 then Usb32
    else if avg.Fin? && avg.r > 200.0 then Usb31
    else if avg.Fin? && avg.r > 60.0 then Usb30
    else Usb2
  }

  function TierName(t: Tier): string
  {
    match t
    case Usb32 => "USB 3.2"
    case Usb31 => "USB 3.1"
    case Usb30 => "USB 3.0"
    case Usb2 => "USB 2.0 או נמוך יותר"
  }

  function TierColor(t: Tier): string
  {
    match t
    case Usb32 => "#34a853"
    case Usb31 => "#4285f4"
    case Usb30 => "#4285f4"
    case Usb2 => "#ea4335"
  }

  function TierNote(t: Tier): Note
  {
    match t
    case Usb32 => Details("מהירות מעולה")
    case Usb31 => Details("מהירות טובה מאוד")
    case Usb30 => Details("מהירות טובה")
    case Usb2 => Warning("חיבור USB איטי זוהה. מומלץ להשתמש בחיבור USB 3.0 או מהיר יותר")
  }

  /** `analyzeSpeed(speeds)`. */
  function AnalyzeSpeed(s: Speeds): Connection
  {
    var avg := Average(s);
    var t := TierOf(avg);
    Connection(TierName(t), avg, t != Usb2, TierNote(t), Some(TierColor(t)))
  }

  /** `detectConnection(handle)` given the outcome of `performSpeedTest`:
      a thrown error gives the fixed 'Unknown' result. */
  function DetectConnection(test: Result<Speeds>): Connection
  {
    match test
    case Err(_) => Connection("Unknown", Fin(0.0), false, Warning("לא ניתן לבדוק את מהירות החיבור"), None)
    case Ok(s) => AnalyzeSpeed(s)
  }

  /** Position of a tier from slowest (0) to fastest (3). */
  function Rank(t: Tier): nat
  {
    match t
    case Usb2 => 0
    case Usb30 => 1
    case Usb31 => 2
    case Usb32 => 3
  }

  /** Every branch reports the average as the speed; the result is optimal
      exactly when the average exceeds 60 MB/s, and then carries details,
      otherwise a warning; the tier boundaries are strict. */
  lemma AnalyzeSpeedFacts(s: Speeds)
    ensures var r, avg := AnalyzeSpeed(s), Average(s);
      r.speed == avg
      && (r.isOptimal <==> avg.Fin? && avg.r > 60.0)
      && (r.isOptimal <==> r.note.Details?)
      && (TierOf(avg) == Usb32 <==> avg.Fin? && avg.r > 400.0)
      && (TierOf(avg) == Usb31 <==> avg.Fin? && 200.0 < avg.r <= 400.0)
      && (TierOf(avg) == Usb30 <==> avg.Fin? && 60.0 < avg.r <= 200.0)
      && r.kind == TierName(TierOf(avg))
  {
  }

  /** A faster average never gives a slower tier. */
  lemma TierMonotone(a: real, b: real)
    requires a <= b
    ensures Rank(TierOf(Fin(a))) <= Rank(TierOf(Fin(b)))
  {
  }

  /** The speed is the mean of the two measurements: between them. */
  lemma AverageBetween(s: Speeds)
    requires s.writeSpeed.Fin? && s.readSpeed.Fin?
    ensures var avg := Average(s);
      avg.Fin? && MinR(s.writeSpeed.r, s.readSpeed.r) <= avg.r <= MaxR(s.writeSpeed.r, s.readSpeed.r)
      && avg.r + avg.r == s.writeSpeed.r + s.readSpeed.r
  {
  }

  /** The fallback of a failed speed test is told apart from every
      analysis: it alone has type 'Unknown' and no colour. It reports speed
      0, is not optimal and carries a warning, as a slow connection does. */
  lemma DetectConnectionCases(test: Result<Speeds>)
    ensures DetectConnection(test).kind == "Unknown" <==> test.Err?
    ensures DetectConnection(test).color.None? <==> test.Err?
    ensures test.Err? ==> var r := DetectConnection(test);
      r.speed == Fin(0.0) && !r.isOptimal && r.note.Warning?
  {
    if test.Ok? {
      var t := TierOf(Average(test.value));
      assert TierName(t)[0] != 'U' || TierName(t)[1] != 'n' by {
        assert TierName(t)[1] == 'S';
      }
    }
  }

  /** The four names are distinct, so the type alone tells the tier. */
  lemma TierNamesDistinct(t: Tier, u: Tier)
    requires t != u
    ensures TierName(t) != TierName(u)
  {
    assert TierName(Usb32)[6] == '2' && TierName(Usb31)[6] == '1' && TierName(Usb30)[6] == '0';
    assert TierName(Usb2)[4] == '2' && TierName(Usb32)[4] == '3';
  }
}
