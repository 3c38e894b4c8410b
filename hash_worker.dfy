/** The hashing worker of js/hash-worker.js: one message handler that
    answers 'hash' tasks with the SHA-256 digest of the data, 'partial-hash'
    tasks with the digest of a head/middle/tail sample, and
    'perceptual-hash' tasks with an error. The digest is a parameter that
    may reject with an error message. */
module HashWorker {
  import opened Base

  /** `e.data`: the task's type, its id and its bytes. */
  datatype Task = Task(kind: string, id: int, data: seq<Byte>)

  /** A posted reply. `isPartial` stands for the property of that name,
      which is only ever present with the value true. */
  datatype Reply = Reply(id: int, hash: Option<string>, error: Option<string>, isPartial: bool)

  /** Bytes taken from each of the three parts of a large input (4 KiB). */
  const SampleSize: nat := 4096

  /** Start of the middle window. */
  function MiddleOffset(n: nat): int
  {
    n / 2 - SampleSize / 2
  }

  /** The bytes a 'partial-hash' task digests: inputs of at most three
      windows are used whole; larger ones give the first 4096 bytes, the
      4096 bytes centred on the middle, and the last 4096 bytes. */
  function PartialSample(data: seq<Byte>): (sample: seq<Byte>)
    ensures |sample| == Min(|data|, 3 * SampleSize)
  {
    var n := |data|;
    if n <= SampleSize * 3 then data
    else
      WindowsInside(n);
      data[..SampleSize] + data[MiddleOffset(n)..MiddleOffset(n) + SampleSize] + data[n - SampleSize..]
  }

  /** For inputs above three windows the windows lie inside the input, do
      not overlap, and come in ascending order. */
  lemma WindowsInside(n: nat)
    requires n > 3 * SampleSize
    ensures 0 < SampleSize <= MiddleOffset(n)
    ensures MiddleOffset(n) + SampleSize <= n - SampleSize
  {
  }

  /** Small inputs are digested unchanged. */
  lemma SmallInputsUsedWhole(data: seq<Byte>)
    requires |data| <= 3 * SampleSize
    ensures PartialSample(data) == data
  {
  }

  /** Layout of the sample of a large input, window by window. */
  lemma SampleLayout(data: seq<Byte>)
    requires |data| > 3 * SampleSize
    ensures var s := PartialSample(data); var n := |data|;
      s[..SampleSize] == data[..SampleSize]
      && s[SampleSize..2 * SampleSize] == data[MiddleOffset(n)..MiddleOffset(n) + SampleSize]
      && s[2 * SampleSize..] == data[n - SampleSize..]
  {
    var n := |data|;
    WindowsInside(n);
    var a, b, c := data[..SampleSize], data[MiddleOffset(n)..MiddleOffset(n) + SampleSize], data[n - SampleSize..];
    assert PartialSample(data) == a + b + c;
    assert (a + b + c)[..SampleSize] == a;
    assert (a + b + c)[SampleSize..2 * SampleSize] == b;
    assert (a + b + c)[2 * SampleSize..] == c;
  }

  /** Bytes outside the three windows do not matter: inputs of one length
      that agree on the windows give the same sample. */
  lemma SameWindowsSameSample(a: seq<Byte>, b: seq<Byte>)
    requires |a| == |b| > 3 * SampleSize
    requires a[..SampleSize] == b[..SampleSize]
    requires a[MiddleOffset(|a|)..MiddleOffset(|a|) + SampleSize] == b[MiddleOffset(|b|)..MiddleOffset(|b|) + SampleSize]
    requires a[|a| - SampleSize..] == b[|b| - SampleSize..]
    ensures PartialSample(a) == PartialSample(b)
  {
    WindowsInside(|a|);
  }

  /** The `combinedSample` construction: for a large input a fresh array of
      three windows filled by `set` at offsets 0, 4096 and 8192. */
  method CombinedSample(data: seq<Byte>) returns (sample: seq<Byte>)
    ensures sample == PartialSample(data)
  {
    var n := |data|;
    if n <= SampleSize * 3 {
      return data;
    }
    WindowsInside(n);
    var middleOffset := n / 2 - SampleSize / 2;
    var startSample := data[..SampleSize];
    var middleSample := data[middleOffset..middleOffset + SampleSize];
    var endSample := data[n - SampleSize..];
    var combined := new Byte[SampleSize * 3];
    ghost var blank := combined[..];
    ArraySet(combined, startSample, 0);
    ArraySet(combined, middleSample, SampleSize);
    ArraySet(combined, endSample, SampleSize * 2);
    sample := combined[..];
    OverwriteThree(blank, startSample, middleSample, endSample);
  }

  /** `hashArray.map(b => b.toString(16).padStart(2, '0')).join('')` on a digest that may reject. */
  function HexDigest(digest: seq<Byte> -> Result<seq<Byte>>, data: seq<Byte>): Result<string>
  {
    match digest(data)
    case Ok(bytes) => Ok(HexEncode(bytes))
    case Err(msg) => Err(msg)
  }

  const PerceptualError := "Perceptual hash not implemented in worker"

  /** `self.onmessage`: the reply posted for a task, or None when the
      task's type is not one of the three handled. */
  function OnMessage(task: Task, digest: seq<Byte> -> Result<seq<Byte>>): (reply: Option<Reply>)
    ensures reply.Some? <==> task.kind in ["hash", "perceptual-hash", "partial-hash"]
    ensures reply.Some? ==> reply.value.id == task.id
    ensures reply.Some? ==> (reply.value.hash.Some? <==> reply.value.error.None?)
    ensures reply.Some? ==> (reply.value.isPartial <==> task.kind == "partial-hash")
    ensures task.kind == "perceptual-hash" ==> reply == Some(Reply(task.id, None, Some(PerceptualError), false))
  {
    if task.kind == "hash" then
      match HexDigest(digest, task.data)
      case Ok(hex) => Some(Reply(task.id, Some(hex), None, false))
      case Err(msg) => Some(Reply(task.id, None, Some(msg), false))
    else if task.kind == "perceptual-hash" then
      Some(Reply(task.id, None, Some(PerceptualError), false))
    else if task.kind == "partial-hash" then
      match HexDigest(digest, PartialSample(task.data))
      case Ok(hex) => Some(Reply(task.id, Some(hex), None, true))
      case Err(msg) => Some(Reply(task.id, None, Some(msg), true))
    else None
  }

  /** A successful reply carries the hexadecimal text of exactly the digest
      of the data (or of its sample): two characters per digest byte. */
  lemma SuccessfulReplies(task: Task, digest: seq<Byte> -> Result<seq<Byte>>)
    requires task.kind == "hash" || task.kind == "partial-hash"
    ensures var input := if task.kind == "hash" then task.data else PartialSample(task.data);
      var reply := OnMessage(task, digest).value;
      (digest(input).Ok? ==> reply.hash == Some(HexEncode(digest(input).value))
                              && |reply.hash.value| == 2 * |digest(input).value|)
      && (digest(input).Err? ==> reply.hash.None? && reply.error == Some(digest(input).msg))
  {
  }

  /** Partial tasks on inputs that agree on the three windows get the same reply. */
  lemma PartialRepliesIgnoreOtherBytes(id: int, a: seq<Byte>, b: seq<Byte>, digest: seq<Byte> -> Result<seq<Byte>>)
    requires |a| == |b| > 3 * SampleSize
    requires a[..SampleSize] == b[..SampleSize]
    requires a[MiddleOffset(|a|)..MiddleOffset(|a|) + SampleSize] == b[MiddleOffset(|b|)..MiddleOffset(|b|) + SampleSize]
    requires a[|a| - SampleSize..] == b[|b| - SampleSize..]
    ensures OnMessage(Task("partial-hash", id, a), digest) == OnMessage(Task("partial-hash", id, b), digest)
  {
    SameWindowsSameSample(a, b);
  }
}
