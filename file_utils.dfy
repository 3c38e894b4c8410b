/** The file helpers of js/file-utils.js: classification by extension, the
    MIME table, name splitting, the sampled content digest and the
    system/temporary file filter. */
module FileUtils {
  import opened Base

  // ---------------------------------------------------------------------
  // Classifiers: the lower-cased text from the last '.' against fixed lists

  const ImageExtensions: seq<string> := [".jpg", ".jpeg", ".png", ".gif", ".bmp", ".webp", ".tiff", ".svg"]
  const VideoExtensions: seq<string> := [".mp4", ".avi", ".mov", ".wmv", ".flv", ".mkv", ".webm"]
  const AudioExtensions: seq<string> := [".mp3", ".wav", ".ogg", ".flac", ".aac", ".m4a"]
  const DocumentExtensions: seq<string> := [".pdf", ".doc", ".docx", ".xls", ".xlsx", ".ppt", ".pptx", ".txt", ".rtf"]

  /** The test shared by `isImageFile`, `isVideoFile`, `isAudioFile` and
      `isDocumentFile`: is the lower-cased text from the last '.' listed? */
  predicate Listed(fileName: string, list: seq<string>) {
    Extension(fileName) in list
  }

  predicate IsImageFile(fileName: string) { Listed(fileName, ImageExtensions) }
  predicate IsVideoFile(fileName: string) { Listed(fileName, VideoExtensions) }
  predicate IsAudioFile(fileName: string) { Listed(fileName, AudioExtensions) }
  predicate IsDocumentFile(fileName: string) { Listed(fileName, DocumentExtensions) }

  /** Every entry of the list starts with its dot. */
  ghost predicate Dotted(list: seq<string>) {
    forall i :: 0 <= i < |list| ==> |list[i]| >= 1 && list[i][0] == '.'
  }

  lemma ImageExtensionsDotted() ensures Dotted(ImageExtensions) { }
  lemma VideoExtensionsDotted() ensures Dotted(VideoExtensions) { }
  lemma AudioExtensionsDotted() ensures Dotted(AudioExtensions) { }
  lemma DocumentExtensionsDotted() ensures Dotted(DocumentExtensions) { }

  /** A name without a '.' matches no list of dotted extensions: it is not
      an image, video, audio or document file. */
  lemma NoDotNotListed(fileName: string, list: seq<string>)
    requires '.' !in fileName && Dotted(list)
    ensures !Listed(fileName, list)
  {
    LowerKeepsAbsent(fileName, '.');
    var e := Extension(fileName);
    assert |e| >= 1 ==> e[0] != '.';
  }

  /** Only the final extension counts, in any case: `stem + ext` is listed
      exactly when the lower-cased `ext` is. */
  lemma ListedBySuffix(stem: string, ext: string, list: seq<string>)
    requires |ext| >= 1 && ext[0] == '.' && '.' !in ext[1..]
    ensures Listed(stem + ext, list) <==> Lower(ext) in list
  {
    ExtensionOfJoin(stem, ext);
  }

  // ---------------------------------------------------------------------
  // MIME types

  const MimeTypes: map<string, string> := map[
    "jpg" := "image/jpeg", "jpeg" := "image/jpeg", "png" := "image/png", "gif" := "image/gif",
    "bmp" := "image/bmp", "webp" := "image/webp", "svg" := "image/svg+xml",
    "mp4" := "video/mp4", "avi" := "video/x-msvideo", "mov" := "video/quicktime", "wmv" := "video/x-ms-wmv",
    "flv" := "video/x-flv", "mkv" := "video/x-matroska", "webm" := "video/webm",
    "mp3" := "audio/mpeg", "wav" := "audio/wav", "ogg" := "audio/ogg", "flac" := "audio/flac",
    "aac" := "audio/aac", "m4a" := "audio/mp4",
    "pdf" := "application/pdf", "doc" := "application/msword",
    "docx" := "application/vnd.openxmlformats-officedocument.wordprocessingml.document",
    "xls" := "application/vnd.ms-excel",
    "xlsx" := "application/vnd.openxmlformats-officedocument.spreadsheetml.sheet",
    "ppt" := "application/vnd.ms-powerpoint",
    "pptx" := "application/vnd.openxmlformats-officedocument.presentationml.presentation",
    "txt" := "text/plain", "rtf" := "application/rtf",
    "zip" := "application/zip", "rar" := "application/x-rar-compressed", "7z" := "application/x-7z-compressed",
    "exe" := "application/x-msdownload", "dll" := "application/x-msdownload",
    "js" := "application/javascript", "css" := "text/css", "html" := "text/html", "htm" := "text/html",
    "json" := "application/json", "xml" := "application/xml"]

  const OctetStream := "application/octet-stream"

  /** `fileName.toLowerCase().substring(fileName.lastIndexOf('.') + 1)`:
      the lower-cased text after the last '.', or the whole lower-cased
      name when there is none. */
  function MimeKey(fileName: string): (key: string)
    ensures '.' !in key
    ensures '.' !in fileName ==> key == Lower(fileName)
  {
    var k := LastIndexOf(fileName, '.');
    LowerDrop(fileName, k + 1);
    LowerKeepsAbsent(fileName[k + 1..], '.');
    Lower(fileName)[k + 1..]
  }

  /** The key of `stem + "." + ext` is `ext` lower-cased, whatever the stem. */
  lemma MimeKeyOfJoin(stem: string, ext: string)
    requires '.' !in ext
    ensures MimeKey(stem + "." + ext) == Lower(ext)
  {
    assert stem + "." + ext == stem + ("." + ext);
    LastDotOfJoin(stem, "." + ext);
    LowerDrop(stem + "." + ext, |stem| + 1);
    assert (stem + "." + ext)[|stem| + 1..] == ext;
  }

  /** What `mimeTypes[ext]` yields on the object literal: an own property,
      a member inherited from `Object.prototype`, or `undefined`. */
  datatype MimeValue = MimeString(mime: string) | PrototypeMember(key: string)

  /** The `Object.prototype` members whose names are already lower case;
      a lower-cased key can only ever meet these two. */
  const PrototypeKeys: seq<string> := PrototypeMembers[..2]

  /** `getMimeType` as written: `mimeTypes[ext] || 'application/octet-stream'`. */
  function GetMimeTypeAsWritten(fileName: string): (r: MimeValue)
    ensures r.PrototypeMember? ==> MimeKey(fileName) in PrototypeKeys
  {
    var ext := MimeKey(fileName);
    if ext in MimeTypes then MimeString(MimeTypes[ext])
    else if ext in PrototypeKeys then PrototypeMember(ext)
    else MimeString(OctetStream)
  }

  /** No key of the table is longer than four characters. */
  lemma MimeKeysShort()
    ensures forall k <- MimeTypes :: |k| <= 4
  {
  }

  /** "constructor" is already in lower case. */
  lemma ConstructorIsLower()
    ensures Lower("constructor") == "constructor"
  {
    LowerIdentity("constructor");
  }

  /** A file named "a.constructor" gets the `Object` function back instead
      of a MIME string. */
  lemma PrototypeKeyEscapes()
    ensures GetMimeTypeAsWritten("a" + "." + "constructor") == PrototypeMember("constructor")
  {
    MimeKeyOfJoin("a", "constructor");
    ConstructorIsLower();
    LongKeyUnlisted("constructor");
    assert "constructor" == PrototypeKeys[0];
  }

  /** A key longer than four characters has no table entry. */
  lemma LongKeyUnlisted(k: string)
    requires |k| > 4
    ensures k !in MimeTypes
  {
    MimeKeysShort();
  }

  /** `getMimeType` looking at own properties only: the table entry for the
      key, otherwise the generic binary type. */
  function GetMimeType(fileName: string): (mime: string)
    ensures MimeKey(fileName) in MimeTypes ==> mime == MimeTypes[MimeKey(fileName)]
    ensures MimeKey(fileName) !in MimeTypes ==> mime == OctetStream
  {
    var ext := MimeKey(fileName);
    if ext in MimeTypes then MimeTypes[ext] else OctetStream
  }

  /** The corrected lookup agrees with the code as written on every name
      whose key is not an `Object.prototype` member. */
  lemma GetMimeTypeAgrees(fileName: string)
    ensures MimeKey(fileName) !in PrototypeKeys ==> GetMimeTypeAsWritten(fileName) == MimeString(GetMimeType(fileName))
  {
  }

  /** The extension after the last '.' decides, in any case. */
  lemma MimeTypeBySuffix(stem: string, ext: string)
    requires '.' !in ext
    ensures GetMimeType(stem + "." + ext) == if Lower(ext) in MimeTypes then MimeTypes[Lower(ext)] else OctetStream
  {
    MimeKeyOfJoin(stem, ext);
  }

  // ---------------------------------------------------------------------
  // Splitting a name

  datatype NameParts = NameParts(name: string, extension: string)

  /** `splitFileName`: around the last '.', or the whole name and '' when there is none. */
  function SplitFileName(fileName: string): (r: NameParts)
    ensures '.' !in fileName ==> r == NameParts(fileName, "")
    ensures '.' in fileName ==> r.name + "." + r.extension == fileName && '.' !in r.extension
  {
    var lastDotIndex := LastIndexOf(fileName, '.');
    if lastDotIndex == -1 then NameParts(fileName, "")
    else
      assert fileName == fileName[..lastDotIndex] + "." + fileName[lastDotIndex + 1..];
      NameParts(fileName[..lastDotIndex], fileName[lastDotIndex + 1..])
  }

  /** Joining a stem and a dot-free extension and splitting again gives both back. */
  lemma SplitFileNameRoundTrip(stem: string, ext: string)
    requires '.' !in ext
    ensures SplitFileName(stem + "." + ext) == NameParts(stem, ext)
  {
    assert stem + "." + ext == stem + ("." + ext);
    LastDotOfJoin(stem, "." + ext);
    var s := stem + "." + ext;
    assert s[..|stem|] == stem;
    assert s[|stem| + 1..] == ext;
  }

  // ---------------------------------------------------------------------
  // Content digest

  /** The options of `createFileContentDigest` after `Object.assign` with
      the defaults. */
  datatype DigestOptions = DigestOptions(fullScan: bool, digestSize: nat, maxFullScanSize: int)

  const DefaultDigestOptions := DigestOptions(false, 1024, 1024 * 1024)

  /** Stride between sampled bytes in the evenly spaced branch. */
  function Step(n: nat, d: nat): nat
    requires d > 0
  {
    n / d
  }

  /** The source index of output byte i in the evenly spaced branch. */
  function StrideIndex(n: nat, d: nat, i: nat): int
    requires d > 0
  {
    Min(i * Step(n, d), n - 1)
  }

  /** `Math.floor(digestSize * 0.4)` and `Math.floor(digestSize * 0.2)`. */
  function HeadSize(d: nat): nat { (2 * d) / 5 }
  function MiddleSize(d: nat): nat { d / 5 }
  function FooterSize(d: nat): nat { d - HeadSize(d) - MiddleSize(d) }

  function MiddleStart(n: nat, d: nat): int { n / 2 - MiddleSize(d) / 2 }

  /** What `createFileContentDigest` returns. */
  function ContentDigest(data: seq<Byte>, opts: DigestOptions): (r: seq<Byte>)
  {
    var n := |data|;
    var d := opts.digestSize;
    if opts.fullScan || n <= d || n <= opts.maxFullScanSize then
      if n <= d then data
      else seq(d, i requires 0 <= i < d => data[StrideIndex(n, d, i)])
    else
      SlicesInside(n, d);
      data[..HeadSize(d)] + data[MiddleStart(n, d)..MiddleStart(n, d) + MiddleSize(d)] + data[n - FooterSize(d)..]
  }

  /** The three slices of the large-file branch are within the input. */
  lemma SlicesInside(n: nat, d: nat)
    requires n > d
    ensures 0 <= MiddleStart(n, d) && MiddleStart(n, d) + MiddleSize(d) <= n
    ensures HeadSize(d) <= n && 0 <= n - FooterSize(d)
  {
  }

  /** Inputs no longer than the digest are returned unchanged. */
  lemma SmallInputUnchanged(data: seq<Byte>, opts: DigestOptions)
    requires |data| <= opts.digestSize
    ensures ContentDigest(data, opts) == data
  {
  }

  /** The evenly spaced branch: `digestSize` bytes, byte i taken from
      index min(i * floor(n / d), n - 1), with strictly increasing indices
      that never need the clamp. */
  lemma {:induction false} StrideDigest(data: seq<Byte>, opts: DigestOptions)
    requires opts.fullScan || |data| <= opts.maxFullScanSize
    requires |data| > opts.digestSize > 0
    ensures var r := ContentDigest(data, opts); var n, d := |data|, opts.digestSize;
      |r| == d
      && (forall i :: 0 <= i < d ==> r[i] == data[StrideIndex(n, d, i)])
      && (forall i :: 0 <= i < d ==> StrideIndex(n, d, i) == i * Step(n, d))
      && (forall i, j :: 0 <= i < j < d ==> StrideIndex(n, d, i) < StrideIndex(n, d, j))
  {
    var n, d := |data|, opts.digestSize;
    var step := Step(n, d);
    assert step >= 1 by {
      DivAtLeastOne(n, d);
    }
    forall i | 0 <= i < d ensures StrideIndex(n, d, i) == i * step {
      StrideUnclamped(n, d, i);
    }
    forall i, j | 0 <= i < j < d ensures StrideIndex(n, d, i) < StrideIndex(n, d, j) {
      StrideUnclamped(n, d, i);
      StrideUnclamped(n, d, j);
      MulStrict(i, j, step);
    }
  }

  lemma DivAtLeastOne(n: nat, d: nat)
    requires n > d > 0
    ensures n / d >= 1
  {
  }

  lemma MulStrict(i: nat, j: nat, step: nat)
    requires i < j && step >= 1
    ensures i * step < j * step
  {
  }

  /** i * floor(n / d) <= n - 1 for every i below d. */
  lemma StrideUnclamped(n: nat, d: nat, i: nat)
    requires n > d > 0 && i < d
    ensures i * Step(n, d) <= n - 1
  {
    var step := n / d;
    assert d * step <= n;
    assert i * step <= (d - 1) * step by {
      MulMono(i, d - 1, step);
    }
    assert (d - 1) * step == d * step - step;
  }

  lemma MulMono(a: nat, b: nat, c: nat)
    requires a <= b
    ensures a * c <= b * c
  {
  }

  /** The head/middle/tail branch: exactly `digestSize` bytes made of the
      head, the middle slice and the tail, in that order. */
  lemma HeadMiddleTailDigest(data: seq<Byte>, opts: DigestOptions)
    requires !opts.fullScan && |data| > opts.digestSize && |data| > opts.maxFullScanSize
    ensures var r := ContentDigest(data, opts); var n, d := |data|, opts.digestSize;
      var h, m := HeadSize(d), MiddleSize(d);
      |r| == d
      && r[..h] == data[..h]
      && r[h..h + m] == data[MiddleStart(n, d)..MiddleStart(n, d) + m]
      && r[h + m..] == data[n - FooterSize(d)..]
  {
    var n, d := |data|, opts.digestSize;
    SlicesInside(n, d);
    var a := data[..HeadSize(d)];
    var b := data[MiddleStart(n, d)..MiddleStart(n, d) + MiddleSize(d)];
    var c := data[n - FooterSize(d)..];
    assert ContentDigest(data, opts) == a + b + c;
    assert (a + b + c)[..|a|] == a;
    assert (a + b + c)[|a|..|a| + |b|] == b;
    assert (a + b + c)[|a| + |b|..] == c;
  }

  /** `createFileContentDigest`: the input itself when it is short, else a
      fresh `Uint8Array` of `digestSize` bytes. */
  method CreateFileContentDigest(data: seq<Byte>, opts: DigestOptions) returns (digest: seq<Byte>)
    ensures digest == ContentDigest(data, opts)
  {
    var fileSize := |data|;
    if opts.fullScan || fileSize <= opts.digestSize || fileSize <= opts.maxFullScanSize {
      if fileSize <= opts.digestSize {
        return data;
      }
      digest := SampleEvenly(data, opts.digestSize);
    } else {
      digest := SampleHeadMiddleTail(data, opts.digestSize);
    }
  }

  /** The evenly spaced branch: a loop filling the array. */
  method SampleEvenly(data: seq<Byte>, d: nat) returns (digest: seq<Byte>)
    requires |data| > d
    ensures digest == seq(d, i requires 0 <= i < d => data[StrideIndex(|data|, d, i)])
  {
    var fileSize := |data|;
    var result := new Byte[d];
    // floor(n / 0) is Infinity in the source, but then the loop never runs
    var step := if d > 0 then fileSize / d else 0;
    for i := 0 to d
      invariant forall k :: 0 <= k < i ==> result[k] == data[StrideIndex(fileSize, d, k)]
    {
      var index := Min(i * step, fileSize - 1);
      result[i] := data[index];
    }
    digest := result[..];
  }

  /** The large-file branch: three `set` calls into a fresh array. */
  method SampleHeadMiddleTail(data: seq<Byte>, d: nat) returns (digest: seq<Byte>)
    requires |data| > d
    ensures digest == data[..HeadSize(d)] + data[MiddleStart(|data|, d)..MiddleStart(|data|, d) + MiddleSize(d)]
                      + data[|data| - FooterSize(d)..]
  {
    var fileSize := |data|;
    SlicesInside(fileSize, d);
    var headerSize := HeadSize(d);
    var middleSize := MiddleSize(d);
    var footerSize := FooterSize(d);
    var result := new Byte[d];
    ghost var blank := result[..];
    var head := data[..headerSize];
    ArraySet(result, head, 0);
    var middleOffset := MiddleStart(fileSize, d);
    var middle := data[middleOffset..middleOffset + middleSize];
    ArraySet(result, middle, headerSize);
    var footer := data[fileSize - footerSize..];
    ArraySet(result, footer, headerSize + middleSize);
    digest := result[..];
    OverwriteThree(blank, head, middle, footer);
  }

  // ---------------------------------------------------------------------
  // System and temporary files

  /** `\w`: ASCII letters, digits and '_'. */
  predicate IsWordChar(c: char)
  {
    'a' <= c <= 'z' || 'A' <= c <= 'Z' || '0' <= c <= '9' || c == '_'
  }

  /** `/\$\w+\$/`: some '$', one or more word characters, '$'. */
  predicate HasDollarWord(s: string)
  {
    exists i, j :: 0 <= i && i + 1 < j < |s| && s[i] == '$' && s[j] == '$'
      && forall k :: i < k < j ==> IsWordChar(s[k])
  }

  /** The thirteen patterns of `isSystemOrTempFile`. `/i` matches on ASCII
      lower case; `/^\.ds_store$/i` is subsumed by `/^\./`. */
  predicate IsSystemOrTempFile(fileName: string)
  {
    var lower := Lower(fileName);
    StartsWith(fileName, ".") || StartsWith(fileName, "~") || HasDollarWord(fileName)
    || lower == "thumbs.db" || lower == "desktop.ini" || lower == ".ds_store"
    || StartsWith(lower, "ntuser.dat") || lower == "pagefile.sys"
    || EndsWith(lower, ".tmp") || EndsWith(lower, ".temp") || EndsWith(lower, ".bak") || EndsWith(lower, ".old")
    || EndsWith(fileName, "#")
  }

  /** Temporary-file suffixes are recognised in any case, whatever the stem. */
  lemma TempSuffixes(stem: string, suffix: string)
    requires Lower(suffix) in [".tmp", ".temp", ".bak", ".old"]
    ensures IsSystemOrTempFile(stem + suffix)
  {
    LowerAppend(stem, suffix);
    var lower := Lower(stem + suffix);
    assert lower[|lower| - |suffix|..] == Lower(suffix);
    assert EndsWith(lower, Lower(suffix));
    TempSuffixListed(lower, Lower(suffix));
  }

  lemma TempSuffixListed(lower: string, ls: string)
    requires ls in [".tmp", ".temp", ".bak", ".old"] && EndsWith(lower, ls)
    ensures EndsWith(lower, ".tmp") || EndsWith(lower, ".temp") || EndsWith(lower, ".bak") || EndsWith(lower, ".old")
  {
  }

  /** `$name$` anywhere in a name marks it. */
  lemma DollarWordMarks(pre: string, word: string, post: string)
    requires |word| >= 1 && forall k :: 0 <= k < |word| ==> IsWordChar(word[k])
    ensures IsSystemOrTempFile(pre + "$" + word + "$" + post)
  {
    var s := pre + "$" + word + "$" + post;
    var i, j := |pre|, |pre| + 1 + |word|;
    assert s[i] == '$' && s[j] == '$';
    assert forall k :: i < k < j ==> s[k] == word[k - i - 1];
    assert HasDollarWord(s);
  }
}
