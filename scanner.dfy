/** The duplicate scanner of js/scanner.js: a sequential, cancellable
    depth-first walk that fills a filename multimap, a content-hash multimap
    and a table of image signatures, then turns them into duplicate groups.

    The directory is an `FsTree.Node`; the SHA-256 digest is a parameter;
    `stop()` calls made by the page while the walk awaits are two oracles:
    `interrupt`, asked after each file and keyed by the number of files
    scanned before it, and `listingInterrupt`, asked once a directory's
    listing has been drained (or has thrown) and keyed by the file and
    directory counts at that moment. Gray values are kept multiplied by 1000 (integers),
    so the source's cut-off 25 is 25000 here and its divisor 255 is 255000. */
module ScannerModel {
  import opened Base
  import opened Multimap
  import opened ImageUtils
  import opened FsTree

  // ---------------------------------------------------------------------
  // Entities

  datatype Options = Options(checkFilenames: bool, checkContents: bool, checkImages: bool,
                             imageSimilarityThreshold: real, workerCount: int)

  /** The options object passed to the constructor: None for an absent property. */
  datatype OptionOverrides = OptionOverrides(checkFilenames: Option<bool>, checkContents: Option<bool>,
                                             checkImages: Option<bool>,
                                             imageSimilarityThreshold: Option<real>,
                                             workerCount: Option<int>)

  const DefaultOptions := Options(true, true, true, 90.0, 2)

  function Pick<T>(o: Option<T>, d: T): T { if o.Some? then o.value else d }

  /** `{ defaults..., ...options }`: a given property wins over its default. */
  function MergeOptions(o: OptionOverrides): (r: Options)
    ensures o == OptionOverrides(None, None, None, None, None) ==> r == DefaultOptions
    ensures o.checkFilenames.Some? ==> r.checkFilenames == o.checkFilenames.value
    ensures o.checkContents.Some? ==> r.checkContents == o.checkContents.value
    ensures o.checkImages.Some? ==> r.checkImages == o.checkImages.value
    ensures o.imageSimilarityThreshold.Some? ==> r.imageSimilarityThreshold == o.imageSimilarityThreshold.value
    ensures o.workerCount.Some? ==> r.workerCount == o.workerCount.value
  {
    Options(Pick(o.checkFilenames, true), Pick(o.checkContents, true), Pick(o.checkImages, true),
            Pick(o.imageSimilarityThreshold, 90.0), Pick(o.workerCount, 2))
  }

  datatype FileInfo = FileInfo(path: string, size: nat)
  datatype ContentInfo = ContentInfo(path: string, name: string, size: nat)
  datatype ImageEntry = ImageEntry(signature: seq<int>, path: string, name: string, size: nat)
  datatype NameGroup = NameGroup(name: string, paths: seq<string>, size: nat)
  datatype ImageGroup = ImageGroup(paths: seq<string>, similarity: real)

  /** `this.results`. */
  datatype Report = Report(duplicateFilenames: seq<NameGroup>,
                           duplicateContents: seq<seq<ContentInfo>>,
                           duplicateImages: seq<ImageGroup>)

  /** What `scan` resolves to: the results and the counters of `this.stats`. */
  datatype ScanOutcome = ScanOutcome(results: Report, filesScanned: nat, bytesScanned: nat, dirsScanned: nat)

  /** The scanner's maps, counters and running flag as one value. */
  datatype Index = Index(names: Multi<FileInfo>, contents: Multi<ContentInfo>,
                         images: Ordered<ImageEntry>,
                         filesScanned: nat, bytesScanned: nat, dirsScanned: nat, running: bool)

  /** The maps are well formed and every image signature is stored under its own path. */
  ghost predicate IndexValid(ix: Index)
  {
    Valid(ix.names) && Valid(ix.contents) && OrderedValid(ix.images)
    && forall p :: p in ix.images.entries ==> ix.images.entries[p].path == p
  }

  /** What the walk depends on besides the tree: the options, the digest
      function and when `stop()` is called: while a file is processed, or
      while a listing is read. */
  datatype Env = Env(options: Options, digest: seq<Byte> -> seq<Byte>, interrupt: nat -> bool,
                     listingInterrupt: (nat, nat) -> bool)

  // ---------------------------------------------------------------------
  // Filters and keys

  /** The five skip patterns: a leading '.', or (ignoring case) exactly
      thumbs.db, desktop.ini, .ds_store or .localized. */
  predicate MatchesSkipPattern(name: string)
  {
    (|name| > 0 && name[0] == '.')
    || Lower(name) == "thumbs.db" || Lower(name) == "desktop.ini"
    || Lower(name) == ".ds_store" || Lower(name) == ".localized"
  }

  /** The last two patterns are subsumed by the first. */
  function ShouldSkipFile(name: string): (skip: bool)
    ensures skip <==> (|name| > 0 && name[0] == '.') || Lower(name) == "thumbs.db" || Lower(name) == "desktop.ini"
  {
    assert Lower(name) == ".ds_store" || Lower(name) == ".localized" ==> Lower(name)[0] == '.';
    MatchesSkipPattern(name)
  }

  const ImageExtensions: seq<string> := [".jpg", ".jpeg", ".png", ".gif", ".bmp", ".webp", ".tiff", ".tif", ".svg"]

  function IsImageFile(name: string): (r: bool)
    ensures r ==> '.' in name
  {
    Extension(name) in ImageExtensions
  }

  /** Files larger than this are not given a signature (20 MiB). */
  const MaxImageBytes: nat := 20 * 1024 * 1024

  const SignatureMimeTypes: seq<string> := ["image/jpeg", "image/png", "image/gif", "image/webp", "image/bmp"]

  /** `filename.split('/').pop()`. */
  function FilenameKey(filename: string): (k: string)
    ensures '/' !in k
    ensures '/' !in filename ==> k == filename
  {
    var parts := Split(filename, '/');
    SplitNoSep(filename, '/');
    parts[|parts| - 1]
  }

  /** The key a file is filed under in the content map: the hexadecimal
      digest of its bytes, or, when reading them fails, a key made of its
      name and size. */
  function ContentKey(digest: seq<Byte> -> seq<Byte>, f: Node): string
    requires f.File?
  {
    match f.content
    case Some(bytes) => HexEncode(digest(bytes))
    case None => "error-hash-" + f.name + "-" + NatToString(f.size)
  }

  /** Gray values of the decoded 16x16 thumbnail, one per pixel. */
  function ThumbnailSignature(pixels: seq<Pixel>): (s: seq<int>)
    ensures |s| == |pixels|
    ensures forall i :: 0 <= i < |s| ==> s[i] == Luma(pixels[i]) && 0 <= s[i] <= 255000
  {
    seq(|pixels|, i requires 0 <= i < |pixels| => Luma(pixels[i]))
  }

  // ---------------------------------------------------------------------
  // One file, one directory: the specification of the walk

  function AddToFilenameMapSpec(ix: Index, filename: string, info: FileInfo): Index
  {
    ix.(names := Add(ix.names, FilenameKey(filename), info))
  }

  function ProcessFileContentSpec(ix: Index, digest: seq<Byte> -> seq<Byte>, f: Node, path: string): Index
    requires f.File?
  {
    ix.(contents := Add(ix.contents, ContentKey(digest, f), ContentInfo(path, f.name, f.size)))
  }

  function ProcessImageFileSpec(ix: Index, f: Node, path: string): (r: Index)
    requires f.File?
    ensures r.names == ix.names && r.contents == ix.contents
    ensures r.images.entries.Keys <= ix.images.entries.Keys + {path}
  {
    if f.size > MaxImageBytes || f.mimeType !in SignatureMimeTypes || f.thumbnail.None? then ix
    else ix.(images := Put(ix.images, path, ImageEntry(ThumbnailSignature(f.thumbnail.value), path, f.name, f.size)))
  }

  /** `processFile`: a file that cannot be opened or matches a skip pattern
      changes nothing; otherwise its size is counted and it is filed by
      name, by content and as an image, as the options say. */
  function ProcessFileSpec(ix: Index, opts: Options, digest: seq<Byte> -> seq<Byte>, f: Node, path: string): (r: Index)
    requires f.File?
    ensures r.filesScanned == ix.filesScanned && r.dirsScanned == ix.dirsScanned && r.running == ix.running
    ensures r.bytesScanned >= ix.bytesScanned
  {
    if !f.opens || ShouldSkipFile(f.name) then ix
    else ImageStep(ContentStep(NameStep(ix.(bytesScanned := ix.bytesScanned + f.size), opts, f, path),
                               opts, digest, f, path), opts, f, path)
  }

  /** The three filing steps of `processFile`, each switched by its option. */
  function NameStep(ix: Index, opts: Options, f: Node, path: string): Index
    requires f.File?
  {
    if opts.checkFilenames then AddToFilenameMapSpec(ix, f.name, FileInfo(path, f.size)) else ix
  }

  function ContentStep(ix: Index, opts: Options, digest: seq<Byte> -> seq<Byte>, f: Node, path: string): Index
    requires f.File?
  {
    if opts.checkContents then ProcessFileContentSpec(ix, digest, f, path) else ix
  }

  function ImageStep(ix: Index, opts: Options, f: Node, path: string): Index
    requires f.File?
  {
    if opts.checkImages && IsImageFile(f.name) then ProcessImageFileSpec(ix, f, path) else ix
  }

  /** One file entry of the directory loop: process it, let a pending
      `stop()` clear the flag, count it. */
  function FileStep(ix: Index, env: Env, f: Node, path: string): (r: Index)
    requires f.File?
    ensures r.filesScanned == ix.filesScanned + 1 && r.dirsScanned == ix.dirsScanned
    ensures r.bytesScanned >= ix.bytesScanned
    ensures r.running <==> ix.running && !env.interrupt(ix.filesScanned)
  {
    var ix1 := ProcessFileSpec(ix, env.options, env.digest, f, path);
    var ix2 := if env.interrupt(ix.filesScanned) then ix1.(running := false) else ix1;
    ix2.(filesScanned := ix2.filesScanned + 1)
  }

  /** The `for await` over the listing: a `stop()` landing meanwhile clears
      the flag. */
  function Listed(ix: Index, env: Env): Index
  {
    if env.listingInterrupt(ix.filesScanned, ix.dirsScanned) then ix.(running := false) else ix
  }

  /** `scanDirectory(d, parentPath)`: a listing that throws ends the call;
      otherwise the directory is counted and its loop runs, breaking at once
      if `stop()` landed during the listing. */
  function Walk(ix: Index, env: Env, d: Node, parentPath: string): (r: Index)
    requires d.Dir?
    ensures r.filesScanned >= ix.filesScanned && r.dirsScanned >= ix.dirsScanned
    ensures r.bytesScanned >= ix.bytesScanned
    ensures r.running ==> ix.running
    decreases d, 1
  {
    if !ix.running then ix
    else
      var ix1 := Listed(ix, env);
      if d.listingFails then ix1
      else WalkEntries(ix1.(dirsScanned := ix1.dirsScanned + 1), env, d, 0, parentPath)
  }

  /** The loop of `scanDirectory` from entry i on. */
  function WalkEntries(ix: Index, env: Env, d: Node, i: nat, parentPath: string): (r: Index)
    requires d.Dir? && i <= |d.entries|
    ensures r.filesScanned >= ix.filesScanned && r.dirsScanned >= ix.dirsScanned
    ensures r.bytesScanned >= ix.bytesScanned
    ensures r.running ==> ix.running
    decreases d, 0, |d.entries| - i
  {
    if i == |d.entries| || !ix.running then ix
    else
      var e := d.entries[i];
      var path := JoinPath(parentPath, e.name);
      var ix' := if e.File? then FileStep(ix, env, e, path) else Walk(ix, env, e, path);
      WalkEntries(ix', env, d, i + 1, parentPath)
  }

  /** Filing a file keeps the maps well formed and every signature under its own path. */
  lemma ProcessFileKeepsValid(ix: Index, opts: Options, digest: seq<Byte> -> seq<Byte>, f: Node, path: string)
    requires f.File? && IndexValid(ix)
    ensures IndexValid(ProcessFileSpec(ix, opts, digest, f, path))
  {
    if f.opens && !ShouldSkipFile(f.name) {
      FilingKeepsValid(ix.(bytesScanned := ix.bytesScanned + f.size), opts, digest, f, path);
    }
  }

  /** The three filing steps in a row keep the index well formed. */
  lemma FilingKeepsValid(ix: Index, opts: Options, digest: seq<Byte> -> seq<Byte>, f: Node, path: string)
    requires f.File? && IndexValid(ix)
    ensures IndexValid(ImageStep(ContentStep(NameStep(ix, opts, f, path), opts, digest, f, path), opts, f, path))
  {
    var ix2 := NameStep(ix, opts, f, path);
    assert IndexValid(ix2) by {
      NameStepKeepsValid(ix, opts, f, path);
    }
    var ix3 := ContentStep(ix2, opts, digest, f, path);
    assert IndexValid(ix3) by {
      ContentStepKeepsValid(ix2, opts, digest, f, path);
    }
    ImageStepKeepsValid(ix3, opts, f, path);
  }

  lemma NameStepKeepsValid(ix: Index, opts: Options, f: Node, path: string)
    requires f.File? && IndexValid(ix)
    ensures IndexValid(NameStep(ix, opts, f, path))
  {
  }

  lemma ContentStepKeepsValid(ix: Index, opts: Options, digest: seq<Byte> -> seq<Byte>, f: Node, path: string)
    requires f.File? && IndexValid(ix)
    ensures IndexValid(ContentStep(ix, opts, digest, f, path))
  {
  }

  lemma ImageStepKeepsValid(ix: Index, opts: Options, f: Node, path: string)
    requires f.File? && IndexValid(ix)
    ensures IndexValid(ImageStep(ix, opts, f, path))
  {
  }

  /** The whole walk keeps the index well formed. */
  lemma {:induction false} WalkKeepsValid(ix: Index, env: Env, d: Node, parentPath: string)
    requires d.Dir? && IndexValid(ix)
    ensures IndexValid(Walk(ix, env, d, parentPath))
    decreases d, 1
  {
    if ix.running && !d.listingFails {
      var ix1 := Listed(ix, env);
      WalkEntriesKeepValid(ix1.(dirsScanned := ix1.dirsScanned + 1), env, d, 0, parentPath);
    }
  }

  lemma {:induction false} WalkEntriesKeepValid(ix: Index, env: Env, d: Node, i: nat, parentPath: string)
    requires d.Dir? && i <= |d.entries| && IndexValid(ix)
    ensures IndexValid(WalkEntries(ix, env, d, i, parentPath))
    decreases d, 0, |d.entries| - i
  {
    if i < |d.entries| && ix.running {
      var e := d.entries[i];
      var path := JoinPath(parentPath, e.name);
      if e.File? {
        ProcessFileKeepsValid(ix, env.options, env.digest, e, path);
        WalkEntriesKeepValid(FileStep(ix, env, e, path), env, d, i + 1, parentPath);
      } else {
        WalkKeepsValid(ix, env, e, path);
        WalkEntriesKeepValid(Walk(ix, env, e, path), env, d, i + 1, parentPath);
      }
    }
  }

  /** What `scan` empties before walking (the counters are kept). */
  function Cleared(ix: Index): (r: Index)
    ensures IndexValid(r) && r.running
    ensures r.filesScanned == ix.filesScanned && r.bytesScanned == ix.bytesScanned && r.dirsScanned == ix.dirsScanned
  {
    ix.(names := Empty(), contents := Empty(), images := Ordered(map[], []), running := true)
  }

  // ---------------------------------------------------------------------
  // Duplicate groups

  function PathsOf(files: seq<FileInfo>): (paths: seq<string>)
    ensures |paths| == |files|
    ensures forall i :: 0 <= i < |files| ==> paths[i] == files[i].path
  {
    seq(|files|, i requires 0 <= i < |files| => files[i].path)
  }

  /** `{ name, paths: files.map(f => f.path), size: files[0]?.size || 0 }`. */
  function ToNameGroup(g: (string, seq<FileInfo>)): NameGroup
  {
    NameGroup(g.0, PathsOf(g.1), if |g.1| > 0 then g.1[0].size else 0)
  }

  function ToNameGroups(gs: seq<(string, seq<FileInfo>)>): (r: seq<NameGroup>)
    ensures |r| == |gs|
    ensures forall i :: 0 <= i < |gs| ==> r[i] == ToNameGroup(gs[i])
  {
    seq(|gs|, i requires 0 <= i < |gs| => ToNameGroup(gs[i]))
  }

  function NameGroups(names: Multi<FileInfo>): seq<NameGroup>
    requires forall k :: k in names.order ==> k in names.entries
  {
    ToNameGroups(Groups(names))
  }

  function ToContentGroups(gs: seq<(string, seq<ContentInfo>)>): (r: seq<seq<ContentInfo>>)
    ensures |r| == |gs|
    ensures forall i :: 0 <= i < |gs| ==> r[i] == gs[i].1
  {
    seq(|gs|, i requires 0 <= i < |gs| => gs[i].1)
  }

  function ContentGroups(contents: Multi<ContentInfo>): seq<seq<ContentInfo>>
    requires forall k :: k in contents.order ==> k in contents.entries
  {
    ToContentGroups(Groups(contents))
  }

  // ---------------------------------------------------------------------
  // Image similarity

  /** The penalty of one position: 0 below the cut-off, else the difference over 255. */
  function Penalty(x: int, y: int): (p: real)
    ensures p >= 0.0
  {
    var d := if x >= y then x - y else y - x;
    if d < 25000 then 0.0 else d as real / 255000.0
  }

  function PenaltySum(s1: seq<int>, s2: seq<int>): (r: real)
    requires |s1| == |s2|
    ensures r >= 0.0
  {
    if s1 == [] then 0.0
    else PenaltySum(s1[..|s1| - 1], s2[..|s2| - 1]) + Penalty(s1[|s1| - 1], s2[|s2| - 1])
  }

  /** `calculateImageSimilarity`: 0 for a missing signature or a length
      mismatch, NaN (0/0) for two empty ones, else 100 * (1 - mean penalty). */
  function ImageSimilarity(sig1: Option<seq<int>>, sig2: Option<seq<int>>): Num
  {
    if sig1.None? || sig2.None? || |sig1.value| != |sig2.value| then Fin(0.0)
    else if |sig1.value| == 0 then NaN
    else Fin(100.0 * (1.0 - PenaltySum(sig1.value, sig2.value) / |sig1.value| as real))
  }

  method CalculateImageSimilarity(sig1: Option<seq<int>>, sig2: Option<seq<int>>) returns (r: Num)
    ensures r == ImageSimilarity(sig1, sig2)
  {
    if sig1.None? || sig2.None? || |sig1.value| != |sig2.value| {
      return Fin(0.0);
    }
    var s1, s2 := sig1.value, sig2.value;
    var differences := 0.0;
    var length := |s1|;
    for i := 0 to length
      invariant differences == PenaltySum(s1[..i], s2[..i])
    {
      assert s1[..i + 1][..i] == s1[..i] && s2[..i + 1][..i] == s2[..i];
      differences := differences + Penalty(s1[i], s2[i]);
    }
    assert s1[..length] == s1 && s2[..length] == s2;
    if length == 0 {
      r := NaN;
    } else {
      r := Fin(100.0 * (1.0 - differences / length as real));
    }
  }

  predicate AllClose(s1: seq<int>, s2: seq<int>)
    requires |s1| == |s2|
  {
    forall i :: 0 <= i < |s1| ==> -25000 < s1[i] - s2[i] < 25000
  }

  predicate GrayValues(s: seq<int>)
  {
    forall i :: 0 <= i < |s| ==> 0 <= s[i] <= 255000
  }

  lemma {:induction false} PenaltySumZero(s1: seq<int>, s2: seq<int>)
    requires |s1| == |s2| && AllClose(s1, s2)
    ensures PenaltySum(s1, s2) == 0.0
  {
    if s1 != [] {
      var n := |s1| - 1;
      assert AllClose(s1[..n], s2[..n]) by {
        forall i | 0 <= i < n ensures -25000 < s1[..n][i] - s2[..n][i] < 25000 {
          assert s1[..n][i] == s1[i] && s2[..n][i] == s2[i];
        }
      }
      PenaltySumZero(s1[..n], s2[..n]);
    }
  }

  lemma {:induction false} PenaltySumAtMostLength(s1: seq<int>, s2: seq<int>)
    requires |s1| == |s2| && GrayValues(s1) && GrayValues(s2)
    ensures PenaltySum(s1, s2) <= |s1| as real
  {
    if s1 != [] {
      var n := |s1| - 1;
      assert GrayValues(s1[..n]) && GrayValues(s2[..n]) by {
        forall i | 0 <= i < n ensures s1[..n][i] == s1[i] && s2[..n][i] == s2[i] { }
      }
      PenaltySumAtMostLength(s1[..n], s2[..n]);
      var d := if s1[n] >= s2[n] then s1[n] - s2[n] else s2[n] - s1[n];
      assert d <= 255000;
      assert d as real / 255000.0 <= 1.0;
    }
  }

  lemma RealRatio(p: real, n: real)
    requires 0.0 <= p <= n && n > 0.0
    ensures 0.0 <= p / n <= 1.0
  {
    var q := p / n;
    assert q * n == p;
  }

  /** Missing or mismatched signatures score 0; signatures that agree
      within the cut-off everywhere (in particular identical ones) score
      100; gray-value signatures always score within [0, 100]. */
  lemma ImageSimilarityFacts(sig1: Option<seq<int>>, sig2: Option<seq<int>>)
    ensures sig1.None? || sig2.None? || |sig1.value| != |sig2.value| ==> ImageSimilarity(sig1, sig2) == Fin(0.0)
    ensures sig1.Some? && sig2.Some? && |sig1.value| == |sig2.value| > 0 && AllClose(sig1.value, sig2.value)
            ==> ImageSimilarity(sig1, sig2) == Fin(100.0)
    ensures sig1.Some? && sig1 == sig2 && |sig1.value| > 0 ==> ImageSimilarity(sig1, sig2) == Fin(100.0)
    ensures sig1.Some? && sig2.Some? && |sig1.value| == |sig2.value| > 0
            && GrayValues(sig1.value) && GrayValues(sig2.value)
            ==> ImageSimilarity(sig1, sig2).Fin? && 0.0 <= ImageSimilarity(sig1, sig2).r <= 100.0
  {
    if sig1.Some? && sig2.Some? && |sig1.value| == |sig2.value| > 0 {
      var s1, s2 := sig1.value, sig2.value;
      if AllClose(s1, s2) {
        PenaltySumZero(s1, s2);
      }
      if sig1 == sig2 {
        assert AllClose(s1, s2);
        PenaltySumZero(s1, s2);
      }
      if GrayValues(s1) && GrayValues(s2) {
        PenaltySumAtMostLength(s1, s2);
        RealRatio(PenaltySum(s1, s2), |s1| as real);
      }
    }
  }

  // ---------------------------------------------------------------------
  // Greedy clustering of image signatures around anchors

  /** `similarity >= threshold` on a JavaScript number: false for NaN. */
  predicate Passes(s: Num, threshold: real) { s.Fin? && s.r >= threshold }

  function Score(a: ImageEntry, b: ImageEntry): Num
  {
    ImageSimilarity(Some(a.signature), Some(b.signature))
  }

  /** The real value of a score (0 for NaN, which never passes a threshold). */
  function ScoreValue(s: Num): real { if s.Fin? then s.r else 0.0 }

  /** `Math.min` over 100 and the members' scores against the anchor. */
  function MinScore(es: seq<ImageEntry>, a: int, ms: seq<int>): real
    requires 0 <= a < |es|
    requires forall k :: 0 <= k < |ms| ==> 0 <= ms[k] < |es|
  {
    if ms == [] then 100.0
    else MinR(MinScore(es, a, ms[..|ms| - 1]), ScoreValue(Score(es[a], es[ms[|ms| - 1]])))
  }

  predicate DistinctPaths(es: seq<ImageEntry>)
  {
    forall i, j :: 0 <= i < j < |es| ==> es[i].path != es[j].path
  }

  /** The paths of all groups, in order. */
  function AllPaths(groups: seq<ImageGroup>): seq<string>
  {
    if groups == [] then [] else AllPaths(groups[..|groups| - 1]) + groups[|groups| - 1].paths
  }

  function Elems(s: seq<string>): set<string> { set x | x in s }

  /** The paths of the first i entries. */
  function PathsBefore(es: seq<ImageEntry>, i: nat): set<string>
    requires i <= |es|
  {
    if i == 0 then {} else PathsBefore(es, i - 1) + {es[i - 1].path}
  }

  /** Group g was formed around entry a: its first path is a's, every other
      path belongs to a later entry (listed by ascending position) that
      scored at least the threshold against a, and its similarity is the
      minimum of 100 and those scores. */
  ghost predicate Cluster(es: seq<ImageEntry>, threshold: real, a: int, ms: seq<int>, g: ImageGroup)
  {
    0 <= a < |es| && |g.paths| == |ms| + 1 && g.paths[0] == es[a].path
    && (forall k :: 0 <= k < |ms| ==>
          a < ms[k] < |es| && es[ms[k]].path == g.paths[k + 1] && Passes(Score(es[a], es[ms[k]]), threshold))
    && (forall k, k' :: 0 <= k < k' < |ms| ==> ms[k] < ms[k'])
    && g.similarity == MinScore(es, a, ms)
  }

  /** Every later entry that scores at least the threshold against entry a
      is in some group. */
  ghost predicate Absorbed(es: seq<ImageEntry>, threshold: real, a: int, groups: seq<ImageGroup>)
  {
    0 <= a < |es|
    && forall j :: a < j < |es| && Passes(Score(es[a], es[j]), threshold) ==> es[j].path in AllPaths(groups)
  }

  /** What `findImageDuplicates` promises of its groups. */
  ghost predicate GreedyClustering(es: seq<ImageEntry>, threshold: real, groups: seq<ImageGroup>)
  {
    (|es| <= 1 ==> groups == [])
    && Distinct(AllPaths(groups))
    && (forall i :: 0 <= i < |groups| ==> |groups[i].paths| >= 2 && Anchored(es, threshold, groups[i], groups))
    && (forall a :: 0 <= a < |es| && es[a].path !in AllPaths(groups) ==> Absorbed(es, threshold, a, groups))
  }

  /** Group g was formed around some anchor that absorbed all its passing successors. */
  ghost predicate Anchored(es: seq<ImageEntry>, threshold: real, g: ImageGroup, groups: seq<ImageGroup>)
  {
    exists a, ms :: Cluster(es, threshold, a, ms, g) && Absorbed(es, threshold, a, groups)
  }

  lemma AllPathsSnoc(groups: seq<ImageGroup>, g: ImageGroup)
    ensures AllPaths(groups + [g]) == AllPaths(groups) + g.paths
  {
    assert (groups + [g])[..|groups|] == groups;
  }

  lemma AbsorbedGrows(es: seq<ImageEntry>, threshold: real, a: int, groups: seq<ImageGroup>, g: ImageGroup)
    requires Absorbed(es, threshold, a, groups)
    ensures Absorbed(es, threshold, a, groups + [g])
  {
    AllPathsSnoc(groups, g);
  }

  lemma {:induction false} PathsBeforeExcludes(es: seq<ImageEntry>, i: nat, j: int)
    requires DistinctPaths(es) && i <= j < |es|
    ensures es[j].path !in PathsBefore(es, i)
  {
    if i > 0 {
      PathsBeforeExcludes(es, i - 1, j);
    }
  }

  lemma DistinctConcat(a: seq<string>, b: seq<string>)
    requires Distinct(a) && Distinct(b)
    requires forall x :: x in a ==> x !in b
    ensures Distinct(a + b)
  {
    forall i, j | 0 <= i < j < |a + b| ensures (a + b)[i] != (a + b)[j] {
      if j < |a| {
      } else if i >= |a| {
        assert (a + b)[i] == b[i - |a|] && (a + b)[j] == b[j - |a|];
      } else {
        assert (a + b)[i] == a[i] && (a + b)[j] == b[j - |a|];
        assert (a + b)[i] in a;
      }
    }
  }

  /** The state of `findImageDuplicates` before entry i: the groups kept so
      far were each formed around an earlier anchor and absorbed every
      passing entry after it, no path is in two groups, and `processed`
      holds the first i paths and every grouped path. */
  ghost predicate ClusterInv(es: seq<ImageEntry>, threshold: real, i: int, groups: seq<ImageGroup>,
                             processed: set<string>, anchors: seq<int>, memberLists: seq<seq<int>>)
  {
    0 <= i <= |es|
    && GroupsFormed(es, threshold, i, groups, anchors, memberLists)
    && AllAbsorbed(es, threshold, i, groups, anchors)
    && Covered(es, i, groups, processed)
    && (|es| <= 1 ==> groups == [])
  }

  /** Each group kept so far was formed around an anchor before i. */
  ghost predicate GroupsFormed(es: seq<ImageEntry>, threshold: real, i: int, groups: seq<ImageGroup>,
                               anchors: seq<int>, memberLists: seq<seq<int>>)
  {
    |anchors| == |groups| == |memberLists|
    && forall g :: 0 <= g < |groups| ==>
         (|groups[g].paths| >= 2 && anchors[g] < i && Cluster(es, threshold, anchors[g], memberLists[g], groups[g]))
  }

  /** Every anchor so far, and every entry before i left out of the groups,
      had all its passing successors absorbed. */
  ghost predicate AllAbsorbed(es: seq<ImageEntry>, threshold: real, i: int, groups: seq<ImageGroup>, anchors: seq<int>)
  {
    (forall g :: 0 <= g < |groups| && g < |anchors| ==> Absorbed(es, threshold, anchors[g], groups))
    && (forall a :: 0 <= a < i && a < |es| && es[a].path !in AllPaths(groups) ==> Absorbed(es, threshold, a, groups))
  }

  /** No path is in two groups; `processed` is the first i paths and the grouped ones. */
  ghost predicate Covered(es: seq<ImageEntry>, i: int, groups: seq<ImageGroup>, processed: set<string>)
  {
    0 <= i <= |es|
    && Distinct(AllPaths(groups))
    && processed == PathsBefore(es, i) + Elems(AllPaths(groups))
  }

  /** The state of the inner loop before entry j: the group anchored at i
      has taken, in order, the passing entries before j that were not yet
      processed, and `processed` has grown by exactly those paths. */
  ghost predicate GrowInv(es: seq<ImageEntry>, threshold: real, i: int, j: int, paths: seq<string>,
                          similarity: real, processed: set<string>, processed0: set<string>, ms: seq<int>)
  {
    0 <= i < |es| && i + 1 <= j <= |es|
    && |paths| == |ms| + 1 && paths[0] == es[i].path
    && (forall k :: 0 <= k < |ms| ==>
          i < ms[k] < j && es[ms[k]].path == paths[k + 1] && Passes(Score(es[i], es[ms[k]]), threshold))
    && (forall k, k' :: 0 <= k < k' < |ms| ==> ms[k] < ms[k'])
    && similarity == MinScore(es, i, ms)
    && processed == processed0 + Elems(paths[1..])
    && (forall x :: x in paths ==> x !in processed0)
    && Distinct(paths)
    && (forall jj :: i < jj < j && Passes(Score(es[i], es[jj]), threshold) ==> es[jj].path in processed)
    && |paths| <= j - i
  }

  lemma GrowStart(es: seq<ImageEntry>, threshold: real, i: int, processed0: set<string>)
    requires 0 <= i < |es| && es[i].path !in processed0
    ensures GrowInv(es, threshold, i, i + 1, [es[i].path], 100.0, processed0, processed0, [])
  {
    assert [es[i].path][1..] == [];
  }

  lemma GrowTake(es: seq<ImageEntry>, threshold: real, i: int, j: int, paths: seq<string>,
                 similarity: real, processed: set<string>, processed0: set<string>, ms: seq<int>)
    requires DistinctPaths(es)
    requires GrowInv(es, threshold, i, j, paths, similarity, processed, processed0, ms)
    requires j < |es| && es[j].path !in processed && Passes(Score(es[i], es[j]), threshold)
    ensures GrowInv(es, threshold, i, j + 1, paths + [es[j].path], MinR(similarity, Score(es[i], es[j]).r),
                    processed + {es[j].path}, processed0, ms + [j])
  {
    var paths' := paths + [es[j].path];
    var ms' := ms + [j];
    assert paths'[1..] == paths[1..] + [es[j].path];
    assert ms'[..|ms|] == ms;
    assert es[j].path !in paths by {
      assert paths[0] == es[i].path;
      assert forall x :: x in paths[1..] ==> x in processed;
    }
    DistinctConcat(paths, [es[j].path]);
  }

  lemma GrowSkip(es: seq<ImageEntry>, threshold: real, i: int, j: int, paths: seq<string>,
                 similarity: real, processed: set<string>, processed0: set<string>, ms: seq<int>)
    requires GrowInv(es, threshold, i, j, paths, similarity, processed, processed0, ms)
    requires j < |es| && (es[j].path in processed || !Passes(Score(es[i], es[j]), threshold))
    ensures GrowInv(es, threshold, i, j + 1, paths, similarity, processed, processed0, ms)
  {
  }

  /** The inner loop of `findImageDuplicates` with entry i as anchor, after
      the entries before j: the group's paths, its similarity, the
      processed set, and the positions of the members taken. */
  datatype GrowState = GrowState(paths: seq<string>, similarity: real, processed: set<string>, members: seq<int>)

  function Grow(es: seq<ImageEntry>, threshold: real, i: int, processed0: set<string>, j: int): GrowState
    requires 0 <= i < |es| && i + 1 <= j <= |es|
    decreases j
  {
    if j == i + 1 then GrowState([es[i].path], 100.0, processed0, [])
    else
      var st := Grow(es, threshold, i, processed0, j - 1);
      var k := j - 1;
      if es[k].path !in st.processed && Passes(Score(es[i], es[k]), threshold) then
        GrowState(st.paths + [es[k].path], MinR(st.similarity, Score(es[i], es[k]).r),
                  st.processed + {es[k].path}, st.members + [k])
      else st
  }

  /** The outer loop of `findImageDuplicates` after the first i entries:
      the groups kept, the processed set, and each group's anchor and
      member positions. */
  datatype ClusterState = ClusterState(groups: seq<ImageGroup>, processed: set<string>,
                                       anchors: seq<int>, memberLists: seq<seq<int>>)

  function Greedy(es: seq<ImageEntry>, threshold: real, i: int): ClusterState
    requires 0 <= i <= |es|
    decreases i
  {
    if i == 0 then ClusterState([], {}, [], [])
    else
      var st := Greedy(es, threshold, i - 1);
      var a := i - 1;
      if es[a].path in st.processed then st
      else
        var g := Grow(es, threshold, a, st.processed, |es|);
        if |g.paths| > 1 then
          ClusterState(st.groups + [ImageGroup(g.paths, g.similarity)], g.processed + {es[a].path},
                       st.anchors + [a], st.memberLists + [g.members])
        else ClusterState(st.groups, g.processed + {es[a].path}, st.anchors, st.memberLists)
  }

  /** `findImageDuplicates` after its size check: one pass over the entries
      in insertion order; each entry not yet taken anchors a group that
      takes every later untaken entry scoring at least the threshold
      against it; groups of one are dropped. */
  method ClusterImages(entries: seq<ImageEntry>, threshold: real) returns (groups: seq<ImageGroup>)
    requires DistinctPaths(entries)
    ensures groups == Greedy(entries, threshold, |entries|).groups
    ensures GreedyClustering(entries, threshold, groups)
  {
    groups := [];
    var processed: set<string> := {};
    var i := 0;
    while i < |entries|
      invariant 0 <= i <= |entries|
      invariant groups == Greedy(entries, threshold, i).groups
      invariant processed == Greedy(entries, threshold, i).processed
    {
      if entries[i].path !in processed {
        var paths, similarity, processed' := GrowGroup(entries, threshold, i, processed);
        if |paths| > 1 {
          groups := groups + [ImageGroup(paths, similarity)];
        }
        processed := processed' + {entries[i].path};
      }
      i := i + 1;
    }
    GreedyIsClustering(entries, threshold);
  }

  /** The inner loop of `findImageDuplicates`: entry i anchors a group and
      takes, in order, every later entry not yet processed whose score
      against it reaches the threshold. */
  method GrowGroup(entries: seq<ImageEntry>, threshold: real, i: int, processed0: set<string>)
    returns (paths: seq<string>, similarity: real, processed: set<string>)
    requires 0 <= i < |entries|
    ensures paths == Grow(entries, threshold, i, processed0, |entries|).paths
    ensures similarity == Grow(entries, threshold, i, processed0, |entries|).similarity
    ensures processed == Grow(entries, threshold, i, processed0, |entries|).processed
  {
    paths := [entries[i].path];
    similarity := 100.0;
    processed := processed0;
    ghost var ms: seq<int> := [];
    var j := i + 1;
    while j < |entries|
      invariant i + 1 <= j <= |entries|
      invariant GrowState(paths, similarity, processed, ms) == Grow(entries, threshold, i, processed0, j)
    {
      if entries[j].path !in processed {
        var s := CalculateImageSimilarity(Some(entries[i].signature), Some(entries[j].signature));
        if s.Fin? && s.r >= threshold {
          paths := paths + [entries[j].path];
          similarity := MinR(similarity, s.r);
          processed := processed + {entries[j].path};
          ms := ms + [j];
        }
      }
      j := j + 1;
    }
  }

  lemma {:induction false} GrowKeepsInv(es: seq<ImageEntry>, threshold: real, i: int, processed0: set<string>, j: int)
    requires DistinctPaths(es) && 0 <= i < |es| && i + 1 <= j <= |es| && es[i].path !in processed0
    ensures var g := Grow(es, threshold, i, processed0, j);
      GrowInv(es, threshold, i, j, g.paths, g.similarity, g.processed, processed0, g.members)
    decreases j
  {
    if j == i + 1 {
      GrowStart(es, threshold, i, processed0);
    } else {
      GrowKeepsInv(es, threshold, i, processed0, j - 1);
      var st := Grow(es, threshold, i, processed0, j - 1);
      var k := j - 1;
      if es[k].path !in st.processed && Passes(Score(es[i], es[k]), threshold) {
        GrowTake(es, threshold, i, k, st.paths, st.similarity, st.processed, processed0, st.members);
      } else {
        GrowSkip(es, threshold, i, k, st.paths, st.similarity, st.processed, processed0, st.members);
      }
    }
  }

  lemma {:induction false} GreedyKeepsInv(es: seq<ImageEntry>, threshold: real, i: int)
    requires DistinctPaths(es) && 0 <= i <= |es|
    ensures var st := Greedy(es, threshold, i);
      ClusterInv(es, threshold, i, st.groups, st.processed, st.anchors, st.memberLists)
    decreases i
  {
    if i == 0 {
      assert AllPaths([]) == [];
    } else {
      var a := i - 1;
      GreedyKeepsInv(es, threshold, a);
      GreedyStep(es, threshold, a, Greedy(es, threshold, a));
    }
  }

  /** One anchor of the outer loop keeps the invariant. */
  lemma GreedyStep(es: seq<ImageEntry>, threshold: real, a: int, st: ClusterState)
    requires DistinctPaths(es) && 0 <= a < |es| && st == Greedy(es, threshold, a)
    requires ClusterInv(es, threshold, a, st.groups, st.processed, st.anchors, st.memberLists)
    ensures var st' := Greedy(es, threshold, a + 1);
      ClusterInv(es, threshold, a + 1, st'.groups, st'.processed, st'.anchors, st'.memberLists)
  {
    if es[a].path in st.processed {
      assert Greedy(es, threshold, a + 1) == st;
      ClusterSkip(es, threshold, a, st.groups, st.processed, st.anchors, st.memberLists);
    } else {
      var g := Grow(es, threshold, a, st.processed, |es|);
      GrowKeepsInv(es, threshold, a, st.processed, |es|);
      if |g.paths| > 1 {
        assert Greedy(es, threshold, a + 1)
          == ClusterState(st.groups + [ImageGroup(g.paths, g.similarity)], g.processed + {es[a].path},
                          st.anchors + [a], st.memberLists + [g.members]);
        ClusterKeep(es, threshold, a, st.groups, st.processed, st.anchors, st.memberLists,
                    ImageGroup(g.paths, g.similarity), g.processed, g.members);
      } else {
        assert Greedy(es, threshold, a + 1)
          == ClusterState(st.groups, g.processed + {es[a].path}, st.anchors, st.memberLists);
        ClusterDrop(es, threshold, a, st.groups, st.processed, st.anchors, st.memberLists,
                    g.paths, g.similarity, g.processed, g.members);
      }
    }
  }

  /** The greedy pass meets every promise of `findImageDuplicates`. */
  lemma GreedyIsClustering(es: seq<ImageEntry>, threshold: real)
    requires DistinctPaths(es)
    ensures GreedyClustering(es, threshold, Greedy(es, threshold, |es|).groups)
  {
    GreedyKeepsInv(es, threshold, |es|);
    var st := Greedy(es, threshold, |es|);
    ClusterDone(es, threshold, st.groups, st.processed, st.anchors, st.memberLists);
  }

  lemma ClusterSkip(es: seq<ImageEntry>, threshold: real, i: int, groups: seq<ImageGroup>,
                    processed: set<string>, anchors: seq<int>, memberLists: seq<seq<int>>)
    requires DistinctPaths(es)
    requires ClusterInv(es, threshold, i, groups, processed, anchors, memberLists)
    requires i < |es| && es[i].path in processed
    ensures ClusterInv(es, threshold, i + 1, groups, processed, anchors, memberLists)
  {
    PathsBeforeExcludes(es, i, i);
    assert es[i].path in AllPaths(groups);
  }

  /** After the inner loop of anchor i: every later passing entry is
      grouped already or was taken into the new group. */
  lemma AfterGrow(es: seq<ImageEntry>, threshold: real, i: int, groups: seq<ImageGroup>,
                  before: set<string>, paths: seq<string>, similarity: real, processed: set<string>, ms: seq<int>)
    requires DistinctPaths(es)
    requires Covered(es, i, groups, before) && i < |es|
    requires GrowInv(es, threshold, i, |es|, paths, similarity, processed, before, ms)
    ensures forall j :: i < j < |es| && Passes(Score(es[i], es[j]), threshold) ==>
              es[j].path in AllPaths(groups) || es[j].path in paths[1..]
  {
    forall j | i < j < |es| && Passes(Score(es[i], es[j]), threshold)
      ensures es[j].path in AllPaths(groups) || es[j].path in paths[1..]
    {
      PathsBeforeExcludes(es, i, j);
    }
  }

  lemma ClusterDrop(es: seq<ImageEntry>, threshold: real, i: int, groups: seq<ImageGroup>,
                    before: set<string>, anchors: seq<int>, memberLists: seq<seq<int>>,
                    paths: seq<string>, similarity: real, processed: set<string>, ms: seq<int>)
    requires DistinctPaths(es)
    requires ClusterInv(es, threshold, i, groups, before, anchors, memberLists)
    requires GrowInv(es, threshold, i, |es|, paths, similarity, processed, before, ms)
    requires |paths| <= 1
    ensures ClusterInv(es, threshold, i + 1, groups, processed + {es[i].path}, anchors, memberLists)
  {
    assert paths[1..] == [];
    assert processed == before;
    AfterGrow(es, threshold, i, groups, before, paths, similarity, processed, ms);
    assert Absorbed(es, threshold, i, groups);
  }

  lemma ClusterKeep(es: seq<ImageEntry>, threshold: real, i: int, groups: seq<ImageGroup>,
                    before: set<string>, anchors: seq<int>, memberLists: seq<seq<int>>,
                    group: ImageGroup, processed: set<string>, ms: seq<int>)
    requires DistinctPaths(es)
    requires ClusterInv(es, threshold, i, groups, before, anchors, memberLists)
    requires GrowInv(es, threshold, i, |es|, group.paths, group.similarity, processed, before, ms)
    requires |group.paths| > 1
    ensures ClusterInv(es, threshold, i + 1, groups + [group], processed + {es[i].path},
                       anchors + [i], memberLists + [ms])
  {
    KeepFormed(es, threshold, i, groups, before, anchors, memberLists, group, processed, ms);
    KeepCovered(es, threshold, i, groups, before, group, processed, ms);
    KeepAbsorbed(es, threshold, i, groups, before, anchors, group, processed, ms);
  }

  lemma KeepFormed(es: seq<ImageEntry>, threshold: real, i: int, groups: seq<ImageGroup>,
                   before: set<string>, anchors: seq<int>, memberLists: seq<seq<int>>,
                   group: ImageGroup, processed: set<string>, ms: seq<int>)
    requires GroupsFormed(es, threshold, i, groups, anchors, memberLists)
    requires GrowInv(es, threshold, i, |es|, group.paths, group.similarity, processed, before, ms)
    requires |group.paths| > 1
    ensures GroupsFormed(es, threshold, i + 1, groups + [group], anchors + [i], memberLists + [ms])
  {
    assert Cluster(es, threshold, i, ms, group);
  }

  lemma KeepCovered(es: seq<ImageEntry>, threshold: real, i: int, groups: seq<ImageGroup>,
                    before: set<string>, group: ImageGroup, processed: set<string>, ms: seq<int>)
    requires Covered(es, i, groups, before) && i < |es|
    requires GrowInv(es, threshold, i, |es|, group.paths, group.similarity, processed, before, ms)
    ensures Covered(es, i + 1, groups + [group], processed + {es[i].path})
  {
    AllPathsSnoc(groups, group);
    DistinctConcat(AllPaths(groups), group.paths);
    assert Elems(group.paths) == {es[i].path} + Elems(group.paths[1..]);
  }

  lemma KeepAbsorbed(es: seq<ImageEntry>, threshold: real, i: int, groups: seq<ImageGroup>,
                     before: set<string>, anchors: seq<int>,
                     group: ImageGroup, processed: set<string>, ms: seq<int>)
    requires DistinctPaths(es)
    requires AllAbsorbed(es, threshold, i, groups, anchors) && |anchors| == |groups|
    requires Covered(es, i, groups, before) && i < |es|
    requires GrowInv(es, threshold, i, |es|, group.paths, group.similarity, processed, before, ms)
    ensures AllAbsorbed(es, threshold, i + 1, groups + [group], anchors + [i])
  {
    var groups' := groups + [group];
    AllPathsSnoc(groups, group);
    AfterGrow(es, threshold, i, groups, before, group.paths, group.similarity, processed, ms);
    assert Absorbed(es, threshold, i, groups');
    forall g | 0 <= g < |groups| ensures Absorbed(es, threshold, anchors[g], groups') {
      AbsorbedGrows(es, threshold, anchors[g], groups, group);
    }
    forall a | 0 <= a < i && es[a].path !in AllPaths(groups') ensures Absorbed(es, threshold, a, groups') {
      AbsorbedGrows(es, threshold, a, groups, group);
    }
  }

  lemma ClusterDone(es: seq<ImageEntry>, threshold: real, groups: seq<ImageGroup>,
                    processed: set<string>, anchors: seq<int>, memberLists: seq<seq<int>>)
    requires ClusterInv(es, threshold, |es|, groups, processed, anchors, memberLists)
    ensures GreedyClustering(es, threshold, groups)
  {
    forall g | 0 <= g < |groups|
      ensures |groups[g].paths| >= 2 && Anchored(es, threshold, groups[g], groups)
    {
      assert g < |anchors|;
      assert Cluster(es, threshold, anchors[g], memberLists[g], groups[g]);
      assert Absorbed(es, threshold, anchors[g], groups);
    }
  }

  // ---------------------------------------------------------------------
  // Groups, keys and the walk: what the source promises

  /** `findFilenameDuplicates` lists exactly the names filed more than once,
      each once, with the paths in the order they were filed and the size
      of the first file. */
  lemma NameGroupsExact(names: Multi<FileInfo>)
    requires Valid(names)
    ensures forall i :: 0 <= i < |NameGroups(names)| ==>
      NameGroups(names)[i].name in names.entries
      && |names.entries[NameGroups(names)[i].name]| > 1
      && NameGroups(names)[i].paths == PathsOf(names.entries[NameGroups(names)[i].name])
      && NameGroups(names)[i].size == names.entries[NameGroups(names)[i].name][0].size
    ensures forall k :: k in names.entries && |names.entries[k]| > 1 ==> HasName(NameGroups(names), k)
    ensures forall i, j :: 0 <= i < j < |NameGroups(names)| ==> NameGroups(names)[i].name != NameGroups(names)[j].name
  {
    GroupsExact(names);
    var gs := Groups(names);
    forall k | k in names.entries && |names.entries[k]| > 1 ensures HasName(NameGroups(names), k) {
      var i :| 0 <= i < |gs| && gs[i].0 == k;
      assert NameGroups(names)[i].name == k;
    }
  }

  predicate HasName(gs: seq<NameGroup>, k: string)
  {
    exists i :: 0 <= i < |gs| && gs[i].name == k
  }

  /** `findContentDuplicates` lists exactly the arrays of the keys filed more
      than once, each key once, in insertion order. */
  lemma ContentGroupsExact(contents: Multi<ContentInfo>)
    requires Valid(contents)
    ensures forall i :: 0 <= i < |ContentGroups(contents)| ==>
      Groups(contents)[i].0 in contents.entries && |ContentGroups(contents)[i]| > 1
      && ContentGroups(contents)[i] == contents.entries[Groups(contents)[i].0]
    ensures forall k :: k in contents.entries && |contents.entries[k]| > 1 ==> HasKey(Groups(contents), k)
    ensures forall i, j :: 0 <= i < j < |Groups(contents)| ==> Groups(contents)[i].0 != Groups(contents)[j].0
  {
    GroupsExact(contents);
  }

  /** Files whose bytes cannot be read and that agree in name and size
      share one content key, so they are reported as duplicates of each
      other. */
  lemma UnreadableFilesShareKey(digest: seq<Byte> -> seq<Byte>, f: Node, g: Node)
    requires f.File? && g.File? && f.content.None? && g.content.None?
    requires f.name == g.name && f.size == g.size
    ensures ContentKey(digest, f) == ContentKey(digest, g)
  {
  }

  /** The fallback key never collides with a real digest: its second
      character 'r' is not a hexadecimal digit. */
  lemma ErrorKeyIsNotADigest(digest: seq<Byte> -> seq<Byte>, f: Node, bytes: seq<Byte>)
    requires f.File? && f.content.None?
    ensures ContentKey(digest, f) != HexEncode(digest(bytes))
  {
    var key := ContentKey(digest, f);
    var hex := HexEncode(digest(bytes));
    assert key[1] == 'r';
    if |hex| > 1 {
      assert IsHexDigit(hex[1]);
    }
  }

  /** A file that cannot be opened or is skipped leaves the maps and
      `bytesScanned` alone, yet is still counted in `filesScanned`. */
  lemma SkippedFileIsOnlyCounted(ix: Index, env: Env, f: Node, path: string)
    requires f.File? && (!f.opens || ShouldSkipFile(f.name))
    ensures FileStep(ix, env, f, path)
         == ix.(filesScanned := ix.filesScanned + 1, running := ix.running && !env.interrupt(ix.filesScanned))
  {
  }

  /** Once `running` is false the walk touches nothing. */
  lemma StoppedWalkChangesNothing(ix: Index, env: Env, d: Node, parentPath: string)
    requires d.Dir? && !ix.running
    ensures Walk(ix, env, d, parentPath) == ix
  {
  }

  /** Where the `stop()` that ended a walk from `ix` to `r` landed: while
      the last file counted was processed, or while the last listing was
      read (one that threw, leaving `dirsScanned` as it was, or one that
      was counted). */
  ghost predicate StoppedAtEnd(env: Env, ix: Index, r: Index)
  {
    (r.filesScanned > ix.filesScanned && env.interrupt(r.filesScanned - 1))
    || env.listingInterrupt(r.filesScanned, r.dirsScanned)
    || (r.dirsScanned > ix.dirsScanned && env.listingInterrupt(r.filesScanned, r.dirsScanned - 1))
  }

  /** `running` turns false only through a `stop()` during the last file
      counted or the last listing read: every earlier file was processed
      with the scanner running, and nothing is processed after the stop. */
  lemma {:induction false} StopIsFinal(ix: Index, env: Env, d: Node, parentPath: string)
    requires d.Dir?
    ensures var r := Walk(ix, env, d, parentPath);
      (forall k :: ix.filesScanned <= k < r.filesScanned - 1 ==> !env.interrupt(k))
      && (r.running ==> forall k :: ix.filesScanned <= k < r.filesScanned ==> !env.interrupt(k))
      && (ix.running && !r.running ==> StoppedAtEnd(env, ix, r))
    decreases d, 1
  {
    if ix.running && !d.listingFails {
      var ix1 := Listed(ix, env);
      var ix2 := ix1.(dirsScanned := ix1.dirsScanned + 1);
      StopIsFinalEntries(ix2, env, d, 0, parentPath);
      if !ix1.running {
        StoppedEntriesChangeNothing(ix2, env, d, 0, parentPath);
      }
    }
  }

  lemma {:induction false} StopIsFinalEntries(ix: Index, env: Env, d: Node, i: nat, parentPath: string)
    requires d.Dir? && i <= |d.entries|
    ensures var r := WalkEntries(ix, env, d, i, parentPath);
      (forall k :: ix.filesScanned <= k < r.filesScanned - 1 ==> !env.interrupt(k))
      && (r.running ==> forall k :: ix.filesScanned <= k < r.filesScanned ==> !env.interrupt(k))
      && (ix.running && !r.running ==> StoppedAtEnd(env, ix, r))
    decreases d, 0, |d.entries| - i
  {
    if i < |d.entries| && ix.running {
      var e := d.entries[i];
      var path := JoinPath(parentPath, e.name);
      var ix' := if e.File? then FileStep(ix, env, e, path) else Walk(ix, env, e, path);
      if e.Dir? {
        StopIsFinal(ix, env, e, path);
      }
      StopIsFinalEntries(ix', env, d, i + 1, parentPath);
      if !ix'.running {
        StoppedEntriesChangeNothing(ix', env, d, i + 1, parentPath);
      }
    }
  }

  lemma StoppedEntriesChangeNothing(ix: Index, env: Env, d: Node, i: nat, parentPath: string)
    requires d.Dir? && i <= |d.entries| && !ix.running
    ensures WalkEntries(ix, env, d, i, parentPath) == ix
  {
  }

  /** The number of file entries the walk reaches: those of every directory
      whose listing succeeds. */
  function FileCount(d: Node): nat
    requires d.Dir?
    decreases d, 1
  {
    if d.listingFails then 0 else EntriesFileCount(d, 0)
  }

  function EntriesFileCount(d: Node, i: nat): nat
    requires d.Dir? && i <= |d.entries|
    decreases d, 0, |d.entries| - i
  {
    if i == |d.entries| then 0
    else (if d.entries[i].File? then 1 else FileCount(d.entries[i])) + EntriesFileCount(d, i + 1)
  }

  /** The number of directories whose listing succeeds. */
  function DirCount(d: Node): nat
    requires d.Dir?
    decreases d, 1
  {
    if d.listingFails then 0 else 1 + EntriesDirCount(d, 0)
  }

  function EntriesDirCount(d: Node, i: nat): nat
    requires d.Dir? && i <= |d.entries|
    decreases d, 0, |d.entries| - i
  {
    if i == |d.entries| then 0
    else (if d.entries[i].File? then 0 else DirCount(d.entries[i])) + EntriesDirCount(d, i + 1)
  }

  /** Without `stop()`, a walk visits every reachable file and directory:
      `filesScanned` grows by one per file entry, skipped or failed, and
      `dirsScanned` by one per directory whose listing succeeds. */
  lemma {:induction false} UninterruptedWalkCounts(ix: Index, env: Env, d: Node, parentPath: string)
    requires d.Dir? && ix.running && forall k :: !env.interrupt(k)
    requires forall f, k :: !env.listingInterrupt(f, k)
    ensures var r := Walk(ix, env, d, parentPath);
      r.running && r.filesScanned == ix.filesScanned + FileCount(d) && r.dirsScanned == ix.dirsScanned + DirCount(d)
    decreases d, 1
  {
    if !d.listingFails {
      assert Listed(ix, env) == ix;
      UninterruptedEntriesCount(ix.(dirsScanned := ix.dirsScanned + 1), env, d, 0, parentPath);
    }
  }

  lemma {:induction false} UninterruptedEntriesCount(ix: Index, env: Env, d: Node, i: nat, parentPath: string)
    requires d.Dir? && i <= |d.entries| && ix.running && forall k :: !env.interrupt(k)
    requires forall f, k :: !env.listingInterrupt(f, k)
    ensures var r := WalkEntries(ix, env, d, i, parentPath);
      r.running && r.filesScanned == ix.filesScanned + EntriesFileCount(d, i)
      && r.dirsScanned == ix.dirsScanned + EntriesDirCount(d, i)
    decreases d, 0, |d.entries| - i
  {
    if i < |d.entries| {
      var e := d.entries[i];
      var path := JoinPath(parentPath, e.name);
      var ix' := if e.File? then FileStep(ix, env, e, path) else Walk(ix, env, e, path);
      if e.Dir? {
        UninterruptedWalkCounts(ix, env, e, path);
      }
      UninterruptedEntriesCount(ix', env, d, i + 1, parentPath);
    }
  }

  /** Stored image entries have distinct paths, as the clustering needs. */
  lemma StoredImagesHaveDistinctPaths(ix: Index)
    requires IndexValid(ix)
    ensures DistinctPaths(Values(ix.images))
  {
    var vs := Values(ix.images);
    forall i, j | 0 <= i < j < |vs| ensures vs[i].path != vs[j].path {
      assert vs[i].path == ix.images.order[i] && vs[j].path == ix.images.order[j];
    }
  }

  /** `this.results` after `scan`: each kind of group the options ask for,
      none of the others. */
  function Findings(ix: Index, opts: Options): Report
    requires forall k :: k in ix.names.order ==> k in ix.names.entries
    requires forall k :: k in ix.contents.order ==> k in ix.contents.entries
    requires forall k :: k in ix.images.order ==> k in ix.images.entries
  {
    Report(if opts.checkFilenames then NameGroups(ix.names) else [],
           if opts.checkContents then ContentGroups(ix.contents) else [],
           if opts.checkImages then Greedy(Values(ix.images), opts.imageSimilarityThreshold, |ix.images.order|).groups
           else [])
  }

  // ---------------------------------------------------------------------
  // The scanner object

  class Scanner {
    const options: Options
    /** `crypto.subtle.digest('SHA-256', ·)`. */
    const digest: seq<Byte> -> seq<Byte>
    var filenameMap: map<string, seq<FileInfo>>
    var filenameOrder: seq<string>
    var contentMap: map<string, seq<ContentInfo>>
    var contentOrder: seq<string>
    var imageSignatures: map<string, ImageEntry>
    var imageOrder: seq<string>
    var filesScanned: nat
    var bytesScanned: nat
    var dirsScanned: nat
    var results: Report
    var running: bool

    function State(): Index
      reads this
    {
      Index(Multi(filenameMap, filenameOrder), Multi(contentMap, contentOrder),
            Ordered(imageSignatures, imageOrder), filesScanned, bytesScanned, dirsScanned, running)
    }

    ghost predicate Valid()
      reads this
    {
      IndexValid(State())
    }

    constructor(overrides: OptionOverrides, digest: seq<Byte> -> seq<Byte>)
      ensures options == MergeOptions(overrides) && this.digest == digest
      ensures State() == Index(Empty(), Empty(), Ordered(map[], []), 0, 0, 0, false)
      ensures results == Report([], [], [])
      ensures Valid()
    {
      options := MergeOptions(overrides);
      this.digest := digest;
      filenameMap, filenameOrder := map[], [];
      contentMap, contentOrder := map[], [];
      imageSignatures, imageOrder := map[], [];
      filesScanned, bytesScanned, dirsScanned := 0, 0, 0;
      results := Report([], [], []);
      running := false;
    }

    /** `scan(root)`: clear the maps and results, walk the tree, build the
        groups the options ask for; `running` is false afterwards. */
    method Scan(root: Node, interrupt: nat -> bool, listingInterrupt: (nat, nat) -> bool) returns (outcome: ScanOutcome)
      requires root.Dir?
      modifies this
      ensures Valid() && !running
      ensures var walked := Walk(Cleared(old(State())), Env(options, digest, interrupt, listingInterrupt), root, "");
        State() == walked.(running := false) && results == Findings(walked, options)
      ensures outcome == ScanOutcome(results, filesScanned, bytesScanned, dirsScanned)
    {
      Reset();
      ScanDirectory(root, "", interrupt, listingInterrupt);
      WalkKeepsValid(Cleared(old(State())), Env(options, digest, interrupt, listingInterrupt), root, "");
      FindDuplicates();
      outcome := ScanOutcome(results, filesScanned, bytesScanned, dirsScanned);
      running := false;
    }

    /** The start of `scan`: set `running`, empty the three maps and the results. */
    method Reset()
      modifies this
      ensures State() == Cleared(old(State()))
      ensures results == Report([], [], [])
    {
      running := true;
      filenameMap, filenameOrder := map[], [];
      contentMap, contentOrder := map[], [];
      imageSignatures, imageOrder := map[], [];
      results := Report([], [], []);
      assert State() == old(State()).(names := Empty(), contents := Empty(), images := Ordered(map[], []), running := true);
    }

    /** The end of `scan`: the `find*Duplicates` calls the options ask for. */
    method FindDuplicates()
      requires Valid() && results == Report([], [], [])
      modifies this
      ensures State() == old(State())
      ensures results == Findings(State(), options)
    {
      if options.checkFilenames {
        FindFilenameDuplicates();
      }
      if options.checkContents {
        FindContentDuplicates();
      }
      if options.checkImages {
        FindImageDuplicates();
      }
    }

    /** `scanDirectory(d, parentPath)`. The listing is read before anything
        is counted, so a listing that throws leaves the state as it was. */
    method ScanDirectory(d: Node, parentPath: string, interrupt: nat -> bool, listingInterrupt: (nat, nat) -> bool)
      requires d.Dir?
      modifies this
      ensures State() == Walk(old(State()), Env(options, digest, interrupt, listingInterrupt), d, parentPath)
      ensures results == old(results)
      decreases d, 1
    {
      if !running {
        return;
      }
      if listingInterrupt(filesScanned, dirsScanned) {
        // the page called stop() while the listing was read
        Stop();
      }
      if d.listingFails {
        return;
      }
      dirsScanned := dirsScanned + 1;
      ghost var env := Env(options, digest, interrupt, listingInterrupt);
      ghost var target := WalkEntries(State(), env, d, 0, parentPath);
      var i := 0;
      while i < |d.entries|
        invariant 0 <= i <= |d.entries|
        invariant WalkEntries(State(), env, d, i, parentPath) == target
        invariant results == old(results)
      {
        if !running {
          break;
        }
        var entry := d.entries[i];
        ScanEntry(entry, JoinPath(parentPath, entry.name), interrupt, listingInterrupt);
        i := i + 1;
      }
    }

    /** The body of the directory loop for one entry: a file is processed
        and counted, a directory is walked. */
    method ScanEntry(entry: Node, path: string, interrupt: nat -> bool, listingInterrupt: (nat, nat) -> bool)
      modifies this
      ensures State() == (if entry.File? then FileStep(old(State()), Env(options, digest, interrupt, listingInterrupt), entry, path)
                          else Walk(old(State()), Env(options, digest, interrupt, listingInterrupt), entry, path))
      ensures results == old(results)
      decreases entry, 2
    {
      if entry.File? {
        ProcessFile(entry, path);
        if interrupt(filesScanned) {
          // the page called stop() while this file was being processed
          Stop();
        }
        filesScanned := filesScanned + 1;
      } else {
        ScanDirectory(entry, path, interrupt, listingInterrupt);
      }
    }

    /** `processFile(f, path)`. */
    method ProcessFile(f: Node, path: string)
      requires f.File?
      modifies this
      ensures State() == ProcessFileSpec(old(State()), options, digest, f, path)
      ensures results == old(results)
    {
      if !f.opens {
        // getFile() rejected: the error is only logged
        return;
      }
      if ShouldSkipFile(f.name) {
        return;
      }
      bytesScanned := bytesScanned + f.size;
      if options.checkFilenames {
        AddToFilenameMap(f.name, FileInfo(path, f.size));
      }
      if options.checkContents {
        ProcessFileContent(f, path);
      }
      if options.checkImages && IsImageFile(f.name) {
        ProcessImageFile(f, path);
      }
    }

    /** `addToFilenameMap(filename, info)`: file the entry under the last
        '/'-segment of the name, at the end of that key's list. */
    method AddToFilenameMap(filename: string, info: FileInfo)
      modifies this
      ensures State() == AddToFilenameMapSpec(old(State()), filename, info)
      ensures results == old(results)
    {
      var baseName := FilenameKey(filename);
      if baseName !in filenameMap {
        filenameMap := filenameMap[baseName := [info]];
        filenameOrder := filenameOrder + [baseName];
      } else {
        filenameMap := filenameMap[baseName := filenameMap[baseName] + [info]];
      }
    }

    /** `processFileContent(f, path)`: file `{path, name, size}` under the content key. */
    method ProcessFileContent(f: Node, path: string)
      requires f.File?
      modifies this
      ensures State() == ProcessFileContentSpec(old(State()), digest, f, path)
      ensures results == old(results)
    {
      var hash := CalculateFileHash(f);
      if hash !in contentMap {
        contentMap := contentMap[hash := []];
        contentOrder := contentOrder + [hash];
      }
      contentMap := contentMap[hash := contentMap[hash] + [ContentInfo(path, f.name, f.size)]];
    }

    /** `calculateFileHash(f)`: hex digest of the bytes, or the fallback key
        when reading them fails. */
    method CalculateFileHash(f: Node) returns (hash: string)
      requires f.File?
      ensures hash == ContentKey(digest, f)
      ensures f.content.Some? ==> |hash| == 2 * |digest(f.content.value)|
      ensures f.content.None? ==> StartsWith(hash, "error-hash-")
    {
      match f.content {
        case Some(bytes) =>
          hash := HexEncode(digest(bytes));
        case None =>
          hash := "error-hash-" + f.name + "-" + NatToString(f.size);
      }
    }

    /** `processImageFile(f, path)`: images above 20 MiB, of another MIME
        type, or that cannot be decoded get no signature; otherwise the
        signature is stored under the path (replacing an older one). */
    method ProcessImageFile(f: Node, path: string)
      requires f.File?
      modifies this
      ensures State() == ProcessImageFileSpec(old(State()), f, path)
      ensures results == old(results)
    {
      if f.size > MaxImageBytes {
        return;
      }
      if f.mimeType in SignatureMimeTypes {
        var signature := CalculateImageSignature(f.thumbnail);
        if signature.None? {
          return;
        }
        if path !in imageSignatures {
          imageOrder := imageOrder + [path];
        }
        imageSignatures := imageSignatures[path := ImageEntry(signature.value, path, f.name, f.size)];
      }
    }

    /** The gray-value loop of `calculateImageSignature`, from the decoded
        thumbnail (None when the image cannot be loaded). */
    method CalculateImageSignature(thumbnail: Option<seq<Pixel>>) returns (signature: Option<seq<int>>)
      ensures thumbnail.None? <==> signature.None?
      ensures thumbnail.Some? ==> signature.value == ThumbnailSignature(thumbnail.value)
    {
      if thumbnail.None? {
        return None;
      }
      var pixels := thumbnail.value;
      var values: seq<int> := [];
      for i := 0 to |pixels|
        invariant values == ThumbnailSignature(pixels[..i])
      {
        values := values + [Luma(pixels[i])];
      }
      assert pixels[..|pixels|] == pixels;
      signature := Some(values);
    }

    /** `findFilenameDuplicates()`. */
    method FindFilenameDuplicates()
      requires Valid()
      modifies this
      ensures State() == old(State()) && Valid()
      ensures results == old(results).(duplicateFilenames := NameGroups(State().names))
    {
      var duplicates: seq<NameGroup> := [];
      var i := 0;
      while i < |filenameOrder|
        invariant 0 <= i <= |filenameOrder|
        invariant forall k :: k in filenameOrder[..i] ==> k in filenameMap
        invariant duplicates == ToNameGroups(GroupsOf(filenameMap, filenameOrder[..i]))
        modifies {}
      {
        var filename := filenameOrder[i];
        var files := filenameMap[filename];
        GroupsOfSnoc(filenameMap, filenameOrder[..i], filename);
        assert filenameOrder[..i + 1] == filenameOrder[..i] + [filename];
        if |files| > 1 {
          duplicates := duplicates + [NameGroup(filename, PathsOf(files), if |files| > 0 then files[0].size else 0)];
        }
        i := i + 1;
      }
      assert filenameOrder[..i] == filenameOrder;
      results := results.(duplicateFilenames := duplicates);
    }

    /** `findContentDuplicates()`. */
    method FindContentDuplicates()
      requires Valid()
      modifies this
      ensures State() == old(State()) && Valid()
      ensures results == old(results).(duplicateContents := ContentGroups(State().contents))
    {
      var duplicates: seq<seq<ContentInfo>> := [];
      var i := 0;
      while i < |contentOrder|
        invariant 0 <= i <= |contentOrder|
        invariant forall k :: k in contentOrder[..i] ==> k in contentMap
        invariant duplicates == ToContentGroups(GroupsOf(contentMap, contentOrder[..i]))
        modifies {}
      {
        var hash := contentOrder[i];
        var files := contentMap[hash];
        GroupsOfSnoc(contentMap, contentOrder[..i], hash);
        assert contentOrder[..i + 1] == contentOrder[..i] + [hash];
        if |files| > 1 {
          duplicates := duplicates + [files];
        }
        i := i + 1;
      }
      assert contentOrder[..i] == contentOrder;
      results := results.(duplicateContents := duplicates);
    }

    /** `findImageDuplicates()`: fewer than two signatures give no groups. */
    method FindImageDuplicates()
      requires Valid()
      modifies this
      ensures State() == old(State()) && Valid()
      ensures results == old(results).(duplicateImages :=
        Greedy(Values(State().images), options.imageSimilarityThreshold, |imageOrder|).groups)
    {
      results := results.(duplicateImages := []);
      var entries := Values(Ordered(imageSignatures, imageOrder));
      StoredImagesHaveDistinctPaths(State());
      if |imageOrder| <= 1 {
        GreedyIsClustering(entries, options.imageSimilarityThreshold);
        return;
      }
      var groups := ClusterImages(entries, options.imageSimilarityThreshold);
      results := results.(duplicateImages := groups);
    }

    /** `stop()`. */
    method Stop()
      modifies this
      ensures State() == old(State()).(running := false)
      ensures results == old(results)
    {
      running := false;
    }
  }
}
