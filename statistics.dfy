/** The aggregation over content-duplicate groups: duplicates per file
    family, the directory tree of the redundant copies, the potential
    savings, and the display label and colour of a family. */
module Statistics {
  import opened Base
  import FileUtils

  /** One entry of `duplicateContents`: the paths of the copies and the
      size of one copy. */
  datatype Group = Group(paths: seq<string>, size: nat)

  // ---------------------------------------------------------------------
  // File families

  datatype Family = Images | Documents | Videos | Audio | Code | Archives | Executables | Other

  const ImageExts: seq<string> := ["jpg", "jpeg", "png", "gif", "bmp", "webp", "svg", "tiff"]
  const DocumentExts: seq<string> := ["pdf", "doc", "docx", "xls", "xlsx", "ppt", "pptx", "txt", "rtf"]
  const VideoExts: seq<string> := ["mp4", "avi", "mov", "wmv", "flv", "mkv", "webm"]
  const AudioExts: seq<string> := ["mp3", "wav", "ogg", "flac", "aac", "m4a"]
  const CodeExts: seq<string> := ["js", "php", "html", "css", "py", "c", "cpp", "java"]
  const ArchiveExts: seq<string> := ["zip", "rar", "7z", "tar", "gz"]
  const ExecutableExts: seq<string> := ["exe", "dll", "so", "app"]

  /** `fileTypeMap[extension] || 'other'`. */
  function FamilyOfExt(ext: string): Family
  {
    if ext in ImageExts then Images
    else if ext in DocumentExts then Documents
    else if ext in VideoExts then Videos
    else if ext in AudioExts then Audio
    else if ext in CodeExts then Code
    else if ext in ArchiveExts then Archives
    else if ext in ExecutableExts then Executables
    else Other
  }

  /** The lower-cased text after the last '.' of the last '/'-segment
      (the whole segment when it has no '.'). */
  function ExtensionOf(path: string): (ext: string)
    ensures '/' !in ext && '.' !in ext
  {
    var fileName := AfterLast(path, '/');
    var tail := AfterLast(fileName, '.');
    LowerKeepsAbsent(tail, '/');
    LowerKeepsAbsent(tail, '.');
    Lower(tail)
  }

  function FamilyOf(path: string): Family
  {
    FamilyOfExt(ExtensionOf(path))
  }

  /** Only the last '/'-segment of a path decides its extension. */
  lemma ExtensionOfLastSegment(dir: string, name: string)
    requires '/' !in name
    ensures ExtensionOf(dir + "/" + name) == ExtensionOf(name)
  {
    AfterLastOfJoin(dir, '/', name);
  }

  /** The family of `stem.ext` is decided by `ext` alone, whatever the case
      of its letters. */
  lemma ExtensionBySuffix(stem: string, ext: string)
    requires '/' !in stem && '/' !in ext && '.' !in ext
    ensures ExtensionOf(stem + "." + ext) == Lower(ext)
  {
    var name := stem + "." + ext;
    assert '/' !in name;
    assert AfterLast(name, '/') == name;
    AfterLastOfJoin(stem, '.', ext);
  }

  /** A last segment without '.' is its own extension, so a file called
      `jpg` counts as an image. */
  lemma BareNameIsExtension(name: string)
    requires '/' !in name && '.' !in name
    ensures ExtensionOf(name) == Lower(name)
  {
  }

  /** `fileTypeMap[extension] || 'other'` as written: the table is an
      object literal, so an extension naming an `Object.prototype` member
      ('constructor' and '__proto__' survive lower-casing) finds that
      member instead of falling back to 'other'. */
  function FileTypeAsWritten(ext: string): Looked
  {
    WithPrototype(FamilyOfExt(ext) != Other, ext, FamilyKey(FamilyOfExt(ext)))
  }

  /** A group whose first path ends in `.constructor` is looked up as the
      inherited `constructor` function rather than as 'other'; the source
      then adds its copies under a key named after that function, which
      starts undefined and so becomes NaN, and leaves 'other' unchanged. */
  lemma PrototypeExtensionEscapes(dir: string, stem: string)
    requires '/' !in stem
    ensures var path := dir + "/" + (stem + "." + "constructor");
      ExtensionOf(path) == "constructor" && FamilyOf(path) == Other
      && FileTypeAsWritten(ExtensionOf(path)) == InheritedMember("constructor")
  {
    var ext := "constructor";
    assert '/' !in ext && '.' !in ext;
    ExtensionOfLastSegment(dir, stem + "." + ext);
    ExtensionBySuffix(stem, ext);
    FileUtils.ConstructorIsLower();
    LongExtensionIsOther(ext);
    assert ext in PrototypeMembers by {
      assert PrototypeMembers[0] == ext;
    }
  }

  /** No listed extension is longer than four characters. */
  lemma ListedExtensionsShort()
    ensures forall e <- ImageExts :: |e| <= 4
    ensures forall e <- DocumentExts :: |e| <= 4
    ensures forall e <- VideoExts :: |e| <= 4
    ensures forall e <- AudioExts :: |e| <= 4
    ensures forall e <- CodeExts :: |e| <= 4
    ensures forall e <- ArchiveExts :: |e| <= 4
    ensures forall e <- ExecutableExts :: |e| <= 4
  {
  }

  /** An extension longer than four characters is in no list. */
  lemma LongExtensionIsOther(ext: string)
    requires |ext| > 4
    ensures FamilyOfExt(ext) == Other
  {
    ListedExtensionsShort();
  }

  // ---------------------------------------------------------------------
  // analyzeByFileType

  /** Eight numbers indexed by family: the `typeCounts` / `typeSizes`
      objects, whose eight keys are all present from the start. */
  datatype PerFamily = PerFamily(images: int, documents: int, videos: int, audio: int,
                                 code: int, archives: int, executables: int, other: int)

  const Zeroes := PerFamily(0, 0, 0, 0, 0, 0, 0, 0)

  /** `obj[family]`. */
  function Get(m: PerFamily, f: Family): int
  {
    match f
    case Images => m.images
    case Documents => m.documents
    case Videos => m.videos
    case Audio => m.audio
    case Code => m.code
    case Archives => m.archives
    case Executables => m.executables
    case Other => m.other
  }

  /** `obj[family] += k`: that family moves by k, the others stay. */
  function Plus(m: PerFamily, f: Family, k: int): (r: PerFamily)
    ensures forall g: Family :: Get(r, g) == Get(m, g) + (if g == f then k else 0)
  {
    match f
    case Images => m.(images := m.images + k)
    case Documents => m.(documents := m.documents + k)
    case Videos => m.(videos := m.videos + k)
    case Audio => m.(audio := m.audio + k)
    case Code => m.(code := m.code + k)
    case Archives => m.(archives := m.archives + k)
    case Executables => m.(executables := m.executables + k)
    case Other => m.(other := m.other + k)
  }

  /** The sum over the eight families. */
  function Total(m: PerFamily): int
  {
    m.images + m.documents + m.videos + m.audio + m.code + m.archives + m.executables + m.other
  }

  /** Adding k under one family adds k to the total. */
  lemma TotalPlus(m: PerFamily, f: Family, k: int)
    ensures Total(Plus(m, f, k)) == Total(m) + k
  {
  }

  datatype TypeAnalysis = TypeAnalysis(counts: PerFamily, sizes: PerFamily)

  predicate FirstPaths(groups: seq<Group>)
  {
    forall i :: 0 <= i < |groups| ==> |groups[i].paths| > 0
  }

  /** The `forEach` over the groups, as a function of its prefix; the
      family of a group is `classify` of its first path. */
  function ByFileType(groups: seq<Group>, classify: string -> Family): TypeAnalysis
    requires FirstPaths(groups)
  {
    if groups == [] then TypeAnalysis(Zeroes, Zeroes)
    else
      var prev := ByFileType(groups[..|groups| - 1], classify);
      var g := groups[|groups| - 1];
      var f := classify(g.paths[0]);
      var extra := |g.paths| - 1;
      TypeAnalysis(Plus(prev.counts, f, extra), Plus(prev.sizes, f, g.size * extra))
  }

  /** Reference definition: the duplicates of family f are the extra
      copies of the groups whose first path is of family f. */
  function FamilyCount(groups: seq<Group>, classify: string -> Family, f: Family): int
    requires FirstPaths(groups)
  {
    if groups == [] then 0
    else
      var g := groups[|groups| - 1];
      FamilyCount(groups[..|groups| - 1], classify, f)
      + (if classify(g.paths[0]) == f then |g.paths| - 1 else 0)
  }

  function FamilySize(groups: seq<Group>, classify: string -> Family, f: Family): int
    requires FirstPaths(groups)
  {
    if groups == [] then 0
    else
      var g := groups[|groups| - 1];
      FamilySize(groups[..|groups| - 1], classify, f)
      + (if classify(g.paths[0]) == f then g.size * (|g.paths| - 1) else 0)
  }

  /** Every family starts at 0 and receives exactly the extra copies (and
      their sizes) of its own groups; no other key appears. */
  lemma {:induction false} ByFileTypeCounts(groups: seq<Group>, classify: string -> Family)
    requires FirstPaths(groups)
    ensures var r := ByFileType(groups, classify);
      (forall f: Family :: Get(r.counts, f) == FamilyCount(groups, classify, f))
      && (forall f: Family :: Get(r.sizes, f) == FamilySize(groups, classify, f))
  {
    if groups != [] {
      ByFileTypeCounts(groups[..|groups| - 1], classify);
    } else {
      forall f: Family ensures Get(Zeroes, f) == 0 {
      }
    }
  }

  /** Summed over the families, the counts are the duplicate files of
      analyzePotentialSavings and the sizes its potential saving. */
  lemma {:induction false} ByFileTypeTotals(groups: seq<Group>, classify: string -> Family)
    requires FirstPaths(groups)
    ensures var r := ByFileType(groups, classify);
      Total(r.counts) == TotalsOf(groups).duplicateFiles
      && Total(r.sizes) == TotalsOf(groups).savingSize
  {
    if groups != [] {
      var prefix := groups[..|groups| - 1];
      ByFileTypeTotals(prefix, classify);
      var prev := ByFileType(prefix, classify);
      var g := groups[|groups| - 1];
      var f := classify(g.paths[0]);
      TotalPlus(prev.counts, f, |g.paths| - 1);
      TotalPlus(prev.sizes, f, g.size * (|g.paths| - 1));
    }
  }

  /** One more group: the prefix's analysis plus that group. */
  lemma ByFileTypeStep(groups: seq<Group>, classify: string -> Family, i: nat)
    requires FirstPaths(groups) && i < |groups|
    ensures FirstPaths(groups[..i]) && FirstPaths(groups[..i + 1])
    ensures var prev, g := ByFileType(groups[..i], classify), groups[i];
      ByFileType(groups[..i + 1], classify)
      == TypeAnalysis(Plus(prev.counts, classify(g.paths[0]), |g.paths| - 1),
                      Plus(prev.sizes, classify(g.paths[0]), g.size * (|g.paths| - 1)))
  {
    assert groups[..i + 1][..i] == groups[..i];
    var next := groups[..i + 1];
    assert FirstPaths(next) by {
      forall k | 0 <= k < |next| ensures |next[k].paths| > 0 {
        assert next[k] == groups[k];
      }
    }
  }

  /** `analyzeByFileType(results)` over `results.duplicateContents`. */
  method AnalyzeByFileType(groups: seq<Group>) returns (r: TypeAnalysis)
    requires FirstPaths(groups)
    ensures r == ByFileType(groups, FamilyOf)
  {
    var counts := Zeroes;
    var sizes := Zeroes;
    for i := 0 to |groups|
      invariant FirstPaths(groups[..i])
      invariant TypeAnalysis(counts, sizes) == ByFileType(groups[..i], FamilyOf)
    {
      ByFileTypeStep(groups, FamilyOf, i);
      var g := groups[i];
      var f := FamilyOf(g.paths[0]);
      counts := Plus(counts, f, |g.paths| - 1);
      sizes := Plus(sizes, f, g.size * (|g.paths| - 1));
    }
    assert groups[..|groups|] == groups;
    r := TypeAnalysis(counts, sizes);
  }

  // ---------------------------------------------------------------------
  // analyzePotentialSavings

  datatype Totals = Totals(files: int, duplicateFiles: int, size: int, savingSize: int)

  function TotalsOf(groups: seq<Group>): Totals
  {
    if groups == [] then Totals(0, 0, 0, 0)
    else
      var t := TotalsOf(groups[..|groups| - 1]);
      var g := groups[|groups| - 1];
      var duplicateCount := |g.paths| - 1;
      Totals(t.files + |g.paths|, t.duplicateFiles + duplicateCount,
             t.size + g.size * |g.paths|, t.savingSize + g.size * duplicateCount)
  }

  datatype Savings = Savings(totalFiles: int, totalDuplicateFiles: int, totalSize: int,
                             potentialSavingSize: int, savingPercentage: real)

  /** The percentage is 0 when `totalSize` is 0 (falsy). */
  function SavingsOf(groups: seq<Group>): Savings
  {
    var t := TotalsOf(groups);
    Savings(t.files, t.duplicateFiles, t.size, t.savingSize,
            if t.size != 0 then (t.savingSize as real / t.size as real) * 100.0 else 0.0)
  }

  /** All paths of the groups, in order. */
  function AllPaths(groups: seq<Group>): seq<string>
  {
    if groups == [] then [] else AllPaths(groups[..|groups| - 1]) + groups[|groups| - 1].paths
  }

  /** totalFiles counts every listed path; the duplicate files are all of
      them but one per group; the saving never exceeds the total size. */
  lemma {:induction false} TotalsFacts(groups: seq<Group>)
    ensures var t := TotalsOf(groups);
      t.files == |AllPaths(groups)|
      && t.duplicateFiles == t.files - |groups|
      && t.savingSize <= t.size
      && t.size >= 0
      && (FirstPaths(groups) ==> t.savingSize >= 0 && t.duplicateFiles >= 0)
  {
    if groups != [] {
      var prefix := groups[..|groups| - 1];
      TotalsFacts(prefix);
      var g := groups[|groups| - 1];
      MulPred(g.size, |g.paths|);
      if FirstPaths(groups) {
        assert FirstPaths(prefix) by {
          forall i | 0 <= i < |prefix| ensures |prefix[i].paths| > 0 {
            assert prefix[i] == groups[i];
          }
        }
        assert |g.paths| - 1 >= 0;
      }
    }
  }

  lemma MulPred(a: nat, n: nat)
    ensures a * (n - 1) == a * n - a && a * n >= 0
    ensures n >= 1 ==> a * (n - 1) >= 0
  {
  }

  /** For groups of at least one path the percentage lies in [0, 100], and
      it is 0 exactly when nothing can be saved or there is nothing at all. */
  lemma SavingPercentageBounds(groups: seq<Group>)
    requires FirstPaths(groups)
    ensures var s := SavingsOf(groups);
      0.0 <= s.savingPercentage <= 100.0
      && (s.totalSize == 0 ==> s.savingPercentage == 0.0)
      && (s.savingPercentage == 0.0 <==> s.potentialSavingSize == 0)
  {
    TotalsFacts(groups);
    var t := TotalsOf(groups);
    if t.size != 0 {
      var q := t.savingSize as real / t.size as real;
      assert q * t.size as real == t.savingSize as real;
      assert 0.0 <= q <= 1.0;
    } else {
      assert t.savingSize == 0;
    }
  }

  /** `analyzePotentialSavings(results)`. */
  method AnalyzePotentialSavings(groups: seq<Group>) returns (r: Savings)
    ensures r == SavingsOf(groups)
  {
    var totalFiles, totalDuplicateFiles, totalSize, potentialSavingSize := 0, 0, 0, 0;
    for i := 0 to |groups|
      invariant Totals(totalFiles, totalDuplicateFiles, totalSize, potentialSavingSize) == TotalsOf(groups[..i])
    {
      assert groups[..i + 1][..i] == groups[..i];
      var g := groups[i];
      var duplicateCount := |g.paths| - 1;
      totalDuplicateFiles := totalDuplicateFiles + duplicateCount;
      potentialSavingSize := potentialSavingSize + g.size * duplicateCount;
      totalSize := totalSize + g.size * |g.paths|;
      totalFiles := totalFiles + |g.paths|;
    }
    assert groups[..|groups|] == groups;
    var percentage := if totalSize != 0 then (potentialSavingSize as real / totalSize as real) * 100.0 else 0.0;
    r := Savings(totalFiles, totalDuplicateFiles, totalSize, potentialSavingSize, percentage);
  }

  // ---------------------------------------------------------------------
  // analyzeByDirectory

  /** The `_count` and `_size` of one directory node; the root object has
      neither key until a path directly under it is added. */
  datatype DirNode = DirNode(count: Slot, size: Slot)

  /** The nested `directoryTree` object, flattened: each node is keyed by
      the segments leading to it from the root ([] is the root itself). */
  type DirTree = map<seq<string>, DirNode>

  const FreshNode := DirNode(Count(0), Count(0))

  function NodeAt(tree: DirTree, key: seq<string>): DirNode
  {
    if key in tree then tree[key] else DirNode(Absent, Absent)
  }

  /** `parts.filter(p => p)`. */
  function NonEmpty(parts: seq<string>): (r: seq<string>)
    ensures forall i :: 0 <= i < |r| ==> r[i] != ""
  {
    if parts == [] then []
    else if parts[0] == "" then NonEmpty(parts[1..])
    else [parts[0]] + NonEmpty(parts[1..])
  }

  function Segments(path: string): seq<string>
  {
    NonEmpty(Split(path, '/'))
  }

  /** The node whose counters a path updates: all segments but the last
      (the root for a path of at most one segment). */
  function ParentKey(parts: seq<string>): seq<string>
  {
    if |parts| <= 1 then [] else parts[..|parts| - 1]
  }

  /** The loop that creates the missing nodes for the prefixes of length
      1..k. */
  function CreateNodes(tree: DirTree, parts: seq<string>, k: nat): DirTree
    requires k <= |parts|
  {
    if k == 0 then tree
    else
      var t := CreateNodes(tree, parts, k - 1);
      if parts[..k] in t then t else t[parts[..k] := FreshNode]
  }

  /** `!currentLevel[part]` as written, at the node `key`. A node's
      `_count` and `_size` are properties of the same object as its
      children, and every `Object.prototype` member is found as well: the
      test holds for '_count' or '_size' exactly when that counter is
      falsy (the source then replaces the counter by a fresh node), and
      for any other part when it is no child and names no inherited
      member. */
  predicate NeedsNodeAsWritten(tree: DirTree, key: seq<string>, part: string)
  {
    if part == "_count" then !Truthy(NodeAt(tree, key).count)
    else if part == "_size" then !Truthy(NodeAt(tree, key).size)
    else key + [part] !in tree && part !in PrototypeMembers
  }

  /** Two segments on which the test as written departs from the tree the
      model builds: under the root, 'toString' is found as the inherited
      method, so no node is created and the counters are then bumped on
      that method; under a node counted once, '_count' is found as the
      counter itself, and the walk descends into the number. The model
      creates a fresh child node in both cases. */
  lemma NodeLookupEscapes()
    ensures !NeedsNodeAsWritten(map[], [], "toString")
    ensures ["toString"] in CreateNodes(map[], ["toString", "a.txt"], 1)
    ensures var t := map[["a"] := DirNode(Count(1), Count(0))];
      !NeedsNodeAsWritten(t, ["a"], "_count") && ["a", "_count"] in CreateNodes(t, ["a", "_count", "c.txt"], 2)
  {
    assert "toString" == PrototypeMembers[10];
    assert ["toString", "a.txt"][..1] == ["toString"];
    assert ["a", "_count", "c.txt"][..2] == ["a", "_count"];
  }

  /** `addPathToTree(path, size)`. */
  function AddPath(tree: DirTree, path: string, size: nat): DirTree
  {
    var parts := Segments(path);
    var t := CreateNodes(tree, parts, if |parts| == 0 then 0 else |parts| - 1);
    var key := ParentKey(parts);
    var node := NodeAt(t, key);
    t[key := DirNode(Bump(node.count, 1), Bump(node.size, size))]
  }

  lemma {:induction false} CreateNodesEffect(tree: DirTree, parts: seq<string>, k: nat)
    requires k <= |parts|
    ensures var t := CreateNodes(tree, parts, k);
      (forall j :: 1 <= j <= k ==> parts[..j] in t)
      && (forall key :: key in t ==> key in tree || (1 <= |key| <= k && key == parts[..|key|]))
      && (forall key :: key in tree ==> key in t && t[key] == tree[key])
      && (forall key :: key in t && key !in tree ==> t[key] == FreshNode)
  {
    if k > 0 {
      CreateNodesEffect(tree, parts, k - 1);
    }
  }

  /** The node a key holds once the missing ancestors exist: a fresh node
      below the root, nothing at a root that has not been touched. */
  function Before(tree: DirTree, key: seq<string>): DirNode
  {
    if key in tree then tree[key] else if key == [] then DirNode(Absent, Absent) else FreshNode
  }

  /** addPathToTree creates every missing ancestor with `_count` and
      `_size` 0, bumps only the parent node, and changes nothing else. */
  lemma AddPathEffect(tree: DirTree, path: string, size: nat)
    ensures var parts := Segments(path); var key := ParentKey(parts); var t := AddPath(tree, path, size);
      (forall j :: 1 <= j < |parts| ==> parts[..j] in t)
      && t.Keys == tree.Keys + {key} + (set j | 1 <= j < |parts| :: parts[..j])
      && t[key] == DirNode(Bump(Before(tree, key).count, 1), Bump(Before(tree, key).size, size))
      && (forall k :: k in tree && k != key ==> t[k] == tree[k])
      && (forall k :: k in t && k !in tree && k != key ==> t[k] == FreshNode)
  {
    var parts := Segments(path);
    var n := if |parts| == 0 then 0 else |parts| - 1;
    CreateNodesEffect(tree, parts, n);
    var key := ParentKey(parts);
    if key != [] {
      assert key == parts[..n];
    }
  }

  /** A redundant copy: a path other than the first of its group, with the
      group's size. */
  datatype Copy = Copy(path: string, size: nat)

  function Extras(g: Group): seq<Copy>
  {
    seq(if |g.paths| == 0 then 0 else |g.paths| - 1, i requires 0 <= i < |g.paths| - 1 => Copy(g.paths[i + 1], g.size))
  }

  /** Every path of every group except the first, in order. */
  function AllExtras(groups: seq<Group>): seq<Copy>
  {
    if groups == [] then [] else AllExtras(groups[..|groups| - 1]) + Extras(groups[|groups| - 1])
  }

  function AddAll(tree: DirTree, copies: seq<Copy>): DirTree
  {
    if copies == [] then tree
    else AddPath(AddAll(tree, copies[..|copies| - 1]), copies[|copies| - 1].path, copies[|copies| - 1].size)
  }

  /** The tree `analyzeByDirectory` returns. */
  function DirectoryTree(groups: seq<Group>): DirTree
  {
    AddAll(map[], AllExtras(groups))
  }

  /** How many of the copies have their parent node at `key`, and the sum
      of their sizes. */
  function CopiesUnder(copies: seq<Copy>, key: seq<string>): nat
  {
    if copies == [] then 0
    else CopiesUnder(copies[..|copies| - 1], key)
         + (if ParentKey(Segments(copies[|copies| - 1].path)) == key then 1 else 0)
  }

  function SizeUnder(copies: seq<Copy>, key: seq<string>): nat
  {
    if copies == [] then 0
    else SizeUnder(copies[..|copies| - 1], key)
         + (if ParentKey(Segments(copies[|copies| - 1].path)) == key then copies[|copies| - 1].size else 0)
  }

  /** What the tree built from nothing records below the root: a node
      counts exactly the copies whose parent it is and sums their sizes (a
      node without copies of its own stays at 0), and a key with copies is
      always present. */
  ghost predicate NodesRecord(tree: DirTree, copies: seq<Copy>)
  {
    (forall key :: key != [] && key in tree ==>
       tree[key] == DirNode(Count(CopiesUnder(copies, key)), Count(SizeUnder(copies, key))))
    && (forall key :: key != [] && key !in tree ==> CopiesUnder(copies, key) == 0)
  }

  /** The root exists exactly when some copy lies directly under it, and
      then holds NaN in both counters, as `undefined++` does. */
  ghost predicate RootRecord(tree: DirTree, copies: seq<Copy>)
  {
    ([] in tree <==> CopiesUnder(copies, []) > 0)
    && ([] in tree ==> tree[[]] == DirNode(NaNSlot, NaNSlot))
  }

  ghost predicate Records(tree: DirTree, copies: seq<Copy>)
  {
    NodesRecord(tree, copies) && RootRecord(tree, copies)
  }

  lemma {:induction false} AddAllRecords(copies: seq<Copy>)
    ensures Records(AddAll(map[], copies), copies)
  {
    if copies != [] {
      var prefix := copies[..|copies| - 1];
      var c := copies[|copies| - 1];
      AddAllRecords(prefix);
      var before := AddAll(map[], prefix);
      assert copies == prefix + [c];
      assert AddAll(map[], copies) == AddPath(before, c.path, c.size);
      AddPathNodes(before, prefix, c);
      AddPathRoot(before, prefix, c);
    }
  }

  /** Appending one copy moves only the counters of its parent. */
  lemma UnderSnoc(prefix: seq<Copy>, c: Copy, key: seq<string>)
    ensures var parent := ParentKey(Segments(c.path));
      CopiesUnder(prefix + [c], key) == CopiesUnder(prefix, key) + (if parent == key then 1 else 0)
      && SizeUnder(prefix + [c], key) == SizeUnder(prefix, key) + (if parent == key then c.size else 0)
  {
    assert (prefix + [c])[..|prefix|] == prefix;
  }

  lemma AddPathNodes(before: DirTree, prefix: seq<Copy>, c: Copy)
    requires NodesRecord(before, prefix)
    ensures NodesRecord(AddPath(before, c.path, c.size), prefix + [c])
  {
    var copies := prefix + [c];
    var t := AddPath(before, c.path, c.size);
    var parent := ParentKey(Segments(c.path));
    AddPathEffect(before, c.path, c.size);
    forall key | key != [] && key in t
      ensures t[key] == DirNode(Count(CopiesUnder(copies, key)), Count(SizeUnder(copies, key)))
    {
      UnderSnoc(prefix, c, key);
      if key !in before {
        SizeUnderZero(prefix, key);
      }
    }
    forall key | key != [] && key !in t
      ensures CopiesUnder(copies, key) == 0
    {
      UnderSnoc(prefix, c, key);
    }
  }

  lemma AddPathRoot(before: DirTree, prefix: seq<Copy>, c: Copy)
    requires RootRecord(before, prefix)
    ensures RootRecord(AddPath(before, c.path, c.size), prefix + [c])
  {
    AddPathEffect(before, c.path, c.size);
    UnderSnoc(prefix, c, []);
  }

  /** A key that no copy has as its parent has no size either. */
  lemma {:induction false} SizeUnderZero(copies: seq<Copy>, key: seq<string>)
    requires CopiesUnder(copies, key) == 0
    ensures SizeUnder(copies, key) == 0
  {
    if copies != [] {
      SizeUnderZero(copies[..|copies| - 1], key);
    }
  }

  /** Over the groups: the copies counted under a key are the non-first
      paths whose parent is that key, each added once. */
  lemma DirectoryTreeRecords(groups: seq<Group>)
    ensures Records(DirectoryTree(groups), AllExtras(groups))
  {
    AddAllRecords(AllExtras(groups));
  }

  /** `addPathToTree(path, size)` on the tree built so far. */
  method AddPathToTree(tree: DirTree, path: string, size: nat) returns (t: DirTree)
    ensures t == AddPath(tree, path, size)
  {
    var parts := Segments(path);
    t := tree;
    var i := 0;
    while i < |parts| - 1
      invariant 0 <= i <= (if |parts| == 0 then 0 else |parts| - 1)
      invariant t == CreateNodes(tree, parts, i)
    {
      var key := parts[..i + 1];
      if key !in t {
        t := t[key := FreshNode];
      }
      i := i + 1;
    }
    var parent := ParentKey(parts);
    var node := NodeAt(t, parent);
    t := t[parent := DirNode(Bump(node.count, 1), Bump(node.size, size))];
  }

  lemma {:induction false} AddAllAppend(tree: DirTree, a: seq<Copy>, b: seq<Copy>)
    ensures AddAll(tree, a + b) == AddAll(AddAll(tree, a), b)
  {
    if b != [] {
      var last := b[|b| - 1];
      var front := b[..|b| - 1];
      AddAllAppend(tree, a, front);
      assert (a + b)[..|a + b| - 1] == a + front;
      assert (a + b)[|a + b| - 1] == last;
      calc {
        AddAll(tree, a + b);
        AddPath(AddAll(tree, a + front), last.path, last.size);
        AddPath(AddAll(AddAll(tree, a), front), last.path, last.size);
        AddAll(AddAll(tree, a), b);
      }
    } else {
      assert a + b == a;
    }
  }

  /** The `forEach` callback for one group: every path but the first goes
      into the tree, in order. */
  method AddGroup(tree: DirTree, g: Group) returns (t: DirTree)
    ensures t == AddAll(tree, Extras(g))
  {
    t := tree;
    var i := 1;
    while i < |g.paths|
      invariant 1 <= i <= Max(1, |g.paths|)
      invariant t == AddAll(tree, Extras(g)[..i - 1])
    {
      assert Extras(g)[..i][..i - 1] == Extras(g)[..i - 1];
      t := AddPathToTree(t, g.paths[i], g.size);
      i := i + 1;
    }
    assert Extras(g)[..Max(1, |g.paths|) - 1] == Extras(g);
  }

  /** `analyzeByDirectory(results)`: every path but the first of each group
      goes into the tree. */
  method AnalyzeByDirectory(groups: seq<Group>) returns (tree: DirTree)
    ensures tree == DirectoryTree(groups)
  {
    tree := map[];
    for gi := 0 to |groups|
      invariant tree == DirectoryTree(groups[..gi])
    {
      assert groups[..gi + 1][..gi] == groups[..gi];
      AddAllAppend(map[], AllExtras(groups[..gi]), Extras(groups[gi]));
      tree := AddGroup(tree, groups[gi]);
    }
    assert groups[..|groups|] == groups;
  }

  // ---------------------------------------------------------------------
  // Labels and colours

  function FamilyKey(f: Family): string
  {
    match f
    case Images => "images"
    case Documents => "documents"
    case Videos => "videos"
    case Audio => "audio"
    case Code => "code"
    case Archives => "archives"
    case Executables => "executables"
    case Other => "other"
  }

  function KnownFamily(t: string): Option<Family>
  {
    if t == "images" then Some(Images)
    else if t == "documents" then Some(Documents)
    else if t == "videos" then Some(Videos)
    else if t == "audio" then Some(Audio)
    else if t == "code" then Some(Code)
    else if t == "archives" then Some(Archives)
    else if t == "executables" then Some(Executables)
    else if t == "other" then Some(Other)
    else None
  }

  lemma KnownFamilyOfKey(f: Family)
    ensures KnownFamily(FamilyKey(f)) == Some(f)
  {
  }

  function Label(f: Family): string
  {
    match f
    case Images => "תמונות"
    case Documents => "מסמכים"
    case Videos => "וידאו"
    case Audio => "אודיו"
    case Code => "קוד"
    case Archives => "ארכיונים"
    case Executables => "קבצי הרצה"
    case Other => "אחר"
  }

  function Color(f: Family): string
  {
    match f
    case Images => "#4CAF50"
    case Documents => "#2196F3"
    case Videos => "#F44336"
    case Audio => "#9C27B0"
    case Code => "#FF9800"
    case Archives => "#795548"
    case Executables => "#607D8B"
    case Other => "#9E9E9E"
  }

  const FallbackColor := "#9E9E9E"

  /** `getTypeLabel(type)`: the label of a known family, else the type. */
  function TypeLabel(t: string): (r: string)
    ensures KnownFamily(t).None? ==> r == t
  {
    match KnownFamily(t)
    case Some(f) => Label(f)
    case None => t
  }

  /** `getTypeColor(type)`: the colour of a known family, else grey. */
  function TypeColor(t: string): (r: string)
    ensures KnownFamily(t).None? ==> r == FallbackColor
    ensures |r| == 7 && r[0] == '#'
  {
    match KnownFamily(t)
    case Some(f) => Color(f)
    case None => FallbackColor
  }

  /** `labels[type] || type` as written: a type naming an
      `Object.prototype` member gets that member back, not the type. */
  function TypeLabelAsWritten(t: string): Looked
  {
    WithPrototype(KnownFamily(t).Some?, t, TypeLabel(t))
  }

  /** `colors[type] || '#9E9E9E'` as written: a type naming an
      `Object.prototype` member gets that member back, not grey. */
  function TypeColorAsWritten(t: string): Looked
  {
    WithPrototype(KnownFamily(t).Some?, t, TypeColor(t))
  }

  /** For the type 'toString' both lookups return the inherited function,
      where the unknown-type fallbacks give the type itself and grey. */
  lemma PrototypeTypeEscapes()
    ensures TypeLabelAsWritten("toString") == InheritedMember("toString") && TypeLabel("toString") == "toString"
    ensures TypeColorAsWritten("toString") == InheritedMember("toString") && TypeColor("toString") == FallbackColor
  {
    assert "toString" == PrototypeMembers[10];
  }

  /** Every family's key gets its own label, which differs from the key,
      and its own colour; 'other' shares the fallback grey. */
  lemma LabelsOfFamilies(f: Family)
    ensures TypeLabel(FamilyKey(f)) == Label(f) && Label(f) != FamilyKey(f)
    ensures TypeColor(FamilyKey(f)) == Color(f)
    ensures (Color(f) == FallbackColor) <==> f == Other
  {
    KnownFamilyOfKey(f);
    assert Label(f)[0] != FamilyKey(f)[0];
  }
}
