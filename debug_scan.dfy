/** The duplicate check of js/debug.js (`checkDuplicates`), the scanner the
    app-new.js front end runs: a recursive walk that files every opened
    file under its entry name, hashes files below 20 MB into separate image
    and non-image maps, bumps counters the first time a list reaches two
    entries, and stops descending once five directories are open. */
module DebugScan {
  import opened Base
  import opened Multimap
  import opened FsTree

  // ---------------------------------------------------------------------
  // File types

  datatype FileType = Image | Document | Video | Audio | Other

  /** The string `getFileType` returns. */
  function TypeName(t: FileType): string
  {
    match t
    case Image => "image"
    case Document => "document"
    case Video => "video"
    case Audio => "audio"
    case Other => "other"
  }

  const ImageExts: seq<string> := ["jpg", "jpeg", "png", "gif", "bmp", "webp", "svg", "tiff", "ico", "heic"]
  const DocExts: seq<string> := ["pdf", "doc", "docx", "xls", "xlsx", "ppt", "pptx", "txt", "rtf", "odt", "csv"]
  const VideoExts: seq<string> := ["mp4", "avi", "mkv", "mov", "wmv", "flv", "webm", "mpeg", "mpg", "3gp"]
  const AudioExts: seq<string> := ["mp3", "wav", "ogg", "flac", "aac", "wma", "m4a"]

  /** The four `includes` tests, in order; anything else is 'other'. */
  function TypeOfExt(ext: string): FileType
  {
    if ext in ImageExts then Image
    else if ext in DocExts then Document
    else if ext in VideoExts then Video
    else if ext in AudioExts then Audio
    else Other
  }

  /** `getFileType(filename)`: `filename.split('.').pop().toLowerCase()`
      looked up in the four lists. */
  function GetFileType(filename: string): FileType
  {
    TypeOfExt(Lower(AfterLast(filename, '.')))
  }

  /** Only the text after the last '.' counts, in any case; a name without a
      '.' is classified as a whole. */
  lemma FileTypeBySuffix(stem: string, ext: string)
    requires '.' !in ext
    ensures GetFileType(stem + "." + ext) == TypeOfExt(Lower(ext))
    ensures GetFileType(ext) == TypeOfExt(Lower(ext))
  {
    assert stem + "." + ext == stem + ['.'] + ext;
    AfterLastOfJoin(stem, '.', ext);
  }

  /** `stats.fileTypes`. The object starts with the keys images, documents,
      videos, audio and other; `fileTypes[type + 's']++` lands on the first
      three, but 'audio' + 's' and 'other' + 's' are new keys, so `audios`
      and `others` start absent and become NaN on their first increment. */
  datatype FileTypes = FileTypes(images: Slot, documents: Slot, videos: Slot, audio: Slot, other: Slot,
                                 audios: Slot, others: Slot)

  const InitialFileTypes := FileTypes(Count(0), Count(0), Count(0), Count(0), Count(0), Absent, Absent)

  /** `stats.fileTypes[fileType + 's']++`. */
  function BumpType(ft: FileTypes, t: FileType): (r: FileTypes)
    ensures r.audio == ft.audio && r.other == ft.other
  {
    match t
    case Image => ft.(images := Bump(ft.images, 1))
    case Document => ft.(documents := Bump(ft.documents, 1))
    case Video => ft.(videos := Bump(ft.videos, 1))
    case Audio => ft.(audios := Bump(ft.audios, 1))
    case Other => ft.(others := Bump(ft.others, 1))
  }

  /** What the counters look like after any number of increments: the three
      plural keys hold numbers, `audio` and `other` stay 0, and `audios`
      and `others` never hold a number. */
  predicate TypesInv(ft: FileTypes)
  {
    ft.images.Count? && ft.documents.Count? && ft.videos.Count?
    && ft.audio == Count(0) && ft.other == Count(0)
    && !ft.audios.Count? && !ft.others.Count?
  }

  /** An image, document or video file adds one to its counter; an audio
      or other file leaves every numeric counter as it was and turns its
      own slot into NaN. */
  lemma BumpTypeKeepsInv(ft: FileTypes, t: FileType)
    requires TypesInv(ft)
    ensures TypesInv(BumpType(ft, t))
    ensures t == Image ==> BumpType(ft, t).images.n == ft.images.n + 1
    ensures t == Document ==> BumpType(ft, t).documents.n == ft.documents.n + 1
    ensures t == Video ==> BumpType(ft, t).videos.n == ft.videos.n + 1
    ensures t == Audio ==> BumpType(ft, t) == ft.(audios := NaNSlot)
    ensures t == Other ==> BumpType(ft, t) == ft.(others := NaNSlot)
  {
  }

  // ---------------------------------------------------------------------
  // Directory filters

  /** The nine names of `skipSystemDirectories` (used by the pre-count). */
  const SystemDirs: seq<string> := ["$Recycle.Bin", "System Volume Information", "Windows", "$SysReset",
                                     "Config.Msi", "ProgramData", "Program Files", "Program Files (x86)", "Recovery"]

  /** The five names the full scan skips. */
  const FullScanSkips: seq<string> := ["$Recycle.Bin", "System Volume Information", "Windows", "$SysReset", "Config.Msi"]

  /** `skipSystemDirectories(dirname)`. */
  predicate SkipSystemDirectories(dirname: string)
  {
    dirname in SystemDirs || StartsWith(dirname, ".") || StartsWith(dirname, "$")
  }

  /** The full scan's list is the first five names of the pre-count's list. */
  lemma FullScanSkipsArePrefix()
    ensures FullScanSkips == SystemDirs[..5]
  {
  }

  /** Whatever the full scan skips, the pre-count skips too. */
  lemma FullScanSkipsAreSystem(dirname: string)
    requires dirname in FullScanSkips
    ensures SkipSystemDirectories(dirname)
  {
    FullScanSkipsArePrefix();
    var i :| 0 <= i < 5 && FullScanSkips[i] == dirname;
    assert SystemDirs[i] == dirname;
  }

  /** No name the full scan skips starts with '.'. */
  lemma FullScanSkipsNotHidden()
    ensures forall i :: 0 <= i < |FullScanSkips| ==> FullScanSkips[i][0] != '.'
  {
  }

  /** A hidden directory such as ".git" is left out of the pre-count but
      still walked by the full scan. */
  lemma HiddenDirsOnlyPreCountSkips(dirname: string)
    requires StartsWith(dirname, ".")
    ensures SkipSystemDirectories(dirname)
    ensures dirname !in FullScanSkips
  {
    FullScanSkipsNotHidden();
    assert forall i :: 0 <= i < |FullScanSkips| ==> FullScanSkips[i] != dirname;
  }

  // ---------------------------------------------------------------------
  // State of the walk

  /** What the walk depends on besides the tree: `crypto.subtle.digest`
      for SHA-256 and the `getFileType` closure. */
  datatype Env = Env(digest: seq<Byte> -> seq<Byte>, fileType: string -> FileType)

  /** `{ path, size }` pushed on `fileNames`. */
  datatype NameInfo = NameInfo(path: string, size: nat)

  /** `{ path, name, size, type }` pushed on `fileHashes` or `imageHashes`. */
  datatype HashInfo = HashInfo(path: string, name: string, size: nat, fileType: FileType)

  /** `stats.duplicatesFound`. */
  datatype DuplicatesFound = DuplicatesFound(total: nat, byName: nat, byContent: nat, images: nat)

  /** `stats`, without the clock, the pre-count's `filesTotal` and the
      estimator. */
  datatype Stats = Stats(filesScanned: nat, bytesScanned: nat, dirsScanned: nat, fileTypes: FileTypes,
                         duplicatesFound: DuplicatesFound, totalDuplicatesSize: nat)

  /** The three maps, the counters and `openDirs` as one value. */
  datatype DState = DState(names: Multi<NameInfo>, fileHashes: Multi<HashInfo>, imageHashes: Multi<HashInfo>,
                           stats: Stats, openDirs: int)

  const MaxOpenDirs := 5
  const HashLimit := 20 * 1024 * 1024

  /** The state before `processDirectory(dirHandle)`: empty maps, zero
      counters except `dirsScanned`, which the pre-count has already
      advanced by the directories it visited. */
  function Initial(preCountedDirs: nat): DState
  {
    DState(Empty(), Empty(), Empty(),
           Stats(0, 0, preCountedDirs, InitialFileTypes, DuplicatesFound(0, 0, 0, 0), 0), 0)
  }

  // ---------------------------------------------------------------------
  // The walk as functions of the state

  /** The name check: push `{path, size}` under the entry name; the first
      time a list reaches two entries, `byName` and `total` advance. */
  function NameStep(st: DState, name: string, info: NameInfo): DState
  {
    var names := Add(st.names, name, info);
    var reached := name in st.names.entries && |names.entries[name]| == 2;
    var found := st.stats.duplicatesFound;
    st.(names := names,
        stats := if reached then st.stats.(duplicatesFound := found.(byName := found.byName + 1, total := found.total + 1))
                 else st.stats)
  }

  /** The content check of a file below 20 MB whose bytes could be read:
      images go to `imageHashes`, everything else to `fileHashes`; the first
      time a list reaches two entries its counter and `total` advance and
      the second file's size is added to `totalDuplicatesSize`. */
  function HashStep(st: DState, env: Env, f: Node, path: string, t: FileType): DState
    requires f.File?
  {
    if f.size >= HashLimit || f.content.None? then st
    else
      var hashStr := HexEncode(env.digest(f.content.value));
      var info := HashInfo(path, f.name, f.size, t);
      if t == Image then ImageHashStep(st, hashStr, info) else FileHashStep(st, hashStr, info)
  }

  function ImageHashStep(st: DState, hashStr: string, info: HashInfo): DState
  {
    var m := Add(st.imageHashes, hashStr, info);
    var reached := hashStr in st.imageHashes.entries && |m.entries[hashStr]| == 2;
    var found := st.stats.duplicatesFound;
    st.(imageHashes := m,
        stats := if reached then st.stats.(duplicatesFound := found.(images := found.images + 1, total := found.total + 1),
                                            totalDuplicatesSize := st.stats.totalDuplicatesSize + info.size)
                 else st.stats)
  }

  function FileHashStep(st: DState, hashStr: string, info: HashInfo): DState
  {
    var m := Add(st.fileHashes, hashStr, info);
    var reached := hashStr in st.fileHashes.entries && |m.entries[hashStr]| == 2;
    var found := st.stats.duplicatesFound;
    st.(fileHashes := m,
        stats := if reached then st.stats.(duplicatesFound := found.(byContent := found.byContent + 1, total := found.total + 1),
                                            totalDuplicatesSize := st.stats.totalDuplicatesSize + info.size)
                 else st.stats)
  }

  /** The counters of an opened file: its size and its type. */
  function OpenStep(st: DState, f: Node, t: FileType): DState
    requires f.File?
  {
    st.(stats := st.stats.(bytesScanned := st.stats.bytesScanned + f.size,
                           fileTypes := BumpType(st.stats.fileTypes, t)))
  }

  /** One file entry: counted first; if `getFile()` rejects nothing else
      happens. */
  function FileStep(st: DState, env: Env, f: Node, path: string): (r: DState)
    requires f.File?
    ensures r.openDirs == st.openDirs
  {
    var st1 := st.(stats := st.stats.(filesScanned := st.stats.filesScanned + 1));
    if !f.opens then st1 else OpenedStep(st1, env, f, path, env.fileType(f.name))
  }

  /** A file whose `getFile()` resolved, of type t. */
  function OpenedStep(st: DState, env: Env, f: Node, path: string, t: FileType): (r: DState)
    requires f.File?
    ensures r.openDirs == st.openDirs
  {
    HashStep(NameStep(OpenStep(st, f, t), f.name, NameInfo(path, f.size)), env, f, path, t)
  }

  /** `processDirectory(d, path)`: `openDirs` up, the entries in order,
      `openDirs` down in `finally`. A listing that throws after its entries
      is caught inside, so it changes nothing here. */
  function Walk(st: DState, env: Env, d: Node, path: string): (r: DState)
    requires d.Dir?
    ensures r.openDirs == st.openDirs
    decreases d, 1
  {
    var st1 := st.(openDirs := st.openDirs + 1, stats := st.stats.(dirsScanned := st.stats.dirsScanned + 1));
    var st2 := WalkEntries(st1, env, d, 0, path);
    st2.(openDirs := st2.openDirs - 1)
  }

  /** The loop of `processDirectory` from entry i on. */
  function WalkEntries(st: DState, env: Env, d: Node, i: nat, path: string): (r: DState)
    requires d.Dir? && i <= |d.entries|
    ensures r.openDirs == st.openDirs
    decreases d, 0, |d.entries| - i
  {
    if i == |d.entries| then st
    else WalkEntries(EntryStep(st, env, d.entries[i], path), env, d, i + 1, path)
  }

  /** One entry of the loop: a file is processed; a directory is skipped
      when listed, entered while at most five directories are open, and
      otherwise passed over. */
  function EntryStep(st: DState, env: Env, e: Node, parentPath: string): (r: DState)
    ensures r.openDirs == st.openDirs
    decreases e, 2
  {
    var p := JoinPath(parentPath, e.name);
    if e.File? then FileStep(st, env, e, p)
    else if e.name in FullScanSkips then st
    else if st.openDirs <= MaxOpenDirs then Walk(st, env, e, p)
    else st
  }

  // ---------------------------------------------------------------------
  // What the walk keeps

  /** The size of a list's second entry (0 for a shorter list): what
      `totalDuplicatesSize` gained when that list reached two entries. */
  function SecondSize(l: seq<HashInfo>): int { if |l| > 1 then l[1].size else 0 }

  /** The duplicate counters agree with the maps: each counts the keys
      whose list has two or more entries, `total` is their sum, and
      `totalDuplicatesSize` adds the second entry's size of every such
      hash list. */
  ghost predicate Tallied(names: Multi<NameInfo>, fileHashes: Multi<HashInfo>, imageHashes: Multi<HashInfo>,
                          found: DuplicatesFound, duplicateSize: nat)
    requires Valid(names) && Valid(fileHashes) && Valid(imageHashes)
  {
    found.byName == Tally(names.entries, names.order, DupIndicator)
    && found.byContent == Tally(fileHashes.entries, fileHashes.order, DupIndicator)
    && found.images == Tally(imageHashes.entries, imageHashes.order, DupIndicator)
    && found.total == found.byName + found.byContent + found.images
    && duplicateSize == Tally(fileHashes.entries, fileHashes.order, SecondSize)
                        + Tally(imageHashes.entries, imageHashes.order, SecondSize)
  }

  /** Only files below 20 MB were hashed; images only into `imageHashes`,
      everything else only into `fileHashes`. */
  ghost predicate Separated(fileHashes: Multi<HashInfo>, imageHashes: Multi<HashInfo>)
  {
    (forall k, x :: k in imageHashes.entries && x in imageHashes.entries[k] ==>
       x.fileType == Image && x.size < HashLimit)
    && (forall k, x :: k in fileHashes.entries && x in fileHashes.entries[k] ==>
       x.fileType != Image && x.size < HashLimit)
  }

  ghost predicate MapsInv(names: Multi<NameInfo>, fileHashes: Multi<HashInfo>, imageHashes: Multi<HashInfo>,
                          found: DuplicatesFound, duplicateSize: nat)
  {
    Valid(names) && Valid(fileHashes) && Valid(imageHashes)
    && Tallied(names, fileHashes, imageHashes, found, duplicateSize)
    && Separated(fileHashes, imageHashes)
  }

  /** What every step of the walk keeps. */
  ghost predicate Inv(st: DState)
  {
    MapsInv(st.names, st.fileHashes, st.imageHashes, st.stats.duplicatesFound, st.stats.totalDuplicatesSize)
    && TypesInv(st.stats.fileTypes)
  }

  lemma InitialInv(preCountedDirs: nat)
    ensures Inv(Initial(preCountedDirs))
  {
  }

  lemma NameStepKeepsInv(st: DState, name: string, info: NameInfo)
    requires Inv(st)
    ensures Inv(NameStep(st, name, info))
  {
    AddDupIndicator(st.names, name, info);
  }

  /** A push moves the count of duplicate keys by one exactly when the
      list it extends reaches two entries. */
  lemma AddDupIndicator<V>(mm: Multi<V>, k: string, v: V)
    requires Valid(mm)
    ensures var m := Add(mm, k, v);
      Tally(m.entries, m.order, DupIndicator)
      == Tally(mm.entries, mm.order, DupIndicator) + (if k in mm.entries && |m.entries[k]| == 2 then 1 else 0)
  {
    AddTally(mm, k, v, DupIndicator);
  }

  /** A push adds its own size to the second-entry sizes exactly when the
      list it extends reaches two entries. */
  lemma AddSecondSize(mm: Multi<HashInfo>, k: string, v: HashInfo)
    requires Valid(mm)
    ensures var m := Add(mm, k, v);
      Tally(m.entries, m.order, SecondSize)
      == Tally(mm.entries, mm.order, SecondSize) + (if k in mm.entries && |m.entries[k]| == 2 then v.size else 0)
  {
    AddTally(mm, k, v, SecondSize);
    if k in mm.entries && |mm.entries[k]| >= 2 {
      assert (mm.entries[k] + [v])[1] == mm.entries[k][1];
    }
  }

  lemma AddImageKeepsSeparated(fileHashes: Multi<HashInfo>, imageHashes: Multi<HashInfo>, k: string, info: HashInfo)
    requires Separated(fileHashes, imageHashes) && info.fileType == Image && info.size < HashLimit
    ensures Separated(fileHashes, Add(imageHashes, k, info))
  {
    AddMembers(imageHashes, k, info);
  }

  lemma AddFileKeepsSeparated(fileHashes: Multi<HashInfo>, imageHashes: Multi<HashInfo>, k: string, info: HashInfo)
    requires Separated(fileHashes, imageHashes) && info.fileType != Image && info.size < HashLimit
    ensures Separated(Add(fileHashes, k, info), imageHashes)
  {
    AddMembers(fileHashes, k, info);
  }

  lemma ImageHashStepKeepsInv(st: DState, hashStr: string, info: HashInfo)
    requires Inv(st) && info.fileType == Image && info.size < HashLimit
    ensures Inv(ImageHashStep(st, hashStr, info))
  {
    var r := ImageHashStep(st, hashStr, info);
    assert r.names == st.names && r.fileHashes == st.fileHashes && r.stats.fileTypes == st.stats.fileTypes;
    AddImageKeepsSeparated(st.fileHashes, st.imageHashes, hashStr, info);
    AddDupIndicator(st.imageHashes, hashStr, info);
    AddSecondSize(st.imageHashes, hashStr, info);
  }

  lemma FileHashStepKeepsInv(st: DState, hashStr: string, info: HashInfo)
    requires Inv(st) && info.fileType != Image && info.size < HashLimit
    ensures Inv(FileHashStep(st, hashStr, info))
  {
    var r := FileHashStep(st, hashStr, info);
    assert r.names == st.names && r.imageHashes == st.imageHashes && r.stats.fileTypes == st.stats.fileTypes;
    AddFileKeepsSeparated(st.fileHashes, st.imageHashes, hashStr, info);
    AddDupIndicator(st.fileHashes, hashStr, info);
    AddSecondSize(st.fileHashes, hashStr, info);
  }

  lemma HashStepKeepsInv(st: DState, env: Env, f: Node, path: string, t: FileType)
    requires f.File? && Inv(st)
    ensures Inv(HashStep(st, env, f, path, t))
  {
    if f.size < HashLimit && f.content.Some? {
      var hashStr := HexEncode(env.digest(f.content.value));
      var info := HashInfo(path, f.name, f.size, t);
      if t == Image {
        ImageHashStepKeepsInv(st, hashStr, info);
      } else {
        FileHashStepKeepsInv(st, hashStr, info);
      }
    }
  }

  lemma FileStepKeepsInv(st: DState, env: Env, f: Node, path: string)
    requires f.File? && Inv(st)
    ensures Inv(FileStep(st, env, f, path))
  {
    var st1 := st.(stats := st.stats.(filesScanned := st.stats.filesScanned + 1));
    StatsStepKeepsInv(st, st1.stats);
    if f.opens {
      var r := OpenedStep(st1, env, f, path, env.fileType(f.name));
      assert FileStep(st, env, f, path) == r;
      OpenedStepKeepsInv(st1, env, f, path, env.fileType(f.name));
      assert Inv(r);
    } else {
      assert FileStep(st, env, f, path) == st1;
    }
  }

  lemma OpenedStepKeepsInv(st: DState, env: Env, f: Node, path: string, t: FileType)
    requires f.File? && Inv(st)
    ensures Inv(OpenedStep(st, env, f, path, t))
  {
    OpenStepKeepsInv(st, f, t);
    var st2 := OpenStep(st, f, t);
    NameStepKeepsInv(st2, f.name, NameInfo(path, f.size));
    HashStepKeepsInv(NameStep(st2, f.name, NameInfo(path, f.size)), env, f, path, t);
  }

  /** Counters outside `duplicatesFound` and `fileTypes` do not matter. */
  lemma StatsStepKeepsInv(st: DState, stats: Stats)
    requires Inv(st) && TypesInv(stats.fileTypes)
    requires stats.duplicatesFound == st.stats.duplicatesFound
    requires stats.totalDuplicatesSize == st.stats.totalDuplicatesSize
    ensures Inv(st.(stats := stats))
  {
  }

  lemma OpenStepKeepsInv(st: DState, f: Node, t: FileType)
    requires f.File? && Inv(st)
    ensures Inv(OpenStep(st, f, t))
  {
    BumpTypeKeepsInv(st.stats.fileTypes, t);
    StatsStepKeepsInv(st, OpenStep(st, f, t).stats);
  }

  lemma {:induction false} WalkKeepsInv(st: DState, env: Env, d: Node, path: string)
    requires d.Dir? && Inv(st)
    ensures Inv(Walk(st, env, d, path))
    decreases d, 1
  {
    var st1 := st.(openDirs := st.openDirs + 1, stats := st.stats.(dirsScanned := st.stats.dirsScanned + 1));
    WalkEntriesKeepInv(st1, env, d, 0, path);
  }

  lemma {:induction false} WalkEntriesKeepInv(st: DState, env: Env, d: Node, i: nat, path: string)
    requires d.Dir? && i <= |d.entries| && Inv(st)
    ensures Inv(WalkEntries(st, env, d, i, path))
    decreases d, 0, |d.entries| - i
  {
    if i < |d.entries| {
      EntryStepKeepsInv(st, env, d.entries[i], path);
      WalkEntriesKeepInv(EntryStep(st, env, d.entries[i], path), env, d, i + 1, path);
    }
  }

  lemma {:induction false} EntryStepKeepsInv(st: DState, env: Env, e: Node, parentPath: string)
    requires Inv(st)
    ensures Inv(EntryStep(st, env, e, parentPath))
    decreases e, 2
  {
    var p := JoinPath(parentPath, e.name);
    if e.File? {
      FileStepKeepsInv(st, env, e, p);
    } else if e.name !in FullScanSkips && st.openDirs <= MaxOpenDirs {
      WalkKeepsInv(st, env, e, p);
    }
  }

  // ---------------------------------------------------------------------
  // The openDirs cap

  /** `openDirs` counts the directories being walked, so a subdirectory
      is entered only up to five levels below the root: the contents of
      anything deeper never affect the outcome. */
  lemma {:induction false} DepthCap(st: DState, env: Env, d: Node, path: string)
    requires d.Dir? && 0 <= st.openDirs <= MaxOpenDirs
    ensures Walk(st, env, d, path) == Walk(st, env, Truncate(d, MaxOpenDirs - st.openDirs), path)
    decreases d, 1
  {
    var st1 := st.(openDirs := st.openDirs + 1, stats := st.stats.(dirsScanned := st.stats.dirsScanned + 1));
    DepthCapEntries(st1, env, d, MaxOpenDirs - st.openDirs, 0, path);
  }

  lemma {:induction false} DepthCapEntries(st: DState, env: Env, d: Node, k: nat, i: nat, path: string)
    requires d.Dir? && i <= |d.entries| && k <= MaxOpenDirs && st.openDirs == MaxOpenDirs + 1 - k
    ensures WalkEntries(st, env, d, i, path) == WalkEntries(st, env, Truncate(d, k), i, path)
    decreases d, 0, |d.entries| - i
  {
    if i < |d.entries| {
      var e := d.entries[i];
      var t := Truncate(d, k);
      assert t.entries[i] == Prune(e, k);
      var p := JoinPath(path, e.name);
      if e.Dir? && e.name !in FullScanSkips && st.openDirs <= MaxOpenDirs {
        DepthCap(st, env, e, p);
      }
      assert EntryStep(st, env, e, path) == EntryStep(st, env, t.entries[i], path);
      DepthCapEntries(EntryStep(st, env, e, path), env, d, k, i + 1, path);
    }
  }

  // ---------------------------------------------------------------------
  // Results

  /** `summary.duplicates`, with `totalSize` renamed `duplicateSize`. */
  datatype Summary = Summary(totalFiles: nat, totalSize: nat, fileTypes: FileTypes,
                             totalCount: nat, byName: nat, byContent: nat, images: nat, duplicateSize: nat)

  datatype CheckResult = CheckResult(byName: seq<(string, seq<NameInfo>)>,
                                     byContent: seq<(string, seq<HashInfo>)>,
                                     byImage: seq<(string, seq<HashInfo>)>,
                                     stats: Stats, summary: Summary)

  ghost predicate OrderedKeys(st: DState)
  {
    (forall k :: k in st.names.order ==> k in st.names.entries)
    && (forall k :: k in st.fileHashes.order ==> k in st.fileHashes.entries)
    && (forall k :: k in st.imageHashes.order ==> k in st.imageHashes.entries)
  }

  lemma InvOrderedKeys(st: DState)
    requires Inv(st)
    ensures OrderedKeys(st)
  {
  }

  /** The object `checkDuplicates` resolves to, built from the final state. */
  function Outcome(st: DState): CheckResult
    requires OrderedKeys(st)
  {
    var byName := Groups(st.names);
    var byContent := Groups(st.fileHashes);
    var byImage := Groups(st.imageHashes);
    CheckResult(byName, byContent, byImage, st.stats,
      Summary(st.stats.filesScanned, st.stats.bytesScanned, st.stats.fileTypes,
              st.stats.duplicatesFound.total, |byName|, |byContent|, |byImage|, st.stats.totalDuplicatesSize))
  }

  /** The running counters agree with the final lists: `byName`, `byContent`
      and `images` are the lengths of the three result lists, and
      `summary.duplicates.totalCount` is their sum. */
  lemma OutcomeCounters(st: DState)
    requires Inv(st)
    ensures OrderedKeys(st)
    ensures var r := Outcome(st);
      r.stats.duplicatesFound.byName == |r.byName| && r.stats.duplicatesFound.byContent == |r.byContent|
      && r.stats.duplicatesFound.images == |r.byImage|
      && r.summary.totalCount == |r.byName| + |r.byContent| + |r.byImage|
  {
    TallyCountsGroups(st.names.entries, st.names.order);
    TallyCountsGroups(st.fileHashes.entries, st.fileHashes.order);
    TallyCountsGroups(st.imageHashes.entries, st.imageHashes.order);
  }

  /** The image results hold only images below 20 MB; the content results
      hold no image. */
  lemma OutcomeSeparatesImages(st: DState)
    requires Inv(st)
    ensures OrderedKeys(st)
    ensures forall i, x :: 0 <= i < |Outcome(st).byImage| && x in Outcome(st).byImage[i].1 ==>
      x.fileType == Image && x.size < HashLimit
    ensures forall i, x :: 0 <= i < |Outcome(st).byContent| && x in Outcome(st).byContent[i].1 ==>
      x.fileType != Image && x.size < HashLimit
  {
    GroupsExact(st.fileHashes);
    GroupsExact(st.imageHashes);
  }

  // ---------------------------------------------------------------------
  // The scan as a class over the closure's variables

  class DuplicateCheck {
    /** `crypto.subtle.digest('SHA-256', ·)`. */
    const digest: seq<Byte> -> seq<Byte>
    /** The `getFileType` closure. */
    const getFileType: string -> FileType
    var fileNames: map<string, seq<NameInfo>>
    var nameOrder: seq<string>
    var fileHashes: map<string, seq<HashInfo>>
    var fileHashOrder: seq<string>
    var imageHashes: map<string, seq<HashInfo>>
    var imageHashOrder: seq<string>
    var stats: Stats
    var openDirs: int

    function Environment(): Env
    {
      Env(digest, getFileType)
    }

    function State(): DState
      reads this
    {
      DState(Multi(fileNames, nameOrder), Multi(fileHashes, fileHashOrder), Multi(imageHashes, imageHashOrder),
             stats, openDirs)
    }

    constructor(digest: seq<Byte> -> seq<Byte>, preCountedDirs: nat)
      ensures this.digest == digest && getFileType == GetFileType && State() == Initial(preCountedDirs)
    {
      this.digest := digest;
      getFileType := GetFileType;
      fileNames, nameOrder := map[], [];
      fileHashes, fileHashOrder := map[], [];
      imageHashes, imageHashOrder := map[], [];
      stats := Stats(0, 0, preCountedDirs, InitialFileTypes, DuplicatesFound(0, 0, 0, 0), 0);
      openDirs := 0;
    }

    /** `processDirectory(handle, path)`. */
    method ProcessDirectory(d: Node, path: string)
      requires d.Dir?
      modifies this
      ensures State() == Walk(old(State()), Environment(), d, path)
      decreases d, 1
    {
      openDirs := openDirs + 1;
      stats := stats.(dirsScanned := stats.dirsScanned + 1);
      ghost var target := WalkEntries(State(), Environment(), d, 0, path);
      var i := 0;
      while i < |d.entries|
        invariant 0 <= i <= |d.entries|
        invariant WalkEntries(State(), Environment(), d, i, path) == target
      {
        ProcessEntry(d.entries[i], path);
        i := i + 1;
      }
      // finally
      openDirs := openDirs - 1;
    }

    /** The body of the loop for one entry. */
    method ProcessEntry(entry: Node, currentPath: string)
      modifies this
      ensures State() == EntryStep(old(State()), Environment(), entry, currentPath)
      decreases entry, 2
    {
      var fullPath := JoinPath(currentPath, entry.name);
      if entry.File? {
        ProcessFile(entry, fullPath);
      } else if entry.name in FullScanSkips {
        // skipped system directory
      } else if openDirs <= MaxOpenDirs {
        ProcessDirectory(entry, fullPath);
      }
    }

    /** A file entry: count it, then, once `getFile()` resolved, its size,
        its type, its name and (below 20 MB) its content. */
    method ProcessFile(f: Node, fullPath: string)
      requires f.File?
      modifies this
      ensures State() == FileStep(old(State()), Environment(), f, fullPath)
    {
      ghost var s0 := State();
      stats := stats.(filesScanned := stats.filesScanned + 1);
      ghost var s1 := State();
      if !f.opens {
        assert FileStep(s0, Environment(), f, fullPath) == s1;
        return;
      }
      assert FileStep(s0, Environment(), f, fullPath) == OpenedStep(s1, Environment(), f, fullPath, getFileType(f.name));
      var fileType := getFileType(f.name);
      stats := stats.(bytesScanned := stats.bytesScanned + f.size,
                      fileTypes := BumpType(stats.fileTypes, fileType));
      assert State() == OpenStep(s1, f, fileType);
      RecordName(f.name, NameInfo(fullPath, f.size));
      if f.size < HashLimit {
        RecordHash(f, fullPath, fileType);
      }
    }

    /** The duplicate-name check. */
    method RecordName(name: string, info: NameInfo)
      modifies this
      ensures State() == NameStep(old(State()), name, info)
    {
      if name !in fileNames {
        fileNames := fileNames[name := [info]];
        nameOrder := nameOrder + [name];
      } else {
        fileNames := fileNames[name := fileNames[name] + [info]];
        if |fileNames[name]| == 2 {
          var found := stats.duplicatesFound;
          stats := stats.(duplicatesFound := found.(byName := found.byName + 1, total := found.total + 1));
        }
      }
    }

    /** The duplicate-content check of a file below 20 MB; a failed read is
        only logged. */
    method RecordHash(f: Node, fullPath: string, fileType: FileType)
      requires f.File? && f.size < HashLimit
      modifies this
      ensures State() == HashStep(old(State()), Environment(), f, fullPath, fileType)
    {
      if f.content.None? {
        return;
      }
      var hashStr := HexEncode(digest(f.content.value));
      var fileInfo := HashInfo(fullPath, f.name, f.size, fileType);
      if fileType == Image {
        RecordImageHash(hashStr, fileInfo);
      } else {
        RecordFileHash(hashStr, fileInfo);
      }
    }

    method RecordImageHash(hashStr: string, fileInfo: HashInfo)
      modifies this
      ensures State() == ImageHashStep(old(State()), hashStr, fileInfo)
    {
      if hashStr !in imageHashes {
        imageHashes := imageHashes[hashStr := [fileInfo]];
        imageHashOrder := imageHashOrder + [hashStr];
      } else {
        imageHashes := imageHashes[hashStr := imageHashes[hashStr] + [fileInfo]];
        if |imageHashes[hashStr]| == 2 {
          var found := stats.duplicatesFound;
          stats := stats.(duplicatesFound := found.(images := found.images + 1, total := found.total + 1),
                          totalDuplicatesSize := stats.totalDuplicatesSize + fileInfo.size);
        }
      }
    }

    method RecordFileHash(hashStr: string, fileInfo: HashInfo)
      modifies this
      ensures State() == FileHashStep(old(State()), hashStr, fileInfo)
    {
      if hashStr !in fileHashes {
        fileHashes := fileHashes[hashStr := [fileInfo]];
        fileHashOrder := fileHashOrder + [hashStr];
      } else {
        fileHashes := fileHashes[hashStr := fileHashes[hashStr] + [fileInfo]];
        if |fileHashes[hashStr]| == 2 {
          var found := stats.duplicatesFound;
          stats := stats.(duplicatesFound := found.(byContent := found.byContent + 1, total := found.total + 1),
                          totalDuplicatesSize := stats.totalDuplicatesSize + fileInfo.size);
        }
      }
    }
  }

  /** `checkDuplicates(root)` after the permission check and the pre-count:
      walk the tree, then collect the lists with more than one entry. */
  method CheckDuplicates(root: Node, digest: seq<Byte> -> seq<Byte>, preCountedDirs: nat) returns (result: CheckResult)
    requires root.Dir?
    ensures var walked := Walk(Initial(preCountedDirs), Env(digest, GetFileType), root, "");
      OrderedKeys(walked) && result == Outcome(walked)
  {
    var check := new DuplicateCheck(digest, preCountedDirs);
    check.ProcessDirectory(root, "");
    WalkedInv(preCountedDirs, Env(digest, GetFileType), root);
    var fileNames, nameOrder := check.fileNames, check.nameOrder;
    var fileHashes, fileHashOrder := check.fileHashes, check.fileHashOrder;
    var imageHashes, imageHashOrder := check.imageHashes, check.imageHashOrder;
    var stats := check.stats;
    var duplicateNames := CollectGroups(fileNames, nameOrder);
    var duplicateContents := CollectGroups(fileHashes, fileHashOrder);
    var duplicateImages := CollectGroups(imageHashes, imageHashOrder);
    result := CheckResult(duplicateNames, duplicateContents, duplicateImages, stats,
      Summary(stats.filesScanned, stats.bytesScanned, stats.fileTypes, stats.duplicatesFound.total,
              |duplicateNames|, |duplicateContents|, |duplicateImages|, stats.totalDuplicatesSize));
  }

  /** The walk from the initial state keeps the invariant. */
  lemma WalkedInv(preCountedDirs: nat, env: Env, root: Node)
    requires root.Dir?
    ensures Inv(Walk(Initial(preCountedDirs), env, root, ""))
    ensures OrderedKeys(Walk(Initial(preCountedDirs), env, root, ""))
  {
    var start := Initial(preCountedDirs);
    InitialInv(preCountedDirs);
    WalkKeepsInv(start, env, root, "");
    InvOrderedKeys(Walk(start, env, root, ""));
  }

  /** Whatever the tree, the counters `checkDuplicates` reports agree with
      its result lists, and the image and content lists are kept apart. */
  lemma CheckDuplicatesConsistent(preCountedDirs: nat, env: Env, root: Node)
    requires root.Dir?
    ensures var walked := Walk(Initial(preCountedDirs), env, root, "");
      OrderedKeys(walked)
      && var r := Outcome(walked);
      r.stats.duplicatesFound.byName == |r.byName| && r.stats.duplicatesFound.byContent == |r.byContent|
      && r.stats.duplicatesFound.images == |r.byImage|
      && r.summary.totalCount == |r.byName| + |r.byContent| + |r.byImage|
  {
    WalkedInv(preCountedDirs, env, root);
    OutcomeCounters(Walk(Initial(preCountedDirs), env, root, ""));
  }
}
