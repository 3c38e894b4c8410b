/** The first front end (js/app.js): its duplicate finders over a directory
    handle, the `HH:MM:SS` formatter, the progress percentage, the sample of
    a directory's first files and the two time estimates. */
module AppLegacy {
  import opened Base
  import opened Multimap
  import opened FsTree
  import UiController
  import AppNew

  // ---------------------------------------------------------------------
  // Cut-offs for content hashing

  /** `checkDuplicates` hashes files smaller than 10 MB. */
  const CheckHashLimit: nat := 10 * 1024 * 1024
  /** `quickCheckDuplicates` hashes files smaller than 5 MB. */
  const QuickHashLimit: nat := 5 * 1024 * 1024

  /** `testDuplicateDetection` skips a file when `size > maxSizeForHash`. */
  predicate TestHashes(size: nat)
  {
    !(size > CheckHashLimit)
  }

  /** The three debug finders disagree at the edges: a file of exactly
      10 MB is hashed by `testDuplicateDetection` only, and one between 5
      and 10 MB by `checkDuplicates` but not by `quickCheckDuplicates`. */
  lemma CutOffsDiffer(size: nat)
    ensures size < QuickHashLimit ==> size < CheckHashLimit
    ensures size < CheckHashLimit ==> TestHashes(size)
    ensures TestHashes(size) && !(size < CheckHashLimit) <==> size == CheckHashLimit
    ensures size < CheckHashLimit && !(size < QuickHashLimit) <==> 5242880 <= size < 10485760
  {
  }

  // ---------------------------------------------------------------------
  // checkDuplicates and quickCheckDuplicates: the walk as functions

  /** What the scan needs besides the tree: the digest (SHA-256, computed
      by the browser) and the size below which a file is hashed. */
  datatype Env = Env(digest: seq<Byte> -> seq<Byte>, hashLimit: nat)

  /** An element of `files`: `{name, path, size}`. */
  datatype FileRecord = FileRecord(name: string, path: string, size: nat)

  /** The closure's variables: `files`, `nameMap` (name to paths) and
      `hashMap` (hex digest to paths). */
  datatype LState = LState(files: seq<FileRecord>, names: Multi<string>, hashes: Multi<string>)

  function Initial(): LState
  {
    LState([], Empty(), Empty())
  }

  /** The content check: a file below the limit whose bytes could be read
      is pushed under its hex digest; a failed read is only logged. */
  function HashStep(st: LState, env: Env, f: Node, path: string): LState
    requires f.File?
  {
    if f.size < env.hashLimit && f.content.Some? then
      st.(hashes := Add(st.hashes, HexEncode(env.digest(f.content.value)), path))
    else st
  }

  /** One file entry. `getFile()` is awaited outside any `try` of the walk,
      so a file that cannot be opened aborts the whole search (None);
      otherwise the file is recorded, then its name, then its content. */
  function FileStep(st: LState, env: Env, f: Node, path: string): Option<LState>
    requires f.File?
  {
    if !f.opens then None
    else
      var recorded := st.(files := st.files + [FileRecord(f.name, path, f.size)],
                          names := Add(st.names, f.name, path));
      Some(HashStep(recorded, env, f, path))
  }

  /** `processDirectory(handle, path)`: the entries in order; a listing
      that throws aborts the whole search as well. */
  function Walk(st: LState, env: Env, d: Node, path: string): Option<LState>
    requires d.Dir?
    decreases d, 1
  {
    WalkEntries(st, env, d, 0, path)
  }

  function WalkEntries(st: LState, env: Env, d: Node, i: nat, path: string): Option<LState>
    requires d.Dir? && i <= |d.entries|
    decreases d, 0, |d.entries| - i
  {
    if i == |d.entries| then (if d.listingFails then None else Some(st))
    else
      match EntryStep(st, env, d.entries[i], path)
      case None => None
      case Some(next) => WalkEntries(next, env, d, i + 1, path)
  }

  /** One entry: a file is processed under `path + "/" + name` (the bare
      name at the root), a directory is walked under that path. */
  function EntryStep(st: LState, env: Env, e: Node, parentPath: string): Option<LState>
    decreases e, 2
  {
    var p := JoinPath(parentPath, e.name);
    if e.File? then FileStep(st, env, e, p) else Walk(st, env, e, p)
  }

  // ---------------------------------------------------------------------
  // What the walk keeps

  /** The name map a sequence of recorded files gives, pushed in order. */
  function NameIndex(files: seq<FileRecord>): (r: Multi<string>)
    ensures Valid(r)
  {
    if files == [] then Empty()
    else
      var last := files[|files| - 1];
      Add(NameIndex(files[..|files| - 1]), last.name, last.path)
  }

  /** The paths of the files named k, in order. */
  function PathsNamed(files: seq<FileRecord>, k: string): seq<string>
  {
    if files == [] then []
    else
      var last := files[|files| - 1];
      PathsNamed(files[..|files| - 1], k) + (if last.name == k then [last.path] else [])
  }

  /** The name map records every file's path under its name, and nothing
      else: a name is a key exactly when some file has it, and its list is
      the paths of the files with that name, in scan order. */
  lemma {:induction false} NameIndexPaths(files: seq<FileRecord>)
    ensures forall k :: k in NameIndex(files).entries <==> PathsNamed(files, k) != []
    ensures forall k :: k in NameIndex(files).entries ==> NameIndex(files).entries[k] == PathsNamed(files, k)
  {
    if files != [] {
      var prefix := files[..|files| - 1];
      NameIndexPaths(prefix);
    }
  }

  /** The paths of the recorded files smaller than `limit`. */
  function SmallPaths(files: seq<FileRecord>, limit: nat): set<string>
  {
    set i | 0 <= i < |files| && files[i].size < limit :: files[i].path
  }

  /** Both maps well formed, the name map is the one its files give, and
      only paths of files below the limit are hashed. */
  ghost predicate Inv(st: LState, limit: nat)
  {
    Valid(st.names) && Valid(st.hashes) && st.names == NameIndex(st.files)
    && forall k, p :: k in st.hashes.entries && p in st.hashes.entries[k] ==> p in SmallPaths(st.files, limit)
  }

  lemma InitialInv(limit: nat)
    ensures Inv(Initial(), limit)
  {
  }

  lemma SmallPathsGrow(files: seq<FileRecord>, r: FileRecord, limit: nat)
    ensures SmallPaths(files, limit) <= SmallPaths(files + [r], limit)
    ensures r.size < limit ==> r.path in SmallPaths(files + [r], limit)
  {
    var fs := files + [r];
    forall p | p in SmallPaths(files, limit) ensures p in SmallPaths(fs, limit) {
      var i :| 0 <= i < |files| && files[i].size < limit && files[i].path == p;
      assert fs[i] == files[i];
    }
    if r.size < limit {
      assert fs[|files|] == r;
    }
  }

  /** Recording a file keeps the name map the one its files give. */
  lemma RecordKeepsInv(st: LState, limit: nat, r: FileRecord)
    requires Inv(st, limit)
    ensures Inv(st.(files := st.files + [r], names := Add(st.names, r.name, r.path)), limit)
    ensures r.size < limit ==> r.path in SmallPaths(st.files + [r], limit)
  {
    var files := st.files + [r];
    assert files[..|files| - 1] == st.files;
    SmallPathsGrow(st.files, r, limit);
  }

  lemma HashStepKeepsInv(st: LState, env: Env, f: Node, path: string)
    requires f.File? && Inv(st, env.hashLimit)
    requires f.size < env.hashLimit ==> path in SmallPaths(st.files, env.hashLimit)
    ensures Inv(HashStep(st, env, f, path), env.hashLimit)
    ensures HashStep(st, env, f, path).files == st.files
  {
    if f.size < env.hashLimit && f.content.Some? {
      AddMembers(st.hashes, HexEncode(env.digest(f.content.value)), path);
    }
  }

  lemma FileStepKeepsInv(st: LState, env: Env, f: Node, path: string)
    requires f.File? && Inv(st, env.hashLimit)
    ensures FileStep(st, env, f, path).Some? ==>
      Inv(FileStep(st, env, f, path).value, env.hashLimit)
  {
    if f.opens {
      var r := FileRecord(f.name, path, f.size);
      RecordKeepsInv(st, env.hashLimit, r);
      var recorded := st.(files := st.files + [r], names := Add(st.names, f.name, path));
      HashStepKeepsInv(recorded, env, f, path);
    }
  }

  lemma {:induction false} WalkKeepsInv(st: LState, env: Env, d: Node, path: string)
    requires d.Dir? && Inv(st, env.hashLimit)
    ensures Walk(st, env, d, path).Some? ==>
      Inv(Walk(st, env, d, path).value, env.hashLimit)
    decreases d, 1
  {
    WalkEntriesKeepInv(st, env, d, 0, path);
  }

  lemma {:induction false} WalkEntriesKeepInv(st: LState, env: Env, d: Node, i: nat, path: string)
    requires d.Dir? && i <= |d.entries| && Inv(st, env.hashLimit)
    ensures WalkEntries(st, env, d, i, path).Some? ==>
      Inv(WalkEntries(st, env, d, i, path).value, env.hashLimit)
    decreases d, 0, |d.entries| - i
  {
    if i < |d.entries| {
      EntryStepKeepsInv(st, env, d.entries[i], path);
      var next := EntryStep(st, env, d.entries[i], path);
      if next.Some? {
        assert WalkEntries(st, env, d, i, path) == WalkEntries(next.value, env, d, i + 1, path);
        WalkEntriesKeepInv(next.value, env, d, i + 1, path);
      }
    }
  }

  lemma {:induction false} EntryStepKeepsInv(st: LState, env: Env, e: Node, parentPath: string)
    requires Inv(st, env.hashLimit)
    ensures EntryStep(st, env, e, parentPath).Some? ==>
      Inv(EntryStep(st, env, e, parentPath).value, env.hashLimit)
    decreases e, 2
  {
    var p := JoinPath(parentPath, e.name);
    if e.File? {
      FileStepKeepsInv(st, env, e, p);
    } else {
      WalkKeepsInv(st, env, e, p);
    }
  }

  /** A listing that throws, or a file directly in the directory that
      cannot be opened, makes the whole search return null. */
  lemma AbortsOnError(st: LState, env: Env, d: Node, path: string)
    requires d.Dir?
    requires d.listingFails || exists j :: 0 <= j < |d.entries| && d.entries[j].File? && !d.entries[j].opens
    ensures Walk(st, env, d, path) == None
  {
    if d.listingFails {
      ListingAborts(st, env, d, 0, path);
    } else {
      var j :| 0 <= j < |d.entries| && d.entries[j].File? && !d.entries[j].opens;
      FileAborts(st, env, d, 0, j, path);
    }
  }

  lemma {:induction false} ListingAborts(st: LState, env: Env, d: Node, i: nat, path: string)
    requires d.Dir? && d.listingFails && i <= |d.entries|
    ensures WalkEntries(st, env, d, i, path) == None
    decreases |d.entries| - i
  {
    if i < |d.entries| {
      var next := EntryStep(st, env, d.entries[i], path);
      if next.Some? {
        assert WalkEntries(st, env, d, i, path) == WalkEntries(next.value, env, d, i + 1, path);
        ListingAborts(next.value, env, d, i + 1, path);
      }
    }
  }

  lemma {:induction false} FileAborts(st: LState, env: Env, d: Node, i: nat, j: nat, path: string)
    requires d.Dir? && i <= j < |d.entries|
    requires d.entries[j].File? && !d.entries[j].opens
    ensures WalkEntries(st, env, d, i, path) == None
    decreases j - i
  {
    var next := EntryStep(st, env, d.entries[i], path);
    if i == j {
      assert next == None;
    } else if next.Some? {
      assert WalkEntries(st, env, d, i, path) == WalkEntries(next.value, env, d, i + 1, path);
      FileAborts(next.value, env, d, i + 1, j, path);
    }
  }

  // ---------------------------------------------------------------------
  // The content map, stated against the tree

  /** The hex digest a hashed file is pushed under. */
  function DigestKey(env: Env, f: Node): string
    requires f.File? && f.content.Some?
  {
    HexEncode(env.digest(f.content.value))
  }

  /** The (key, path) pairs the content check pushes while walking d under
      `path`, in walk order: one for each file below the limit whose bytes
      could be read, keyed by the hex digest of those bytes. */
  function HashedPairs(env: Env, d: Node, path: string): seq<(string, string)>
    requires d.Dir?
    decreases d, 1
  {
    HashedPairsFrom(env, d, 0, path)
  }

  function HashedPairsFrom(env: Env, d: Node, i: nat, path: string): seq<(string, string)>
    requires d.Dir? && i <= |d.entries|
    decreases d, 0, |d.entries| - i
  {
    if i == |d.entries| then []
    else EntryPairs(env, d.entries[i], path) + HashedPairsFrom(env, d, i + 1, path)
  }

  function EntryPairs(env: Env, e: Node, parentPath: string): seq<(string, string)>
    decreases e, 2
  {
    var p := JoinPath(parentPath, e.name);
    if e.Dir? then HashedPairs(env, e, p)
    else if e.size < env.hashLimit && e.content.Some? then [(DigestKey(env, e), p)]
    else []
  }

  /** `hashMap` after pushing the path of one pair under its key. */
  function Push(m: Multi<string>, pair: (string, string)): Multi<string>
  {
    Add(m, pair.0, pair.1)
  }

  /** The pairs pushed in order onto m. */
  function AddAll(m: Multi<string>, pairs: seq<(string, string)>): Multi<string>
  {
    if pairs == [] then m
    else Push(AddAll(m, pairs[..|pairs| - 1]), pairs[|pairs| - 1])
  }

  /** The paths paired with key k, in order. */
  function PathsKeyed(pairs: seq<(string, string)>, k: string): seq<string>
  {
    if pairs == [] then []
    else
      var last := pairs[|pairs| - 1];
      PathsKeyed(pairs[..|pairs| - 1], k) + (if last.0 == k then [last.1] else [])
  }

  /** One more pair is one more push. */
  lemma AddAllSnoc(m: Multi<string>, pairs: seq<(string, string)>, pair: (string, string))
    ensures AddAll(m, pairs + [pair]) == Push(AddAll(m, pairs), pair)
  {
    assert (pairs + [pair])[..|pairs|] == pairs;
  }

  /** Pushing a + b is pushing a, then b. */
  lemma {:induction false} AddAllAppend(m: Multi<string>, a: seq<(string, string)>, b: seq<(string, string)>)
    ensures AddAll(m, a + b) == AddAll(AddAll(m, a), b)
    decreases |b|
  {
    if b == [] {
      assert a + b == a;
    } else {
      var front, last := b[..|b| - 1], b[|b| - 1];
      assert b == front + [last];
      assert a + b == (a + front) + [last];
      AddAllAppend(m, a, front);
      AddAllSnoc(m, a + front, last);
      AddAllSnoc(AddAll(m, a), front, last);
    }
  }

  /** Pushing pairs onto an empty map files every path under its key and
      nothing else: k is a key exactly when some pair has it, and its list
      is the paths paired with k, in order. */
  lemma {:induction false} AddAllPaths(pairs: seq<(string, string)>)
    ensures Valid(AddAll(Empty(), pairs))
    ensures forall k :: k in AddAll(Empty(), pairs).entries <==> PathsKeyed(pairs, k) != []
    ensures forall k :: k in AddAll(Empty(), pairs).entries ==> AddAll(Empty(), pairs).entries[k] == PathsKeyed(pairs, k)
  {
    if pairs != [] {
      AddAllPaths(pairs[..|pairs| - 1]);
    }
  }

  /** A walk that resolves has pushed exactly the directory's pairs onto
      the content map it started from. */
  lemma {:induction false} WalkHashes(st: LState, env: Env, d: Node, path: string)
    requires d.Dir?
    ensures Walk(st, env, d, path).Some? ==>
      Walk(st, env, d, path).value.hashes == AddAll(st.hashes, HashedPairs(env, d, path))
    decreases d, 1
  {
    WalkEntriesHashes(st, env, d, 0, path);
  }

  lemma {:induction false} WalkEntriesHashes(st: LState, env: Env, d: Node, i: nat, path: string)
    requires d.Dir? && i <= |d.entries|
    ensures WalkEntries(st, env, d, i, path).Some? ==>
      WalkEntries(st, env, d, i, path).value.hashes == AddAll(st.hashes, HashedPairsFrom(env, d, i, path))
    decreases d, 0, |d.entries| - i
  {
    if i < |d.entries| {
      var e := d.entries[i];
      EntryHashes(st, env, e, path);
      var next := EntryStep(st, env, e, path);
      if next.Some? {
        assert WalkEntries(st, env, d, i, path) == WalkEntries(next.value, env, d, i + 1, path);
        WalkEntriesHashes(next.value, env, d, i + 1, path);
        AddAllAppend(st.hashes, EntryPairs(env, e, path), HashedPairsFrom(env, d, i + 1, path));
      }
    }
  }

  lemma {:induction false} EntryHashes(st: LState, env: Env, e: Node, parentPath: string)
    ensures EntryStep(st, env, e, parentPath).Some? ==>
      EntryStep(st, env, e, parentPath).value.hashes == AddAll(st.hashes, EntryPairs(env, e, parentPath))
    decreases e, 2
  {
    var p := JoinPath(parentPath, e.name);
    if e.Dir? {
      WalkHashes(st, env, e, p);
    } else if e.size < env.hashLimit && e.content.Some? {
      assert [(DigestKey(env, e), p)][..0] == [];
    }
  }

  // ---------------------------------------------------------------------
  // The results

  /** `{byName, byContent, allFiles}`. */
  datatype CheckResult = CheckResult(byName: seq<(string, seq<string>)>,
                                     byContent: seq<(string, seq<string>)>,
                                     allFiles: seq<FileRecord>)

  /** `{byName, byContent}`. */
  datatype QuickResult = QuickResult(byName: seq<(string, seq<string>)>,
                                     byContent: seq<(string, seq<string>)>)

  ghost predicate OrderedKeys(st: LState)
  {
    (forall k :: k in st.names.order ==> k in st.names.entries)
    && (forall k :: k in st.hashes.order ==> k in st.hashes.entries)
  }

  /** What `checkDuplicates` resolves to: null when the walk aborted, else
      the entries with more than one path and every recorded file. */
  function Outcome(w: Option<LState>): Option<CheckResult>
    requires w.Some? ==> OrderedKeys(w.value)
  {
    match w
    case None => None
    case Some(st) => Some(CheckResult(Groups(st.names), Groups(st.hashes), st.files))
  }

  function QuickOutcome(w: Option<LState>): Option<QuickResult>
    requires w.Some? ==> OrderedKeys(w.value)
  {
    match w
    case None => None
    case Some(st) => Some(QuickResult(Groups(st.names), Groups(st.hashes)))
  }

  lemma WalkedInv(env: Env, root: Node)
    requires root.Dir?
    ensures var w := Walk(Initial(), env, root, "");
      w.Some? ==> Inv(w.value, env.hashLimit) && OrderedKeys(w.value)
  {
    InitialInv(env.hashLimit);
    WalkKeepsInv(Initial(), env, root, "");
  }

  /** When `checkDuplicates` resolves, `byName` lists exactly the names of
      two or more recorded files, each once, with every path of that name
      in scan order; `byContent` lists exactly the hex digests shared by
      two or more readable files smaller than 10 MB, each once, with the
      paths of the files whose bytes have that digest, in scan order. */
  lemma CheckDuplicatesExact(digest: seq<Byte> -> seq<Byte>, root: Node)
    requires root.Dir?
    ensures var w := Walk(Initial(), Env(digest, CheckHashLimit), root, "");
      (w.Some? ==> OrderedKeys(w.value))
      && (Outcome(w).Some? ==>
        var r := Outcome(w).value;
        r.byName == Groups(NameIndex(r.allFiles))
        && (forall i :: 0 <= i < |r.byName| ==>
              |r.byName[i].1| > 1 && r.byName[i].1 == PathsNamed(r.allFiles, r.byName[i].0))
        && (forall k :: |PathsNamed(r.allFiles, k)| > 1 ==> HasKey(r.byName, k))
        && (forall i, j :: 0 <= i < j < |r.byName| ==> r.byName[i].0 != r.byName[j].0)
        && (forall i, p :: 0 <= i < |r.byContent| && p in r.byContent[i].1 ==>
              |r.byContent[i].1| > 1 && p in SmallPaths(r.allFiles, CheckHashLimit)))
    ensures var env := Env(digest, CheckHashLimit);
      var w := Walk(Initial(), env, root, "");
      w.Some? ==> OrderedKeys(w.value) && ContentGroupsExact(Outcome(w).value.byContent, HashedPairs(env, root, ""))
  {
    var env := Env(digest, CheckHashLimit);
    WalkedInv(env, root);
    var w := Walk(Initial(), env, root, "");
    if w.Some? {
      var st := w.value;
      NameIndexPaths(st.files);
      GroupsExact(st.names);
      GroupsExact(st.hashes);
      WalkedContentGroups(env, root);
    }
  }

  /** `byContent` is the grouping of the pairs pushed in walk order: each
      key with two or more paths once, with exactly the paths paired with
      it, in order. */
  ghost predicate ContentGroupsExact(byContent: seq<(string, seq<string>)>, pairs: seq<(string, string)>)
  {
    Valid(AddAll(Empty(), pairs)) && byContent == Groups(AddAll(Empty(), pairs))
    && (forall i :: 0 <= i < |byContent| ==>
          |byContent[i].1| > 1 && byContent[i].1 == PathsKeyed(pairs, byContent[i].0))
    && (forall k :: |PathsKeyed(pairs, k)| > 1 ==> HasKey(byContent, k))
    && (forall i, j :: 0 <= i < j < |byContent| ==> byContent[i].0 != byContent[j].0)
  }

  lemma WalkedContentGroups(env: Env, root: Node)
    requires root.Dir?
    ensures var w := Walk(Initial(), env, root, "");
      w.Some? ==> OrderedKeys(w.value) && ContentGroupsExact(Groups(w.value.hashes), HashedPairs(env, root, ""))
  {
    WalkedInv(env, root);
    var w := Walk(Initial(), env, root, "");
    if w.Some? {
      var pairs := HashedPairs(env, root, "");
      WalkHashes(Initial(), env, root, "");
      AddAllPaths(pairs);
      GroupsExact(AddAll(Empty(), pairs));
    }
  }

  // ---------------------------------------------------------------------
  // The walk as a class over the closure's variables

  class LegacyCheck {
    /** `crypto.subtle.digest('SHA-256', ·)`. */
    const digest: seq<Byte> -> seq<Byte>
    /** The hashing cut-off of the finder this walk belongs to. */
    const hashLimit: nat
    var files: seq<FileRecord>
    var nameMap: map<string, seq<string>>
    var nameOrder: seq<string>
    var hashMap: map<string, seq<string>>
    var hashOrder: seq<string>

    function Environment(): Env
    {
      Env(digest, hashLimit)
    }

    function State(): LState
      reads this
    {
      LState(files, Multi(nameMap, nameOrder), Multi(hashMap, hashOrder))
    }

    constructor(digest: seq<Byte> -> seq<Byte>, hashLimit: nat)
      ensures this.digest == digest && this.hashLimit == hashLimit && State() == Initial()
    {
      this.digest := digest;
      this.hashLimit := hashLimit;
      files := [];
      nameMap, nameOrder := map[], [];
      hashMap, hashOrder := map[], [];
    }

    /** `processDirectory(handle, path)`; `ok` is false when it threw. */
    method ProcessDirectory(d: Node, path: string) returns (ok: bool)
      requires d.Dir?
      modifies this
      ensures ok == Walk(old(State()), Environment(), d, path).Some?
      ensures ok ==> State() == Walk(old(State()), Environment(), d, path).value
      decreases d, 1
    {
      ghost var target := WalkEntries(State(), Environment(), d, 0, path);
      var i := 0;
      while i < |d.entries|
        invariant 0 <= i <= |d.entries|
        invariant WalkEntries(State(), Environment(), d, i, path) == target
      {
        ghost var before := State();
        var entryOk := ProcessEntry(d.entries[i], path);
        if !entryOk {
          assert WalkEntries(before, Environment(), d, i, path) == None;
          return false;
        }
        assert WalkEntries(before, Environment(), d, i, path) == WalkEntries(State(), Environment(), d, i + 1, path);
        i := i + 1;
      }
      if d.listingFails {
        return false;
      }
      return true;
    }

    method ProcessEntry(entry: Node, currentPath: string) returns (ok: bool)
      modifies this
      ensures ok == EntryStep(old(State()), Environment(), entry, currentPath).Some?
      ensures ok ==> State() == EntryStep(old(State()), Environment(), entry, currentPath).value
      decreases entry, 2
    {
      var fullPath := JoinPath(currentPath, entry.name);
      if entry.File? {
        ok := ProcessFile(entry, fullPath);
      } else {
        ok := ProcessDirectory(entry, fullPath);
      }
    }

    /** A file: record it, push its path under its name and, below the
        cut-off, under its content digest. */
    method ProcessFile(f: Node, filePath: string) returns (ok: bool)
      requires f.File?
      modifies this
      ensures ok == FileStep(old(State()), Environment(), f, filePath).Some?
      ensures ok ==> State() == FileStep(old(State()), Environment(), f, filePath).value
    {
      if !f.opens {
        return false;
      }
      files := files + [FileRecord(f.name, filePath, f.size)];
      if f.name !in nameMap {
        nameMap := nameMap[f.name := [filePath]];
        nameOrder := nameOrder + [f.name];
      } else {
        nameMap := nameMap[f.name := nameMap[f.name] + [filePath]];
      }
      if f.size < hashLimit && f.content.Some? {
        var hashHex := HexEncode(digest(f.content.value));
        if hashHex !in hashMap {
          hashMap := hashMap[hashHex := [filePath]];
          hashOrder := hashOrder + [hashHex];
        } else {
          hashMap := hashMap[hashHex := hashMap[hashHex] + [filePath]];
        }
      }
      return true;
    }
  }

  /** `checkDuplicates()` once the directory is picked: null when the walk
      threw, else the duplicate names, the duplicate contents and every
      recorded file. */
  method CheckDuplicates(root: Node, digest: seq<Byte> -> seq<Byte>) returns (r: Option<CheckResult>)
    requires root.Dir?
    ensures var w := Walk(Initial(), Env(digest, CheckHashLimit), root, "");
      (w.Some? ==> OrderedKeys(w.value)) && r == Outcome(w)
  {
    var check := new LegacyCheck(digest, CheckHashLimit);
    var ok := check.ProcessDirectory(root, "");
    WalkedInv(Env(digest, CheckHashLimit), root);
    if !ok {
      return None;
    }
    var duplicateNames := CollectGroups(check.nameMap, check.nameOrder);
    var duplicateContents := CollectGroups(check.hashMap, check.hashOrder);
    return Some(CheckResult(duplicateNames, duplicateContents, check.files));
  }

  /** `quickCheckDuplicates()`: the same walk with a 5 MB cut-off. */
  method QuickCheckDuplicates(root: Node, digest: seq<Byte> -> seq<Byte>) returns (r: Option<QuickResult>)
    requires root.Dir?
    ensures var w := Walk(Initial(), Env(digest, QuickHashLimit), root, "");
      (w.Some? ==> OrderedKeys(w.value)) && r == QuickOutcome(w)
  {
    var check := new LegacyCheck(digest, QuickHashLimit);
    var ok := check.ProcessDirectory(root, "");
    WalkedInv(Env(digest, QuickHashLimit), root);
    if !ok {
      return None;
    }
    var duplicateNames := CollectGroups(check.nameMap, check.nameOrder);
    var duplicateContents := CollectGroups(check.hashMap, check.hashOrder);
    return Some(QuickResult(duplicateNames, duplicateContents));
  }

  // ---------------------------------------------------------------------
  // testDuplicateDetection: collect first, then group

  /** An element of `files` in `testDuplicateDetection`: name, path, size
      and the file itself (its readable bytes, if any). */
  datatype TestFile = TestFile(name: string, path: string, size: nat, content: Option<seq<Byte>>)

  /** What `collectFiles(handle, path)` pushes, in order. A file whose
      `getFile()` rejects is skipped and a listing that throws is caught,
      so nothing here aborts. */
  function Collected(d: Node, path: string): seq<TestFile>
    requires d.Dir?
    decreases d, 1
  {
    CollectedEntries(d, 0, path)
  }

  function CollectedEntries(d: Node, i: nat, path: string): seq<TestFile>
    requires d.Dir? && i <= |d.entries|
    decreases d, 0, |d.entries| - i
  {
    if i == |d.entries| then []
    else CollectedEntry(d.entries[i], path) + CollectedEntries(d, i + 1, path)
  }

  function CollectedEntry(e: Node, parentPath: string): seq<TestFile>
    decreases e, 2
  {
    var p := JoinPath(parentPath, e.name);
    if e.File? then (if e.opens then [TestFile(e.name, p, e.size, e.content)] else [])
    else Collected(e, p)
  }

  /** The `files` array that `collectFiles` pushes onto. */
  class FileCollector {
    var files: seq<TestFile>

    constructor()
      ensures files == []
    {
      files := [];
    }

    method CollectFiles(d: Node, path: string)
      requires d.Dir?
      modifies this
      ensures files == old(files) + Collected(d, path)
      decreases d, 1
    {
      var i := 0;
      while i < |d.entries|
        invariant 0 <= i <= |d.entries|
        invariant old(files) + Collected(d, path) == files + CollectedEntries(d, i, path)
      {
        ghost var before := files;
        CollectEntry(d.entries[i], path);
        assert before + CollectedEntries(d, i, path)
            == files + CollectedEntries(d, i + 1, path);
        i := i + 1;
      }
    }

    method CollectEntry(entry: Node, path: string)
      modifies this
      ensures files == old(files) + CollectedEntry(entry, path)
      decreases entry, 2
    {
      var entryPath := JoinPath(path, entry.name);
      if entry.File? {
        if entry.opens {
          files := files + [TestFile(entry.name, entryPath, entry.size, entry.content)];
        }
      } else {
        CollectFiles(entry, entryPath);
      }
    }
  }

  /** `filenameMap`: every collected file pushed under its name. */
  function TestNameIndex(files: seq<TestFile>): (r: Multi<TestFile>)
    ensures Valid(r)
  {
    if files == [] then Empty()
    else
      var last := files[|files| - 1];
      Add(TestNameIndex(files[..|files| - 1]), last.name, last)
  }

  /** `hashMap`: every collected file of at most 10 MB whose bytes could be
      read, pushed under its hex digest. */
  function TestHashIndex(files: seq<TestFile>, hashOf: seq<Byte> -> string): (r: Multi<TestFile>)
    ensures Valid(r)
  {
    if files == [] then Empty()
    else
      var last := files[|files| - 1];
      var prev := TestHashIndex(files[..|files| - 1], hashOf);
      if TestHashes(last.size) && last.content.Some? then
        Add(prev, hashOf(last.content.value), last)
      else prev
  }

  /** The index of one more file is one more push. */
  lemma TestNameIndexStep(files: seq<TestFile>, i: nat)
    requires i < |files|
    ensures TestNameIndex(files[..i + 1]) == Add(TestNameIndex(files[..i]), files[i].name, files[i])
  {
    assert files[..i + 1][..i] == files[..i];
  }

  /** The `files.forEach` that fills `filenameMap`. */
  method IndexByName(files: seq<TestFile>) returns (m: Multi<TestFile>)
    ensures m == TestNameIndex(files)
  {
    m := Empty();
    var i := 0;
    while i < |files|
      invariant 0 <= i <= |files|
      invariant m == TestNameIndex(files[..i])
    {
      TestNameIndexStep(files, i);
      m := Add(m, files[i].name, files[i]);
      i := i + 1;
    }
    assert files[..i] == files;
  }

  /** The `for (const file of files)` loop that fills `hashMap`; `hashOf`
      is the hex digest of the bytes. */
  method IndexByContent(files: seq<TestFile>, hashOf: seq<Byte> -> string) returns (m: Multi<TestFile>)
    ensures m == TestHashIndex(files, hashOf)
  {
    m := Empty();
    var i := 0;
    while i < |files|
      invariant 0 <= i <= |files|
      invariant m == TestHashIndex(files[..i], hashOf)
    {
      var file := files[i];
      assert files[..i + 1][..i] == files[..i];
      i := i + 1;
      if file.size > CheckHashLimit {
        continue;
      }
      if file.content.None? {
        continue;
      }
      var hash := hashOf(file.content.value);
      m := Add(m, hash, file);
    }
    assert files[..i] == files;
  }

  /** `{files, filenameDuplicates, contentDuplicates}`. */
  datatype TestResult = TestResult(files: seq<TestFile>,
                                   filenameDuplicates: seq<(string, seq<TestFile>)>,
                                   contentDuplicates: seq<(string, seq<TestFile>)>)

  function TestOutcome(files: seq<TestFile>, hashOf: seq<Byte> -> string): TestResult
  {
    TestResult(files, Groups(TestNameIndex(files)), Groups(TestHashIndex(files, hashOf)))
  }

  /** The hex string of a SHA-256 digest, as every finder here builds it. */
  function HexOf(digest: seq<Byte> -> seq<Byte>): seq<Byte> -> string
  {
    bytes => HexEncode(digest(bytes))
  }

  /** `testDuplicateDetection()` once the directory is picked. */
  method TestDuplicateDetection(root: Node, digest: seq<Byte> -> seq<Byte>) returns (r: TestResult)
    requires root.Dir?
    ensures r == TestOutcome(Collected(root, ""), HexOf(digest))
  {
    var collector := new FileCollector();
    collector.CollectFiles(root, "");
    var files := collector.files;
    assert files == Collected(root, "");
    var filenameMap := IndexByName(files);
    assert Valid(filenameMap);
    var filenameDuplicates := CollectGroups(filenameMap.entries, filenameMap.order);
    var hashOf := HexOf(digest);
    var hashMap := IndexByContent(files, hashOf);
    assert Valid(hashMap);
    var contentDuplicates := CollectGroups(hashMap.entries, hashMap.order);
    r := TestResult(files, filenameDuplicates, contentDuplicates);
  }

  predicate NamedAs(x: TestFile, k: string)
  {
    x.name == k
  }

  /** Every file under a key of m is one of `files` and has that name. */
  ghost predicate NamedIndex(m: Multi<TestFile>, files: seq<TestFile>)
  {
    forall k, x :: k in m.entries && x in m.entries[k] ==> x in files && NamedAs(x, k)
  }

  lemma WidenNamed(m: Multi<TestFile>, prefix: seq<TestFile>, files: seq<TestFile>)
    requires NamedIndex(m, prefix)
    requires forall x :: x in prefix ==> x in files
    ensures NamedIndex(m, files)
  {
  }

  lemma AddNamed(m: Multi<TestFile>, files: seq<TestFile>, v: TestFile)
    requires NamedIndex(m, files) && v in files
    ensures NamedIndex(Add(m, v.name, v), files)
  {
    AddMembers(m, v.name, v);
  }

  /** Every file under a name key has that name. */
  lemma {:induction false} TestNameIndexSound(files: seq<TestFile>)
    ensures NamedIndex(TestNameIndex(files), files)
  {
    if files != [] {
      var prefix := files[..|files| - 1];
      var last := files[|files| - 1];
      var prev := TestNameIndex(prefix);
      TestNameIndexSound(prefix);
      assert forall x :: x in prefix ==> x in files;
      WidenNamed(prev, prefix, files);
      AddNamed(prev, files, last);
    }
  }

  /** A file that was hashed: at most 10 MB, readable, with key k. */
  predicate HashedAs(x: TestFile, k: string, hashOf: seq<Byte> -> string)
  {
    TestHashes(x.size) && x.content.Some? && hashOf(x.content.value) == k
  }

  /** Every file under a key of m is one of `files`, hashed as that key. */
  ghost predicate HashedIndex(m: Multi<TestFile>, files: seq<TestFile>, hashOf: seq<Byte> -> string)
  {
    forall k, x :: k in m.entries && x in m.entries[k] ==> x in files && HashedAs(x, k, hashOf)
  }

  lemma WidenHashed(m: Multi<TestFile>, prefix: seq<TestFile>, files: seq<TestFile>, hashOf: seq<Byte> -> string)
    requires HashedIndex(m, prefix, hashOf)
    requires forall x :: x in prefix ==> x in files
    ensures HashedIndex(m, files, hashOf)
  {
  }

  lemma AddHashed(m: Multi<TestFile>, files: seq<TestFile>, k: string, v: TestFile, hashOf: seq<Byte> -> string)
    requires HashedIndex(m, files, hashOf) && v in files && HashedAs(v, k, hashOf)
    ensures HashedIndex(Add(m, k, v), files, hashOf)
  {
    AddMembers(m, k, v);
  }

  /** Every file under a hash key is at most 10 MB, was readable, and has
      that digest. */
  lemma {:induction false} TestHashIndexSound(files: seq<TestFile>, hashOf: seq<Byte> -> string)
    ensures HashedIndex(TestHashIndex(files, hashOf), files, hashOf)
  {
    if files != [] {
      var prefix := files[..|files| - 1];
      var last := files[|files| - 1];
      var prev := TestHashIndex(prefix, hashOf);
      TestHashIndexSound(prefix, hashOf);
      assert forall x :: x in prefix ==> x in files;
      WidenHashed(prev, prefix, files, hashOf);
      if TestHashes(last.size) && last.content.Some? {
        AddHashed(prev, files, hashOf(last.content.value), last, hashOf);
      }
    }
  }

  /** Every group reported holds two or more of `files`, each with the
      group's name. */
  ghost predicate NameGroupsHold(g: seq<(string, seq<TestFile>)>, files: seq<TestFile>)
  {
    forall i, x :: 0 <= i < |g| && x in g[i].1 ==> |g[i].1| > 1 && x in files && NamedAs(x, g[i].0)
  }

  /** Every group reported holds two or more of `files`, each hashed to the
      group's digest. */
  ghost predicate HashGroupsHold(g: seq<(string, seq<TestFile>)>, files: seq<TestFile>, hashOf: seq<Byte> -> string)
  {
    forall i, x :: 0 <= i < |g| && x in g[i].1 ==> |g[i].1| > 1 && x in files && HashedAs(x, g[i].0, hashOf)
  }

  lemma NamedGroups(m: Multi<TestFile>, files: seq<TestFile>)
    requires Valid(m) && NamedIndex(m, files)
    ensures NameGroupsHold(Groups(m), files)
  {
    GroupMembers(m);
  }

  lemma HashedGroups(m: Multi<TestFile>, files: seq<TestFile>, hashOf: seq<Byte> -> string)
    requires Valid(m) && HashedIndex(m, files, hashOf)
    ensures HashGroupsHold(Groups(m), files, hashOf)
  {
    GroupMembers(m);
  }

  /** Each reported name group holds two or more collected files, all with
      that name. */
  lemma TestNameGroupsSound(files: seq<TestFile>)
    ensures NameGroupsHold(Groups(TestNameIndex(files)), files)
  {
    TestNameIndexSound(files);
    NamedGroups(TestNameIndex(files), files);
  }

  /** Each reported content group holds two or more collected files of at
      most 10 MB, all with that digest. */
  lemma TestContentGroupsSound(files: seq<TestFile>, hashOf: seq<Byte> -> string)
    ensures HashGroupsHold(Groups(TestHashIndex(files, hashOf)), files, hashOf)
  {
    TestHashIndexSound(files, hashOf);
    HashedGroups(TestHashIndex(files, hashOf), files, hashOf);
  }

  /** The collected files named k, in order. */
  function FilesNamed(files: seq<TestFile>, k: string): seq<TestFile>
  {
    if files == [] then []
    else
      var last := files[|files| - 1];
      FilesNamed(files[..|files| - 1], k) + (if last.name == k then [last] else [])
  }

  /** The collected files hashed under k, in order. */
  function FilesHashed(files: seq<TestFile>, hashOf: seq<Byte> -> string, k: string): seq<TestFile>
  {
    if files == [] then []
    else
      var last := files[|files| - 1];
      FilesHashed(files[..|files| - 1], hashOf, k) + (if HashedAs(last, k, hashOf) then [last] else [])
  }

  /** `FilesNamed` keeps exactly the files with that name. */
  lemma {:induction false} FilesNamedMembers(files: seq<TestFile>, k: string)
    ensures forall x :: x in FilesNamed(files, k) <==> x in files && NamedAs(x, k)
  {
    if files != [] {
      var prefix := files[..|files| - 1];
      FilesNamedMembers(prefix, k);
      assert files == prefix + [files[|files| - 1]];
    }
  }

  /** `FilesHashed` keeps exactly the files hashed as that key. */
  lemma {:induction false} FilesHashedMembers(files: seq<TestFile>, hashOf: seq<Byte> -> string, k: string)
    ensures forall x :: x in FilesHashed(files, hashOf, k) <==> x in files && HashedAs(x, k, hashOf)
  {
    if files != [] {
      var prefix := files[..|files| - 1];
      FilesHashedMembers(prefix, hashOf, k);
      assert files == prefix + [files[|files| - 1]];
    }
  }

  /** `filenameMap` files every collected file under its name and nothing
      else: a name is a key exactly when some file has it, and its list is
      the files with that name, in collection order. */
  lemma {:induction false} TestNameIndexFiles(files: seq<TestFile>)
    ensures forall k :: k in TestNameIndex(files).entries <==> FilesNamed(files, k) != []
    ensures forall k :: k in TestNameIndex(files).entries ==> TestNameIndex(files).entries[k] == FilesNamed(files, k)
  {
    if files != [] {
      TestNameIndexFiles(files[..|files| - 1]);
    }
  }

  /** `hashMap` files every hashed file under its digest and nothing else. */
  lemma {:induction false} TestHashIndexFiles(files: seq<TestFile>, hashOf: seq<Byte> -> string)
    ensures forall k :: k in TestHashIndex(files, hashOf).entries <==> FilesHashed(files, hashOf, k) != []
    ensures forall k :: k in TestHashIndex(files, hashOf).entries ==>
      TestHashIndex(files, hashOf).entries[k] == FilesHashed(files, hashOf, k)
  {
    if files != [] {
      TestHashIndexFiles(files[..|files| - 1], hashOf);
    }
  }

  /** The name groups are exactly the names shared by two or more files:
      each listed once, with exactly the files of that name. */
  ghost predicate NameGroupsExact(g: seq<(string, seq<TestFile>)>, files: seq<TestFile>)
  {
    (forall i :: 0 <= i < |g| ==> |g[i].1| > 1 && g[i].1 == FilesNamed(files, g[i].0))
    && (forall k :: |FilesNamed(files, k)| > 1 ==> HasKey(g, k))
    && (forall i, j :: 0 <= i < j < |g| ==> g[i].0 != g[j].0)
  }

  /** The content groups are exactly the digests shared by two or more
      hashed files: each listed once, with exactly the files of that digest. */
  ghost predicate HashGroupsExact(g: seq<(string, seq<TestFile>)>, files: seq<TestFile>, hashOf: seq<Byte> -> string)
  {
    (forall i :: 0 <= i < |g| ==> |g[i].1| > 1 && g[i].1 == FilesHashed(files, hashOf, g[i].0))
    && (forall k :: |FilesHashed(files, hashOf, k)| > 1 ==> HasKey(g, k))
    && (forall i, j :: 0 <= i < j < |g| ==> g[i].0 != g[j].0)
  }

  lemma NameGroupsOfIndex(files: seq<TestFile>)
    ensures NameGroupsExact(Groups(TestNameIndex(files)), files)
  {
    TestNameIndexFiles(files);
    GroupsExact(TestNameIndex(files));
  }

  lemma HashGroupsOfIndex(files: seq<TestFile>, hashOf: seq<Byte> -> string)
    ensures HashGroupsExact(Groups(TestHashIndex(files, hashOf)), files, hashOf)
  {
    TestHashIndexFiles(files, hashOf);
    GroupsExact(TestHashIndex(files, hashOf));
  }

  /** `testDuplicateDetection` reports every duplicate and only duplicates:
      a name shared by two collected files, or a digest shared by two
      readable files of at most 10 MB, appears exactly once, with exactly
      the files that share it, in collection order. */
  lemma TestOutcomeExact(files: seq<TestFile>, hashOf: seq<Byte> -> string)
    ensures NameGroupsExact(TestOutcome(files, hashOf).filenameDuplicates, files)
    ensures HashGroupsExact(TestOutcome(files, hashOf).contentDuplicates, files, hashOf)
  {
    NameGroupsOfIndex(files);
    HashGroupsOfIndex(files, hashOf);
  }

  // ---------------------------------------------------------------------
  // The two walks on a tree without errors

  /** Every file opens and no listing throws, at any depth. */
  predicate Healthy(n: Node)
  {
    if n.File? then n.opens
    else !n.listingFails && forall e :: e in n.entries ==> Healthy(e)
  }

  function Records(fs: seq<TestFile>): (r: seq<FileRecord>)
    ensures |r| == |fs|
  {
    if fs == [] then [] else [FileRecord(fs[0].name, fs[0].path, fs[0].size)] + Records(fs[1..])
  }

  lemma {:induction false} RecordsAppend(a: seq<TestFile>, b: seq<TestFile>)
    ensures Records(a + b) == Records(a) + Records(b)
  {
    if a != [] {
      assert (a + b)[0] == a[0] && (a + b)[1..] == a[1..] + b;
      RecordsAppend(a[1..], b);
    } else {
      assert a + b == b;
    }
  }

  /** On a tree without errors `checkDuplicates` resolves, and it records
      exactly the files `testDuplicateDetection` collects, in the same
      order and under the same paths. */
  lemma {:induction false} HealthyWalksAgree(st: LState, env: Env, d: Node, path: string)
    requires d.Dir? && Healthy(d)
    ensures Walk(st, env, d, path).Some?
    ensures Walk(st, env, d, path).value.files == st.files + Records(Collected(d, path))
    decreases d, 1
  {
    HealthyEntriesAgree(st, env, d, 0, path);
  }

  lemma {:induction false} HealthyEntriesAgree(st: LState, env: Env, d: Node, i: nat, path: string)
    requires d.Dir? && Healthy(d) && i <= |d.entries|
    ensures WalkEntries(st, env, d, i, path).Some?
    ensures WalkEntries(st, env, d, i, path).value.files == st.files + Records(CollectedEntries(d, i, path))
    decreases d, 0, |d.entries| - i
  {
    if i < |d.entries| {
      var e := d.entries[i];
      assert Healthy(e) by {
        assert e in d.entries;
      }
      HealthyEntryAgrees(st, env, e, path);
      var next := EntryStep(st, env, e, path).value;
      assert WalkEntries(st, env, d, i, path) == WalkEntries(next, env, d, i + 1, path);
      HealthyEntriesAgree(next, env, d, i + 1, path);
      assert CollectedEntries(d, i, path) == CollectedEntry(e, path) + CollectedEntries(d, i + 1, path);
      RecordsAppend(CollectedEntry(e, path), CollectedEntries(d, i + 1, path));
    }
  }

  lemma {:induction false} HealthyEntryAgrees(st: LState, env: Env, e: Node, parentPath: string)
    requires Healthy(e)
    ensures EntryStep(st, env, e, parentPath).Some?
    ensures EntryStep(st, env, e, parentPath).value.files == st.files + Records(CollectedEntry(e, parentPath))
    decreases e, 2
  {
    var p := JoinPath(parentPath, e.name);
    if e.Dir? {
      HealthyWalksAgree(st, env, e, p);
    } else {
      assert Records([TestFile(e.name, p, e.size, e.content)]) == [FileRecord(e.name, p, e.size)];
    }
  }

  // ---------------------------------------------------------------------
  // formatTime

  /** `Math.trunc`, as the `%` operator on numbers uses it. */
  function Trunc(x: real): int
  {
    if x >= 0.0 then x.Floor else -((-x).Floor)
  }

  /** JavaScript's `x % n` on numbers: the sign follows the dividend. */
  function RemR(x: real, n: real): real
    requires n > 0.0
  {
    x - n * Trunc(x / n) as real
  }

  /** `formatTime(seconds)`: the floors of hours, minutes and seconds,
      each `toString().padStart(2, "0")`, joined by ':'. */
  function FormatTime(seconds: real): string
  {
    var hours := (seconds / 3600.0).Floor;
    var minutes := (RemR(seconds, 3600.0) / 60.0).Floor;
    var secs := RemR(seconds, 60.0).Floor;
    UiController.Pad2(hours) + ":" + UiController.Pad2(minutes) + ":" + UiController.Pad2(secs)
  }

  /** On a non-negative input this is the other front end's clock text, so
      its fields read back as the whole seconds (`UiController.ClockRoundTrip`). */
  lemma FormatTimeIsClock(x: real)
    requires x >= 0.0
    ensures FormatTime(x) == UiController.ClockText(Fin(x))
  {
    var n := x.Floor;
    var hours := (x / 3600.0).Floor;
    var minutes := (RemR(x, 3600.0) / 60.0).Floor;
    var secs := RemR(x, 60.0).Floor;
    assert hours == n / 3600 && minutes == JsRem(n, 3600) / 60 && secs == JsRem(JsRem(n, 3600), 60) by {
      assert RemR(x, 3600.0) == AppNew.RealRem(x, 3600.0) by {
        assert Trunc(x / 3600.0) == (x / 3600.0).Floor;
      }
      assert RemR(x, 60.0) == AppNew.RealRem(x, 60.0) by {
        assert Trunc(x / 60.0) == (x / 60.0).Floor;
      }
      AppNew.HmsOfFloor(x);
      UiController.ClockArithmetic(n);
    }
  }

  // ---------------------------------------------------------------------
  // updateProgress, getSampleFiles and the estimates

  /** The bar percentage `updateProgress` sets: only once a file was
      scanned, `min(99, round(f / (f + 100) * 100))`. */
  function ProgressPercent(filesScanned: nat): Option<int>
  {
    if filesScanned > 0 then
      Some(Min(99, Round((filesScanned as real / (filesScanned + 100) as real) * 100.0)))
    else None
  }

  /** The bar is left alone before the first file, then moves between 1
      and 99, never backwards as more files are scanned. */
  lemma ProgressPercentBounds(f: nat, g: nat)
    ensures ProgressPercent(f).None? <==> f == 0
    ensures f > 0 ==> 1 <= ProgressPercent(f).value <= 99
    ensures 0 < f <= g ==> ProgressPercent(f).value <= ProgressPercent(g).value
  {
    if f > 0 {
      var rf := (f as real / (f + 100) as real) * 100.0;
      assert rf == 100.0 - 10000.0 / (f + 100) as real;
      assert 10000.0 / (f + 100) as real <= 10000.0 / 101.0;
      assert rf + 0.5 >= 1.0;
      if f <= g {
        var rg := (g as real / (g + 100) as real) * 100.0;
        assert rg == 100.0 - 10000.0 / (g + 100) as real;
        assert 10000.0 / (g + 100) as real <= 10000.0 / (f + 100) as real;
        assert rf <= rg;
      }
    }
  }

  /** The file entries among `es`, in order. */
  function FileEntries(es: seq<Node>): (r: seq<Node>)
    ensures forall x :: x in r ==> x in es && x.File?
  {
    if es == [] then []
    else FileEntries(es[..|es| - 1]) + (if es[|es| - 1].File? then [es[|es| - 1]] else [])
  }

  lemma {:induction false} FileEntriesAppend(a: seq<Node>, b: seq<Node>)
    ensures FileEntries(a + b) == FileEntries(a) + FileEntries(b)
    decreases |b|
  {
    if b != [] {
      var b' := b[..|b| - 1];
      assert (a + b)[..|a + b| - 1] == a + b';
      FileEntriesAppend(a, b');
    } else {
      assert a + b == a;
    }
  }

  /** `getSampleFiles(dirHandle, sampleSize)`: the directory's file entries
      in order, stopping as soon as `sampleSize` are held (so at least one
      is taken once a file is seen, whatever `sampleSize` says); when the
      loop runs to the end of a listing that then throws, []. */
  method GetSampleFiles(d: Node, sampleSize: int) returns (files: seq<Node>)
    requires d.Dir?
    ensures var all, cap := FileEntries(d.entries), Max(1, sampleSize);
      files == if |all| >= cap then all[..cap] else if d.listingFails then [] else all
  {
    ghost var cap := Max(1, sampleSize);
    files := [];
    var i := 0;
    while i < |d.entries|
      invariant 0 <= i <= |d.entries|
      invariant files == FileEntries(d.entries[..i])
      invariant |files| < cap
    {
      var entry := d.entries[i];
      FileEntriesStep(d.entries, i);
      i := i + 1;
      if entry.File? {
        files := files + [entry];
        if |files| >= sampleSize {
          SampleComplete(d.entries, i, files, cap);
          return files;
        }
      }
    }
    assert d.entries[..i] == d.entries;
    if d.listingFails {
      return [];
    }
  }

  lemma FileEntriesStep(es: seq<Node>, i: nat)
    requires i < |es|
    ensures FileEntries(es[..i + 1]) == FileEntries(es[..i]) + (if es[i].File? then [es[i]] else [])
  {
    assert es[..i + 1][..i] == es[..i];
  }

  /** Once `cap` files of the first i entries are held, they are the
      first `cap` file entries of all. */
  lemma SampleComplete(es: seq<Node>, i: nat, files: seq<Node>, cap: nat)
    requires i <= |es| && files == FileEntries(es[..i]) && |files| == cap
    ensures |FileEntries(es)| >= cap && FileEntries(es)[..cap] == files
  {
    FileEntriesPrefix(es, i);
  }

  lemma {:induction false} FileEntriesPrefix(es: seq<Node>, i: nat)
    requires i <= |es|
    ensures FileEntries(es[..i]) <= FileEntries(es)
    decreases |es|
  {
    if i < |es| {
      var front := es[..|es| - 1];
      assert es[..i] == front[..i];
      FileEntriesPrefix(front, i);
      var x, y := FileEntries(front[..i]), FileEntries(front);
      var z := if es[|es| - 1].File? then [es[|es| - 1]] else [];
      assert FileEntries(es) == y + z;
      assert (y + z)[..|x|] == y[..|x|];
    } else {
      assert es[..i] == es;
    }
  }

  /** The pre-scan estimate `Math.max(10, totalFiles * 0.1)`. */
  function PreScanEstimate(totalFiles: nat): (r: real)
    ensures r >= 10.0
    ensures totalFiles >= 100 ==> r == totalFiles as real / 10.0
    ensures totalFiles <= 100 ==> r == 10.0
  {
    MaxR(10.0, totalFiles as real * 0.1)
  }

  /** The remaining-time estimate of `updateProgress`: shown only while
      files per second is positive and files remain, and then for at least
      100 remaining files. */
  function RemainingSeconds(totalFiles: int, filesScanned: nat, elapsed: real): Option<real>
  {
    var filesPerSecond := if elapsed > 0.0 then filesScanned as real / elapsed else 0.0;
    if filesPerSecond > 0.0 && totalFiles > filesScanned then
      Some(Max(100, totalFiles - filesScanned) as real / filesPerSecond)
    else None
  }

  /** An estimate exists exactly when time has passed, a file was scanned
      and files remain; it is the time the remaining files (at least 100)
      take at the rate so far. */
  lemma RemainingSecondsFacts(totalFiles: int, filesScanned: nat, elapsed: real)
    ensures RemainingSeconds(totalFiles, filesScanned, elapsed).Some?
      <==> elapsed > 0.0 && filesScanned > 0 && totalFiles > filesScanned
    ensures RemainingSeconds(totalFiles, filesScanned, elapsed).Some? ==>
      var r := RemainingSeconds(totalFiles, filesScanned, elapsed).value;
      r * filesScanned as real == Max(100, totalFiles - filesScanned) as real * elapsed
      && r * filesScanned as real >= 100.0 * elapsed
  {
    if elapsed > 0.0 && filesScanned > 0 {
      var fps := filesScanned as real / elapsed;
      assert fps * elapsed == filesScanned as real;
      assert fps > 0.0;
      if totalFiles > filesScanned {
        var rem := Max(100, totalFiles - filesScanned) as real;
        var r := rem / fps;
        assert r * fps == rem;
        assert r * filesScanned as real == r * (fps * elapsed);
        assert r * (fps * elapsed) == (r * fps) * elapsed;
      }
    }
  }
}
