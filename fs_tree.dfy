/** The part of the browser's File System Access API the scanners see: a
    directory handle yields its entries in order, each a file or a
    directory; `getFile()` on a file may reject; reading the bytes may
    reject; the listing itself may throw after yielding what it has. */
module FsTree {
  import opened Base
  import opened ImageUtils

  datatype Node =
    /** A file entry. `opens` tells whether `getFile()` resolves; `content`
        is what `arrayBuffer()` resolves to (None when it rejects);
        `mimeType` is the browser's `file.type`; `thumbnail` is the pixel
        data of the image drawn on a 16x16 canvas (None when it cannot be
        decoded). */
    | File(name: string, size: nat, mimeType: string, opens: bool,
           content: Option<seq<Byte>>, thumbnail: Option<seq<Pixel>>)
    /** A directory entry; when `listingFails`, iterating `values()` throws
        after yielding `entries`. */
    | Dir(name: string, entries: seq<Node>, listingFails: bool)

  /** Relative path of an entry: the bare name at the root, else parent + '/' + name. */
  function JoinPath(parentPath: string, name: string): (p: string)
    ensures parentPath == "" ==> p == name
    ensures parentPath != "" ==> StartsWith(p, parentPath + "/")
  {
    if parentPath != "" then parentPath + "/" + name else name
  }

  /** The last '/'-segment of a joined path is the entry's own name. */
  lemma LastSegmentOfJoin(parentPath: string, name: string)
    requires '/' !in name
    ensures AfterLast(JoinPath(parentPath, name), '/') == name
  {
    if parentPath != "" {
      assert parentPath + "/" + name == parentPath + ['/'] + name;
      AfterLastOfJoin(parentPath, '/', name);
    }
  }

  /** The tree as far as a depth-limited walk can see it: below k more
      levels, every subdirectory is emptied. */
  function Truncate(d: Node, k: nat): (r: Node)
    requires d.Dir?
    ensures r.Dir? && r.name == d.name && |r.entries| == |d.entries|
    decreases d, 0
  {
    Dir(d.name, seq(|d.entries|, i requires 0 <= i < |d.entries| => Prune(d.entries[i], k)), d.listingFails)
  }

  function Prune(e: Node, k: nat): (r: Node)
    ensures r.name == e.name && r.File? == e.File?
    decreases e, 1
  {
    if e.File? then e
    else if k == 0 then Dir(e.name, [], e.listingFails)
    else Truncate(e, k - 1)
  }
}
