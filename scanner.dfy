/**
 * Building the file tree from the list of scanned Markdown files, and the
 * link and depth helpers the generators share.
 *
 * A file is given by the segments of its path relative to the scanned base
 * directory. Directory nodes are keyed by their segment sequences.
 */
module Scanner {
  import opened Wrappers
  import opened Strings
  import opened Utils
  import opened Types
  import opened Extractor

  /**
   * `relativePathToLink(relativePath, isDirectory)`: drop `.md`, then
   * `/index`, root the link, and give a directory link longer than `/` a
   * trailing `/`.
   */
  function RelativePathToLink(relativePath: string, isDirectory: bool): (link: string)
    ensures StartsWith(link, "/")
    ensures !isDirectory ==> link == LinkBase(relativePath)
    ensures isDirectory && |link| > 1 ==> EndsWith(link, "/")
    ensures isDirectory ==> link == LinkBase(relativePath) || link == LinkBase(relativePath) + "/"
    ensures link == LinkBase(relativePath) + "/" <==>
              isDirectory && |LinkBase(relativePath)| > 1 && !EndsWith(LinkBase(relativePath), "/")
  {
    var base := LinkBase(relativePath);
    if isDirectory && |base| > 1 && !EndsWith(base, "/") then
      SlashAppended(base);
      base + "/"
    else base
  }

  /** A top-level `index.md` keeps its name: it links to `/index`, not to `/`. */
  lemma TopLevelIndexLink()
    ensures RelativePathToLink("index.md", false) == "/index"
  {
    var s := "index.md";
    assert EndsWith(s, ".md");
    assert s[..|s| - 3] == "index";
    assert !EndsWith("index", "/index");
    assert "index"[..1] == "i";
    assert !StartsWith("index", "/");
  }

  /** A nested `d/index.md` links to its directory `d`, rooted. */
  lemma NestedIndexLink(d: string)
    ensures RelativePathToLink(d + "/index.md", false) == Rooted(d)
  {
    LinkOfIndexPage(d);
  }

  /** A page `p.md` links to `p`, rooted. */
  lemma PageLink(p: string)
    requires !EndsWith(p, "/index")
    ensures RelativePathToLink(p + ".md", false) == Rooted(p)
  {
    LinkOfPage(p);
  }

  /** The empty relative path is the root link `/`, file or directory. */
  lemma EmptyPathLink(isDirectory: bool)
    ensures RelativePathToLink("", isDirectory) == "/"
  {
    assert !EndsWith("", ".md") && !EndsWith("", "/index");
  }

  /** `shouldIncludeByDepth(node, maxDepth)`: no limit, or a depth below it. */
  predicate ShouldIncludeByDepth(node: FileTreeNode, maxDepth: Option<int>)
  {
    maxDepth.None? || node.depth < maxDepth.value
  }

  /**
   * Without a bound every node is admitted; a bound `d` admits exactly the
   * nodes stored at depths `0 .. d - 1`, so a bound of at most 0 admits none.
   */
  lemma DepthBoundAdmits(node: FileTreeNode, maxDepth: Option<int>)
    ensures maxDepth.None? ==> ShouldIncludeByDepth(node, maxDepth)
    ensures maxDepth.Some? ==> (ShouldIncludeByDepth(node, maxDepth) <==> node.depth + 1 <= maxDepth.value)
    ensures maxDepth.Some? && maxDepth.value <= 0 ==> !ShouldIncludeByDepth(node, maxDepth)
  {
  }

  /** Raising the bound, or dropping it, never excludes a node that was admitted. */
  lemma DepthBoundMonotone(node: FileTreeNode, d: int, e: int)
    requires d <= e
    ensures ShouldIncludeByDepth(node, Some(d)) ==> ShouldIncludeByDepth(node, Some(e))
    ensures ShouldIncludeByDepth(node, Some(d)) ==> ShouldIncludeByDepth(node, None)
  {
  }

  /** The segments of a path. */
  type Key = seq<string>

  /**
   * Where the scan happens: the absolute base directory, and the path of the
   * base directory relative to the directory `relativePath` is measured from
   * (empty when they coincide). Paths use `/` as separator.
   */
  datatype Location = Location(baseDir: string, rootPrefix: string)

  /** `path.join(baseDir, segments)`. */
  function AbsolutePath(loc: Location, k: Key): string
  {
    loc.baseDir + "/" + Join(k, "/")
  }

  /** The path relative to the root directory, with `/` separators. */
  function RootRelative(loc: Location, k: Key): string
  {
    if loc.rootPrefix == "" then Join(k, "/") else loc.rootPrefix + "/" + Join(k, "/")
  }

  /** The file node built for the file with segments `f`. */
  function FileNodeOf(loc: Location, fs: FileSystem, f: Key): (node: FileTreeNode)
    requires |f| >= 1
    ensures node.File? && node.name == f[|f| - 1] && node.depth == |f| - 1
    ensures node.fileInfo.Some? && node.fileInfo.value.depth == node.depth
  {
    var path := AbsolutePath(loc, f);
    File(f[|f| - 1], path, RootRelative(loc, f), |f| - 1,
         Some(BuildFileInfo(path, Join(f, "/"), fs, |f| - 1)))
  }

  /**
   * A child as a directory object holds it: a reference to the file object
   * built for the file with segments `key`, or to the directory object stored
   * under `key` in the directory map.
   */
  datatype Ref = FileRef(key: Key) | DirRef(key: Key)

  /** A directory object as the directory map holds it. */
  datatype DirEntry = DirEntry(name: string, path: string, relativePath: string, depth: nat, children: seq<Ref>)

  /** The directory map: directory objects by their segments. */
  type Arena = map<Key, DirEntry>

  /** The directory object created for the prefix `k`, before any child is attached. */
  function NewDirEntry(loc: Location, k: Key): (e: DirEntry)
    requires |k| >= 1
    ensures e.name == k[|k| - 1] && e.depth == |k| - 1 && e.children == []
  {
    DirEntry(k[|k| - 1], AbsolutePath(loc, k), RootRelative(loc, k), |k| - 1, [])
  }

  /** `k` lies directly inside the directory `q` (the root when `q` is empty). */
  predicate IsParentOf(q: Key, k: Key)
  {
    |k| == |q| + 1 && k[..|q|] == q
  }

  /** The nonempty proper prefixes of `f`, shortest first. */
  function ProperPrefixes(f: Key): (ps: seq<Key>)
    ensures |ps| == if |f| >= 1 then |f| - 1 else 0
    ensures forall i :: 0 <= i < |ps| ==> i + 1 < |f| && ps[i] == f[..i + 1]
  {
    if |f| <= 1 then [] else seq(|f| - 1, i requires 0 <= i < |f| - 1 => f[..i + 1])
  }

  /** Appends, one by one, the keys of `ks` that `order` does not hold yet. */
  function AddKeys(order: seq<Key>, ks: seq<Key>): seq<Key>
  {
    if ks == [] then order
    else
      var o := AddKeys(order, ks[..|ks| - 1]);
      if ks[|ks| - 1] in o then o else o + [ks[|ks| - 1]]
  }

  /** The keys of the directory map, in the order the first pass inserts them. */
  function DirOrder(files: seq<Key>): seq<Key>
  {
    if files == [] then []
    else AddKeys(DirOrder(files[..|files| - 1]), ProperPrefixes(files[|files| - 1]))
  }

  /** The keys of `ks` lying directly inside `q`, in the order of `ks`. */
  function ChildKeys(ks: seq<Key>, q: Key): seq<Key>
  {
    if ks == [] then []
    else ChildKeys(ks[..|ks| - 1], q) + (if IsParentOf(q, ks[|ks| - 1]) then [ks[|ks| - 1]] else [])
  }

  /** References to the file objects of `fks`. */
  function FileRefs(fks: seq<Key>): seq<Ref>
  {
    if fks == [] then [] else FileRefs(fks[..|fks| - 1]) + [FileRef(fks[|fks| - 1])]
  }

  /** References to the directory objects of `ks`. */
  function DirRefs(ks: seq<Key>): seq<Ref>
  {
    if ks == [] then [] else DirRefs(ks[..|ks| - 1]) + [DirRef(ks[|ks| - 1])]
  }

  /** `FileRefs` refers to the files of `fks`, one by one. */
  lemma {:induction false} FileRefsIndex(fks: seq<Key>)
    ensures |FileRefs(fks)| == |fks|
    ensures forall i :: 0 <= i < |fks| ==> FileRefs(fks)[i] == FileRef(fks[i])
  {
    if fks != [] {
      FileRefsIndex(fks[..|fks| - 1]);
    }
  }

  /** `DirRefs` refers to the directories of `ks`, one by one. */
  lemma {:induction false} DirRefsIndex(ks: seq<Key>)
    ensures |DirRefs(ks)| == |ks|
    ensures forall i :: 0 <= i < |ks| ==> DirRefs(ks)[i] == DirRef(ks[i])
  {
    if ks != [] {
      DirRefsIndex(ks[..|ks| - 1]);
    }
  }

  /** Every key has at least one segment. */
  predicate NonemptyKeys(ks: seq<Key>)
  {
    forall i :: 0 <= i < |ks| ==> |ks[i]| >= 1
  }

  /**
   * The children the three passes give the directory `q` (the root list when
   * `q` is empty): its files in input order, then its subdirectories in the
   * order of the directory map.
   */
  function ChildRefs(files: seq<Key>, order: seq<Key>, q: Key): seq<Ref>
  {
    FileRefs(ChildKeys(files, q)) + DirRefs(ChildKeys(order, q))
  }

  /** The directory map once all three passes are done. */
  function SpecArena(loc: Location, files: seq<Key>): (a: Arena)
    ensures forall k :: k in a <==> k in DirOrder(files)
  {
    var order := DirOrder(files);
    DirOrderKeysNonempty(files);
    map k | k in order :: NewDirEntry(loc, k).(children := ChildRefs(files, order, k))
  }

  /** Keys of the directory map are nonempty. */
  lemma {:induction false} DirOrderKeysNonempty(files: seq<Key>)
    ensures forall k :: k in DirOrder(files) ==> |k| >= 1
    ensures NonemptyKeys(DirOrder(files))
  {
    if files != [] {
      DirOrderKeysNonempty(files[..|files| - 1]);
      AddKeysMembers(DirOrder(files[..|files| - 1]), ProperPrefixes(files[|files| - 1]));
    }
    var order := DirOrder(files);
    forall i | 0 <= i < |order|
      ensures |order[i]| >= 1
    {
      assert order[i] in order;
    }
  }

  /** `AddKeys` adds exactly the keys of `ks`. */
  lemma {:induction false} AddKeysMembers(order: seq<Key>, ks: seq<Key>)
    ensures forall k :: k in AddKeys(order, ks) <==> k in order || k in ks
  {
    if ks != [] {
      AddKeysMembers(order, ks[..|ks| - 1]);
      assert ks == ks[..|ks| - 1] + [ks[|ks| - 1]];
    }
  }

  /** The longest key of `ks`. */
  function MaxLength(ks: seq<Key>): (n: nat)
    ensures forall k :: k in ks ==> |k| <= n
  {
    if ks == [] then 0
    else
      var m := MaxLength(ks[..|ks| - 1]);
      var l := |ks[|ks| - 1]|;
      assert forall k :: k in ks ==> k in ks[..|ks| - 1] || k == ks[|ks| - 1];
      if m < l then l else m
  }

  /**
   * Every reference in `refs` is one level below `level`, and every
   * directory reference names a stored directory object.
   */
  predicate RefsBelow(a: Arena, refs: seq<Ref>, level: nat)
  {
    forall i :: 0 <= i < |refs| ==> |refs[i].key| == level + 1 && (refs[i].DirRef? ==> refs[i].key in a)
  }

  /** The directory objects form a tree at most `bound` levels deep. */
  predicate WellLinked(a: Arena, bound: nat)
  {
    forall k :: k in a ==> 1 <= |k| <= bound && RefsBelow(a, a[k].children, |k|)
  }

  /** The nodes the references `refs` stand for, with every object read in full. */
  function Resolve(loc: Location, fs: FileSystem, a: Arena, refs: seq<Ref>, bound: nat, level: nat)
    : (nodes: seq<FileTreeNode>)
    requires WellLinked(a, bound) && RefsBelow(a, refs, level)
    ensures |nodes| == |refs|
    decreases bound - level, 1, |refs|
  {
    if refs == [] then []
    else Resolve(loc, fs, a, refs[..|refs| - 1], bound, level) + [ResolveOne(loc, fs, a, refs[|refs| - 1], bound, level)]
  }

  /** The node one reference stands for. */
  function ResolveOne(loc: Location, fs: FileSystem, a: Arena, r: Ref, bound: nat, level: nat): FileTreeNode
    requires WellLinked(a, bound)
    requires |r.key| == level + 1 && (r.DirRef? ==> r.key in a)
    decreases bound - level, 0, 0
  {
    match r
    case FileRef(f) => FileNodeOf(loc, fs, f)
    case DirRef(k) =>
      var e := a[k];
      Directory(e.name, e.path, e.relativePath, e.depth, Resolve(loc, fs, a, e.children, bound, |k|))
  }

  /** The directory map after the passes is a tree. */
  lemma SpecArenaWellLinked(loc: Location, files: seq<Key>)
    ensures WellLinked(SpecArena(loc, files), MaxLength(DirOrder(files)))
    ensures RefsBelow(SpecArena(loc, files), ChildRefs(files, DirOrder(files), []), 0)
  {
    var order := DirOrder(files);
    var a := SpecArena(loc, files);
    DirOrderKeysNonempty(files);
    forall k | k in a
      ensures 1 <= |k| <= MaxLength(order) && RefsBelow(a, a[k].children, |k|)
    {
      assert a[k].children == ChildRefs(files, order, k);
      ChildRefsBelow(loc, files, k);
    }
    ChildRefsBelow(loc, files, []);
  }

  /** The children of a directory of the final map are one level down. */
  lemma ChildRefsBelow(loc: Location, files: seq<Key>, q: Key)
    ensures RefsBelow(SpecArena(loc, files), ChildRefs(files, DirOrder(files), q), |q|)
  {
    var order := DirOrder(files);
    var fks := ChildKeys(files, q);
    var dks := ChildKeys(order, q);
    var all := ChildRefs(files, order, q);
    ChildKeysMembers(files, q);
    ChildKeysMembers(order, q);
    FileRefsIndex(fks);
    DirRefsIndex(dks);
    forall i | 0 <= i < |all|
      ensures |all[i].key| == |q| + 1 && (all[i].DirRef? ==> all[i].key in SpecArena(loc, files))
    {
      if i < |fks| {
        assert all[i] == FileRef(fks[i]);
        assert fks[i] in fks;
      } else {
        assert all[i] == DirRef(dks[i - |fks|]);
        assert dks[i - |fks|] in dks;
      }
    }
  }

  /** `ChildKeys` keeps exactly the keys directly inside `q`. */
  lemma {:induction false} ChildKeysMembers(ks: seq<Key>, q: Key)
    ensures forall k :: k in ChildKeys(ks, q) <==> k in ks && IsParentOf(q, k)
  {
    if ks != [] {
      ChildKeysMembers(ks[..|ks| - 1], q);
      assert ks == ks[..|ks| - 1] + [ks[|ks| - 1]];
    }
  }

  lemma FileRefsAppend(a: seq<Key>, b: seq<Key>)
    ensures FileRefs(a + b) == FileRefs(a) + FileRefs(b)
  {
    FileRefsIndex(a);
    FileRefsIndex(b);
    FileRefsIndex(a + b);
    assert FileRefs(a + b) == FileRefs(a) + FileRefs(b);
  }

  lemma DirRefsAppend(a: seq<Key>, b: seq<Key>)
    ensures DirRefs(a + b) == DirRefs(a) + DirRefs(b)
  {
    DirRefsIndex(a);
    DirRefsIndex(b);
    DirRefsIndex(a + b);
    assert DirRefs(a + b) == DirRefs(a) + DirRefs(b);
  }

  /** The references of `refs` to nodes lying directly inside `q`, in order. */
  function Under(refs: seq<Ref>, q: Key): seq<Ref>
  {
    if refs == [] then []
    else Under(refs[..|refs| - 1], q) + (if IsParentOf(q, refs[|refs| - 1].key) then [refs[|refs| - 1]] else [])
  }

  lemma UnderSnoc(refs: seq<Ref>, r: Ref, q: Key)
    ensures Under(refs + [r], q) == Under(refs, q) + (if IsParentOf(q, r.key) then [r] else [])
  {
    assert (refs + [r])[..|refs|] == refs;
  }

  /** Picking the file references inside `q` is referring to the files inside `q`. */
  lemma {:induction false} UnderFileRefs(ks: seq<Key>, q: Key)
    ensures Under(FileRefs(ks), q) == FileRefs(ChildKeys(ks, q))
  {
    if ks != [] {
      var init := ks[..|ks| - 1];
      var last := ks[|ks| - 1];
      UnderFileRefs(init, q);
      UnderSnoc(FileRefs(init), FileRef(last), q);
      FileRefsAppend(ChildKeys(init, q), if IsParentOf(q, last) then [last] else []);
    }
  }

  /** Picking the directory references inside `q` is referring to the directories inside `q`. */
  lemma {:induction false} UnderDirRefs(ks: seq<Key>, q: Key)
    ensures Under(DirRefs(ks), q) == DirRefs(ChildKeys(ks, q))
  {
    if ks != [] {
      var init := ks[..|ks| - 1];
      var last := ks[|ks| - 1];
      UnderDirRefs(init, q);
      UnderSnoc(DirRefs(init), DirRef(last), q);
      DirRefsAppend(ChildKeys(init, q), if IsParentOf(q, last) then [last] else []);
    }
  }

  /**
   * One step of the second or third pass: a node more than one level deep
   * goes to the end of its parent's children when the parent is in the map.
   * A top-level node leaves the map alone (it goes to the root list).
   */
  function Attach(dirs: Arena, r: Ref): Arena
  {
    var k := r.key;
    if |k| >= 2 && k[..|k| - 1] in dirs then
      var p := k[..|k| - 1];
      dirs[p := dirs[p].(children := dirs[p].children + [r])]
    else dirs
  }

  /** The steps for `refs`, in order. */
  function AttachAll(dirs: Arena, refs: seq<Ref>): Arena
  {
    if refs == [] then dirs else Attach(AttachAll(dirs, refs[..|refs| - 1]), refs[|refs| - 1])
  }

  lemma AttachAllSnoc(dirs: Arena, refs: seq<Ref>, r: Ref)
    ensures AttachAll(dirs, refs + [r]) == Attach(AttachAll(dirs, refs), r)
  {
    assert (refs + [r])[..|refs|] == refs;
  }

  /** Attaching never adds or removes a directory. */
  lemma {:induction false} AttachAllKeys(dirs: Arena, refs: seq<Ref>)
    ensures AttachAll(dirs, refs).Keys == dirs.Keys
  {
    if refs != [] {
      AttachAllKeys(dirs, refs[..|refs| - 1]);
    }
  }

  /** The two directory objects agree on everything but their children. */
  predicate SameHeader(e: DirEntry, e': DirEntry)
  {
    e.name == e'.name && e.path == e'.path && e.relativePath == e'.relativePath && e.depth == e'.depth
  }

  /**
   * After the steps for `refs`, a directory keeps its header and has gained,
   * in order, exactly the references of `refs` to nodes directly inside it.
   */
  lemma {:induction false} AttachAllAt(dirs: Arena, refs: seq<Ref>, k: Key)
    requires k in dirs && |k| >= 1
    ensures k in AttachAll(dirs, refs)
    ensures SameHeader(dirs[k], AttachAll(dirs, refs)[k])
    ensures AttachAll(dirs, refs)[k].children == dirs[k].children + Under(refs, k)
  {
    if refs != [] {
      var init := refs[..|refs| - 1];
      var r := refs[|refs| - 1];
      AttachAllAt(dirs, init, k);
      var a := AttachAll(dirs, init);
      assert AttachAll(dirs, refs) == Attach(a, r);
      if IsParentOf(k, r.key) {
        assert r.key[..|r.key| - 1] == k;
      } else if |r.key| >= 2 {
        assert r.key[..|r.key| - 1] != k;
      }
    }
  }

  /** The directory objects created for the keys `ks`. */
  function Created(loc: Location, ks: seq<Key>): Arena
    requires NonemptyKeys(ks)
  {
    if ks == [] then map[]
    else
      var last := ks[|ks| - 1];
      Created(loc, ks[..|ks| - 1])[last := NewDirEntry(loc, last)]
  }

  lemma CreatedSnoc(loc: Location, ks: seq<Key>, k: Key)
    requires NonemptyKeys(ks) && |k| >= 1
    ensures Created(loc, ks + [k]) == Created(loc, ks)[k := NewDirEntry(loc, k)]
  {
    assert (ks + [k])[..|ks|] == ks;
  }

  /** There is a directory object for exactly the keys `ks`, each a fresh one. */
  lemma {:induction false} CreatedAt(loc: Location, ks: seq<Key>, k: Key)
    requires NonemptyKeys(ks)
    ensures k in Created(loc, ks) <==> k in ks
    ensures k in ks ==> Created(loc, ks)[k] == NewDirEntry(loc, k)
  {
    if ks != [] {
      var init := ks[..|ks| - 1];
      assert ks == init + [ks[|ks| - 1]];
      CreatedAt(loc, init, k);
    }
  }

  /** Directory objects agreeing on their header and their children are equal. */
  lemma SameEntry(e: DirEntry, e': DirEntry)
    requires SameHeader(e, e') && e.children == e'.children
    ensures e == e'
  {
  }

  /** A fresh directory object ends with its files, then its subdirectories. */
  lemma ChildrenAfterPasses(files: seq<Key>, order: seq<Key>, k: Key, c0: seq<Ref>, c1: seq<Ref>, c2: seq<Ref>)
    requires c0 == []
    requires c1 == c0 + Under(FileRefs(files), k)
    requires c2 == c1 + Under(DirRefs(order), k)
    ensures c2 == ChildRefs(files, order, k)
  {
    assert c1 == Under(FileRefs(files), k);
    UnderFileRefs(files, k);
    UnderDirRefs(order, k);
  }

  /** The second pass, one file further. */
  lemma FilesPassStep(files: seq<Key>, fi: nat, dirs0: Arena)
    requires fi < |files|
    ensures AttachAll(dirs0, FileRefs(files[..fi + 1])) == Attach(AttachAll(dirs0, FileRefs(files[..fi])), FileRef(files[fi]))
    ensures Under(FileRefs(files[..fi + 1]), []) ==
            Under(FileRefs(files[..fi]), []) + (if |files[fi]| == 1 then [FileRef(files[fi])] else [])
  {
    var done := FileRefs(files[..fi]);
    assert files[..fi + 1][..fi] == files[..fi];
    assert FileRefs(files[..fi + 1]) == done + [FileRef(files[fi])];
    AttachAllSnoc(dirs0, done, FileRef(files[fi]));
    UnderSnoc(done, FileRef(files[fi]), []);
  }

  /** The third pass, one directory further. */
  lemma DirsPassStep(order: seq<Key>, j: nat, dirs0: Arena, refs0: seq<Ref>)
    requires j < |order|
    ensures AttachAll(dirs0, DirRefs(order[..j + 1])) == Attach(AttachAll(dirs0, DirRefs(order[..j])), DirRef(order[j]))
    ensures refs0 + Under(DirRefs(order[..j + 1]), []) ==
            refs0 + Under(DirRefs(order[..j]), []) + (if |order[j]| == 1 then [DirRef(order[j])] else [])
  {
    var done := DirRefs(order[..j]);
    assert order[..j + 1][..j] == order[..j];
    assert DirRefs(order[..j + 1]) == done + [DirRef(order[j])];
    AttachAllSnoc(dirs0, done, DirRef(order[j]));
    UnderSnoc(done, DirRef(order[j]), []);
  }

  /** The directory map after the three passes. */
  function AfterPasses(loc: Location, files: seq<Key>): Arena
  {
    var order := DirOrder(files);
    DirOrderKeysNonempty(files);
    AttachAll(AttachAll(Created(loc, order), FileRefs(files)), DirRefs(order))
  }

  /**
   * Fresh directory objects, given their files and then their
   * subdirectories, form the final map; the root list gets the top-level
   * files, then the top-level directories.
   */
  lemma PassesGiveSpecArena(loc: Location, files: seq<Key>)
    ensures AfterPasses(loc, files) == SpecArena(loc, files)
  {
    var d := AfterPasses(loc, files);
    var a := SpecArena(loc, files);
    AfterPassesKeys(loc, files);
    forall k | k in d
      ensures k in a && d[k] == a[k]
    {
      EntryAfterPasses(loc, files, k);
    }
    SameArena(d, a);
  }

  lemma SameArena(d: Arena, a: Arena)
    requires forall k :: k in a ==> k in d
    requires forall k :: k in d ==> k in a && d[k] == a[k]
    ensures d == a
  {
  }

  /** The root list gets the top-level files, then the top-level directories. */
  lemma RootAfterPasses(files: seq<Key>)
    ensures Under(FileRefs(files), []) + Under(DirRefs(DirOrder(files)), []) == ChildRefs(files, DirOrder(files), [])
  {
    UnderFileRefs(files, []);
    UnderDirRefs(DirOrder(files), []);
  }

  /** The passes neither add nor remove a directory. */
  lemma AfterPassesKeys(loc: Location, files: seq<Key>)
    ensures forall k :: k in AfterPasses(loc, files) <==> k in DirOrder(files)
  {
    var order := DirOrder(files);
    DirOrderKeysNonempty(files);
    var c := Created(loc, order);
    var w := AttachAll(c, FileRefs(files));
    AttachAllKeys(c, FileRefs(files));
    AttachAllKeys(w, DirRefs(order));
    forall k
      ensures k in c <==> k in order
    {
      CreatedAt(loc, order, k);
    }
  }

  /** Each directory object ends as the final map holds it. */
  lemma EntryAfterPasses(loc: Location, files: seq<Key>, k: Key)
    requires k in DirOrder(files)
    ensures k in AfterPasses(loc, files) && AfterPasses(loc, files)[k] == SpecArena(loc, files)[k]
  {
    var order := DirOrder(files);
    DirOrderKeysNonempty(files);
    var c := Created(loc, order);
    var w := AttachAll(c, FileRefs(files));
    var d := AttachAll(w, DirRefs(order));
    CreatedAt(loc, order, k);
    AttachAllAt(c, FileRefs(files), k);
    AttachAllAt(w, DirRefs(order), k);
    ChildrenAfterPasses(files, order, k, c[k].children, w[k].children, d[k].children);
    SameEntry(d[k], SpecArena(loc, files)[k]);
  }

  /**
   * The tree `buildFileTree` returns for the files `files`: the root list of
   * the directory map after its three passes, read in full.
   */
  function FileTree(loc: Location, fs: FileSystem, files: seq<Key>): seq<FileTreeNode>
  {
    SpecArenaWellLinked(loc, files);
    Resolve(loc, fs, SpecArena(loc, files), ChildRefs(files, DirOrder(files), []), MaxLength(DirOrder(files)), 0)
  }

  /**
   * `buildFileTree(files, baseDir, rootDir)`: the directory map is filled
   * and linked in three passes, and the root list is read out. Objects are
   * shared by reference, so children attached to a directory after it was
   * attached to its parent are still seen through the parent.
   */
  method BuildFileTree(loc: Location, fs: FileSystem, files: seq<Key>) returns (tree: seq<FileTreeNode>)
    requires NonemptyKeys(files)
    ensures tree == FileTree(loc, fs, files)
  {
    var dirs, order := CreateDirectories(loc, files);
    var refs;
    dirs, refs := AttachFiles(files, dirs);
    dirs, refs := AttachDirectories(order, dirs, refs);
    PassesGiveSpecArena(loc, files);
    RootAfterPasses(files);
    SpecArenaWellLinked(loc, files);
    tree := Resolve(loc, fs, dirs, refs, MaxLength(order), 0);
  }

  /** The first pass, one file further. */
  lemma DirOrderStep(files: seq<Key>, fi: nat)
    requires fi < |files|
    ensures DirOrder(files[..fi + 1]) == AddKeys(DirOrder(files[..fi]), ProperPrefixes(files[fi]))
  {
    assert files[..fi + 1][..fi] == files[..fi];
  }

  /** The first pass, one prefix of a file further. */
  lemma AddPrefixStep(prev: seq<Key>, parts: Key, i: nat)
    requires i + 1 < |parts|
    ensures var o := AddKeys(prev, ProperPrefixes(parts)[..i]);
            AddKeys(prev, ProperPrefixes(parts)[..i + 1]) == if parts[..i + 1] in o then o else o + [parts[..i + 1]]
  {
    assert ProperPrefixes(parts)[..i + 1][..i] == ProperPrefixes(parts)[..i];
  }

  /**
   * The first pass: one directory object per proper prefix of a file, in a
   * map whose insertion order is returned as `order`.
   */
  method CreateDirectories(loc: Location, files: seq<Key>) returns (dirs: Arena, order: seq<Key>)
    ensures NonemptyKeys(order)
    ensures order == DirOrder(files) && dirs == Created(loc, order)
  {
    dirs := map[];
    order := [];
    var fi := 0;
    while fi < |files|
      invariant 0 <= fi <= |files|
      invariant NonemptyKeys(order)
      invariant order == DirOrder(files[..fi]) && dirs == Created(loc, order)
    {
      var parts := files[fi];
      DirOrderStep(files, fi);
      var i := 0;
      while i < |parts| - 1
        invariant 0 <= i <= if |parts| >= 1 then |parts| - 1 else 0
        invariant NonemptyKeys(order)
        invariant order == AddKeys(DirOrder(files[..fi]), ProperPrefixes(parts)[..i])
        invariant dirs == Created(loc, order)
      {
        var dirPath := parts[..i + 1];
        AddPrefixStep(DirOrder(files[..fi]), parts, i);
        CreatedAt(loc, order, dirPath);
        if dirPath !in dirs {
          CreatedSnoc(loc, order, dirPath);
          dirs := dirs[dirPath := NewDirEntry(loc, dirPath)];
          order := order + [dirPath];
        }
        i := i + 1;
      }
      assert ProperPrefixes(parts)[..i] == ProperPrefixes(parts);
      fi := fi + 1;
    }
    assert files[..|files|] == files;
  }

  /**
   * The second pass: every file object goes to the end of the root list or
   * of its parent's children.
   */
  method AttachFiles(files: seq<Key>, dirs0: Arena) returns (dirs: Arena, refs: seq<Ref>)
    requires NonemptyKeys(files)
    ensures dirs == AttachAll(dirs0, FileRefs(files))
    ensures refs == Under(FileRefs(files), [])
  {
    dirs := dirs0;
    refs := [];
    var fi := 0;
    assert files[..0] == [];
    while fi < |files|
      invariant 0 <= fi <= |files|
      invariant dirs == AttachAll(dirs0, FileRefs(files[..fi]))
      invariant refs == Under(FileRefs(files[..fi]), [])
    {
      var parts := files[fi];
      FilesPassStep(files, fi, dirs0);
      if |parts| == 1 {
        refs := refs + [FileRef(parts)];
      } else {
        var parentPath := parts[..|parts| - 1];
        if parentPath in dirs {
          var parent := dirs[parentPath];
          dirs := dirs[parentPath := parent.(children := parent.children + [FileRef(parts)])];
        }
      }
      fi := fi + 1;
    }
    assert files[..|files|] == files;
  }

  /**
   * The third pass: walking the map in insertion order `order`, every
   * directory object goes to the end of the root list or of its parent's
   * children.
   */
  method AttachDirectories(order: seq<Key>, dirs0: Arena, refs0: seq<Ref>) returns (dirs: Arena, refs: seq<Ref>)
    requires NonemptyKeys(order)
    ensures dirs == AttachAll(dirs0, DirRefs(order))
    ensures refs == refs0 + Under(DirRefs(order), [])
  {
    dirs := dirs0;
    refs := refs0;
    var j := 0;
    assert order[..0] == [];
    assert refs0 + Under(DirRefs(order[..0]), []) == refs0;
    while j < |order|
      invariant 0 <= j <= |order|
      invariant dirs == AttachAll(dirs0, DirRefs(order[..j]))
      invariant refs == refs0 + Under(DirRefs(order[..j]), [])
    {
      var nodePath := order[j];
      DirsPassStep(order, j, dirs0, refs0);
      if |nodePath| == 1 {
        refs := refs + [DirRef(nodePath)];
      } else {
        var parentPath := nodePath[..|nodePath| - 1];
        if parentPath in dirs {
          var parent := dirs[parentPath];
          dirs := dirs[parentPath := parent.(children := parent.children + [DirRef(nodePath)])];
        }
      }
      j := j + 1;
    }
    assert order[..|order|] == order;
  }
}
