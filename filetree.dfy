/**
 * What the tree built by `buildFileTree` looks like: one directory object
 * per distinct proper prefix of a file path, every file exactly once, depths
 * that count the levels, files before directories in every list, and no
 * directory without a file below it.
 */
module FileTreeProofs {
  import opened Wrappers
  import opened Types
  import opened Extractor
  import opened Scanner

  /** No key occurs twice. */
  predicate Distinct(ks: seq<Key>)
  {
    forall i, j :: 0 <= i < j < |ks| ==> ks[i] != ks[j]
  }

  /** `AddKeys` adds a key only when it is not there yet. */
  lemma {:induction false} AddKeysDistinct(order: seq<Key>, ks: seq<Key>)
    requires Distinct(order)
    ensures Distinct(AddKeys(order, ks))
  {
    if ks != [] {
      AddKeysDistinct(order, ks[..|ks| - 1]);
      var o := AddKeys(order, ks[..|ks| - 1]);
      var k := ks[|ks| - 1];
      if k !in o {
        forall i, j | 0 <= i < j < |o + [k]|
          ensures (o + [k])[i] != (o + [k])[j]
        {
          if j == |o| {
            assert o[i] in o;
          }
        }
      }
    }
  }

  /** The first pass creates one directory object per distinct key: the map order has no repetition. */
  lemma {:induction false} DirOrderDistinct(files: seq<Key>)
    ensures Distinct(DirOrder(files))
  {
    if files != [] {
      DirOrderDistinct(files[..|files| - 1]);
      AddKeysDistinct(DirOrder(files[..|files| - 1]), ProperPrefixes(files[|files| - 1]));
    }
  }

  /** Every nonempty proper prefix of every file gets a directory object. */
  lemma {:induction false} PrefixInDirOrder(files: seq<Key>, i: nat, n: nat)
    requires i < |files| && 1 <= n < |files[i]|
    ensures files[i][..n] in DirOrder(files)
  {
    var init := files[..|files| - 1];
    var last := files[|files| - 1];
    AddKeysMembers(DirOrder(init), ProperPrefixes(last));
    if i == |files| - 1 {
      assert ProperPrefixes(last)[n - 1] == files[i][..n];
    } else {
      assert init[i] == files[i];
      PrefixInDirOrder(init, i, n);
    }
  }

  /** `k` lies strictly inside the directory `q`, at any depth. */
  predicate IsBelow(q: Key, k: Key)
  {
    |k| > |q| && k[..|q|] == q
  }

  /** Every directory object is a nonempty proper prefix of some file. */
  lemma {:induction false} DirOrderHasFile(files: seq<Key>, k: Key)
    requires k in DirOrder(files)
    ensures exists i :: 0 <= i < |files| && |k| >= 1 && IsBelow(k, files[i])
  {
    var init := files[..|files| - 1];
    var last := files[|files| - 1];
    AddKeysMembers(DirOrder(init), ProperPrefixes(last));
    if k in DirOrder(init) {
      DirOrderHasFile(init, k);
      var i :| 0 <= i < |init| && |k| >= 1 && IsBelow(k, init[i]);
      assert files[i] == init[i];
    } else {
      var ps := ProperPrefixes(last);
      var j :| 0 <= j < |ps| && ps[j] == k;
      assert IsBelow(k, files[|files| - 1]);
    }
  }

  /** The keys of `ks` lying strictly inside `q`, in order. */
  function FilesUnder(ks: seq<Key>, q: Key): seq<Key>
  {
    if ks == [] then []
    else FilesUnder(ks[..|ks| - 1], q) + (if IsBelow(q, ks[|ks| - 1]) then [ks[|ks| - 1]] else [])
  }

  lemma FilesUnderSnoc(ks: seq<Key>, f: Key, q: Key)
    ensures FilesUnder(ks + [f], q) == FilesUnder(ks, q) + (if IsBelow(q, f) then [f] else [])
  {
    assert (ks + [f])[..|ks|] == ks;
  }

  lemma ChildKeysSnoc(ks: seq<Key>, f: Key, q: Key)
    ensures ChildKeys(ks + [f], q) == ChildKeys(ks, q) + (if IsParentOf(q, f) then [f] else [])
  {
    assert (ks + [f])[..|ks|] == ks;
  }

  /** The segments of a file: at least one. */
  type FileKey = k: Key | |k| >= 1 witness [""]

  /** `g` applied to every element of `xs`, in order. */
  function MapSeq<X, Y>(g: X -> Y, xs: seq<X>): seq<Y>
  {
    if xs == [] then [] else MapSeq(g, xs[..|xs| - 1]) + [g(xs[|xs| - 1])]
  }

  /** Builds the file node of a file from its segments. */
  function NodeBuilder(loc: Location, fs: FileSystem): FileKey -> FileTreeNode
  {
    (f: FileKey) => FileNodeOf(loc, fs, f)
  }

  /** The file nodes of the files `fks`, in order. */
  function FileNodes(loc: Location, fs: FileSystem, fks: seq<Key>): seq<FileTreeNode>
    requires NonemptyKeys(fks)
  {
    var ks: seq<FileKey> := fks;
    MapSeq(NodeBuilder(loc, fs), ks)
  }

  /** Mapping distributes over concatenation. */
  lemma {:induction false} MapSeqAppend<X, Y>(g: X -> Y, a: seq<X>, b: seq<X>)
    ensures MapSeq(g, a + b) == MapSeq(g, a) + MapSeq(g, b)
    decreases |b|
  {
    if b == [] {
      assert a + b == a;
    } else {
      var init := b[..|b| - 1];
      assert (a + b)[..|a + b| - 1] == a + init;
      MapSeqAppend(g, a, init);
    }
  }

  lemma MapSeqSingle<X, Y>(g: X -> Y, x: X)
    ensures MapSeq(g, [x]) == [g(x)]
  {
    assert [x][..0] == [];
  }

  /** Building file nodes distributes over concatenation. */
  lemma FileNodesAppend(loc: Location, fs: FileSystem, a: seq<Key>, b: seq<Key>)
    requires NonemptyKeys(a) && NonemptyKeys(b)
    ensures NonemptyKeys(a + b)
    ensures FileNodes(loc, fs, a + b) == FileNodes(loc, fs, a) + FileNodes(loc, fs, b)
  {
    NonemptyAppend(a, b);
    var a': seq<FileKey> := a;
    var b': seq<FileKey> := b;
    MapSeqAppend(NodeBuilder(loc, fs), a', b');
  }

  lemma NonemptyAppend(a: seq<Key>, b: seq<Key>)
    requires NonemptyKeys(a) && NonemptyKeys(b)
    ensures NonemptyKeys(a + b)
  {
    forall i | 0 <= i < |a + b|
      ensures |(a + b)[i]| >= 1
    {
      if i >= |a| {
        assert (a + b)[i] == b[i - |a|];
      }
    }
  }

  /** The keys below each directory of `dirs`, all together. */
  function SumUnder(dirs: seq<Key>, files: seq<Key>): multiset<Key>
  {
    if dirs == [] then multiset{}
    else SumUnder(dirs[..|dirs| - 1], files) + multiset(FilesUnder(files, dirs[|dirs| - 1]))
  }

  /** How many directories of `dirs` hold `f` somewhere below them. */
  function Hits(dirs: seq<Key>, f: Key): nat
  {
    if dirs == [] then 0
    else Hits(dirs[..|dirs| - 1], f) + (if IsBelow(dirs[|dirs| - 1], f) then 1 else 0)
  }

  /** One more file is counted once for every directory holding it. */
  lemma {:induction false} SumUnderSnoc(dirs: seq<Key>, files: seq<Key>, f: Key)
    ensures SumUnder(dirs, files + [f]) == SumUnder(dirs, files) + multiset{}[f := Hits(dirs, f)]
  {
    if dirs != [] {
      var init := dirs[..|dirs| - 1];
      var k := dirs[|dirs| - 1];
      SumUnderSnoc(init, files, f);
      FilesUnderSnoc(files, f, k);
      var a := SumUnder(init, files);
      var b := multiset(FilesUnder(files, k));
      var h := Hits(init, f);
      var x := if IsBelow(k, f) then 1 else 0;
      assert multiset(FilesUnder(files + [f], k)) == b + multiset{}[f := x];
      assert SumUnder(dirs, files + [f]) == (a + multiset{}[f := h]) + (b + multiset{}[f := x]);
      assert Hits(dirs, f) == h + x;
      CountsAdd(a, b, f, h, x);
    }
  }

  /** Adding `h` and then `x` copies of `f` is adding `h + x` copies. */
  lemma CountsAdd(a: multiset<Key>, b: multiset<Key>, f: Key, h: nat, x: nat)
    ensures (a + multiset{}[f := h]) + (b + multiset{}[f := x]) == (a + b) + multiset{}[f := h + x]
  {
    var lhs := (a + multiset{}[f := h]) + (b + multiset{}[f := x]);
    var rhs := (a + b) + multiset{}[f := h + x];
    forall y
      ensures lhs[y] == rhs[y]
    {
    }
  }

  /** When `p` is the only directory of `dirs` holding `f`, `f` is hit as often as `p` occurs. */
  lemma {:induction false} HitsUnique(dirs: seq<Key>, f: Key, p: Key)
    requires forall i :: 0 <= i < |dirs| ==> (IsBelow(dirs[i], f) <==> dirs[i] == p)
    ensures Hits(dirs, f) == multiset(dirs)[p]
  {
    if dirs != [] {
      var init := dirs[..|dirs| - 1];
      assert dirs == init + [dirs[|dirs| - 1]];
      HitsUnique(init, f, p);
    }
  }

  /** No directory of `dirs` holds `f`. */
  lemma {:induction false} HitsNone(dirs: seq<Key>, f: Key)
    requires forall i :: 0 <= i < |dirs| ==> !IsBelow(dirs[i], f)
    ensures Hits(dirs, f) == 0
  {
    if dirs != [] {
      HitsNone(dirs[..|dirs| - 1], f);
    }
  }

  /** A key of a list without repetition occurs once. */
  lemma {:induction false} DistinctCount(ks: seq<Key>, p: Key)
    requires Distinct(ks) && p in ks
    ensures multiset(ks)[p] == 1
  {
    var init := ks[..|ks| - 1];
    var last := ks[|ks| - 1];
    assert ks == init + [last];
    if p == last {
      forall i | 0 <= i < |init|
        ensures init[i] != p
      {
        assert init[i] == ks[i];
      }
      assert p !in init;
    } else {
      DistinctCount(init, p);
    }
  }

  /** Picking the keys directly inside `q` keeps them apart. */
  lemma {:induction false} ChildKeysDistinct(ks: seq<Key>, q: Key)
    requires Distinct(ks)
    ensures Distinct(ChildKeys(ks, q))
  {
    if ks != [] {
      var init := ks[..|ks| - 1];
      var last := ks[|ks| - 1];
      assert Distinct(init);
      ChildKeysDistinct(init, q);
      ChildKeysMembers(init, q);
      forall i | 0 <= i < |init|
        ensures init[i] != last
      {
        assert init[i] == ks[i];
      }
      ChildKeysSnoc(init, last, q);
      assert ks == init + [last];
    }
  }

  /** A key below a child of `q` is below `q`. */
  lemma BelowChild(q: Key, d: Key, f: Key)
    ensures IsParentOf(q, d) && IsBelow(d, f) ==> IsBelow(q, f)
  {
    if |f| > |q| + 1 {
      assert f[..|q|] == f[..|q| + 1][..|q|];
    }
  }

  /**
   * The keys below `q` are the files directly inside `q`, plus, for each
   * subdirectory of `q`, the keys below it: every file of `files[..n]`
   * lies below at most one subdirectory of `q`.
   */
  lemma {:induction false} Partition(files: seq<Key>, q: Key, n: nat)
    requires n <= |files|
    ensures multiset(FilesUnder(files[..n], q)) ==
            multiset(ChildKeys(files[..n], q)) + SumUnder(ChildKeys(DirOrder(files), q), files[..n])
  {
    var dks := ChildKeys(DirOrder(files), q);
    if n == 0 {
      assert files[..0] == [];
      SumUnderEmpty(dks);
    } else {
      Partition(files, q, n - 1);
      PrefixSnoc(files, n);
      PartitionCount(files, q, n - 1);
      PartitionStep(files[..n - 1], files[n - 1], q, dks);
    }
  }

  lemma PrefixSnoc(ks: seq<Key>, n: nat)
    requires 1 <= n <= |ks|
    ensures ks[..n] == ks[..n - 1] + [ks[n - 1]]
  {
  }

  /** One file further, both sides of the partition grow alike. */
  lemma PartitionStep(prev: seq<Key>, f: Key, q: Key, dks: seq<Key>)
    requires multiset(FilesUnder(prev, q)) == multiset(ChildKeys(prev, q)) + SumUnder(dks, prev)
    requires multiset(if IsBelow(q, f) then [f] else []) ==
             multiset(if IsParentOf(q, f) then [f] else []) + multiset{}[f := Hits(dks, f)]
    ensures multiset(FilesUnder(prev + [f], q)) == multiset(ChildKeys(prev + [f], q)) + SumUnder(dks, prev + [f])
  {
    SumUnderSnoc(dks, prev, f);
    FilesUnderSnoc(prev, f, q);
    ChildKeysSnoc(prev, f, q);
    PartitionAdd(FilesUnder(prev, q), ChildKeys(prev, q), SumUnder(dks, prev),
                 if IsBelow(q, f) then [f] else [], if IsParentOf(q, f) then [f] else [],
                 multiset{}[f := Hits(dks, f)]);
  }

  /** A file counts once: directly inside `q`, below one subdirectory of `q`, or not below `q`. */
  lemma PartitionCount(files: seq<Key>, q: Key, i: nat)
    requires i < |files|
    ensures var f := files[i];
            multiset(if IsBelow(q, f) then [f] else []) ==
            multiset(if IsParentOf(q, f) then [f] else []) + multiset{}[f := Hits(ChildKeys(DirOrder(files), q), f)]
  {
    PartitionHits(files, q, i);
  }

  /** Both sides of a partition grow alike. */
  lemma PartitionAdd(all: seq<Key>, direct: seq<Key>, rest: multiset<Key>, x: seq<Key>, y: seq<Key>, m: multiset<Key>)
    requires multiset(all) == multiset(direct) + rest
    requires multiset(x) == multiset(y) + m
    ensures multiset(all + x) == multiset(direct + y) + (rest + m)
  {
    var lhs := multiset(all + x);
    var rhs := multiset(direct + y) + (rest + m);
    forall k
      ensures lhs[k] == rhs[k]
    {
    }
  }

  /** No directory holds anything when nothing is given. */
  lemma {:induction false} SumUnderEmpty(dirs: seq<Key>)
    ensures SumUnder(dirs, []) == multiset{}
  {
    if dirs != [] {
      SumUnderEmpty(dirs[..|dirs| - 1]);
    }
  }

  /**
   * A file below `q` but not directly inside it lies below exactly one
   * subdirectory of `q`; any other file lies below none.
   */
  lemma PartitionHits(files: seq<Key>, q: Key, i: nat)
    requires i < |files|
    ensures Hits(ChildKeys(DirOrder(files), q), files[i]) ==
            if IsBelow(q, files[i]) && !IsParentOf(q, files[i]) then 1 else 0
  {
    var order := DirOrder(files);
    var dks := ChildKeys(order, q);
    var f := files[i];
    ChildKeysMembers(order, q);
    forall j | 0 <= j < |dks|
      ensures IsParentOf(q, dks[j])
    {
      assert dks[j] in dks;
    }
    if IsBelow(q, f) && !IsParentOf(q, f) {
      var p := f[..|q| + 1];
      PrefixInDirOrder(files, i, |q| + 1);
      assert p[..|q|] == f[..|q|];
      assert p in dks;
      HitsUnique(dks, f, p);
      DirOrderDistinct(files);
      ChildKeysDistinct(order, q);
      DistinctCount(dks, p);
    } else {
      forall j | 0 <= j < |dks|
        ensures !IsBelow(dks[j], f)
      {
        BelowChild(q, dks[j], f);
      }
      HitsNone(dks, f);
    }
  }

  /**
   * The keys of the files the references `refs` stand for, in pre-order;
   * a directory reference that does not lead one level down within
   * `bound` levels stands for nothing.
   */
  function KeysOf(a: Arena, refs: seq<Ref>, bound: nat, level: nat): seq<Key>
    decreases bound - level, 1, |refs|
  {
    if refs == [] then []
    else KeysOf(a, refs[..|refs| - 1], bound, level) + KeysOfOne(a, refs[|refs| - 1], bound, level)
  }

  /** The keys of the files one reference stands for, in pre-order. */
  function KeysOfOne(a: Arena, r: Ref, bound: nat, level: nat): seq<Key>
    decreases bound - level, 0, 0
  {
    match r
    case FileRef(f) => [f]
    case DirRef(k) =>
      if k in a && |k| == level + 1 && level < bound then KeysOf(a, a[k].children, bound, |k|) else []
  }

  /** The files read out of the references are the file nodes of their keys, in the same order. */
  lemma {:induction false} ResolveKeys(loc: Location, fs: FileSystem, a: Arena, refs: seq<Ref>, bound: nat, level: nat)
    requires WellLinked(a, bound) && RefsBelow(a, refs, level)
    ensures NonemptyKeys(KeysOf(a, refs, bound, level))
    ensures AllFiles(Resolve(loc, fs, a, refs, bound, level)) == FileNodes(loc, fs, KeysOf(a, refs, bound, level))
    decreases bound - level, 1, |refs|
  {
    if refs != [] {
      var init := refs[..|refs| - 1];
      var last := refs[|refs| - 1];
      ResolveKeys(loc, fs, a, init, bound, level);
      ResolveOneKeys(loc, fs, a, last, bound, level);
      var nodes := Resolve(loc, fs, a, refs, bound, level);
      assert nodes[..|nodes| - 1] == Resolve(loc, fs, a, init, bound, level);
      FileNodesAppend(loc, fs, KeysOf(a, init, bound, level), KeysOfOne(a, last, bound, level));
    }
  }

  /** The files read out of one reference are the file nodes of its keys. */
  lemma {:induction false} ResolveOneKeys(loc: Location, fs: FileSystem, a: Arena, r: Ref, bound: nat, level: nat)
    requires WellLinked(a, bound)
    requires |r.key| == level + 1 && (r.DirRef? ==> r.key in a)
    ensures NonemptyKeys(KeysOfOne(a, r, bound, level))
    ensures FilesOf(ResolveOne(loc, fs, a, r, bound, level)) == FileNodes(loc, fs, KeysOfOne(a, r, bound, level))
    decreases bound - level, 0, 0
  {
    match r
    case FileRef(f) =>
      FileNodesSingle(loc, fs, f);
    case DirRef(k) =>
      ResolveKeys(loc, fs, a, a[k].children, bound, |k|);
  }

  lemma FileNodesSingle(loc: Location, fs: FileSystem, f: Key)
    requires |f| >= 1
    ensures NonemptyKeys([f])
    ensures FileNodes(loc, fs, [f]) == [FileNodeOf(loc, fs, f)]
  {
    var k: FileKey := f;
    MapSeqSingle(NodeBuilder(loc, fs), k);
  }

  /** Reading two lists of references one after the other. */
  lemma {:induction false} KeysOfAppend(a: Arena, r1: seq<Ref>, r2: seq<Ref>, bound: nat, level: nat)
    ensures KeysOf(a, r1 + r2, bound, level) == KeysOf(a, r1, bound, level) + KeysOf(a, r2, bound, level)
    decreases |r2|
  {
    if r2 == [] {
      assert r1 + r2 == r1;
    } else {
      var init := r2[..|r2| - 1];
      var last := r2[|r2| - 1];
      assert r1 + r2 == (r1 + init) + [last];
      assert r2 == init + [last];
      KeysOfAppend(a, r1, init, bound, level);
      KeysOfSnoc(a, r1 + init, last, bound, level);
      KeysOfSnoc(a, init, last, bound, level);
    }
  }

  /** References to files stand for exactly those files. */
  lemma {:induction false} KeysOfFileRefs(a: Arena, fks: seq<Key>, bound: nat, level: nat)
    ensures KeysOf(a, FileRefs(fks), bound, level) == fks
  {
    if fks != [] {
      var init := fks[..|fks| - 1];
      var last := fks[|fks| - 1];
      KeysOfSnoc(a, FileRefs(init), FileRef(last), bound, level);
      KeysOfFileRefs(a, init, bound, level);
      assert fks == init + [last];
    }
  }

  /**
   * Read out of the final map, the children of the root or of a directory
   * `q` stand for exactly the files below `q`, each once.
   */
  lemma {:induction false} ChildKeysOf(loc: Location, files: seq<Key>, q: Key)
    requires q == [] || q in DirOrder(files)
    ensures multiset(KeysOf(SpecArena(loc, files), ChildRefs(files, DirOrder(files), q), MaxLength(DirOrder(files)), |q|))
            == multiset(FilesUnder(files, q))
    decreases MaxLength(DirOrder(files)) - |q|, 1, 0
  {
    var order := DirOrder(files);
    var a := SpecArena(loc, files);
    var bound := MaxLength(order);
    var fks := ChildKeys(files, q);
    var dks := ChildKeys(order, q);
    KeysOfAppend(a, FileRefs(fks), DirRefs(dks), bound, |q|);
    KeysOfFileRefs(a, fks, bound, |q|);
    SubdirKeysOf(loc, files, q, |dks|);
    WholePrefix(dks);
    WholePrefix(files);
    Partition(files, q, |files|);
    var kd := KeysOf(a, DirRefs(dks), bound, |q|);
    assert multiset(fks + kd) == multiset(fks) + multiset(kd);
  }

  lemma WholePrefix<T>(s: seq<T>)
    ensures s[..|s|] == s
  {
  }

  /** The first `m` subdirectories of `q` stand for the files below each of them. */
  lemma {:induction false} SubdirKeysOf(loc: Location, files: seq<Key>, q: Key, m: nat)
    requires q == [] || q in DirOrder(files)
    requires m <= |ChildKeys(DirOrder(files), q)|
    ensures multiset(KeysOf(SpecArena(loc, files), DirRefs(ChildKeys(DirOrder(files), q)[..m]), MaxLength(DirOrder(files)), |q|))
            == SumUnder(ChildKeys(DirOrder(files), q)[..m], files)
    decreases MaxLength(DirOrder(files)) - |q|, 0, m
  {
    var order := DirOrder(files);
    var a := SpecArena(loc, files);
    var bound := MaxLength(order);
    var dks := ChildKeys(order, q);
    if m == 0 {
      assert dks[..0] == [];
    } else {
      SubdirKeysOf(loc, files, q, m - 1);
      var d := dks[m - 1];
      var prev := dks[..m - 1];
      PrefixSnoc(dks, m);
      DirRefsAppend(prev, [d]);
      ChildKeysMembers(order, q);
      assert d in dks;
      assert a[d].children == ChildRefs(files, order, d);
      ChildKeysOf(loc, files, d);
      KeysOfSnoc(a, DirRefs(prev), DirRef(d), bound, |q|);
      assert dks[..m][..m - 1] == prev;
    }
  }

  /** One more reference reads one more node. */
  lemma KeysOfSnoc(a: Arena, refs: seq<Ref>, r: Ref, bound: nat, level: nat)
    ensures KeysOf(a, refs + [r], bound, level) == KeysOf(a, refs, bound, level) + KeysOfOne(a, r, bound, level)
  {
    assert (refs + [r])[..|refs|] == refs;
  }

  /** Every key lies below the root. */
  lemma {:induction false} FilesUnderRoot(files: seq<Key>)
    requires NonemptyKeys(files)
    ensures FilesUnder(files, []) == files
  {
    if files != [] {
      var init := files[..|files| - 1];
      assert NonemptyKeys(init);
      FilesUnderRoot(init);
      assert files == init + [files[|files| - 1]];
    }
  }

  /** The mapped sequence without the element at position `j`. */
  lemma MapSeqRemoveAt<X, Y>(g: X -> Y, ys: seq<X>, j: nat)
    requires j < |ys|
    ensures multiset(MapSeq(g, ys)) == multiset(MapSeq(g, ys[..j] + ys[j + 1..])) + multiset{g(ys[j])}
  {
    var l := ys[..j];
    var r := ys[j + 1..];
    var y := ys[j];
    assert ys == l + [y] + r;
    MapSeqSingle(g, y);
    MapSeqAppend(g, l, [y]);
    MapSeqAppend(g, l + [y], r);
    MapSeqAppend(g, l, r);
    var ml := MapSeq(g, l);
    var mr := MapSeq(g, r);
    assert MapSeq(g, ys) == ml + [g(y)] + mr;
    assert multiset(ml + [g(y)] + mr) == multiset(ml + mr) + multiset{g(y)};
  }

  /** Sequences that are a permutation of each other map to a permutation. */
  lemma {:induction false} MapSeqPermutation<X, Y>(g: X -> Y, xs: seq<X>, ys: seq<X>)
    requires multiset(xs) == multiset(ys)
    ensures multiset(MapSeq(g, xs)) == multiset(MapSeq(g, ys))
    decreases |xs|
  {
    if xs == [] {
      assert |ys| == |multiset(ys)|;
    } else {
      var x := xs[|xs| - 1];
      var init := xs[..|xs| - 1];
      assert x in multiset(ys);
      var j :| 0 <= j < |ys| && ys[j] == x;
      var rest := ys[..j] + ys[j + 1..];
      RemoveMatching(xs, ys, j);
      MapSeqPermutation(g, init, rest);
      MapSeqRemoveAt(g, ys, j);
      assert MapSeq(g, xs) == MapSeq(g, init) + [g(x)];
    }
  }

  /** Taking the last element of one side and a copy of it from the other keeps a permutation. */
  lemma RemoveMatching<X>(xs: seq<X>, ys: seq<X>, j: nat)
    requires multiset(xs) == multiset(ys) && xs != [] && j < |ys| && ys[j] == xs[|xs| - 1]
    ensures multiset(xs[..|xs| - 1]) == multiset(ys[..j] + ys[j + 1..])
  {
    var x := xs[|xs| - 1];
    assert xs == xs[..|xs| - 1] + [x];
    assert ys == ys[..j] + [x] + ys[j + 1..];
    assert multiset(ys) == multiset(ys[..j]) + multiset{x} + multiset(ys[j + 1..]);
    assert multiset(xs) == multiset(xs[..|xs| - 1]) + multiset{x};
    assert multiset(ys[..j] + ys[j + 1..]) == multiset(ys[..j]) + multiset(ys[j + 1..]);
    var a := multiset(xs[..|xs| - 1]);
    var b := multiset(ys[..j] + ys[j + 1..]);
    assert a + multiset{x} == b + multiset{x};
    forall y
      ensures a[y] == b[y]
    {
      assert (a + multiset{x})[y] == (b + multiset{x})[y];
    }
  }

  /**
   * `buildFileTree` loses no file and invents none: the files of the
   * returned tree are the file nodes of the input files, each as often as
   * the file is listed.
   */
  lemma FileTreeFiles(loc: Location, fs: FileSystem, files: seq<Key>)
    requires NonemptyKeys(files)
    ensures multiset(AllFiles(FileTree(loc, fs, files))) == multiset(FileNodes(loc, fs, files))
  {
    var order := DirOrder(files);
    var a := SpecArena(loc, files);
    var root := ChildRefs(files, order, []);
    var bound := MaxLength(order);
    SpecArenaWellLinked(loc, files);
    ResolveKeys(loc, fs, a, root, bound, 0);
    ChildKeysOf(loc, files, []);
    FilesUnderRoot(files);
    var treeKeys: seq<FileKey> := KeysOf(a, root, bound, 0);
    var fileKeys: seq<FileKey> := files;
    MapSeqPermutation(NodeBuilder(loc, fs), treeKeys, fileKeys);
  }

  /** The node at position `i` is the one the reference at position `i` stands for. */
  lemma {:induction false} ResolveIndex(loc: Location, fs: FileSystem, a: Arena, refs: seq<Ref>, bound: nat, level: nat, i: nat)
    requires WellLinked(a, bound) && RefsBelow(a, refs, level) && i < |refs|
    ensures Resolve(loc, fs, a, refs, bound, level)[i] == ResolveOne(loc, fs, a, refs[i], bound, level)
    decreases |refs|
  {
    if i < |refs| - 1 {
      var init := refs[..|refs| - 1];
      assert init[i] == refs[i];
      ResolveIndex(loc, fs, a, init, bound, level, i);
    }
  }

  /** The number of file nodes is the number of files. */
  lemma {:induction false} MapSeqLength<X, Y>(g: X -> Y, xs: seq<X>)
    ensures |MapSeq(g, xs)| == |xs|
  {
    if xs != [] {
      MapSeqLength(g, xs[..|xs| - 1]);
    }
  }

  /** A directory of the map holds a file below it. */
  lemma DirectoryHoldsFile(loc: Location, fs: FileSystem, files: seq<Key>, d: Key)
    requires d in DirOrder(files)
    requires WellLinked(SpecArena(loc, files), MaxLength(DirOrder(files)))
    ensures RefsBelow(SpecArena(loc, files), ChildRefs(files, DirOrder(files), d), |d|)
    ensures AllFiles(Resolve(loc, fs, SpecArena(loc, files), ChildRefs(files, DirOrder(files), d), MaxLength(DirOrder(files)), |d|)) != []
  {
    var order := DirOrder(files);
    var a := SpecArena(loc, files);
    var bound := MaxLength(order);
    var refs := ChildRefs(files, order, d);
    ChildRefsBelow(loc, files, d);
    ResolveKeys(loc, fs, a, refs, bound, |d|);
    ChildKeysOf(loc, files, d);
    DirOrderHasFile(files, d);
    var i :| 0 <= i < |files| && |d| >= 1 && IsBelow(d, files[i]);
    FilesUnderHas(files, d, i);
    var ks := KeysOf(a, refs, bound, |d|);
    assert files[i] in multiset(ks);
    var fk: seq<FileKey> := ks;
    MapSeqLength(NodeBuilder(loc, fs), fk);
  }

  /** A file below `q` is among the keys below `q`. */
  lemma {:induction false} FilesUnderHas(files: seq<Key>, q: Key, i: nat)
    requires i < |files| && IsBelow(q, files[i])
    ensures files[i] in FilesUnder(files, q)
  {
    var init := files[..|files| - 1];
    if i < |files| - 1 {
      assert init[i] == files[i];
      FilesUnderHas(init, q, i);
    }
  }

  /**
   * The nodes read out of the final map under the root or a directory `q`
   * form a shaped tree: `buildFileTree` gives every node its level as
   * depth, puts files before directories, and creates no directory
   * without a file below it.
   */
  lemma {:induction false} ChildrenShaped(loc: Location, fs: FileSystem, files: seq<Key>, q: Key)
    requires q == [] || q in DirOrder(files)
    requires WellLinked(SpecArena(loc, files), MaxLength(DirOrder(files)))
    ensures RefsBelow(SpecArena(loc, files), ChildRefs(files, DirOrder(files), q), |q|)
    ensures Shaped(Resolve(loc, fs, SpecArena(loc, files), ChildRefs(files, DirOrder(files), q), MaxLength(DirOrder(files)), |q|), |q|)
    decreases MaxLength(DirOrder(files)) - |q|, 1
  {
    var order := DirOrder(files);
    var a := SpecArena(loc, files);
    var bound := MaxLength(order);
    var refs := ChildRefs(files, order, q);
    ChildRefsBelow(loc, files, q);
    var nodes := Resolve(loc, fs, a, refs, bound, |q|);
    forall i | 0 <= i < |nodes|
      ensures NodeShaped(nodes[i], |q|)
      ensures nodes[i].Directory? <==> i >= |ChildKeys(files, q)|
    {
      ChildShaped(loc, fs, files, q, i);
    }
  }

  /** The node at position `i` under `q`. */
  lemma {:induction false} ChildShaped(loc: Location, fs: FileSystem, files: seq<Key>, q: Key, i: nat)
    requires q == [] || q in DirOrder(files)
    requires i < |ChildRefs(files, DirOrder(files), q)|
    ensures WellLinked(SpecArena(loc, files), MaxLength(DirOrder(files)))
    ensures RefsBelow(SpecArena(loc, files), ChildRefs(files, DirOrder(files), q), |q|)
    ensures var node := Resolve(loc, fs, SpecArena(loc, files), ChildRefs(files, DirOrder(files), q), MaxLength(DirOrder(files)), |q|)[i];
            NodeShaped(node, |q|) && (node.Directory? <==> i >= |ChildKeys(files, q)|)
    decreases MaxLength(DirOrder(files)) - |q|, 0, 1
  {
    var order := DirOrder(files);
    var refs := ChildRefs(files, order, q);
    var fks := ChildKeys(files, q);
    ChildRefsAt(files, order, q, i);
    var r := refs[i];
    var d := if i < |fks| then fks[i] else ChildKeys(order, q)[i - |fks|];
    assert r == if i < |fks| then FileRef(d) else DirRef(d);
    SpecArenaWellLinked(loc, files);
    ChildRefsBelow(loc, files, q);
    var a := SpecArena(loc, files);
    var bound := MaxLength(order);
    ResolveIndex(loc, fs, a, refs, bound, |q|, i);
    if i >= |fks| {
      ChildDirShaped(loc, fs, files, q, d);
    }
  }

  /** A directory under `q` is read out as a shaped directory node. */
  lemma {:induction false} ChildDirShaped(loc: Location, fs: FileSystem, files: seq<Key>, q: Key, d: Key)
    requires d in ChildKeys(DirOrder(files), q)
    ensures |d| == |q| + 1 && d in SpecArena(loc, files)
    ensures WellLinked(SpecArena(loc, files), MaxLength(DirOrder(files)))
    ensures var node := ResolveOne(loc, fs, SpecArena(loc, files), DirRef(d), MaxLength(DirOrder(files)), |q|);
            node.Directory? && NodeShaped(node, |q|)
    decreases MaxLength(DirOrder(files)) - |q|, 0, 0
  {
    var order := DirOrder(files);
    var a := SpecArena(loc, files);
    ChildKeysMembers(order, q);
    assert d in order && IsParentOf(q, d);
    SpecEntry(loc, files, d);
    SpecArenaWellLinked(loc, files);
    var bound := MaxLength(order);
    var node := ResolveOne(loc, fs, a, DirRef(d), bound, |q|);
    assert node.children == Resolve(loc, fs, a, a[d].children, bound, |d|) && node.depth == a[d].depth;
    DirectoryHoldsFile(loc, fs, files, d);
    ChildrenShaped(loc, fs, files, d);
    DirectoryNodeShaped(node, |q|);
  }

  /** The entry of a directory in the final map: its depth and its children. */
  lemma SpecEntry(loc: Location, files: seq<Key>, d: Key)
    requires d in DirOrder(files)
    ensures |d| >= 1 && d in SpecArena(loc, files)
    ensures SpecArena(loc, files)[d].children == ChildRefs(files, DirOrder(files), d)
    ensures SpecArena(loc, files)[d].depth == |d| - 1
  {
    DirOrderKeysNonempty(files);
    assert SpecArena(loc, files)[d] == NewDirEntry(loc, d).(children := ChildRefs(files, DirOrder(files), d));
  }

  /** A directory node at `level` with a file below it and shaped children is shaped. */
  lemma DirectoryNodeShaped(node: FileTreeNode, level: nat)
    requires node.Directory? && node.depth == level
    requires AllFiles(node.children) != [] && Shaped(node.children, level + 1)
    ensures NodeShaped(node, level)
  {
  }

  /** The reference at position `i` under `q`: the files first, then the directories. */
  lemma ChildRefsAt(files: seq<Key>, order: seq<Key>, q: Key, i: nat)
    ensures |ChildRefs(files, order, q)| == |ChildKeys(files, q)| + |ChildKeys(order, q)|
    ensures i < |ChildKeys(files, q)| ==> ChildRefs(files, order, q)[i] == FileRef(ChildKeys(files, q)[i])
    ensures |ChildKeys(files, q)| <= i < |ChildRefs(files, order, q)| ==>
              ChildRefs(files, order, q)[i] == DirRef(ChildKeys(order, q)[i - |ChildKeys(files, q)|])
  {
    var fks := ChildKeys(files, q);
    FileRefsIndex(fks);
    DirRefsIndex(ChildKeys(order, q));
    if |fks| <= i < |ChildRefs(files, order, q)| {
      assert ChildRefs(files, order, q)[i] == DirRefs(ChildKeys(order, q))[i - |fks|];
    }
  }

  /** The tree `buildFileTree` returns is shaped, starting at depth 0. */
  lemma FileTreeShaped(loc: Location, fs: FileSystem, files: seq<Key>)
    ensures Shaped(FileTree(loc, fs, files), 0)
  {
    SpecArenaWellLinked(loc, files);
    ChildrenShaped(loc, fs, files, []);
  }
}
