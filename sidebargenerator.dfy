/**
 * The sidebar: one entry per top-level directory, keyed by the directory's
 * link, holding that directory's group. Nodes are kept or skipped by the
 * depth recorded in them, directories become groups only when something
 * below them is kept, and every group carries the configured `collapsed`
 * flag.
 */
module SidebarGenerator {
  import opened Wrappers
  import opened Strings
  import opened Types
  import opened Extractor
  import opened Scanner
  import opened Labels

  /**
   * What `generateSidebarItems` reads from the options: the depth bound, the
   * hooks in force, the `collapsed` flag and the sort; and the file contents
   * `extractTitle` reads.
   */
  datatype SidebarSettings = SidebarSettings(
    maxDepth: Option<int>,
    onDirectory: Option<DirectoryHook>,
    onFile: Option<FileHook>,
    collapsed: Option<bool>,
    sort: SortItems,
    fs: FileSystem)

  /** The sidebar hooks take precedence over the global ones. */
  function SidebarSettingsOf(options: Options, fs: FileSystem): SidebarSettings
  {
    SidebarSettings(
      options.sidebar.depth,
      Prefer(options.sidebar.onDirectory, options.onDirectory),
      Prefer(options.sidebar.onFile, options.onFile),
      options.sidebar.collapsed,
      options.sort,
      fs)
  }

  // ---------------------------------------------------------------------
  // The items of a list of nodes
  // ---------------------------------------------------------------------

  /**
   * The items `generateSidebarItems` returns for `nodes`. They do not depend
   * on the depth of the call: only the depth stored in each node is consulted.
   */
  function SidebarItems(nodes: seq<FileTreeNode>, s: SidebarSettings): seq<SidebarItem>
    requires SortsByPermutation(s.sort)
    decreases nodes, 2
  {
    var sorted := s.sort(nodes);
    PermutedMembers(nodes, sorted);
    SidebarList(nodes, sorted, s)
  }

  /** The items of the nodes `sorted`, drawn from `nodes`, in their order. */
  function SidebarList(nodes: seq<FileTreeNode>, sorted: seq<FileTreeNode>, s: SidebarSettings): seq<SidebarItem>
    requires SortsByPermutation(s.sort)
    requires forall i :: 0 <= i < |sorted| ==> sorted[i] in nodes
    decreases nodes, 1, |sorted|
  {
    if sorted == [] then []
    else SidebarList(nodes, sorted[..|sorted| - 1], s) + SidebarEntry(nodes, sorted[|sorted| - 1], s)
  }

  /** The items one node of `nodes` contributes: none, or exactly one. */
  function SidebarEntry(nodes: seq<FileTreeNode>, node: FileTreeNode, s: SidebarSettings): seq<SidebarItem>
    requires SortsByPermutation(s.sort)
    requires node in nodes
    decreases nodes, 0
  {
    if !ShouldIncludeByDepth(node, s.maxDepth) then []
    else match node
      case Directory(_, _, _, _, children) =>
        var childItems := SidebarItems(children, s);
        if |childItems| > 0 then [SidebarGroup(DirectoryText(node, s.onDirectory), childItems, s.collapsed)]
        else []
      case File(_, _, _, _, fileInfo) =>
        if fileInfo.None? then []
        else [SidebarLink(FileText(node, s.onFile, s.fs), RelativePathToLink(node.relativePath, false))]
  }

  /** One more node of the sorted list adds its entry at the end. */
  lemma SidebarListSnoc(nodes: seq<FileTreeNode>, sorted: seq<FileTreeNode>, i: int, s: SidebarSettings)
    requires SortsByPermutation(s.sort)
    requires forall k :: 0 <= k < |sorted| ==> sorted[k] in nodes
    requires 0 <= i < |sorted|
    ensures SidebarList(nodes, sorted[..i + 1], s) == SidebarList(nodes, sorted[..i], s) + SidebarEntry(nodes, sorted[i], s)
  {
    assert sorted[..i + 1][..i] == sorted[..i];
  }

  /**
   * `generateSidebarItems`: a loop over the sorted nodes that skips those
   * beyond the depth bound and pushes the items of the others, recursing
   * into directories. `currentDepth` is only passed on.
   */
  method GenerateSidebarItems(nodes: seq<FileTreeNode>, s: SidebarSettings, currentDepth: nat) returns (items: seq<SidebarItem>)
    requires SortsByPermutation(s.sort)
    ensures items == SidebarItems(nodes, s)
    decreases nodes
  {
    items := [];
    var sortedNodes := s.sort(nodes);
    PermutedMembers(nodes, sortedNodes);
    for i := 0 to |sortedNodes|
      invariant items == SidebarList(nodes, sortedNodes[..i], s)
    {
      var node := sortedNodes[i];
      SidebarListSnoc(nodes, sortedNodes, i, s);
      if !ShouldIncludeByDepth(node, s.maxDepth) {
        continue;
      }
      if node.Directory? {
        var text := DirectoryText(node, s.onDirectory);
        var childItems := GenerateSidebarItems(node.children, s, currentDepth + 1);
        if |childItems| > 0 {
          var sidebarItem := SidebarGroup(text, childItems, None);
          if s.collapsed.Some? {
            sidebarItem := sidebarItem.(collapsed := s.collapsed);
          }
          items := items + [sidebarItem];
        }
      } else if node.fileInfo.Some? {
        var text := FileText(node, s.onFile, s.fs);
        var link := RelativePathToLink(node.relativePath, false);
        items := items + [SidebarLink(text, link)];
      }
    }
    assert sortedNodes[..|sortedNodes|] == sortedNodes;
  }

  // ---------------------------------------------------------------------
  // The sidebar record
  // ---------------------------------------------------------------------

  predicate IsFirstLevelDir(node: FileTreeNode)
  {
    node.Directory? && node.depth == 0
  }

  /** `tree.filter(node => node.type === 'directory' && node.depth === 0)`. */
  function FirstLevelDirs(tree: seq<FileTreeNode>): seq<FileTreeNode>
  {
    if tree == [] then []
    else
      var last := tree[|tree| - 1];
      FirstLevelDirs(tree[..|tree| - 1]) + (if IsFirstLevelDir(last) then [last] else [])
  }

  /** The key of a directory's entry: its link as a directory. */
  function SidebarKey(dirNode: FileTreeNode): string
  {
    RelativePathToLink(dirNode.relativePath, true)
  }

  /** The record after visiting `dirs`: a directory whose items are empty gets no key. */
  function SidebarOf(dirs: seq<FileTreeNode>, s: SidebarSettings): map<string, seq<SidebarItem>>
    requires SortsByPermutation(s.sort)
  {
    if dirs == [] then map[]
    else
      var dirNode := dirs[|dirs| - 1];
      var sidebar := SidebarOf(dirs[..|dirs| - 1], s);
      var items := SidebarItems([dirNode], s);
      if |items| > 0 then sidebar[SidebarKey(dirNode) := items] else sidebar
  }

  /** `generateSidebar`: a loop over the top-level directories filling the record. */
  method GenerateSidebar(tree: seq<FileTreeNode>, options: Options, fs: FileSystem)
    returns (sidebar: map<string, seq<SidebarItem>>)
    requires SortsByPermutation(options.sort)
    ensures sidebar == SidebarOf(FirstLevelDirs(tree), SidebarSettingsOf(options, fs))
  {
    var s := SidebarSettingsOf(options, fs);
    sidebar := map[];
    var firstLevelDirs := FirstLevelDirs(tree);
    for i := 0 to |firstLevelDirs|
      invariant sidebar == SidebarOf(firstLevelDirs[..i], s)
    {
      var dirNode := firstLevelDirs[i];
      assert firstLevelDirs[..i + 1][..i] == firstLevelDirs[..i];
      var sidebarPath := RelativePathToLink(dirNode.relativePath, true);
      var items := GenerateSidebarItems([dirNode], s, 0);
      if |items| > 0 {
        sidebar := sidebar[sidebarPath := items];
      }
    }
    assert firstLevelDirs[..|firstLevelDirs|] == firstLevelDirs;
  }

  // ---------------------------------------------------------------------
  // What the items look like
  // ---------------------------------------------------------------------

  /**
   * Items whose links start with `/` and whose groups are never empty and
   * carry exactly the flag `collapsed` (`None`: no flag). A link carries no
   * flag, by the shape of `SidebarItem`.
   */
  predicate SidebarWellFormed(items: seq<SidebarItem>, collapsed: Option<bool>)
    decreases items, 1
  {
    forall i :: 0 <= i < |items| ==> ItemWellFormed(items[i], collapsed)
  }

  predicate ItemWellFormed(item: SidebarItem, collapsed: Option<bool>)
    decreases item, 0
  {
    match item
    case SidebarLink(_, link) => StartsWith(link, "/")
    case SidebarGroup(_, items, flag) => |items| > 0 && flag == collapsed && SidebarWellFormed(items, collapsed)
  }

  lemma WellFormedAppend(a: seq<SidebarItem>, b: seq<SidebarItem>, collapsed: Option<bool>)
    requires SidebarWellFormed(a, collapsed) && SidebarWellFormed(b, collapsed)
    ensures SidebarWellFormed(a + b, collapsed)
  {
    forall i | 0 <= i < |a + b|
      ensures ItemWellFormed((a + b)[i], collapsed)
    {
      if i < |a| {
        assert (a + b)[i] == a[i];
      } else {
        assert (a + b)[i] == b[i - |a|];
      }
    }
  }

  /** Every group of any sidebar list is non-empty and carries the configured flag; every link starts with `/`. */
  lemma {:induction false} SidebarItemsWellFormed(nodes: seq<FileTreeNode>, s: SidebarSettings)
    requires SortsByPermutation(s.sort)
    ensures SidebarWellFormed(SidebarItems(nodes, s), s.collapsed)
    decreases nodes, 2
  {
    var sorted := s.sort(nodes);
    PermutedMembers(nodes, sorted);
    SidebarListWellFormed(nodes, sorted, s);
  }

  lemma {:induction false} SidebarListWellFormed(nodes: seq<FileTreeNode>, sorted: seq<FileTreeNode>, s: SidebarSettings)
    requires SortsByPermutation(s.sort)
    requires forall i :: 0 <= i < |sorted| ==> sorted[i] in nodes
    ensures SidebarWellFormed(SidebarList(nodes, sorted, s), s.collapsed)
    decreases nodes, 1, |sorted|
  {
    if sorted != [] {
      var init := sorted[..|sorted| - 1];
      SidebarListWellFormed(nodes, init, s);
      SidebarEntryWellFormed(nodes, sorted[|sorted| - 1], s);
      WellFormedAppend(SidebarList(nodes, init, s), SidebarEntry(nodes, sorted[|sorted| - 1], s), s.collapsed);
    }
  }

  lemma {:induction false} SidebarEntryWellFormed(nodes: seq<FileTreeNode>, node: FileTreeNode, s: SidebarSettings)
    requires SortsByPermutation(s.sort)
    requires node in nodes
    ensures SidebarWellFormed(SidebarEntry(nodes, node, s), s.collapsed)
    decreases nodes, 0
  {
    if node.Directory? {
      SidebarItemsWellFormed(node.children, s);
    }
  }

  /**
   * A directory is never a link: it yields nothing when it lies beyond the
   * depth bound or nothing below it is kept, and otherwise exactly one group
   * of its children's items, named by its text.
   */
  lemma SidebarEntryOfDirectory(nodes: seq<FileTreeNode>, node: FileTreeNode, s: SidebarSettings)
    requires SortsByPermutation(s.sort)
    requires node in nodes && node.Directory?
    ensures SidebarEntry(nodes, node, s) == [] <==>
              (s.maxDepth.Some? && node.depth >= s.maxDepth.value) || SidebarItems(node.children, s) == []
    ensures SidebarEntry(nodes, node, s) != [] ==>
              SidebarEntry(nodes, node, s)
              == [SidebarGroup(DirectoryText(node, s.onDirectory), SidebarItems(node.children, s), s.collapsed)]
  {
  }

  /**
   * A file within the depth bound that carries its file information yields
   * exactly one link to its page, shown with its file text; any other file
   * yields nothing.
   */
  lemma SidebarEntryOfFile(nodes: seq<FileTreeNode>, node: FileTreeNode, s: SidebarSettings)
    requires SortsByPermutation(s.sort)
    requires node in nodes && node.File?
    ensures SidebarEntry(nodes, node, s) == [] <==>
              (s.maxDepth.Some? && node.depth >= s.maxDepth.value) || node.fileInfo.None?
    ensures SidebarEntry(nodes, node, s) != [] ==>
              SidebarEntry(nodes, node, s)
              == [SidebarLink(FileText(node, s.onFile, s.fs), RelativePathToLink(node.relativePath, false))]
  {
  }

  /** Sorting a single node leaves it alone. */
  lemma SortSingle(sort: SortItems, node: FileTreeNode)
    requires SortsByPermutation(sort)
    ensures sort([node]) == [node]
  {
    var r := sort([node]);
    assert multiset(r) == multiset([node]);
    assert |r| == 1;
    assert r[0] in multiset(r);
  }

  /** The items built from `[dirNode]` are that node's own entry: its group, or nothing. */
  lemma SidebarOfOne(dirNode: FileTreeNode, s: SidebarSettings)
    requires SortsByPermutation(s.sort)
    ensures SidebarItems([dirNode], s) == SidebarEntry([dirNode], dirNode, s)
  {
    SortSingle(s.sort, dirNode);
    assert [dirNode][..0] == [];
    assert SidebarList([dirNode], [dirNode], s) == SidebarList([dirNode], [], s) + SidebarEntry([dirNode], dirNode, s);
  }

  /** Nodes that all lie beyond the depth bound yield nothing. */
  lemma {:induction false} SidebarListSkipped(nodes: seq<FileTreeNode>, sorted: seq<FileTreeNode>, s: SidebarSettings)
    requires SortsByPermutation(s.sort)
    requires forall i :: 0 <= i < |sorted| ==> sorted[i] in nodes
    requires forall i :: 0 <= i < |sorted| ==> !ShouldIncludeByDepth(sorted[i], s.maxDepth)
    ensures SidebarList(nodes, sorted, s) == []
    decreases |sorted|
  {
    if sorted != [] {
      SidebarListSkipped(nodes, sorted[..|sorted| - 1], s);
    }
  }

  lemma SidebarItemsSkipped(nodes: seq<FileTreeNode>, s: SidebarSettings)
    requires SortsByPermutation(s.sort)
    requires forall i :: 0 <= i < |nodes| ==> !ShouldIncludeByDepth(nodes[i], s.maxDepth)
    ensures SidebarItems(nodes, s) == []
  {
    var sorted := s.sort(nodes);
    PermutedMembers(nodes, sorted);
    forall i | 0 <= i < |sorted|
      ensures !ShouldIncludeByDepth(sorted[i], s.maxDepth)
    {
      var j :| 0 <= j < |nodes| && nodes[j] == sorted[i];
    }
    SidebarListSkipped(nodes, sorted, s);
  }

  // ---------------------------------------------------------------------
  // The keys and values of the record
  // ---------------------------------------------------------------------

  /** The filter keeps exactly the directories at depth 0, in order. */
  lemma {:induction false} FirstLevelDirsFilter(tree: seq<FileTreeNode>)
    ensures forall i :: 0 <= i < |FirstLevelDirs(tree)| ==>
              IsFirstLevelDir(FirstLevelDirs(tree)[i]) && FirstLevelDirs(tree)[i] in tree
    ensures forall i :: 0 <= i < |tree| && IsFirstLevelDir(tree[i]) ==> tree[i] in FirstLevelDirs(tree)
  {
    if tree != [] {
      var init := tree[..|tree| - 1];
      FirstLevelDirsFilter(init);
      assert tree == init + [tree[|tree| - 1]];
    }
  }

  /** Directory `i` of `dirs` has the link `k` and non-empty items. */
  predicate KeyedAt(dirs: seq<FileTreeNode>, s: SidebarSettings, k: string, i: int)
    requires SortsByPermutation(s.sort)
  {
    0 <= i < |dirs| && SidebarKey(dirs[i]) == k && SidebarItems([dirs[i]], s) != []
  }

  /**
   * A key is present exactly when some visited directory has that link and
   * non-empty items, and it then holds the items of such a directory.
   */
  lemma {:induction false} SidebarOfKeys(dirs: seq<FileTreeNode>, s: SidebarSettings, k: string)
    requires SortsByPermutation(s.sort)
    ensures k in SidebarOf(dirs, s) <==> exists i :: KeyedAt(dirs, s, k, i)
    ensures k in SidebarOf(dirs, s) ==>
              exists i :: KeyedAt(dirs, s, k, i) && SidebarOf(dirs, s)[k] == SidebarItems([dirs[i]], s)
  {
    if dirs != [] {
      var n := |dirs| - 1;
      var init := dirs[..n];
      SidebarOfKeys(init, s, k);
      SidebarOfStep(dirs, s, k);
      if KeyedAt(dirs, s, k, n) {
      } else {
        if k in SidebarOf(init, s) {
          var j :| KeyedAt(init, s, k, j) && SidebarOf(init, s)[k] == SidebarItems([init[j]], s);
          assert init[j] == dirs[j];
          assert KeyedAt(dirs, s, k, j);
        }
        if exists i :: KeyedAt(dirs, s, k, i) {
          var i :| KeyedAt(dirs, s, k, i);
          KeyedBefore(dirs, s, k, i);
        }
      }
    }
  }

  /** A directory other than the last one is keyed already among the earlier ones. */
  lemma KeyedBefore(dirs: seq<FileTreeNode>, s: SidebarSettings, k: string, i: int)
    requires SortsByPermutation(s.sort)
    requires KeyedAt(dirs, s, k, i) && !KeyedAt(dirs, s, k, |dirs| - 1)
    ensures KeyedAt(dirs[..|dirs| - 1], s, k, i)
  {
    assert i != |dirs| - 1;
    assert dirs[..|dirs| - 1][i] == dirs[i];
  }

  /** Visiting one more directory sets its key when its items are not empty, and changes nothing else. */
  lemma SidebarOfStep(dirs: seq<FileTreeNode>, s: SidebarSettings, k: string)
    requires SortsByPermutation(s.sort)
    requires dirs != []
    ensures KeyedAt(dirs, s, k, |dirs| - 1) ==>
              k in SidebarOf(dirs, s) && SidebarOf(dirs, s)[k] == SidebarItems([dirs[|dirs| - 1]], s)
    ensures !KeyedAt(dirs, s, k, |dirs| - 1) ==>
              (k in SidebarOf(dirs, s) <==> k in SidebarOf(dirs[..|dirs| - 1], s))
              && (k in SidebarOf(dirs, s) ==> SidebarOf(dirs, s)[k] == SidebarOf(dirs[..|dirs| - 1], s)[k])
  {
  }

  /** Node `i` of the tree is a directory at depth 0 with the link `k` and non-empty items. */
  predicate TopKeyedAt(tree: seq<FileTreeNode>, s: SidebarSettings, k: string, i: int)
    requires SortsByPermutation(s.sort)
  {
    0 <= i < |tree| && IsFirstLevelDir(tree[i]) && SidebarKey(tree[i]) == k && SidebarItems([tree[i]], s) != []
  }

  /**
   * The keys of a tree's sidebar are the links of its directories at depth
   * 0 whose items are not empty; files never give keys.
   */
  lemma SidebarKeysOfTree(tree: seq<FileTreeNode>, s: SidebarSettings, k: string)
    requires SortsByPermutation(s.sort)
    ensures k in SidebarOf(FirstLevelDirs(tree), s) <==> exists i :: TopKeyedAt(tree, s, k, i)
  {
    var dirs := FirstLevelDirs(tree);
    FirstLevelDirsFilter(tree);
    SidebarOfKeys(dirs, s, k);
    if k in SidebarOf(dirs, s) {
      var i :| KeyedAt(dirs, s, k, i);
      var j :| 0 <= j < |tree| && tree[j] == dirs[i];
      assert TopKeyedAt(tree, s, k, j);
    }
    if exists i :: TopKeyedAt(tree, s, k, i) {
      var i :| TopKeyedAt(tree, s, k, i);
      var j :| 0 <= j < |dirs| && dirs[j] == tree[i];
      assert KeyedAt(dirs, s, k, j);
    }
  }

  /**
   * Each value of a tree's sidebar is a one-element list: the group of the
   * top-level directory the key belongs to, holding its non-empty items.
   */
  lemma SidebarValuesOfTree(tree: seq<FileTreeNode>, s: SidebarSettings, k: string)
    requires SortsByPermutation(s.sort)
    requires k in SidebarOf(FirstLevelDirs(tree), s)
    ensures exists i :: && TopKeyedAt(tree, s, k, i)
                        && ShouldIncludeByDepth(tree[i], s.maxDepth)
                        && SidebarItems(tree[i].children, s) != []
                        && SidebarOf(FirstLevelDirs(tree), s)[k]
                           == [SidebarGroup(DirectoryText(tree[i], s.onDirectory), SidebarItems(tree[i].children, s), s.collapsed)]
  {
    var dirs := FirstLevelDirs(tree);
    FirstLevelDirsFilter(tree);
    SidebarOfKeys(dirs, s, k);
    var i :| KeyedAt(dirs, s, k, i) && SidebarOf(dirs, s)[k] == SidebarItems([dirs[i]], s);
    var j :| 0 <= j < |tree| && tree[j] == dirs[i];
    SidebarOfOne(tree[j], s);
    assert TopKeyedAt(tree, s, k, j);
  }

  lemma {:induction false} SidebarOfNothing(dirs: seq<FileTreeNode>, s: SidebarSettings)
    requires SortsByPermutation(s.sort)
    requires forall i :: 0 <= i < |dirs| ==> SidebarItems([dirs[i]], s) == []
    ensures SidebarOf(dirs, s) == map[]
  {
    if dirs != [] {
      SidebarOfNothing(dirs[..|dirs| - 1], s);
    }
  }

  /** A scanned top-level directory gets no items under a depth bound of at most 1. */
  lemma ShallowDirectory(d: FileTreeNode, s: SidebarSettings)
    requires SortsByPermutation(s.sort)
    requires NodeShaped(d, 0) && d.Directory?
    requires s.maxDepth.Some? && s.maxDepth.value <= 1
    ensures SidebarItems([d], s) == []
  {
    SidebarOfOne(d, s);
    if ShouldIncludeByDepth(d, s.maxDepth) {
      assert Shaped(d.children, 1);
      forall c | 0 <= c < |d.children|
        ensures !ShouldIncludeByDepth(d.children[c], s.maxDepth)
      {
        assert NodeShaped(d.children[c], 1);
      }
      SidebarItemsSkipped(d.children, s);
    }
  }

  /**
   * With a sidebar depth of at most 1 a scanned tree gets an empty sidebar:
   * the top-level directories lie at depth 0 and their children at depth 1,
   * and the depth test reads those stored depths.
   */
  lemma ShallowSidebar(tree: seq<FileTreeNode>, s: SidebarSettings)
    requires SortsByPermutation(s.sort)
    requires Shaped(tree, 0)
    requires s.maxDepth.Some? && s.maxDepth.value <= 1
    ensures SidebarOf(FirstLevelDirs(tree), s) == map[]
  {
    var dirs := FirstLevelDirs(tree);
    FirstLevelDirsFilter(tree);
    forall i | 0 <= i < |dirs|
      ensures SidebarItems([dirs[i]], s) == []
    {
      var j :| 0 <= j < |tree| && tree[j] == dirs[i];
      assert NodeShaped(tree[j], 0);
      ShallowDirectory(tree[j], s);
    }
    SidebarOfNothing(dirs, s);
  }
}
