/**
 * The top navigation: a depth-bounded fold over the scanned tree in which a
 * directory becomes a dropdown when its children yield entries and a link
 * otherwise, and a Markdown file becomes a link to its page.
 */
module NavGenerator {
  import opened Wrappers
  import opened Strings
  import opened Types
  import opened Extractor
  import opened Scanner
  import opened Labels

  /**
   * What `buildNavItems` is handed besides the nodes: the depth bound, the
   * hooks in force, the sort, the root-index rule, and the file contents
   * `extractTitle` reads.
   */
  datatype NavSettings = NavSettings(
    maxDepth: Option<int>,
    onDirectory: Option<DirectoryHook>,
    onFile: Option<FileHook>,
    sort: SortItems,
    excludeRootIndex: bool,
    fs: FileSystem)

  /** The settings `generateNav` derives: the nav hooks take precedence over the global ones. */
  function NavSettingsOf(options: Options, fs: FileSystem): NavSettings
  {
    NavSettings(
      options.nav.depth,
      Prefer(options.nav.onDirectory, options.onDirectory),
      Prefer(options.nav.onFile, options.onFile),
      options.sort,
      options.excludeRootIndex,
      fs)
  }

  // ---------------------------------------------------------------------
  // Looking up files below a directory
  // ---------------------------------------------------------------------

  predicate IsIndexFile(node: FileTreeNode)
  {
    node.File? && node.name == "index.md"
  }

  /** The `index.md` file among the direct children of `node`, if any. */
  function FindIndexFile(node: FileTreeNode): Option<FileTreeNode>
  {
    if node.File? then None else FindIndexIn(node.children)
  }

  /** `nodes.find(child => child is the file index.md)`. */
  function FindIndexIn(nodes: seq<FileTreeNode>): Option<FileTreeNode>
  {
    if nodes == [] then None
    else if IsIndexFile(nodes[0]) then Some(nodes[0])
    else FindIndexIn(nodes[1..])
  }

  /** Position `i` holds the first `index.md` file of `nodes`. */
  predicate FirstIndexAt(nodes: seq<FileTreeNode>, i: int)
  {
    && 0 <= i < |nodes|
    && IsIndexFile(nodes[i])
    && forall j :: 0 <= j < i ==> !IsIndexFile(nodes[j])
  }

  lemma {:induction false} FindIndexInFirst(nodes: seq<FileTreeNode>)
    ensures FindIndexIn(nodes).None? <==> forall i :: 0 <= i < |nodes| ==> !IsIndexFile(nodes[i])
    ensures FindIndexIn(nodes).Some? ==> exists i :: FirstIndexAt(nodes, i) && FindIndexIn(nodes).value == nodes[i]
  {
    if nodes != [] && !IsIndexFile(nodes[0]) {
      var rest := nodes[1..];
      FindIndexInFirst(rest);
      assert forall i :: 1 <= i < |nodes| ==> nodes[i] == rest[i - 1];
      if FindIndexIn(rest).Some? {
        var k :| FirstIndexAt(rest, k) && FindIndexIn(rest).value == rest[k];
        assert FirstIndexAt(nodes, k + 1);
      }
    } else if nodes != [] {
      assert FirstIndexAt(nodes, 0);
    }
  }

  /**
   * `findIndexFile` looks at the direct children only: it finds nothing in a
   * file or when no child is the file `index.md`, and otherwise the first
   * child that is.
   */
  lemma FindIndexFileFirst(node: FileTreeNode)
    ensures FindIndexFile(node).None? <==>
              node.File? || forall i :: 0 <= i < |node.children| ==> !IsIndexFile(node.children[i])
    ensures FindIndexFile(node).Some? ==>
              node.Directory? && exists i :: FirstIndexAt(node.children, i) && FindIndexFile(node).value == node.children[i]
  {
    if node.Directory? {
      FindIndexInFirst(node.children);
    }
  }

  /** The first file of the subtree rooted at `node` in a depth-first search. */
  function FirstFile(node: FileTreeNode): Option<FileTreeNode>
    decreases node, 1
  {
    if node.File? then Some(node) else FirstIn(node.children)
  }

  /** The first file found searching `nodes` one after the other. */
  function FirstIn(nodes: seq<FileTreeNode>): Option<FileTreeNode>
    decreases nodes, 0
  {
    if nodes == [] then None
    else
      var file := FirstFile(nodes[0]);
      if file.Some? then file else FirstIn(nodes[1..])
  }

  /**
   * The search finds nothing exactly when the subtree holds no file, and
   * otherwise the first file of the subtree in pre-order.
   */
  lemma {:induction false} FirstFileInPreOrder(node: FileTreeNode)
    ensures FirstFile(node) == if FilesOf(node) == [] then None else Some(FilesOf(node)[0])
    decreases node, 1
  {
    if node.Directory? {
      FirstInPreOrder(node.children);
    }
  }

  lemma {:induction false} FirstInPreOrder(nodes: seq<FileTreeNode>)
    ensures FirstIn(nodes) == if AllFiles(nodes) == [] then None else Some(AllFiles(nodes)[0])
    decreases nodes, 0
  {
    if nodes != [] {
      FirstFileInPreOrder(nodes[0]);
      FirstInPreOrder(nodes[1..]);
      assert nodes == [nodes[0]] + nodes[1..];
      AllFilesCons(nodes[0], nodes[1..]);
    }
  }

  /** The search moves past a child in which it found nothing. */
  lemma FirstInSkip(nodes: seq<FileTreeNode>, i: int)
    requires 0 <= i < |nodes|
    ensures FirstFile(nodes[i]).Some? ==> FirstIn(nodes[i..]) == FirstFile(nodes[i])
    ensures FirstFile(nodes[i]).None? ==> FirstIn(nodes[i..]) == FirstIn(nodes[i + 1..])
  {
    assert nodes[i..][0] == nodes[i];
    assert nodes[i..][1..] == nodes[i + 1..];
  }

  /** `findFirstFile`: a loop over the children with an early return, recursing into each. */
  method FindFirstFile(node: FileTreeNode) returns (file: Option<FileTreeNode>)
    ensures file == FirstFile(node)
    decreases node
  {
    if node.File? {
      return Some(node);
    }
    var children := node.children;
    if |children| > 0 {
      for i := 0 to |children|
        invariant FirstIn(children[i..]) == FirstFile(node)
      {
        var found := FindFirstFile(children[i]);
        FirstInSkip(children, i);
        if found.Some? {
          return found;
        }
      }
    }
    return None;
  }

  // ---------------------------------------------------------------------
  // The navigation items
  // ---------------------------------------------------------------------

  /**
   * The link of a directory that yields no dropdown. Cut off by the depth
   * bound with children, it falls back from the `index.md` child to the
   * first file below and then to the directory itself; otherwise from the
   * `index.md` child to the directory itself.
   */
  function DirectoryLink(node: FileTreeNode, currentDepth: nat, maxDepth: Option<int>): (link: string)
    requires node.Directory?
  {
    var isDepthLimited := maxDepth.Some? && currentDepth + 1 >= maxDepth.value;
    var indexFile := FindIndexFile(node);
    if isDepthLimited && |node.children| > 0 then
      if indexFile.Some? then RelativePathToLink(indexFile.value.relativePath, false)
      else
        var firstFile := FirstFile(node);
        if firstFile.Some? then RelativePathToLink(firstFile.value.relativePath, false)
        else RelativePathToLink(node.relativePath, true)
    else if indexFile.Some? then RelativePathToLink(indexFile.value.relativePath, false)
    else RelativePathToLink(node.relativePath, true)
  }

  /** The root `index.md` that `excludeRootIndex` drops. */
  predicate IsExcludedRootIndex(node: FileTreeNode, currentDepth: nat, s: NavSettings)
  {
    s.excludeRootIndex && currentDepth == 0 && node.name == "index.md"
  }

  /** The items `buildNavItems` returns for `nodes` at `currentDepth`. */
  function NavItems(nodes: seq<FileTreeNode>, currentDepth: nat, s: NavSettings): seq<NavItem>
    requires SortsByPermutation(s.sort)
    decreases nodes, 2
  {
    if s.maxDepth.Some? && currentDepth >= s.maxDepth.value then []
    else
      var sorted := s.sort(nodes);
      PermutedMembers(nodes, sorted);
      NavList(nodes, sorted, currentDepth, s)
  }

  /** The items of the nodes `sorted`, drawn from `nodes`, in their order. */
  function NavList(nodes: seq<FileTreeNode>, sorted: seq<FileTreeNode>, currentDepth: nat, s: NavSettings): seq<NavItem>
    requires SortsByPermutation(s.sort)
    requires forall i :: 0 <= i < |sorted| ==> sorted[i] in nodes
    decreases nodes, 1, |sorted|
  {
    if sorted == [] then []
    else
      NavList(nodes, sorted[..|sorted| - 1], currentDepth, s)
        + NavEntry(nodes, sorted[|sorted| - 1], currentDepth, s)
  }

  /** The items one node of `nodes` contributes: none, or exactly one. */
  function NavEntry(nodes: seq<FileTreeNode>, node: FileTreeNode, currentDepth: nat, s: NavSettings): seq<NavItem>
    requires SortsByPermutation(s.sort)
    requires node in nodes
    decreases nodes, 0
  {
    match node
    case Directory(_, _, _, _, children) =>
      var text := DirectoryText(node, s.onDirectory);
      var childItems := if |children| > 0 then NavItems(children, currentDepth + 1, s) else [];
      if |childItems| > 0 then [NavGroup(text, childItems)]
      else [NavLink(text, DirectoryLink(node, currentDepth, s.maxDepth))]
    case File(_, _, _, _, fileInfo) =>
      if fileInfo.None? || IsExcludedRootIndex(node, currentDepth, s) then []
      else [NavLink(FileText(node, s.onFile, s.fs), RelativePathToLink(node.relativePath, false))]
  }

  /** One more node of the sorted list adds its entry at the end. */
  lemma NavListSnoc(nodes: seq<FileTreeNode>, sorted: seq<FileTreeNode>, i: int, currentDepth: nat, s: NavSettings)
    requires SortsByPermutation(s.sort)
    requires forall k :: 0 <= k < |sorted| ==> sorted[k] in nodes
    requires 0 <= i < |sorted|
    ensures NavList(nodes, sorted[..i + 1], currentDepth, s)
            == NavList(nodes, sorted[..i], currentDepth, s) + NavEntry(nodes, sorted[i], currentDepth, s)
  {
    assert sorted[..i + 1][..i] == sorted[..i];
  }

  /** `buildNavItems`: a loop over the sorted nodes that pushes their items, recursing into directories. */
  method BuildNavItems(nodes: seq<FileTreeNode>, currentDepth: nat, s: NavSettings) returns (navItems: seq<NavItem>)
    requires SortsByPermutation(s.sort)
    ensures navItems == NavItems(nodes, currentDepth, s)
    decreases nodes, 1
  {
    if s.maxDepth.Some? && currentDepth >= s.maxDepth.value {
      return [];
    }
    var sortedNodes := s.sort(nodes);
    PermutedMembers(nodes, sortedNodes);
    navItems := [];
    for i := 0 to |sortedNodes|
      invariant navItems == NavList(nodes, sortedNodes[..i], currentDepth, s)
    {
      var node := sortedNodes[i];
      NavListSnoc(nodes, sortedNodes, i, currentDepth, s);
      if node.Directory? {
        var item := DirectoryItem(nodes, node, currentDepth, s);
        navItems := navItems + [item];
      } else if node.fileInfo.Some? {
        if s.excludeRootIndex && currentDepth == 0 && node.name == "index.md" {
          EntryIsDropped(nodes, node, currentDepth, s);
          continue;
        }
        var text := FileText(node, s.onFile, s.fs);
        var link := RelativePathToLink(node.relativePath, false);
        EntryIsPage(nodes, node, currentDepth, s);
        navItems := navItems + [NavLink(text, link)];
      } else {
        EntryIsDropped(nodes, node, currentDepth, s);
      }
    }
    assert sortedNodes[..|sortedNodes|] == sortedNodes;
  }

  /**
   * The item `buildNavItems` pushes for a directory: a dropdown of its
   * children's items when they yield any, and otherwise a link.
   */
  method DirectoryItem(nodes: seq<FileTreeNode>, node: FileTreeNode, currentDepth: nat, s: NavSettings) returns (item: NavItem)
    requires SortsByPermutation(s.sort)
    requires node in nodes && node.Directory?
    ensures [item] == NavEntry(nodes, node, currentDepth, s)
    decreases nodes, 0
  {
    var text := DirectoryText(node, s.onDirectory);
    var childItems := [];
    if |node.children| > 0 {
      childItems := BuildNavItems(node.children, currentDepth + 1, s);
    }
    if |childItems| > 0 {
      EntryIsGroup(nodes, node, currentDepth, s);
      item := NavGroup(text, childItems);
    } else {
      var link := ChooseDirectoryLink(node, currentDepth, s.maxDepth);
      EntryIsDirectoryLink(nodes, node, currentDepth, s);
      item := NavLink(text, link);
    }
  }

  lemma EntryIsGroup(nodes: seq<FileTreeNode>, node: FileTreeNode, currentDepth: nat, s: NavSettings)
    requires SortsByPermutation(s.sort)
    requires node in nodes && node.Directory?
    requires |node.children| > 0 && |NavItems(node.children, currentDepth + 1, s)| > 0
    ensures NavEntry(nodes, node, currentDepth, s)
            == [NavGroup(DirectoryText(node, s.onDirectory), NavItems(node.children, currentDepth + 1, s))]
  {
  }

  lemma EntryIsDirectoryLink(nodes: seq<FileTreeNode>, node: FileTreeNode, currentDepth: nat, s: NavSettings)
    requires SortsByPermutation(s.sort)
    requires node in nodes && node.Directory?
    requires |node.children| == 0 || |NavItems(node.children, currentDepth + 1, s)| == 0
    ensures NavEntry(nodes, node, currentDepth, s)
            == [NavLink(DirectoryText(node, s.onDirectory), DirectoryLink(node, currentDepth, s.maxDepth))]
  {
  }

  lemma EntryIsPage(nodes: seq<FileTreeNode>, node: FileTreeNode, currentDepth: nat, s: NavSettings)
    requires SortsByPermutation(s.sort)
    requires node in nodes && node.File? && node.fileInfo.Some? && !IsExcludedRootIndex(node, currentDepth, s)
    ensures NavEntry(nodes, node, currentDepth, s)
            == [NavLink(FileText(node, s.onFile, s.fs), RelativePathToLink(node.relativePath, false))]
  {
  }

  lemma EntryIsDropped(nodes: seq<FileTreeNode>, node: FileTreeNode, currentDepth: nat, s: NavSettings)
    requires SortsByPermutation(s.sort)
    requires node in nodes && node.File? && (node.fileInfo.None? || IsExcludedRootIndex(node, currentDepth, s))
    ensures NavEntry(nodes, node, currentDepth, s) == []
  {
  }

  /** The link branch of `buildNavItems`, searching with `findIndexFile` and `findFirstFile`. */
  method ChooseDirectoryLink(node: FileTreeNode, currentDepth: nat, maxDepth: Option<int>) returns (link: string)
    requires node.Directory?
    ensures link == DirectoryLink(node, currentDepth, maxDepth)
  {
    var isDepthLimited := maxDepth.Some? && currentDepth + 1 >= maxDepth.value;
    if isDepthLimited && |node.children| > 0 {
      var indexFile := FindIndexFile(node);
      if indexFile.Some? {
        link := RelativePathToLink(indexFile.value.relativePath, false);
      } else {
        var firstFile := FindFirstFile(node);
        if firstFile.Some? {
          link := RelativePathToLink(firstFile.value.relativePath, false);
        } else {
          link := RelativePathToLink(node.relativePath, true);
        }
      }
    } else {
      var indexFile := FindIndexFile(node);
      link := if indexFile.Some? then RelativePathToLink(indexFile.value.relativePath, false)
              else RelativePathToLink(node.relativePath, true);
    }
  }

  /** `generateNav`: the items of the whole tree from depth 0. */
  method GenerateNav(tree: seq<FileTreeNode>, options: Options, fs: FileSystem) returns (nav: seq<NavItem>)
    requires SortsByPermutation(options.sort)
    ensures nav == NavItems(tree, 0, NavSettingsOf(options, fs))
    ensures options.nav.depth.Some? && options.nav.depth.value <= 0 ==> nav == []
    ensures NavWellFormed(nav, options.nav.depth)
  {
    var s := NavSettingsOf(options, fs);
    nav := BuildNavItems(tree, 0, s);
    NavItemsWellFormed(tree, 0, s);
  }

  // ---------------------------------------------------------------------
  // What the items look like
  // ---------------------------------------------------------------------

  /**
   * Items that fit in `levels` nesting levels (`None`: any number), whose
   * links start with `/` and whose dropdowns are never empty. A dropdown
   * has no link and a link no items, by the shape of `NavItem`.
   */
  predicate NavWellFormed(items: seq<NavItem>, levels: Option<int>)
    decreases items, 1
  {
    forall i :: 0 <= i < |items| ==> ItemWellFormed(items[i], levels)
  }

  predicate ItemWellFormed(item: NavItem, levels: Option<int>)
    decreases item, 0
  {
    && (levels.Some? ==> levels.value >= 1)
    && match item
       case NavLink(_, link) => StartsWith(link, "/")
       case NavGroup(_, items) => |items| > 0 && NavWellFormed(items, Fewer(levels))
  }

  /** One nesting level fewer. */
  function Fewer(levels: Option<int>): Option<int>
  {
    if levels.Some? then Some(levels.value - 1) else None
  }

  /** The levels left below `currentDepth` under the bound `maxDepth`. */
  function LevelsLeft(maxDepth: Option<int>, currentDepth: nat): Option<int>
  {
    if maxDepth.Some? then Some(maxDepth.value - currentDepth) else None
  }

  lemma WellFormedAppend(a: seq<NavItem>, b: seq<NavItem>, levels: Option<int>)
    requires NavWellFormed(a, levels) && NavWellFormed(b, levels)
    ensures NavWellFormed(a + b, levels)
  {
    forall i | 0 <= i < |a + b|
      ensures ItemWellFormed((a + b)[i], levels)
    {
      if i < |a| {
        assert (a + b)[i] == a[i];
      } else {
        assert (a + b)[i] == b[i - |a|];
      }
    }
  }

  /**
   * The items of any nodes nest no deeper than the depth bound allows,
   * every link starts with `/`, and no dropdown is empty.
   */
  lemma {:induction false} NavItemsWellFormed(nodes: seq<FileTreeNode>, currentDepth: nat, s: NavSettings)
    requires SortsByPermutation(s.sort)
    ensures NavWellFormed(NavItems(nodes, currentDepth, s), LevelsLeft(s.maxDepth, currentDepth))
    decreases nodes, 2
  {
    if !(s.maxDepth.Some? && currentDepth >= s.maxDepth.value) {
      var sorted := s.sort(nodes);
      PermutedMembers(nodes, sorted);
      NavListWellFormed(nodes, sorted, currentDepth, s);
    }
  }

  lemma {:induction false} NavListWellFormed(nodes: seq<FileTreeNode>, sorted: seq<FileTreeNode>, currentDepth: nat, s: NavSettings)
    requires SortsByPermutation(s.sort)
    requires forall i :: 0 <= i < |sorted| ==> sorted[i] in nodes
    requires s.maxDepth.Some? ==> currentDepth < s.maxDepth.value
    ensures NavWellFormed(NavList(nodes, sorted, currentDepth, s), LevelsLeft(s.maxDepth, currentDepth))
    decreases nodes, 1, |sorted|
  {
    if sorted != [] {
      var init := sorted[..|sorted| - 1];
      NavListWellFormed(nodes, init, currentDepth, s);
      NavEntryWellFormed(nodes, sorted[|sorted| - 1], currentDepth, s);
      WellFormedAppend(NavList(nodes, init, currentDepth, s), NavEntry(nodes, sorted[|sorted| - 1], currentDepth, s),
                       LevelsLeft(s.maxDepth, currentDepth));
    }
  }

  lemma {:induction false} NavEntryWellFormed(nodes: seq<FileTreeNode>, node: FileTreeNode, currentDepth: nat, s: NavSettings)
    requires SortsByPermutation(s.sort)
    requires node in nodes
    requires s.maxDepth.Some? ==> currentDepth < s.maxDepth.value
    ensures NavWellFormed(NavEntry(nodes, node, currentDepth, s), LevelsLeft(s.maxDepth, currentDepth))
    decreases nodes, 0
  {
    if node.Directory? && |node.children| > 0 {
      NavItemsWellFormed(node.children, currentDepth + 1, s);
      assert Fewer(LevelsLeft(s.maxDepth, currentDepth)) == LevelsLeft(s.maxDepth, currentDepth + 1);
    }
  }

  // ---------------------------------------------------------------------
  // One item per node, and the links of directories
  // ---------------------------------------------------------------------

  /**
   * A directory always yields exactly one item: a dropdown of its children's
   * items, named by its text, when they yield any, and otherwise a link.
   */
  lemma NavEntryOfDirectory(nodes: seq<FileTreeNode>, node: FileTreeNode, currentDepth: nat, s: NavSettings)
    requires SortsByPermutation(s.sort)
    requires node in nodes && node.Directory?
    ensures |NavEntry(nodes, node, currentDepth, s)| == 1
    ensures var item := NavEntry(nodes, node, currentDepth, s)[0];
            && item.text == DirectoryText(node, s.onDirectory)
            && (item.NavGroup? <==> node.children != [] && NavItems(node.children, currentDepth + 1, s) != [])
            && (item.NavGroup? ==> item.items == NavItems(node.children, currentDepth + 1, s))
            && (item.NavLink? ==> item.link == DirectoryLink(node, currentDepth, s.maxDepth))
  {
  }

  /**
   * A file yields nothing when it carries no file information or is the
   * root `index.md` dropped by `excludeRootIndex`, and otherwise exactly one
   * link to its page, shown with its file text.
   */
  lemma NavEntryOfFile(nodes: seq<FileTreeNode>, node: FileTreeNode, currentDepth: nat, s: NavSettings)
    requires SortsByPermutation(s.sort)
    requires node in nodes && node.File?
    ensures NavEntry(nodes, node, currentDepth, s) == [] <==>
              node.fileInfo.None? || (s.excludeRootIndex && currentDepth == 0 && node.name == "index.md")
    ensures NavEntry(nodes, node, currentDepth, s) != [] ==>
              NavEntry(nodes, node, currentDepth, s)
              == [NavLink(FileText(node, s.onFile, s.fs), RelativePathToLink(node.relativePath, false))]
  {
  }

  /** A node that yields an item: a directory, or a file with information that is not dropped. */
  predicate Yields(node: FileTreeNode, currentDepth: nat, s: NavSettings)
  {
    node.Directory? || (node.fileInfo.Some? && !IsExcludedRootIndex(node, currentDepth, s))
  }

  lemma {:induction false} NavListCount(nodes: seq<FileTreeNode>, sorted: seq<FileTreeNode>, currentDepth: nat, s: NavSettings)
    requires SortsByPermutation(s.sort)
    requires forall i :: 0 <= i < |sorted| ==> sorted[i] in nodes
    requires forall i :: 0 <= i < |sorted| ==> Yields(sorted[i], currentDepth, s)
    ensures |NavList(nodes, sorted, currentDepth, s)| == |sorted|
    decreases |sorted|
  {
    if sorted != [] {
      NavListCount(nodes, sorted[..|sorted| - 1], currentDepth, s);
    }
  }

  /**
   * Above the depth bound, nodes that all yield an item give exactly one
   * item each: the sort neither adds nor loses nodes.
   */
  lemma NavOneItemPerNode(nodes: seq<FileTreeNode>, currentDepth: nat, s: NavSettings)
    requires SortsByPermutation(s.sort)
    requires s.maxDepth.Some? ==> currentDepth < s.maxDepth.value
    requires forall i :: 0 <= i < |nodes| ==> Yields(nodes[i], currentDepth, s)
    ensures |NavItems(nodes, currentDepth, s)| == |nodes|
  {
    var sorted := s.sort(nodes);
    PermutedMembers(nodes, sorted);
    forall i | 0 <= i < |sorted|
      ensures Yields(sorted[i], currentDepth, s)
    {
      var j :| 0 <= j < |nodes| && nodes[j] == sorted[i];
    }
    NavListCount(nodes, sorted, currentDepth, s);
    assert |multiset(sorted)| == |multiset(nodes)|;
  }

  /**
   * In a scanned tree every node yields an item, except a root `index.md`
   * dropped by `excludeRootIndex`: every file carries its information.
   */
  lemma ShapedNodesYield(nodes: seq<FileTreeNode>, level: nat, currentDepth: nat, s: NavSettings)
    requires Shaped(nodes, level)
    requires currentDepth > 0 || !s.excludeRootIndex
    ensures forall i :: 0 <= i < |nodes| ==> Yields(nodes[i], currentDepth, s)
  {
    forall i | 0 <= i < |nodes|
      ensures Yields(nodes[i], currentDepth, s)
    {
      assert NodeShaped(nodes[i], level);
    }
  }

  /**
   * Cut off by the depth bound with children, a directory links to its
   * `index.md` child, else to the first file below it in pre-order, else to
   * itself.
   */
  lemma DepthLimitedLink(node: FileTreeNode, currentDepth: nat, maxDepth: Option<int>)
    requires node.Directory? && |node.children| > 0
    requires maxDepth.Some? && currentDepth + 1 >= maxDepth.value
    ensures FindIndexFile(node).Some? ==>
              DirectoryLink(node, currentDepth, maxDepth) == RelativePathToLink(FindIndexFile(node).value.relativePath, false)
    ensures FindIndexFile(node).None? && FilesOf(node) != [] ==>
              DirectoryLink(node, currentDepth, maxDepth) == RelativePathToLink(FilesOf(node)[0].relativePath, false)
    ensures FindIndexFile(node).None? && FilesOf(node) == [] ==>
              DirectoryLink(node, currentDepth, maxDepth) == RelativePathToLink(node.relativePath, true)
  {
    FirstFileInPreOrder(node);
  }

  /**
   * Not cut off by the depth bound, or without children, a directory links
   * to its `index.md` child, else to itself; a childless one always to itself.
   */
  lemma UnlimitedLink(node: FileTreeNode, currentDepth: nat, maxDepth: Option<int>)
    requires node.Directory?
    requires !(maxDepth.Some? && currentDepth + 1 >= maxDepth.value) || node.children == []
    ensures FindIndexFile(node).Some? ==>
              DirectoryLink(node, currentDepth, maxDepth) == RelativePathToLink(FindIndexFile(node).value.relativePath, false)
    ensures FindIndexFile(node).None? ==>
              DirectoryLink(node, currentDepth, maxDepth) == RelativePathToLink(node.relativePath, true)
    ensures node.children == [] ==> DirectoryLink(node, currentDepth, maxDepth) == RelativePathToLink(node.relativePath, true)
  {
  }

  /**
   * In a scanned tree a directory cut off by the depth bound never falls
   * back to its own link: it holds a file below it, so the link goes to its
   * `index.md` child or to its first file in pre-order.
   */
  lemma ShapedDepthLimitedLink(node: FileTreeNode, level: nat, currentDepth: nat, maxDepth: Option<int>)
    requires NodeShaped(node, level) && node.Directory?
    requires maxDepth.Some? && currentDepth + 1 >= maxDepth.value
    ensures DirectoryLink(node, currentDepth, maxDepth)
            == if FindIndexFile(node).Some? then RelativePathToLink(FindIndexFile(node).value.relativePath, false)
               else RelativePathToLink(FilesOf(node)[0].relativePath, false)
  {
    assert AllFiles(node.children) != [];
    DepthLimitedLink(node, currentDepth, maxDepth);
  }
}
