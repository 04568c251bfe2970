/**
 * The records the generator passes around: directory and file descriptions,
 * the scanned file tree, the VitePress navigation and sidebar items, and the
 * options that steer the generators.
 */
module Types {
  import opened Wrappers

  /** What a directory hook is told about a directory. */
  datatype DirInfo = DirInfo(name: string, path: string, relativePath: string, depth: nat)

  /**
   * What is known about a Markdown file. Front-matter values are modelled as
   * strings; `firstHeading` is `None` where the source leaves it undefined.
   */
  datatype FileInfo = FileInfo(
    name: string,
    path: string,
    relativePath: string,
    frontmatter: map<string, string>,
    firstHeading: Option<string>,
    depth: nat)

  /** A node of the scanned tree: a Markdown file or a directory with its children. */
  datatype FileTreeNode =
    | File(name: string, path: string, relativePath: string, depth: nat, fileInfo: Option<FileInfo>)
    | Directory(name: string, path: string, relativePath: string, depth: nat, children: seq<FileTreeNode>)

  /** A top-navigation entry: a link, or a dropdown holding further entries. */
  datatype NavItem =
    | NavLink(text: string, link: string)
    | NavGroup(text: string, items: seq<NavItem>)

  /** A sidebar entry: a link, or a group that may carry a `collapsed` flag. */
  datatype SidebarItem =
    | SidebarLink(text: string, link: string)
    | SidebarGroup(text: string, items: seq<SidebarItem>, collapsed: Option<bool>)

  /** A hook returning `None` keeps the default text (the source's `null`). */
  type DirectoryHook = DirInfo -> Option<string>
  type FileHook = FileInfo -> Option<string>

  /** Stands for `sortItems(nodes, options.sort, node => node.name)`. */
  type SortItems = seq<FileTreeNode> -> seq<FileTreeNode>

  /** The options specific to the top navigation. */
  datatype NavConfig = NavConfig(
    depth: Option<int>,
    onDirectory: Option<DirectoryHook>,
    onFile: Option<FileHook>)

  /** The options specific to the sidebar. */
  datatype SidebarConfig = SidebarConfig(
    depth: Option<int>,
    onDirectory: Option<DirectoryHook>,
    onFile: Option<FileHook>,
    collapsed: Option<bool>)

  /** The options both generators read, after normalisation. */
  datatype Options = Options(
    nav: NavConfig,
    sidebar: SidebarConfig,
    onDirectory: Option<DirectoryHook>,
    onFile: Option<FileHook>,
    sort: SortItems,
    excludeRootIndex: bool)

  /** Every ordering `sortItems` may choose returns the nodes it was given. */
  ghost predicate SortsByPermutation(sort: SortItems)
  {
    forall nodes :: multiset(sort(nodes)) == multiset(nodes)
  }

  /** Every node a sort returns is one of the nodes it was given. */
  lemma PermutedMembers(nodes: seq<FileTreeNode>, sorted: seq<FileTreeNode>)
    requires multiset(sorted) == multiset(nodes)
    ensures forall i :: 0 <= i < |sorted| ==> sorted[i] in nodes
  {
    forall i | 0 <= i < |sorted|
      ensures sorted[i] in nodes
    {
      assert sorted[i] in multiset(sorted);
    }
  }

  /** The file nodes of `nodes`, in pre-order. */
  function AllFiles(nodes: seq<FileTreeNode>): seq<FileTreeNode>
    decreases nodes, 1
  {
    if nodes == [] then []
    else AllFiles(nodes[..|nodes| - 1]) + FilesOf(nodes[|nodes| - 1])
  }

  /** The file nodes of the subtree rooted at `node`, in pre-order. */
  function FilesOf(node: FileTreeNode): seq<FileTreeNode>
    decreases node, 0
  {
    match node
    case File(_, _, _, _, _) => [node]
    case Directory(_, _, _, _, children) => AllFiles(children)
  }

  /** Collecting files distributes over concatenation. */
  lemma {:induction false} AllFilesAppend(a: seq<FileTreeNode>, b: seq<FileTreeNode>)
    ensures AllFiles(a + b) == AllFiles(a) + AllFiles(b)
    decreases |b|
  {
    if b == [] {
      assert a + b == a;
    } else {
      var b' := b[..|b| - 1];
      assert (a + b)[..|a + b| - 1] == a + b';
      AllFilesAppend(a, b');
    }
  }

  /** The files of the first node come first. */
  lemma AllFilesCons(n: FileTreeNode, rest: seq<FileTreeNode>)
    ensures AllFiles([n] + rest) == FilesOf(n) + AllFiles(rest)
  {
    AllFilesAppend([n], rest);
    assert [n][..0] == [];
  }

  /** The directory as the hooks see it. */
  function DirInfoOf(node: FileTreeNode): DirInfo
  {
    DirInfo(node.name, node.path, node.relativePath, node.depth)
  }

  /**
   * What a tree produced by the scan looks like, the nodes of `nodes` lying
   * `level` levels down: every node records its level as depth, every file
   * carries its file information, every directory holds a file somewhere
   * below it, and files come before directories.
   */
  predicate Shaped(nodes: seq<FileTreeNode>, level: nat)
    decreases nodes, 1
  {
    && (forall i :: 0 <= i < |nodes| ==> NodeShaped(nodes[i], level))
    && (forall i, j :: 0 <= i < j < |nodes| && nodes[i].Directory? ==> nodes[j].Directory?)
  }

  /** One node of a shaped tree. */
  predicate NodeShaped(node: FileTreeNode, level: nat)
    decreases node, 0
  {
    && node.depth == level
    && (node.File? ==> node.fileInfo.Some?)
    && (node.Directory? ==> FilesOf(node) != [] && Shaped(node.children, level + 1))
  }
}
