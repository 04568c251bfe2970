# vitepress-gen-navs, modelled in Dafny

`vitepress-gen-navs` scans a directory of Markdown files and generates the
VitePress configuration for a site's top navigation (`NavItem[]`) and its
sidebar (`Record<string, SidebarItem[]>`). This project models the in-memory
engine behind it and proves what that engine guarantees:

- **the tree builder** (`buildFileTree`): a list of file paths becomes a forest
  of directory and file nodes. It is modelled imperatively: a directory map
  keyed by path segments, filled and linked in three passes. The proofs show:
  - one directory object exists per distinct proper path prefix;
  - every file appears in the tree exactly as often as it is listed;
  - depths count the levels from the root;
  - files come before directories in every list;
  - no directory is without a file below it.
- **link and path helpers** (`normalizePath`, `pathToLink`, `shouldInclude`,
  `removeSortPrefix`, `relativePathToLink`, `shouldIncludeByDepth`): string
  rewrites with their pre- and postconditions.
- **title extraction** (`extractTitle`, `buildFileInfo`): a front-matter title
  wins over the first level-one heading, which wins over the file name.
- **the top navigation** (`generateNav`, `buildNavItems`, `findFirstFile`,
  `findIndexFile`): a depth-bounded fold over the tree. A directory becomes a
  dropdown when its children yield items, and otherwise a link. That link
  falls back from the `index.md` child to the first file in pre-order, and
  then to the directory itself.
- **the sidebar** (`generateSidebar`, `generateSidebarItems`): one key per
  top-level directory, a recursive expansion filtered by each node's stored
  depth, empty groups dropped, and the `collapsed` flag set on groups only.

Modules:

- `Wrappers`: `Option`.
- `Strings`: the JavaScript string operations used (`startsWith`, `endsWith`,
  `trim`, `join`).
- `PosixPath`: `basename` and `extname` with `/` as separator.
- `Types`: the records of `src/types.ts`.
- `Utils`.
- `Extractor`.
- `Labels`: the hook-or-default display texts shared by both generators.
- `Scanner`, with the tree proofs in `FileTreeProofs`.
- `NavGenerator`.
- `SidebarGenerator`.

Both generators are written as methods with the source's loops, including
`continue` and early returns. Each is proved equal to a recursive
specification function (`NavItems`, `SidebarItems`, `SidebarOf`,
`FirstFile`, `FileTree`), and the lemmas state the promised properties about
those functions.

Abstract inputs:

- **`sortItems`**: a function parameter. All that is assumed is that it
  returns a permutation of its input (`SortsByPermutation`).
- **Glob matching (`minimatch`)**: a parameter `matches(path, pattern)`.
- **Reading a file and splitting its front matter**: a `FileSystem` function.
  It gives either `Unreadable`, or the front matter plus the raw text the
  heading pattern captured.
- **`path.sep`**: the parameter `sep`. A value of `path.relative` is given by
  the caller.
- **Hooks**: optional functions returning `Option<string>`, with `None`
  standing for `null`.

## Model

| member | source | states |
|---|---|---|
| Utils.NormalizePath | src/utils.ts:7-9 | The result is as long as the input; every separator becomes `/` and every other character stays in place |
| Utils.NormalizePathIdempotent | src/utils.ts:7-9 | Normalising twice gives what normalising once gives |
| Utils.NormalizePathLeavesNoSeparator | src/utils.ts:7-9 | When the separator is not `/`, none is left in the result |
| Utils.LinkBase | src/utils.ts:19-32 | After dropping `.md` and `/index`, the link always starts with `/` |
| Utils.LinkOfPage | src/utils.ts:19-22 | A page `p.md` (not an index page) links to `p`, rooted |
| Utils.LinkOfIndexPage | src/utils.ts:19-27 | `d/index.md` links to its directory `d`, rooted: one `.md` and then one `/index` are dropped |
| Utils.LinkOfIndexPath | src/utils.ts:24-32 | A path ending in `/index` without `.md` loses the `/index`: `docs/index` links to `/docs` |
| Utils.LinkOfPlainPath | src/utils.ts:29-32 | A path with neither suffix is only given a leading `/` |
| Utils.PathToLink | src/utils.ts:16-40 | The link starts with `/`. With a file extension it is the rewritten normalised relative path. Without one it ends in `/`. A `/` is appended exactly when the path has no extension and the rewritten link does not already end in `/` |
| Utils.ShouldInclude | src/utils.ts:48-65 | A matching exclude pattern gives false whatever the includes. Otherwise, with includes the result is true iff some include pattern matches; without them it is true. Matching is on the normalised path |
| Utils.SortPrefixLength | src/utils.ts:81 | The prefix match is empty exactly when the name does not start with a digit, and never longer than the name |
| Utils.RemoveSortPrefix | src/utils.ts:80-84 | The result has no whitespace at either end |
| Utils.RemoveSortPrefixIsSubstring | src/utils.ts:80-84 | The result is a substring of the name |
| Utils.RemoveSortPrefixWithoutDigit | src/utils.ts:81-82 | A name not starting with a digit is only trimmed |
| Utils.RemoveSortPrefixOfNumberedTitle | src/utils.ts:67-84 | A digit run, then any separator run (`.`, `_`, `-`, `、`, whitespace), then a title gives exactly the title (end-trimmed): `01.Intro`, `2-Intro`, `3_Intro`, `4、Intro`, `5  Intro` all give `Intro` |
| Utils.RunEndIsLongestRun | src/utils.ts:81 | The greedy run that the prefix pattern matches is the unique longest one |
| Extractor.FirstHeadingIsTrimmed | src/extractor.ts:22-33 | A heading exists iff the file was read and the pattern matched. It is then a substring of the capture with no whitespace at either end |
| Extractor.FileInfoFields | src/extractor.ts:61-74 | The name is the basename without its extension; path, relative path and depth pass through; an unreadable file gives `{}` front matter and no heading |
| Extractor.TitleFromFrontmatter | src/extractor.ts:39-45 | A truthy front-matter `title` is the title |
| Extractor.TitleFromHeading | src/extractor.ts:47-51 | Without a truthy title, a non-empty trimmed heading is the title |
| Extractor.TitleFromFileName | src/extractor.ts:53-55 | With no truthy title and no non-empty heading, including when the read fails, the title is the basename without its extension |
| Extractor.TitleNotEmpty | src/extractor.ts:39-56 | The title is empty only if the basename without extension is |
| Extractor.TitleOfFileInfo | src/extractor.ts:61-74 | The title can be recomputed from the file information built for the same file |
| Scanner.RelativePathToLink | src/scanner.ts:144-168 | The link starts with `/`. A file link is the path with `.md` and then `/index` dropped and rooted. A directory link longer than `/` ends in `/`. A `/` is appended exactly when the link is a directory's, longer than `/` and not already ending in `/` |
| Scanner.TopLevelIndexLink | src/scanner.ts:148-160 | A top-level `index.md` links to `/index`, not `/` |
| Scanner.NestedIndexLink | src/scanner.ts:148-160 | `d/index.md` links to `d`, rooted |
| Scanner.PageLink | src/scanner.ts:148-150 | `p.md` links to `p`, rooted |
| Scanner.EmptyPathLink | src/scanner.ts:157-165 | The empty path links to `/`, as a file or as a directory |
| Scanner.DepthBoundAdmits | src/scanner.ts:173-178 | Without a bound every node is admitted; a bound `d` admits exactly the nodes stored at depth below `d`, so a bound of at most 0 admits none |
| Scanner.DepthBoundMonotone | src/scanner.ts:173-178 | A node admitted under a bound is admitted under any larger bound and without a bound |
| Scanner.FileNodeOf | src/scanner.ts:82-96 | A file node is named by its last segment, has depth `parts.length - 1` and carries file information with the same depth |
| Scanner.NewDirEntry | src/scanner.ts:68-75 | A directory created for prefix index `i` has name `parts[i]`, depth `i` and no children |
| Scanner.CreateDirectories | src/scanner.ts:57-79 | The first pass creates one directory object per proper prefix, in first-reference order, exactly as `Created(DirOrder(files))` |
| Scanner.AttachFiles | src/scanner.ts:82-109 | The second pass appends every file to its parent's children, or to the root list when it has one segment |
| Scanner.AttachDirectories | src/scanner.ts:112-126 | The third pass walks the map in insertion order and appends every directory to its parent, or to the root list when it has one segment |
| Scanner.PassesGiveSpecArena | src/scanner.ts:52-129 | After the three passes, every directory holds its files in input order and then its subdirectories in first-reference order |
| Scanner.BuildFileTree | src/scanner.ts:52-129 | The returned forest is the root list of that final map, read through shared references (`FileTree`) |
| FileTreeProofs.DirOrderDistinct | src/scanner.ts:62-78 | No directory is created twice, however many files share its prefix |
| FileTreeProofs.PrefixInDirOrder | src/scanner.ts:62-78 | Every nonempty proper prefix of every file gets a directory |
| FileTreeProofs.DirOrderHasFile | src/scanner.ts:57-79 | Every directory is a proper prefix of some file |
| FileTreeProofs.ChildKeysOf | src/scanner.ts:98-126 | Read out of the final map, the children of the root or of any directory stand for exactly the files below it, each once |
| FileTreeProofs.FileTreeFiles | src/scanner.ts:82-109 | Collecting the file nodes of the tree gives back the input files' nodes as a multiset: no file is lost or duplicated |
| FileTreeProofs.FileTreeShaped | src/scanner.ts:52-129 | The tree is shaped from depth 0 (`Shaped`). Every node's depth is its level, so a child's depth is its parent's plus one. Every file carries its information, every directory has a file below it, and files precede directories in every list |
| Labels.PreferSpecific | src/navGenerator.ts:12-13 | A surface-specific hook wins; the global one is used only when the specific one is absent |
| Labels.DirectoryTextRule | src/navGenerator.ts:82-88 | A directory shows its name when there is no hook or the hook returns `null`, and otherwise the hook's text |
| Labels.FileTextRule | src/navGenerator.ts:151-157 | A file shows its extracted title when there is no hook or the hook returns `null`, and otherwise the hook's text |
| NavGenerator.FindIndexFileFirst | src/navGenerator.ts:42-48 | There is no index file iff the node is a file or no direct child is a file named `index.md`; otherwise it is the first such child |
| NavGenerator.FirstFileInPreOrder | src/navGenerator.ts:22-37 | The search finds nothing iff the subtree holds no file, and otherwise its first file in pre-order |
| NavGenerator.FindFirstFile | src/navGenerator.ts:22-37 | The loop with early return computes `FirstFile` |
| NavGenerator.ChooseDirectoryLink | src/navGenerator.ts:113-137 | The link branch computes `DirectoryLink` |
| NavGenerator.DirectoryItem | src/navGenerator.ts:73-143 | The directory branch pushes the one item `NavEntry` specifies |
| NavGenerator.BuildNavItems | src/navGenerator.ts:53-170 | The loop over the sorted nodes computes `NavItems`: empty at or beyond the depth bound, otherwise the entries of the sorted nodes in order |
| NavGenerator.GenerateNav | src/navGenerator.ts:9-17 | The nav is `NavItems` of the tree from depth 0 with the nav hooks preferred. `nav.depth <= 0` gives `[]`. The result is well formed: links start with `/`, dropdowns are nonempty and nest no deeper than `nav.depth` |
| NavGenerator.NavItemsWellFormed | src/navGenerator.ts:53-170 | From any depth, links start with `/`, no dropdown is empty, and nesting stays within the levels the depth bound leaves |
| NavGenerator.NavEntryOfDirectory | src/navGenerator.ts:91-143 | A directory yields exactly one item with its text. It is a dropdown iff it has children and they yield items, and the dropdown holds those items. Otherwise it is a link to `DirectoryLink` |
| NavGenerator.NavEntryOfFile | src/navGenerator.ts:144-166 | A file yields nothing iff it lacks information or is the root `index.md` dropped by `excludeRootIndex`. Otherwise it yields exactly one link: its text and `relativePathToLink(relativePath, false)` |
| NavGenerator.NavOneItemPerNode | src/navGenerator.ts:67-72 | Above the depth bound, nodes that each yield an item give exactly one item per node: the sort neither adds nor loses nodes |
| NavGenerator.DepthLimitedLink | src/navGenerator.ts:113-130 | Cut off by the depth bound with children, a directory links to its `index.md` child, else to its first file in pre-order, else to itself |
| NavGenerator.UnlimitedLink | src/navGenerator.ts:131-137 | Not cut off, or childless, a directory links to its `index.md` child, else to itself |
| NavGenerator.ShapedDepthLimitedLink | src/navGenerator.ts:116-130 | In a scanned tree the last fallback (the directory's own link) is unreachable when the depth bound cuts off |
| SidebarGenerator.GenerateSidebarItems | src/sidebarGenerator.ts:32-104 | The loop over the sorted nodes computes `SidebarItems`, which depends only on the nodes' stored depths and not on `currentDepth` |
| SidebarGenerator.GenerateSidebar | src/sidebarGenerator.ts:9-27 | The loop over the depth-0 directories of the root list computes `SidebarOf` |
| SidebarGenerator.SidebarItemsWellFormed | src/sidebarGenerator.ts:68-99 | Every link starts with `/`. Every group is nonempty and carries exactly the configured `collapsed` flag (none when unset), at every level |
| SidebarGenerator.SidebarEntryOfDirectory | src/sidebarGenerator.ts:46-82 | A directory yields nothing iff its stored depth is at or beyond the bound or its children yield nothing. Otherwise it yields exactly one group with its text, its children's items and the `collapsed` flag; it is never a link |
| SidebarGenerator.SidebarEntryOfFile | src/sidebarGenerator.ts:83-100 | A file yields nothing iff its stored depth is at or beyond the bound or it lacks information. Otherwise it yields exactly one link to `relativePathToLink(relativePath, false)` |
| SidebarGenerator.SidebarOfOne | src/sidebarGenerator.ts:19 | The items built from `[dirNode]` are that directory's own entry |
| SidebarGenerator.SidebarItemsSkipped | src/sidebarGenerator.ts:44-48 | Nodes all beyond the depth bound yield no items |
| SidebarGenerator.FirstLevelDirsFilter | src/sidebarGenerator.ts:14 | The filter keeps exactly the depth-0 directories of the root list |
| SidebarGenerator.SidebarOfKeys | src/sidebarGenerator.ts:16-24 | A key is present iff some visited directory has that link and nonempty items; its value is such a directory's items |
| SidebarGenerator.SidebarKeysOfTree | src/sidebarGenerator.ts:14-24 | The keys are the directory links of the depth-0 directories whose items are nonempty; top-level files give no key |
| SidebarGenerator.SidebarValuesOfTree | src/sidebarGenerator.ts:16-23 | Each value is a one-element list: the group of a depth-0 directory with that key, holding its nonempty child items. No empty array is stored |
| SidebarGenerator.ShallowSidebar | src/sidebarGenerator.ts:46-48 | For a scanned tree, `sidebar.depth <= 1` gives an empty sidebar, because the test reads stored depths |

## Left out

- `scanDirectory`, `getIndexFile`, `src/index.ts`: file-system I/O, `fast-glob`, `process.cwd()` and `path.resolve` are not modelled. The tree builder takes the scanned files as segment sequences.
- Reading files and the `gray-matter` parse: a `FileSystem` function returns the outcome. Front-matter values are modelled as strings; a non-string truthy `title` is not modelled.
- The multiline heading pattern: the raw capture is an input. Only its trimming is modelled.
- `minimatch` glob semantics: an uninterpreted parameter.
- `sortItems` and its comparator: only "returns a permutation" is assumed. `asc`/`desc` ordering is not modelled.
- Platform path handling: `/` is the separator inside the tree builder. `path.relative`, `path.join` and `path.sep` are inputs or fixed. `Location.rootPrefix` stands for the base directory's path relative to the root directory.
- JavaScript `Map` insertion order is modelled as the `order` sequence beside the map. Object identity (a directory pushed to its parent before its own children are attached) is modelled by references into the map, read out at the end.
- Scanner.BuildFileTree: that every directory object is attached exactly once is proved at the level of the map (one reference per key, `ChildKeysOf` and `DirOrderDistinct`), not restated as a count over the returned forest.
- A hook that returns `undefined` instead of a string or `null`: the source would then show `undefined`. Hooks here return a string or nothing.
- `NormalizedGenNavsOptions` is not declared in the type file; the options are a plain record (`Types.Options`).
- `removeSortPrefix` (the `formatSortPrefix` option) is not applied by the generators in this code, so the model does not apply it either.
- Where the documented behaviour and the code differ, the model follows the code:
  - a nested index page gives `/guide`, not `/guide/`;
  - a top-level `index.md` gives `/index`;
  - the sidebar depth bound reads the stored node depth, so `sidebar.depth <= 1` gives no sidebar at all;
  - there is no nav-derived sidebar scoping;
  - the sidebar's `currentDepth` parameter is passed on but never read.
- Depth-bound monotonicity of the produced links is not stated.
- SidebarGenerator.SidebarOf: the sidebar record is a `map`, so the insertion order of the JavaScript object's keys (the order of the top-level directories) is not modelled; keys, values and which keys are omitted are.
- NavGenerator.DirectoryItem and NavGenerator.ChooseDirectoryLink are the directory branch of `buildNavItems` and its link choice, written as methods of their own; the source writes them inline in the loop body.
