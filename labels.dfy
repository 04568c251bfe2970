/**
 * The display texts both generators give to tree nodes: a directory is
 * shown by its name and a file by its extracted title, unless a hook
 * returns a text of its own. A generator-specific hook replaces the global
 * one when it is set.
 */
module Labels {
  import opened Wrappers
  import opened Types
  import opened Extractor

  /** `config.onDirectory || options.onDirectory`: the specific hook when it is set. */
  function Prefer<H>(specific: Option<H>, global: Option<H>): Option<H>
  {
    if specific.Some? then specific else global
  }

  /** The specific hook wins; the global one is used only in its absence. */
  lemma PreferSpecific<H>(specific: Option<H>, global: Option<H>)
    ensures specific.Some? ==> Prefer(specific, global) == specific
    ensures specific.None? ==> Prefer(specific, global) == global
    ensures Prefer(specific, global).None? <==> specific.None? && global.None?
  {
  }

  /** What the hook `hook` returns for `arg`; `None` when there is no hook or it returns `null`. */
  function Custom<A>(hook: Option<A -> Option<string>>, arg: A): Option<string>
  {
    if hook.Some? then hook.value(arg) else None
  }

  /** The text of a directory node: the hook's text, or else the directory name. */
  function DirectoryText(node: FileTreeNode, hook: Option<DirectoryHook>): (text: string)
  {
    var custom := Custom(hook, DirInfoOf(node));
    if custom.Some? then custom.value else node.name
  }

  /**
   * The text of a file node that carries its information: the hook's text,
   * or else the title extracted from the file.
   */
  function FileText(node: FileTreeNode, hook: Option<FileHook>, fs: FileSystem): (text: string)
    requires node.File? && node.fileInfo.Some?
  {
    var title := ExtractTitle(node.path, fs);
    var custom := Custom(hook, node.fileInfo.value);
    if custom.Some? then custom.value else title
  }

  /**
   * A directory keeps its name exactly when no hook is set or the hook
   * returns `null`; otherwise it shows what the hook returns, which is
   * told the directory's name, path, relative path and depth.
   */
  lemma DirectoryTextRule(node: FileTreeNode, hook: Option<DirectoryHook>)
    ensures hook.None? ==> DirectoryText(node, hook) == node.name
    ensures hook.Some? && hook.value(DirInfo(node.name, node.path, node.relativePath, node.depth)).None? ==>
              DirectoryText(node, hook) == node.name
    ensures hook.Some? && hook.value(DirInfo(node.name, node.path, node.relativePath, node.depth)).Some? ==>
              DirectoryText(node, hook) == hook.value(DirInfo(node.name, node.path, node.relativePath, node.depth)).value
  {
  }

  /**
   * A file shows its extracted title exactly when no hook is set or the
   * hook returns `null` for its file information; otherwise the hook's text.
   */
  lemma FileTextRule(node: FileTreeNode, hook: Option<FileHook>, fs: FileSystem)
    requires node.File? && node.fileInfo.Some?
    ensures hook.None? ==> FileText(node, hook, fs) == ExtractTitle(node.path, fs)
    ensures hook.Some? && hook.value(node.fileInfo.value).None? ==> FileText(node, hook, fs) == ExtractTitle(node.path, fs)
    ensures hook.Some? && hook.value(node.fileInfo.value).Some? ==> FileText(node, hook, fs) == hook.value(node.fileInfo.value).value
  {
  }
}
