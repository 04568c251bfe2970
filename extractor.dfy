/**
 * Title extraction for Markdown files. Reading a file and splitting off its
 * YAML front matter are not modelled: their outcome is an abstract `Content`,
 * and the file system is a function from paths to such outcomes.
 */
module Extractor {
  import opened Wrappers
  import opened Strings
  import opened PosixPath
  import opened Types

  /**
   * The outcome of reading a file and parsing it: `Unreadable` when reading
   * or parsing throws; otherwise the front matter and the raw text captured
   * by the first-level-heading pattern in the body, if it matched.
   */
  datatype Content =
    | Unreadable
    | Parsed(frontmatter: map<string, string>, headingCapture: Option<string>)

  type FileSystem = string -> Content

  /** `extractFrontmatter`: a failed read or parse yields the empty object. */
  function ExtractFrontmatter(c: Content): map<string, string>
  {
    match c
    case Unreadable => map[]
    case Parsed(frontmatter, _) => frontmatter
  }

  /** `extractFirstHeading`: the captured heading text, trimmed. */
  function ExtractFirstHeading(c: Content): Option<string>
  {
    match c
    case Unreadable => None
    case Parsed(_, capture) => if capture.Some? then Some(Trim(capture.value)) else None
  }

  /**
   * A heading exists exactly when the file was read and the pattern
   * matched; it is a piece of the captured text with no whitespace at
   * either end.
   */
  lemma FirstHeadingIsTrimmed(c: Content)
    ensures ExtractFirstHeading(c).Some? <==> c.Parsed? && c.headingCapture.Some?
    ensures var heading := ExtractFirstHeading(c);
            heading.Some? ==> IsSubstring(heading.value, c.headingCapture.value)
    ensures var heading := ExtractFirstHeading(c);
            heading.Some? && heading.value != [] ==>
              !IsWhitespace(heading.value[0]) && !IsWhitespace(heading.value[|heading.value| - 1])
  {
    if c.Parsed? && c.headingCapture.Some? {
      var t := Trim(c.headingCapture.value);
      assert ExtractFirstHeading(c) == Some(t);
    }
  }

  /** A front matter whose `title` is truthy, that is, present and not empty. */
  predicate HasTitle(frontmatter: map<string, string>)
  {
    "title" in frontmatter && frontmatter["title"] != ""
  }

  /** A heading that is truthy: present and not empty. */
  predicate IsTruthy(heading: Option<string>)
  {
    heading.Some? && heading.value != ""
  }

  /**
   * The title precedence: a truthy front-matter title, then a truthy first
   * heading, then the file name without its extension.
   */
  function TitleFrom(frontmatter: map<string, string>, heading: Option<string>, fileName: string): string
  {
    if HasTitle(frontmatter) then frontmatter["title"]
    else if IsTruthy(heading) then heading.value
    else fileName
  }

  /** `extractTitle(filePath)`, reading the file through `fs`. */
  function ExtractTitle(filePath: string, fs: FileSystem): string
  {
    var c := fs(filePath);
    TitleFrom(ExtractFrontmatter(c), ExtractFirstHeading(c), BaseNameWithoutExt(filePath))
  }

  /** `buildFileInfo(filePath, baseDir, depth)`, with `relativePath` standing for `path.relative(baseDir, filePath)`. */
  function BuildFileInfo(filePath: string, relativePath: string, fs: FileSystem, depth: nat): FileInfo
  {
    var c := fs(filePath);
    FileInfo(BaseNameWithoutExt(filePath), filePath, relativePath,
             ExtractFrontmatter(c), ExtractFirstHeading(c), depth)
  }

  /**
   * The file information names the file by its basename without extension,
   * passes the path, relative path and depth through, and holds no front
   * matter and no heading for an unreadable file.
   */
  lemma FileInfoFields(filePath: string, relativePath: string, fs: FileSystem, depth: nat)
    ensures var info := BuildFileInfo(filePath, relativePath, fs, depth);
            && info.name + ExtName(filePath) == BaseName(filePath)
            && info.path == filePath && info.relativePath == relativePath && info.depth == depth
            && (fs(filePath).Unreadable? ==> info.frontmatter == map[] && info.firstHeading.None?)
  {
  }

  /** A truthy front-matter title wins over everything else. */
  lemma TitleFromFrontmatter(filePath: string, fs: FileSystem)
    requires fs(filePath).Parsed? && HasTitle(fs(filePath).frontmatter)
    ensures ExtractTitle(filePath, fs) == fs(filePath).frontmatter["title"]
  {
  }

  /**
   * Without a truthy title, a heading whose trimmed text is not empty is the
   * title, trimmed.
   */
  lemma TitleFromHeading(filePath: string, fs: FileSystem, capture: string)
    requires fs(filePath).Parsed? && !HasTitle(fs(filePath).frontmatter)
    requires fs(filePath).headingCapture == Some(capture) && Trim(capture) != ""
    ensures ExtractTitle(filePath, fs) == Trim(capture)
  {
  }

  /**
   * The file name is used exactly when neither a truthy title nor a non-empty
   * trimmed heading exists; in particular for an unreadable file.
   */
  lemma TitleFromFileName(filePath: string, fs: FileSystem)
    requires fs(filePath).Unreadable? ||
             (!HasTitle(fs(filePath).frontmatter) &&
              (fs(filePath).headingCapture.None? || Trim(fs(filePath).headingCapture.value) == ""))
    ensures ExtractTitle(filePath, fs) == BaseNameWithoutExt(filePath)
  {
  }

  /** An empty title only arises from a file name that is empty without its extension. */
  lemma TitleNotEmpty(filePath: string, fs: FileSystem)
    requires BaseNameWithoutExt(filePath) != ""
    ensures ExtractTitle(filePath, fs) != ""
  {
  }

  /** The title of a file can be recomputed from the file information built for it. */
  lemma TitleOfFileInfo(filePath: string, relativePath: string, fs: FileSystem, depth: nat)
    ensures var info := BuildFileInfo(filePath, relativePath, fs, depth);
            TitleFrom(info.frontmatter, info.firstHeading, info.name) == ExtractTitle(filePath, fs)
  {
  }
}
