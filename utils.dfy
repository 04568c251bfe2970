/**
 * The path helpers of `src/utils.ts`: separator normalisation, link
 * derivation, include/exclude filtering and sort-prefix stripping.
 * Glob matching (`minimatch`) is a parameter `matches(path, pattern)`.
 */
module Utils {
  import opened Strings
  import opened PosixPath

  /** `filePath.split(sep).join('/')`: every separator becomes `/`. */
  function NormalizePath(filePath: string, sep: char): (r: string)
    ensures |r| == |filePath|
    ensures forall i :: 0 <= i < |filePath| ==> r[i] == if filePath[i] == sep then '/' else filePath[i]
  {
    if filePath == [] then []
    else
      var last := filePath[|filePath| - 1];
      NormalizePath(filePath[..|filePath| - 1], sep) + [if last == sep then '/' else last]
  }

  lemma NormalizePathIdempotent(filePath: string, sep: char)
    ensures NormalizePath(NormalizePath(filePath, sep), sep) == NormalizePath(filePath, sep)
  {
    var once := NormalizePath(filePath, sep);
    var twice := NormalizePath(once, sep);
    forall i | 0 <= i < |once|
      ensures twice[i] == once[i]
    {
      if filePath[i] == sep {
        assert once[i] == '/';
      }
    }
  }

  lemma NormalizePathLeavesNoSeparator(filePath: string, sep: char)
    requires sep != '/'
    ensures sep !in NormalizePath(filePath, sep)
  {
    var r := NormalizePath(filePath, sep);
    forall i | 0 <= i < |r|
      ensures r[i] != sep
    {
    }
  }

  /**
   * The three rewriting steps `pathToLink` and `relativePathToLink` share:
   * drop one trailing `.md`, then one trailing `/index`, then make sure the
   * link starts with `/`.
   */
  function LinkBase(path: string): (link: string)
    ensures StartsWith(link, "/")
  {
    var noExt := if EndsWith(path, ".md") then path[..|path| - 3] else path;
    var noIndex := if EndsWith(noExt, "/index") then noExt[..|noExt| - 6] else noExt;
    if StartsWith(noIndex, "/") then noIndex else "/" + noIndex
  }

  /** `path` with a `/` in front unless it already has one. */
  function Rooted(path: string): (r: string)
    ensures StartsWith(r, "/")
  {
    if StartsWith(path, "/") then path else "/" + path
  }

  /** A page `p.md` links to `p`, rooted. */
  lemma LinkOfPage(p: string)
    requires !EndsWith(p, "/index")
    ensures LinkBase(p + ".md") == Rooted(p)
  {
    var s := p + ".md";
    assert EndsWith(s, ".md");
    assert s[..|s| - 3] == p;
  }

  /** The index page `d/index.md` links to its directory `d`, rooted. */
  lemma LinkOfIndexPage(d: string)
    ensures LinkBase(d + "/index.md") == Rooted(d)
  {
    var s := d + "/index.md";
    assert EndsWith(s, ".md");
    var noExt := s[..|s| - 3];
    assert noExt == d + "/index";
    assert EndsWith(noExt, "/index");
    assert noExt[..|noExt| - 6] == d;
  }

  /** A path ending in `/index` without `.md` loses the `/index`: `docs/index` links to `/docs`. */
  lemma LinkOfIndexPath(d: string)
    ensures LinkBase(d + "/index") == Rooted(d)
  {
    var s := d + "/index";
    assert s[|s| - 3..] == "dex";
    assert !EndsWith(s, ".md");
    assert EndsWith(s, "/index");
    assert s[..|s| - 6] == d;
  }

  /** A path with neither suffix is only rooted. */
  lemma LinkOfPlainPath(p: string)
    requires !EndsWith(p, ".md") && !EndsWith(p, "/index")
    ensures LinkBase(p) == Rooted(p)
  {
  }

  /**
   * `pathToLink(filePath, baseDir)`, where `relative` stands for
   * `path.relative(baseDir, filePath)` (platform path handling is not part of
   * this model) and `sep` for `path.sep`.
   */
  function PathToLink(relative: string, filePath: string, sep: char): (link: string)
    ensures StartsWith(link, "/")
    ensures ExtName(filePath) != [] ==> link == LinkBase(NormalizePath(relative, sep))
    ensures ExtName(filePath) == [] ==> EndsWith(link, "/")
    ensures ExtName(filePath) == [] ==>
              link == LinkBase(NormalizePath(relative, sep)) || link == LinkBase(NormalizePath(relative, sep)) + "/"
    ensures link == LinkBase(NormalizePath(relative, sep)) + "/" <==>
              ExtName(filePath) == [] && !EndsWith(LinkBase(NormalizePath(relative, sep)), "/")
  {
    var base := LinkBase(NormalizePath(relative, sep));
    if !EndsWith(base, "/") && ExtName(filePath) == [] then
      SlashAppended(base);
      base + "/"
    else base
  }

  /** Appending `/` keeps a leading `/` and makes the string end in `/`. */
  lemma SlashAppended(s: string)
    requires StartsWith(s, "/")
    ensures StartsWith(s + "/", "/") && EndsWith(s + "/", "/")
  {
    var t := s + "/";
    assert t[..1] == s[..1];
    assert t[|t| - 1..] == "/";
  }

  /** Some pattern of `patterns` matches `path`. */
  predicate AnyMatch(path: string, patterns: seq<string>, matches: (string, string) -> bool)
  {
    exists i :: 0 <= i < |patterns| && matches(path, patterns[i])
  }

  /**
   * `shouldInclude(filePath, include, exclude)`: exclude patterns win over
   * include patterns; an empty include list admits everything not excluded.
   */
  method ShouldInclude(filePath: string, includePatterns: seq<string>, excludePatterns: seq<string>,
                       sep: char, matches: (string, string) -> bool)
    returns (ok: bool)
    ensures AnyMatch(NormalizePath(filePath, sep), excludePatterns, matches) ==> !ok
    ensures !AnyMatch(NormalizePath(filePath, sep), excludePatterns, matches) && |includePatterns| > 0 ==>
              (ok <==> AnyMatch(NormalizePath(filePath, sep), includePatterns, matches))
    ensures !AnyMatch(NormalizePath(filePath, sep), excludePatterns, matches) && |includePatterns| == 0 ==> ok
  {
    var normalizedPath := NormalizePath(filePath, sep);
    var i := 0;
    while i < |excludePatterns|
      invariant 0 <= i <= |excludePatterns|
      invariant forall k :: 0 <= k < i ==> !matches(normalizedPath, excludePatterns[k])
    {
      if matches(normalizedPath, excludePatterns[i]) {
        return false;
      }
      i := i + 1;
    }
    if |includePatterns| > 0 {
      // include.some(pattern => minimatch(normalizedPath, pattern))
      var j := 0;
      while j < |includePatterns|
        invariant 0 <= j <= |includePatterns|
        invariant forall k :: 0 <= k < j ==> !matches(normalizedPath, includePatterns[k])
      {
        if matches(normalizedPath, includePatterns[j]) {
          return true;
        }
        j := j + 1;
      }
      return false;
    }
    return true;
  }

  predicate IsAsciiDigit(c: char)
  {
    '0' <= c <= '9'
  }

  /** The class `[._\-\s、]` of the sort-prefix pattern (it contains `\s`). */
  predicate IsPrefixSeparator(c: char)
  {
    c == '.' || c == '_' || c == '-' || c == '\U{3001}' || IsWhitespace(c)
  }

  /** End of the longest run of characters satisfying `p` starting at `i`. */
  function RunEnd(s: string, i: nat, p: char -> bool): (j: nat)
    requires i <= |s|
    ensures i <= j <= |s|
    ensures forall k :: i <= k < j ==> p(s[k])
    ensures j == |s| || !p(s[j])
    decreases |s| - i
  {
    if i == |s| || !p(s[i]) then i else RunEnd(s, i + 1, p)
  }

  /**
   * Length of the match of `/^\d+\s*[._\-\s、]*` on `name`: the digit run and
   * then the separator run after it (`\s*` followed by a class containing
   * `\s` matches exactly the longest separator run). Zero when `name` does
   * not start with a digit.
   */
  function SortPrefixLength(name: string): (n: nat)
    ensures n <= |name|
    ensures n == 0 <==> name == [] || !IsAsciiDigit(name[0])
  {
    if name == [] || !IsAsciiDigit(name[0]) then 0
    else RunEnd(name, RunEnd(name, 0, IsAsciiDigit), IsPrefixSeparator)
  }

  /** `removeSortPrefix(name)`: the name without a leading sort prefix, trimmed. */
  function RemoveSortPrefix(name: string): (r: string)
    ensures r == [] || (!IsWhitespace(r[0]) && !IsWhitespace(r[|r| - 1]))
  {
    Trim(name[SortPrefixLength(name)..])
  }

  /** What is left is a piece of the name. */
  lemma RemoveSortPrefixIsSubstring(name: string)
    ensures IsSubstring(RemoveSortPrefix(name), name)
  {
    TrimmedSuffixIsSubstring(name, SortPrefixLength(name));
  }

  /** A name not starting with a digit is only trimmed. */
  lemma RemoveSortPrefixWithoutDigit(name: string)
    requires name == [] || !IsAsciiDigit(name[0])
    ensures RemoveSortPrefix(name) == Trim(name)
  {
    assert name[0..] == name;
  }

  /** Trimming what follows a prefix keeps a piece of the whole. */
  lemma TrimmedSuffixIsSubstring(s: string, n: nat)
    requires n <= |s|
    ensures IsSubstring(Trim(s[n..]), s)
  {
    var rest := s[n..];
    assert rest == s[n..|s|];
    SubstringTransitive(Trim(rest), rest, s);
  }

  /**
   * A name made of a digit run, a (possibly empty) separator run and a
   * title loses exactly the digits and separators: `01.Intro`, `2-Intro`,
   * `3_Intro`, `4、Intro`, `5  Intro` and `6Intro` all give `Intro`.
   */
  lemma RemoveSortPrefixOfNumberedTitle(digits: string, separators: string, title: string)
    requires |digits| > 0 && forall k :: 0 <= k < |digits| ==> IsAsciiDigit(digits[k])
    requires forall k :: 0 <= k < |separators| ==> IsPrefixSeparator(separators[k])
    requires title == [] || !IsPrefixSeparator(title[0])
    requires separators == [] ==> title == [] || !IsAsciiDigit(title[0])
    ensures RemoveSortPrefix(digits + separators + title) == TrimEnd(title)
  {
    var head := digits + separators;
    var name := head + title;
    assert name == digits + separators + title;
    var d := |digits|;
    var e := |head|;
    forall k | 0 <= k < d
      ensures IsAsciiDigit(name[k])
    {
      assert name[k] == head[k] == digits[k];
    }
    if d < |name| {
      if separators != [] {
        assert name[d] == head[d] == separators[0];
        assert !IsAsciiDigit(separators[0]);
      } else {
        assert name[d] == title[0];
      }
    }
    forall k | d <= k < e
      ensures IsPrefixSeparator(name[k])
    {
      assert name[k] == head[k] == separators[k - d];
    }
    if e < |name| {
      assert name[e] == title[0];
    }
    SortPrefixLengthOfRuns(name, d, e);
    assert name[e..] == title;
    assert TrimStart(title) == title;
  }

  /** The sort prefix of a name with a digit run ending at `d` and a separator run ending at `e` is `e` long. */
  lemma SortPrefixLengthOfRuns(name: string, d: nat, e: nat)
    requires 0 < d <= e <= |name|
    requires forall k :: 0 <= k < d ==> IsAsciiDigit(name[k])
    requires d == |name| || !IsAsciiDigit(name[d])
    requires forall k :: d <= k < e ==> IsPrefixSeparator(name[k])
    requires e == |name| || !IsPrefixSeparator(name[e])
    ensures SortPrefixLength(name) == e
  {
    RunEndIsLongestRun(name, 0, IsAsciiDigit, d);
    RunEndIsLongestRun(name, d, IsPrefixSeparator, e);
  }

  /** The longest run is unique: any end point with the run property is `RunEnd`. */
  lemma RunEndIsLongestRun(s: string, i: nat, p: char -> bool, j: nat)
    requires i <= j <= |s|
    requires forall k :: i <= k < j ==> p(s[k])
    requires j == |s| || !p(s[j])
    ensures RunEnd(s, i, p) == j
  {
  }

}
