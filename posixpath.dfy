/**
 * The parts of Node's `path` module (POSIX flavour, separator `/`) that the
 * core uses to derive display names: `basename` and `extname`.
 */
module PosixPath {
  import opened Strings

  /** Removes every trailing `/`, as `basename` and `extname` ignore them. */
  function StripTrailingSlashes(p: string): (r: string)
    ensures |r| <= |p| && r == p[..|r|]
    ensures r == [] || r[|r| - 1] != '/'
    ensures forall k :: |r| <= k < |p| ==> p[k] == '/'
  {
    if p != [] && p[|p| - 1] == '/' then StripTrailingSlashes(p[..|p| - 1]) else p
  }

  /** Index of the last occurrence of `c` in `s`, or -1 when there is none. */
  function LastIndexOf(s: string, c: char): (i: int)
    ensures -1 <= i < |s|
    ensures i >= 0 ==> s[i] == c
    ensures forall k :: i < k < |s| ==> s[k] != c
  {
    if s == [] then -1
    else if s[|s| - 1] == c then |s| - 1
    else LastIndexOf(s[..|s| - 1], c)
  }

  /** The characters after the last `/` of `p`. */
  function LastSegment(p: string): (r: string)
    ensures EndsWith(p, r)
    ensures '/' !in r
    ensures |r| == |p| || p[|p| - |r| - 1] == '/'
  {
    p[LastIndexOf(p, '/') + 1..]
  }

  /** `path.basename(p)`. */
  function BaseName(p: string): (r: string)
    ensures '/' !in r
  {
    LastSegment(StripTrailingSlashes(p))
  }

  /**
   * The extension of a basename: from its last `.` to the end, unless that
   * dot is the first character or the name is `..`.
   */
  function ExtOfBase(b: string): (e: string)
    ensures EndsWith(b, e)
    ensures e != [] ==> e[0] == '.' && |e| < |b| && '.' !in e[1..]
    ensures e == [] <==> LastIndexOf(b, '.') <= 0 || b == ".."
  {
    var i := LastIndexOf(b, '.');
    if i <= 0 || b == ".." then [] else b[i..]
  }

  /** `path.extname(p)`. */
  function ExtName(p: string): string
  {
    ExtOfBase(BaseName(p))
  }

  /** `path.basename(p, path.extname(p))`: the file name without its extension. */
  function BaseNameWithoutExt(p: string): string
  {
    StemOf(BaseName(p))
  }

  /** A basename without its extension. */
  function StemOf(b: string): (r: string)
    ensures b == r + ExtOfBase(b)
  {
    var e := ExtOfBase(b);
    b[..|b| - |e|]
  }

}
