/**
 * The log formatter's `relpath` field: the source file of a log record,
 * shown relative to a base directory when the base is a leading part of
 * the file's path.  Paths are POSIX paths; `os.path.relpath` is modelled
 * as `posixpath.relpath`, with the process working directory passed in.
 */
module LogPaths {
  import opened PyStr
  import opened PyValue
  import opened Wrappers

  /** `os.path.abspath(os.sep)` on POSIX. */
  const Root := "/"

  /** `os.path.commonprefix((a, b))`: the longest common leading part, element by element. */
  function CommonPrefix<T(==)>(a: seq<T>, b: seq<T>): (r: seq<T>)
    ensures |r| <= |a| && |r| <= |b|
    ensures r == a[..|r|] && r == b[..|r|]
    ensures |r| == |a| || |r| == |b| || a[|r|] != b[|r|]
  {
    if |a| == 0 || |b| == 0 || a[0] != b[0] then []
    else
      var rest := CommonPrefix(a[1..], b[1..]);
      assert a[..|rest| + 1] == [a[0]] + a[1..][..|rest|];
      assert b[..|rest| + 1] == [b[0]] + b[1..][..|rest|];
      [a[0]] + rest
  }

  predicate IsPrefix<T(==)>(p: seq<T>, s: seq<T>) {
    |p| <= |s| && s[..|p|] == p
  }

  /** The common prefix of `a` and `b` is all of `b` exactly when `b` is a prefix of `a`. */
  lemma CommonPrefixIsWhole<T>(a: seq<T>, b: seq<T>)
    ensures CommonPrefix(a, b) == b <==> IsPrefix(b, a)
  {
  }

  /** A path component that survives normalisation: not empty, not `.`, not `..`. */
  predicate Proper(c: string) {
    c != "" && c != "." && c != ".."
  }

  predicate AllProper(cs: seq<string>) {
    forall k :: 0 <= k < |cs| ==> Proper(cs[k])
  }

  /**
   * The components `posixpath.normpath` keeps of an absolute path, read
   * left to right onto the components `kept` so far: empty and `.`
   * components are dropped, and `..` removes the last kept component (or
   * nothing at the root).
   */
  function NormParts(parts: seq<string>, kept: seq<string>): (r: seq<string>)
    ensures AllProper(kept) ==> AllProper(r)
    decreases |parts|
  {
    if |parts| == 0 then kept
    else
      var c := parts[0];
      if c == "" || c == "." then NormParts(parts[1..], kept)
      else if c == ".." then NormParts(parts[1..], if |kept| > 0 then kept[..|kept| - 1] else kept)
      else NormParts(parts[1..], kept + [c])
  }

  /** Normalising `a + b` is normalising `b` onto what `a` left. */
  lemma {:induction false} NormPartsAppend(a: seq<string>, b: seq<string>, kept: seq<string>)
    ensures NormParts(a + b, kept) == NormParts(b, NormParts(a, kept))
    decreases |a|
  {
    if |a| > 0 {
      assert (a + b)[0] == a[0] && (a + b)[1..] == a[1..] + b;
      var c := a[0];
      if c == "" || c == "." {
        NormPartsAppend(a[1..], b, kept);
      } else if c == ".." {
        NormPartsAppend(a[1..], b, if |kept| > 0 then kept[..|kept| - 1] else kept);
      } else {
        NormPartsAppend(a[1..], b, kept + [c]);
      }
    } else {
      assert a + b == b;
    }
  }

  /** Proper components are kept as they are, in order. */
  lemma {:induction false} NormPartsProper(cs: seq<string>, kept: seq<string>)
    requires AllProper(cs)
    ensures NormParts(cs, kept) == kept + cs
    decreases |cs|
  {
    if |cs| > 0 {
      assert Proper(cs[0]);
      NormPartsProper(cs[1..], kept + [cs[0]]);
      assert kept + [cs[0]] + cs[1..] == kept + cs;
    } else {
      assert kept + cs == kept;
    }
  }

  /** `n` copies of `..`. */
  function Ups(n: nat): (r: seq<string>)
    ensures |r| == n
    ensures forall k :: 0 <= k < n ==> r[k] == ".."
  {
    if n == 0 then [] else [".."] + Ups(n - 1)
  }

  /** Each `..` removes one kept component. */
  lemma {:induction false} NormPartsUps(n: nat, kept: seq<string>)
    requires n <= |kept|
    ensures NormParts(Ups(n), kept) == kept[..|kept| - n]
  {
    if n > 0 {
      assert Ups(n)[0] == ".." && Ups(n)[1..] == Ups(n - 1);
      NormPartsUps(n - 1, kept[..|kept| - 1]);
      assert kept[..|kept| - 1][..|kept| - 1 - (n - 1)] == kept[..|kept| - n];
    } else {
      assert kept[..|kept|] == kept;
    }
  }

  /**
   * The components of `os.path.abspath(p)`, empty ones dropped as
   * `relpath` drops them: a relative `p` is read against `cwd`, the
   * process working directory, which `os.getcwd()` always gives as an
   * absolute path (a relative `cwd` would be read as if rooted at `/`).
   */
  function AbsParts(p: string, cwd: string): (r: seq<string>)
    ensures AllProper(r)
  {
    NormParts(Split(if |p| > 0 && p[0] == '/' then p else cwd + "/" + p, "/"), [])
  }

  /** The components of `posixpath.relpath(path, start)`: one `..` per unshared start component, then the rest of `path`. */
  function RelParts(p: seq<string>, s: seq<string>): seq<string> {
    var i := |CommonPrefix(s, p)|;
    Ups(|s| - i) + p[i..]
  }

  /** `posixpath.relpath(path, start)`, `.` when the two name the same directory. */
  function RelPath(path: string, start: string, cwd: string): (r: string)
    ensures var p, s := AbsParts(path, cwd), AbsParts(start, cwd);
            IsPrefix(s, p) ==> r == if |p| == |s| then "." else Join(p[|s|..], "/")
  {
    var p, s := AbsParts(path, cwd), AbsParts(start, cwd);
    assert IsPrefix(s, p) ==> RelParts(p, s) == p[|s|..] by {
      if IsPrefix(s, p) {
        RelPartsBelow(p, s);
      }
    }
    var rel := RelParts(p, s);
    if rel == [] then "." else Join(rel, "/")
  }

  /** Following the relative components from `start`'s components leads back to `path`'s. */
  lemma RelPartsResolve(p: seq<string>, s: seq<string>)
    requires AllProper(p) && AllProper(s)
    ensures NormParts(RelParts(p, s), s) == p
  {
    var c := CommonPrefix(s, p);
    var i := |c|;
    var n := |s| - i;
    NormPartsAppend(Ups(n), p[i..], s);
    NormPartsUps(n, s);
    assert |s| - n == i;
    assert s[..|s| - n] == c == p[..i];
    assert AllProper(p[i..]) by {
      forall k | 0 <= k < |p[i..]| ensures Proper(p[i..][k]) {
        assert p[i..][k] == p[i + k];
      }
    }
    NormPartsProper(p[i..], p[..i]);
    assert p[..i] + p[i..] == p;
  }

  /** A path below `start` is named by its remaining components, with no `..`. */
  lemma RelPartsBelow(p: seq<string>, s: seq<string>)
    requires IsPrefix(s, p)
    ensures RelParts(p, s) == p[|s|..]
  {
    CommonPrefixIsWhole(p, s);
  }

  /** A directory relative to itself is `.`. */
  lemma RelPathSelf(path: string, cwd: string)
    ensures RelPath(path, path, cwd) == "."
  {
    var p := AbsParts(path, cwd);
    RelPartsBelow(p, p);
    assert p[|p|..] == [];
  }

  /**
   * The `relpath` the formatter stores: the record's own path when the
   * common prefix of the path and the base is empty, is the root, or is
   * not the whole base; the path relative to the base otherwise.  So the
   * path is shown relative exactly when the base is a character-wise
   * prefix of it and is neither empty nor the root.
   */
  function ChooseRelPath(pathname: string, base: string, cwd: string): (r: string)
    ensures base == "" || base == Root || !IsPrefix(base, pathname) ==> r == pathname
    ensures base != "" && base != Root && IsPrefix(base, pathname) ==> r == RelPath(pathname, base, cwd)
  {
    CommonPrefixIsWhole(pathname, base);
    var cpfx := CommonPrefix(pathname, base);
    if |cpfx| == 0 || cpfx == Root || cpfx != base then pathname
    else RelPath(pathname, base, cwd)
  }

  /** A proper path component with no `/` in it. */
  predicate Name(n: string) {
    Proper(n) && forall j :: 0 <= j < |n| ==> n[j] != '/'
  }

  lemma AbsTwo(x: string, y: string, cwd: string)
    requires Name(x) && Name(y)
    ensures AbsParts("/" + x + "/" + y, cwd) == [x, y]
  {
    var p := "/" + x + "/" + y;
    assert p == [] + ['/'] + (x + ['/'] + y);
    SplitCons([], '/', x + ['/'] + y);
    SplitCons(x, '/', y);
    SplitNoChar(y, '/');
    assert Split(p, "/") == ["", x, y];
    assert ["", x, y][1..] == [x, y];
    NormPartsProper([x, y], []);
  }

  lemma AbsOne(x: string, cwd: string)
    requires Name(x)
    ensures AbsParts("/" + x, cwd) == [x]
  {
    var p := "/" + x;
    assert p == [] + ['/'] + x;
    SplitCons([], '/', x);
    SplitNoChar(x, '/');
    assert Split(p, "/") == ["", x];
    assert ["", x][1..] == [x];
    NormPartsProper([x], []);
  }

  /**
   * The prefix test compares characters, not components: a base naming
   * the directory `/d` also matches a file under a sibling `/dm` whose
   * name starts with `d`, and the file is then shown as `../dm/f`.
   */
  lemma SiblingDirectoryMatches(d: string, m: string, f: string, cwd: string)
    requires Name(d) && Name(d + m) && Name(f) && |m| > 0
    ensures ChooseRelPath("/" + (d + m) + "/" + f, "/" + d, cwd) == "../" + (d + m) + "/" + f
  {
    var path, base := "/" + (d + m) + "/" + f, "/" + d;
    SiblingRelPath(d, m, f, cwd);
    assert IsPrefix(base, path) by {
      assert path[..|base|] == base;
    }
  }

  /** From `/d` the file `/dm/f` is reached by going up once. */
  lemma SiblingRelPath(d: string, m: string, f: string, cwd: string)
    requires Name(d) && Name(d + m) && Name(f) && |m| > 0
    ensures RelPath("/" + (d + m) + "/" + f, "/" + d, cwd) == "../" + (d + m) + "/" + f
  {
    AbsTwo(d + m, f, cwd);
    AbsOne(d, cwd);
    assert CommonPrefix([d], [d + m, f]) == [] by {
      assert |d| != |d + m|;
    }
    var rel := RelParts([d + m, f], [d]);
    assert rel == ["..", d + m, f] by {
      assert Ups(1) == [".."];
    }
    JoinUp(d + m, f);
  }

  lemma JoinUp(x: string, y: string)
    ensures Join(["..", x, y], "/") == "../" + x + "/" + y
  {
    var rel := ["..", x, y];
    assert rel[1..] == [x, y] && rel[1..][1..] == [y];
    assert Join(rel[1..], "/") == x + "/" + y;
    assert Join(rel, "/") == ".." + "/" + (x + "/" + y);
  }

  /** A log record; `attrs` is its `__dict__`, to which the formatter adds `relpath`. */
  class LogRecord {
    const pathname: string
    var attrs: map<string, Value>

    constructor (pathname: string, attrs: map<string, Value>)
      ensures this.pathname == pathname && this.attrs == attrs
    {
      this.pathname := pathname;
      this.attrs := attrs;
    }
  }

  class RelativePathsFormatter {
    /** The base directory `relpath` is computed against. */
    var pathsRelativeTo: string

    /** A base that is not a string is replaced by the root directory. */
    constructor (pathsRelativeTo: Value)
      ensures this.pathsRelativeTo == if pathsRelativeTo.Str? then pathsRelativeTo.s else Root
    {
      this.pathsRelativeTo := if pathsRelativeTo.Str? then pathsRelativeTo.s else Root;
    }

    /**
     * `formatMessage(record)`: sets the record's `relpath` and changes
     * nothing else.  `cwd` is `os.getcwd()`, an absolute path.
     */
    method FormatMessage(record: LogRecord, cwd: string)
      requires |cwd| > 0 && cwd[0] == '/'
      modifies record
      ensures record.attrs == old(record.attrs)["relpath" := Str(ChooseRelPath(record.pathname, pathsRelativeTo, cwd))]
    {
      var cpfx := CommonPrefix(record.pathname, pathsRelativeTo);
      var relpath: string;
      if |cpfx| == 0 || cpfx == Root || cpfx != pathsRelativeTo {
        relpath := record.pathname;
      } else {
        relpath := RelPath(record.pathname, pathsRelativeTo, cwd);
      }
      record.attrs := record.attrs["relpath" := Str(relpath)];
    }
  }
}
