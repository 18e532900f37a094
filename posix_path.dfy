/**
 * The parts of Node's `path.posix` that `resolvePath` and
 * `OutOfBoundsFile.assert` rely on: `join`, `normalize`, `resolve` and
 * `relative`. Strings are split on `/` into components; the character loop of
 * Node's `normalizeString` is modelled by its effect on whole components.
 */
module PosixPath {

  /** `s.split('/')`. */
  function Split(s: string): (r: seq<string>)
    ensures |r| >= 1
    ensures forall i :: 0 <= i < |r| ==> '/' !in r[i]
  {
    if s == [] then [""]
    else
      var rest := Split(s[1..]);
      if s[0] == '/' then [""] + rest else [[s[0]] + rest[0]] + rest[1..]
  }

  /** `segs.join('/')`. */
  function JoinWith(segs: seq<string>): string
  {
    if segs == [] then ""
    else if |segs| == 1 then segs[0]
    else segs[0] + "/" + JoinWith(segs[1..])
  }

  /** A component that survives normalisation: not empty, not `.` or `..`, no separator. */
  predicate IsName(c: string)
  {
    c != "" && c != "." && c != ".." && '/' !in c
  }

  /** The components of a normalised absolute path. */
  predicate Normal(segs: seq<string>)
  {
    forall i :: 0 <= i < |segs| ==> IsName(segs[i])
  }

  /** `s.startsWith(prefix)`. */
  predicate StartsWith(s: string, prefix: string)
  {
    |prefix| <= |s| && s[..|prefix|] == prefix
  }

  /**
   * One component of `normalizeString`: empty and `.` components vanish; `..`
   * removes the last component unless that is itself `..`, and is kept only
   * where a relative path may climb above its start.
   */
  function Step(stack: seq<string>, c: string, allowAboveRoot: bool): seq<string>
  {
    if c == "" || c == "." then stack
    else if c == ".." then
      if |stack| > 0 && stack[|stack| - 1] != ".." then stack[..|stack| - 1]
      else if allowAboveRoot then stack + [".."]
      else stack
    else stack + [c]
  }

  /** `normalizeString` over components, continuing from `stack`. */
  function Normalize(stack: seq<string>, comps: seq<string>, allowAboveRoot: bool): seq<string>
    decreases |comps|
  {
    if comps == [] then stack
    else Normalize(Step(stack, comps[0], allowAboveRoot), comps[1..], allowAboveRoot)
  }

  /** `normalizeString(path, allowAboveRoot)`, as components. */
  function NormalizeString(path: string, allowAboveRoot: bool): seq<string>
  {
    Normalize([], Split(path), allowAboveRoot)
  }

  /** `path.normalize(p)`. */
  function PathNormalize(p: string): string
  {
    if p == "" then "."
    else
      var isAbsolute := p[0] == '/';
      var trailingSeparator := p[|p| - 1] == '/';
      var segs := NormalizeString(p, !isAbsolute);
      if segs == [] then
        if isAbsolute then "/" else if trailingSeparator then "./" else "."
      else
        (if isAbsolute then "/" else "") + JoinWith(segs) + (if trailingSeparator then "/" else "")
  }

  /** `path.normalize` of a path that keeps some components: they are joined, with the leading and trailing `/` kept. */
  lemma PathNormalizeJoins(p: string)
    requires p != "" && NormalizeString(p, p[0] != '/') != []
    ensures PathNormalize(p) ==
      (if p[0] == '/' then "/" else "") + JoinWith(NormalizeString(p, p[0] != '/')) + (if p[|p| - 1] == '/' then "/" else "")
  {
  }

  /** The non-empty arguments, which are the only ones `path.join` uses. */
  function NonEmpty(args: seq<string>): (r: seq<string>)
    ensures forall i :: 0 <= i < |r| ==> r[i] != ""
  {
    if args == [] then []
    else if args[0] == "" then NonEmpty(args[1..])
    else [args[0]] + NonEmpty(args[1..])
  }

  /** `path.join(...args)`: the non-empty arguments joined with `/`, then normalised; `.` if there are none. */
  function PathJoin(args: seq<string>): string
  {
    var parts := NonEmpty(args);
    if parts == [] then "." else PathNormalize(JoinWith(parts))
  }

  predicate IsAbsolute(p: string)
  {
    p != "" && p[0] == '/'
  }

  /**
   * The string `path.resolve` builds before normalising: arguments are taken
   * from the right, each prepended with a `/`, until one is absolute; the
   * working directory `cwd` comes last. Empty arguments are skipped.
   */
  function Resolved(cwd: string, args: seq<string>, acc: string): string
    requires IsAbsolute(cwd)
    decreases |args|
  {
    if args == [] then cwd + "/" + acc
    else
      var p := args[|args| - 1];
      if p == "" then Resolved(cwd, args[..|args| - 1], acc)
      else if p[0] == '/' then p + "/" + acc
      else Resolved(cwd, args[..|args| - 1], p + "/" + acc)
  }

  /** The components of `path.resolve(...args)` with working directory `cwd`. */
  function ResolveSegments(cwd: string, args: seq<string>): seq<string>
    requires IsAbsolute(cwd)
  {
    NormalizeString(Resolved(cwd, args, ""), false)
  }

  /** The absolute path string with the given components. */
  function PathString(segs: seq<string>): string
  {
    "/" + JoinWith(segs)
  }

  /** `path.resolve(...args)` with working directory `cwd`. */
  function PathResolve(cwd: string, args: seq<string>): string
    requires IsAbsolute(cwd)
  {
    PathString(ResolveSegments(cwd, args))
  }

  /** The length of the longest common prefix of two component sequences. */
  function CommonPrefixLength(a: seq<string>, b: seq<string>): (k: nat)
    ensures k <= |a| && k <= |b| && a[..k] == b[..k]
    ensures k < |a| && k < |b| ==> a[k] != b[k]
  {
    if a == [] || b == [] || a[0] != b[0] then 0
    else
      var k := CommonPrefixLength(a[1..], b[1..]);
      assert a[..k + 1] == [a[0]] + a[1..][..k];
      assert b[..k + 1] == [b[0]] + b[1..][..k];
      k + 1
  }

  function Repeat(s: string, n: nat): (r: seq<string>)
    ensures |r| == n && forall i :: 0 <= i < n ==> r[i] == s
  {
    if n == 0 then [] else [s] + Repeat(s, n - 1)
  }

  /**
   * `path.relative(from, to)`: both are resolved; the common leading
   * components are dropped, and one `..` per remaining component of `from`
   * precedes the remaining components of `to`.
   */
  function PathRelative(cwd: string, from: string, to: string): string
    requires IsAbsolute(cwd)
  {
    if from == to then ""
    else
      var f := ResolveSegments(cwd, [from]);
      var t := ResolveSegments(cwd, [to]);
      if f == t then ""
      else
        var k := CommonPrefixLength(f, t);
        JoinWith(Repeat("..", |f| - k) + t[k..])
  }

  // ---------------------------------------------------------------------
  // Splitting and joining

  lemma {:induction false} SplitNoSeparator(s: string)
    requires '/' !in s
    ensures Split(s) == [s]
  {
    if s != [] {
      SplitNoSeparator(s[1..]);
      assert [s[0]] + s[1..] == s;
    }
  }

  /** Splitting distributes over a `/`. */
  lemma {:induction false} SplitAppend(a: string, b: string)
    ensures Split(a + "/" + b) == Split(a) + Split(b)
    decreases |a|
  {
    if a == [] {
      assert a + "/" + b == "/" + b;
      assert ("/" + b)[1..] == b;
    } else {
      assert (a + "/" + b)[1..] == a[1..] + "/" + b;
      SplitAppend(a[1..], b);
    }
  }

  /** A trailing `/` splits off one empty component. */
  lemma SplitTrailing(a: string)
    ensures Split(a + "/") == Split(a) + [""]
  {
    SplitAppend(a, "");
    assert a + "/" + "" == a + "/";
    assert Split("") == [""];
  }

  /** Joining components that hold no `/` and splitting again gives them back. */
  lemma {:induction false} SplitJoinWith(segs: seq<string>)
    requires segs != [] && forall i :: 0 <= i < |segs| ==> '/' !in segs[i]
    ensures Split(JoinWith(segs)) == segs
    decreases |segs|
  {
    if |segs| == 1 {
      SplitNoSeparator(segs[0]);
    } else {
      SplitAppend(segs[0], JoinWith(segs[1..]));
      SplitNoSeparator(segs[0]);
      SplitJoinWith(segs[1..]);
    }
  }

  /** A joined path starts with `..` exactly when its first component does. */
  lemma JoinWithStartsWithDots(segs: seq<string>)
    ensures StartsWith(JoinWith(segs), "..") <==> segs != [] && StartsWith(segs[0], "..")
  {
    if |segs| > 1 {
      var s := segs[0] + "/" + JoinWith(segs[1..]);
      if |segs[0]| >= 2 {
        assert s[..2] == segs[0][..2];
      } else if |segs[0]| == 1 {
        assert s[1] == '/';
      } else {
        assert s[0] == '/';
      }
    }
  }

  // ---------------------------------------------------------------------
  // Normalisation

  lemma {:induction false} NormalizeAppend(stack: seq<string>, a: seq<string>, b: seq<string>, allowAboveRoot: bool)
    ensures Normalize(stack, a + b, allowAboveRoot) == Normalize(Normalize(stack, a, allowAboveRoot), b, allowAboveRoot)
    decreases |a|
  {
    if a == [] {
      assert a + b == b;
    } else {
      assert (a + b)[1..] == a[1..] + b;
      NormalizeAppend(Step(stack, a[0], allowAboveRoot), a[1..], b, allowAboveRoot);
    }
  }

  /** A trailing empty component changes nothing. */
  lemma NormalizeTrailingEmpty(stack: seq<string>, comps: seq<string>, allowAboveRoot: bool)
    ensures Normalize(stack, comps + [""], allowAboveRoot) == Normalize(stack, comps, allowAboveRoot)
  {
    NormalizeAppend(stack, comps, [""], allowAboveRoot);
    var n := Normalize(stack, comps, allowAboveRoot);
    assert [""][1..] == [];
    assert Normalize(n, [""], allowAboveRoot) == Normalize(Step(n, "", allowAboveRoot), [], allowAboveRoot);
  }

  /** Proper names are simply pushed. */
  lemma {:induction false} NormalizeNames(stack: seq<string>, names: seq<string>, allowAboveRoot: bool)
    requires Normal(names)
    ensures Normalize(stack, names, allowAboveRoot) == stack + names
    decreases |names|
  {
    if names != [] {
      NormalizeNames(stack + [names[0]], names[1..], allowAboveRoot);
      assert stack + [names[0]] + names[1..] == stack + names;
    }
  }

  /** Empty and `.` components change nothing. */
  lemma {:induction false} NormalizeSkips(stack: seq<string>, comps: seq<string>, allowAboveRoot: bool)
    requires forall i :: 0 <= i < |comps| ==> comps[i] == "" || comps[i] == "."
    ensures Normalize(stack, comps, allowAboveRoot) == stack
    decreases |comps|
  {
    if comps != [] {
      NormalizeSkips(stack, comps[1..], allowAboveRoot);
    }
  }

  /** Absolute normalisation of components without separators yields a normalised path. */
  lemma {:induction false} NormalizeAbsoluteIsNormal(stack: seq<string>, comps: seq<string>)
    requires Normal(stack)
    requires forall i :: 0 <= i < |comps| ==> '/' !in comps[i]
    ensures Normal(Normalize(stack, comps, false))
    decreases |comps|
  {
    if comps != [] {
      NormalizeAbsoluteIsNormal(Step(stack, comps[0], false), comps[1..]);
    }
  }

  /** Components a relative normalisation keeps: never empty and never `.`. */
  predicate Clean(segs: seq<string>)
  {
    forall i :: 0 <= i < |segs| ==> segs[i] != "" && segs[i] != "."
  }

  /**
   * Normalising relatively first and then absolutely from `root` is the same as
   * normalising absolutely from `root` directly: the `..` a relative path keeps
   * are applied when it is resolved.
   */
  lemma {:induction false} RelativeThenAbsolute(root: seq<string>, stack: seq<string>, comps: seq<string>)
    requires Normal(root) && Clean(stack)
    ensures Clean(Normalize(stack, comps, true))
    ensures Normalize(root, Normalize(stack, comps, true), false) == Normalize(Normalize(root, stack, false), comps, false)
    decreases |comps|
  {
    if comps != [] {
      var c := comps[0];
      var next := Step(stack, c, true);
      assert Clean(next);
      var r := Normalize(root, stack, false);
      assert Normalize(root, next, false) == Step(r, c, false) by {
        if c == "" || c == "." {
        } else if c == ".." && |stack| > 0 && stack[|stack| - 1] != ".." {
          var last := stack[|stack| - 1];
          assert stack == next + [last];
          NormalizeAppend(root, next, [last], false);
          var base := Normalize(root, next, false);
          assert r == base + [last];
          assert Step(r, c, false) == base;
        } else {
          assert next == stack + [c];
          NormalizeAppend(root, stack, [c], false);
        }
      }
      RelativeThenAbsolute(root, next, comps[1..]);
    }
  }

  // ---------------------------------------------------------------------
  // Resolution

  /** The base path the resolution loop stops at; the accumulated suffix follows it after a `/`. */
  function ResolveBase(cwd: string, args: seq<string>): string
    requires IsAbsolute(cwd)
    decreases |args|
  {
    if args == [] then cwd
    else
      var p := args[|args| - 1];
      if p == "" then ResolveBase(cwd, args[..|args| - 1])
      else if p[0] == '/' then p
      else ResolveBase(cwd, args[..|args| - 1]) + "/" + p
  }

  lemma {:induction false} ResolvedIsBase(cwd: string, args: seq<string>, acc: string)
    requires IsAbsolute(cwd)
    ensures Resolved(cwd, args, acc) == ResolveBase(cwd, args) + "/" + acc
    decreases |args|
  {
    if args != [] {
      var p := args[|args| - 1];
      if p == "" {
        ResolvedIsBase(cwd, args[..|args| - 1], acc);
      } else if p[0] != '/' {
        ResolvedIsBase(cwd, args[..|args| - 1], p + "/" + acc);
      }
    }
  }

  /** The components of a resolved path: those of its base, normalised absolutely. */
  lemma ResolveSegmentsOfBase(cwd: string, args: seq<string>)
    requires IsAbsolute(cwd)
    ensures ResolveSegments(cwd, args) == Normalize([], Split(ResolveBase(cwd, args)), false)
  {
    var b := ResolveBase(cwd, args);
    ResolvedIsBase(cwd, args, "");
    SplitAppend(b, "");
    NormalizeAppend([], Split(b), [""], false);
  }

  /** A resolved path is normalised. */
  lemma ResolveSegmentsNormal(cwd: string, args: seq<string>)
    requires IsAbsolute(cwd)
    ensures Normal(ResolveSegments(cwd, args))
  {
    NormalizeAbsoluteIsNormal([], Split(Resolved(cwd, args, "")));
  }

  /** Resolving the string of a normalised absolute path gives its components back. */
  lemma ResolvePathString(cwd: string, segs: seq<string>)
    requires IsAbsolute(cwd) && Normal(segs)
    ensures ResolveSegments(cwd, [PathString(segs)]) == segs
  {
    var p := PathString(segs);
    assert ResolveBase(cwd, [p]) == p;
    ResolveSegmentsOfBase(cwd, [p]);
    assert p == "" + "/" + JoinWith(segs);
    SplitAppend("", JoinWith(segs));
    if segs == [] {
      assert Split(p) == ["", ""];
      NormalizeSkips([], Split(p), false);
    } else {
      SplitJoinWith(segs);
      assert Split(p) == [""] + segs;
      NormalizeNames([], segs, false);
    }
  }

  /**
   * `path.relative(root, target)` for a normalised absolute `target`: it starts
   * with `..` exactly when `target` is not `root`, nor below `root` through a
   * first component that does not itself start with `..`.
   */
  lemma RelativeStartsWithDots(cwd: string, root: string, target: seq<string>)
    requires IsAbsolute(cwd) && Normal(target)
    ensures var r := ResolveSegments(cwd, [root]);
      StartsWith(PathRelative(cwd, root, PathString(target)), "..") <==> !Within(r, target)
  {
    var r := ResolveSegments(cwd, [root]);
    ResolvePathString(cwd, target);
    ResolveSegmentsNormal(cwd, [root]);
    if root == PathString(target) {
      assert r == target;
      assert PathRelative(cwd, root, PathString(target)) == "";
    } else if r != target {
      var k := CommonPrefixLength(r, target);
      var segs := Repeat("..", |r| - k) + target[k..];
      JoinWithStartsWithDots(segs);
      if k == |r| {
        assert r == target[..|r|];
        assert segs == target[k..];
      } else {
        assert segs[0] == "..";
        assert !Within(r, target);
      }
    }
  }

  /** `target` is `root` itself or lies below it through a first component not starting with `..`. */
  predicate Within(root: seq<string>, target: seq<string>)
  {
    |root| <= |target| && target[..|root|] == root &&
    (|target| == |root| || !StartsWith(target[|root|], ".."))
  }

  /**
   * `path.dirname(p)` for an absolute path without a trailing separator, as
   * `path.resolve` produces: everything before the last component, or `/`.
   */
  function Dirname(p: string): string
  {
    var parts := Split(p);
    if |parts| <= 2 then "/" else JoinWith(parts[..|parts| - 1])
  }

  /** The directory of a normalised absolute path drops its last component; the directory of `/` is `/`. */
  lemma DirnameOfPathString(segs: seq<string>)
    requires Normal(segs)
    ensures Dirname(PathString(segs)) == PathString(if segs == [] then [] else segs[..|segs| - 1])
  {
    if segs != [] {
      SplitAppend("", JoinWith(segs));
      SplitJoinWith(segs);
      assert "" + "/" + JoinWith(segs) == PathString(segs);
      var parts := Split(PathString(segs));
      assert parts == [""] + segs;
      if |segs| > 1 {
        assert parts[..|parts| - 1] == [""] + segs[..|segs| - 1];
      }
    }
  }
}
