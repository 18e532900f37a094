/**
 * The path sandbox of src/index.js: `resolvePath(directory, innerPath)`
 * flattens the reference, joins it, resolves it against `directory`, and
 * `OutOfBoundsFile.assert` rejects the result when the path relative to
 * `directory` starts with `..`.
 */
module Sandbox {
  import opened Wrappers
  import opened Errors
  import opened ArrayFlatten
  import opened JsObject
  import opened PosixPath

  /** `p` is a resolved path at or below `root` that `resolvePath` accepts. */
  ghost predicate InsideOf(root: seq<string>, p: string)
  {
    exists t :: Normal(t) && p == PathString(t) && Within(root, t)
  }

  /**
   * `OutOfBoundsFile.assert(directory, filepath)`: a textual test on
   * `path.relative`. On a resolved path it passes exactly when the path is the
   * root or lies below it through a first component not starting with `..`.
   */
  function AssertInside(cwd: string, directory: string, filepath: string): (r: Outcome<Failure>)
    requires IsAbsolute(cwd)
    ensures r.Fail? ==> r.error == OutOfBoundsFile(directory, filepath)
    ensures forall t :: Normal(t) && filepath == PathString(t) ==> (r.Pass? <==> Within(Root(cwd, directory), t))
  {
    RelativeOfResolved(cwd, directory, filepath);
    if StartsWith(PathRelative(cwd, directory, filepath), "..") then Fail(OutOfBoundsFile(directory, filepath))
    else Pass
  }

  lemma RelativeOfResolved(cwd: string, directory: string, filepath: string)
    requires IsAbsolute(cwd)
    ensures forall t :: Normal(t) && filepath == PathString(t) ==>
      (StartsWith(PathRelative(cwd, directory, filepath), "..") <==> !Within(Root(cwd, directory), t))
  {
    forall t | Normal(t) && filepath == PathString(t)
      ensures StartsWith(PathRelative(cwd, directory, filepath), "..") <==> !Within(Root(cwd, directory), t)
    {
      RelativeStartsWithDots(cwd, directory, t);
    }
  }

  /** A JavaScript value as `flatten` sees it: an array is nested, anything else is a leaf. */
  function AsNested(v: JsValue): Nested<JsValue>
  {
    match v
    case Arr(items) => Array(seq(|items|, i requires 0 <= i < |items| => AsNested(items[i])))
    case _ => Leaf(v)
  }

  /** The length of the leading run of strings: `path.join` checks its arguments in order. */
  function StringPrefix(segments: seq<JsValue>): (k: nat)
    ensures k <= |segments|
    ensures forall i :: 0 <= i < k ==> segments[i].Str?
    ensures k < |segments| ==> !segments[k].Str?
  {
    if segments == [] || !segments[0].Str? then 0 else 1 + StringPrefix(segments[1..])
  }

  /**
   * `path.resolve(directory, path.join(...segments))`, then
   * `OutOfBoundsFile.assert`: the reference lands where the reference
   * definition `Target` puts it, and that path is returned exactly when it
   * is within the root; otherwise `OutOfBoundsFile` carries the root as given
   * and the attempted absolute path.
   */
  function ResolveJoined(cwd: string, directory: string, segments: seq<string>): (r: Result<string, Failure>)
    requires IsAbsolute(cwd)
    ensures var root := Root(cwd, directory);
      var target := Target(cwd, directory, segments);
      r == if Within(root, target) then Ok(PathString(target))
           else Err(OutOfBoundsFile(directory, PathString(target)))
    ensures r.Ok? ==> InsideOf(Root(cwd, directory), r.value)
  {
    var target := Target(cwd, directory, segments);
    ResolvedTarget(cwd, directory, segments);
    ResolveSegmentsNormal(cwd, [directory, PathJoin(segments)]);
    assert Normal(target);
    var joinedInnerPath := PathJoin(segments);
    var absoluteInnerPath := PathResolve(cwd, [directory, joinedInnerPath]);
    match AssertInside(cwd, directory, absoluteInnerPath)
    case Fail(e) => Err(e)
    case Pass => Ok(absoluteInnerPath)
  }

  /**
   * `resolvePath(directory, innerPath)`, with `cwd` standing for
   * `process.cwd()`. The first leaf of the reference that is not a string
   * makes `path.join` throw; otherwise the leaves are joined and resolved.
   * A returned path is inside the root; an error is that `TypeError` or
   * `OutOfBoundsFile` naming this root.
   */
  function ResolvePath(cwd: string, directory: string, innerPath: JsValue): (r: Result<string, Failure>)
    requires IsAbsolute(cwd)
    ensures var leaves := Leaves(AsNested(innerPath));
      && ((forall i :: 0 <= i < |leaves| ==> leaves[i].Str?) ==> r == ResolveJoined(cwd, directory, Texts(leaves)))
      && ((r.Err? && r.error.PathSegmentNotString?) <==> exists i :: 0 <= i < |leaves| && !leaves[i].Str?)
    ensures r.Ok? ==> InsideOf(Root(cwd, directory), r.value)
    ensures r.Err? ==>
      || (r.error.PathSegmentNotString? && !r.error.segment.Str?)
      || (r.error.OutOfBoundsFile? && r.error.directory == directory)
  {
    var segments := Flatten(AsNested(innerPath));
    var k := StringPrefix(segments);
    if k < |segments| then Err(PathSegmentNotString(segments[k]))
    else ResolveJoined(cwd, directory, Texts(segments))
  }

  // ---------------------------------------------------------------------
  // Reference definition, component by component

  /** The components of the arguments, each split on `/`. */
  function Components(args: seq<string>): seq<string>
  {
    if args == [] then [] else Split(args[0]) + Components(args[1..])
  }

  /** The root components: `directory` resolved against the working directory. */
  function Root(cwd: string, directory: string): seq<string>
    requires IsAbsolute(cwd)
  {
    ResolveSegments(cwd, [directory])
  }

  /**
   * Where a reference lands: its components applied to the root, or to `/`
   * when the first non-empty segment is absolute. An absolute segment in any
   * later position does not reset the path, because `path.join` only
   * concatenates.
   */
  function Target(cwd: string, directory: string, segments: seq<string>): seq<string>
    requires IsAbsolute(cwd)
  {
    var parts := NonEmpty(segments);
    if parts != [] && parts[0][0] == '/' then Normalize([], Components(parts), false)
    else Normalize(Root(cwd, directory), Components(parts), false)
  }

  lemma {:induction false} SplitJoinedComponents(parts: seq<string>)
    requires parts != []
    ensures Split(JoinWith(parts)) == Components(parts)
    decreases |parts|
  {
    if |parts| > 1 {
      SplitAppend(parts[0], JoinWith(parts[1..]));
      SplitJoinedComponents(parts[1..]);
    } else {
      assert Components(parts) == Split(parts[0]) + [];
    }
  }

  /** Normalised components of a split string never hold a separator. */
  lemma NormalizeNoSeparator(stack: seq<string>, comps: seq<string>, allowAboveRoot: bool)
    requires forall i :: 0 <= i < |stack| ==> '/' !in stack[i]
    requires forall i :: 0 <= i < |comps| ==> '/' !in comps[i]
    ensures forall i :: 0 <= i < |Normalize(stack, comps, allowAboveRoot)| ==> '/' !in Normalize(stack, comps, allowAboveRoot)[i]
    decreases |comps|
  {
    if comps != [] {
      NormalizeNoSeparator(Step(stack, comps[0], allowAboveRoot), comps[1..], allowAboveRoot);
    }
  }

  /** A relative joined path, applied to a normalised base, acts as its raw components. */
  lemma JoinRelative(raw: string, base: seq<string>)
    requires raw != "" && raw[0] != '/' && Normal(base)
    ensures var j := PathNormalize(raw);
      && j != "" && j[0] != '/'
      && Normalize(base, Split(j), false) == Normalize(base, Split(raw), false)
  {
    var s := NormalizeString(raw, true);
    RelativeThenAbsolute(base, [], Split(raw));
    NormalizeNoSeparator([], Split(raw), true);
    if s == [] {
      RelativeNothingLeft(raw, base);
    } else {
      RelativeSomethingLeft(raw, base, s);
    }
  }

  /** A relative path that normalises away entirely joins to `.` or `./`, which leave any base unchanged. */
  lemma RelativeNothingLeft(raw: string, base: seq<string>)
    requires raw != "" && raw[0] != '/' && NormalizeString(raw, true) == []
    ensures var j := PathNormalize(raw);
      && j != "" && j[0] != '/'
      && Normalize(base, Split(j), false) == base
  {
    SplitNoSeparator(".");
    if raw[|raw| - 1] == '/' {
      assert PathNormalize(raw) == "." + "/" + "";
      SplitAppend(".", "");
    } else {
      assert PathNormalize(raw) == ".";
    }
  }

  /** A relative path with components left joins them with `/`, keeping a trailing separator. */
  lemma RelativeSomethingLeft(raw: string, base: seq<string>, s: seq<string>)
    requires raw != "" && raw[0] != '/' && Normal(base)
    requires s == NormalizeString(raw, true) && s != []
    requires Clean(s) && forall i :: 0 <= i < |s| ==> '/' !in s[i]
    ensures var j := PathNormalize(raw);
      && j != "" && j[0] != '/'
      && Normalize(base, Split(j), false) == Normalize(base, s, false)
  {
    var joined := JoinWith(s);
    PathNormalizeJoins(raw);
    JoinWithFirst(s);
    SplitJoinWith(s);
    if raw[|raw| - 1] == '/' {
      assert PathNormalize(raw) == joined + "/";
      SplitTrailing(joined);
      NormalizeTrailingEmpty(base, s, false);
    } else {
      assert PathNormalize(raw) == joined;
    }
  }

  /** The text of joined components starts with the first character of the first component. */
  lemma JoinWithFirst(s: seq<string>)
    requires s != [] && s[0] != ""
    ensures JoinWith(s) != "" && JoinWith(s)[0] == s[0][0]
  {
    if |s| > 1 {
      assert JoinWith(s) == s[0] + "/" + JoinWith(s[1..]);
    }
  }

  /** An absolute joined path normalises to the components of its raw form. */
  lemma JoinAbsolute(raw: string)
    requires raw != "" && raw[0] == '/'
    ensures var j := PathNormalize(raw);
      && j != "" && j[0] == '/'
      && Normalize([], Split(j), false) == Normalize([], Split(raw), false)
  {
    var s := NormalizeString(raw, false);
    NormalizeAbsoluteIsNormal([], Split(raw));
    if s == [] {
      assert PathNormalize(raw) == "/";
      SplitTrailing("");
      assert Split(PathNormalize(raw)) == ["", ""];
      NormalizeSkips([], ["", ""], false);
    } else {
      AbsoluteSomethingLeft(raw, s);
    }
  }

  lemma AbsoluteSomethingLeft(raw: string, s: seq<string>)
    requires raw != "" && raw[0] == '/'
    requires s == NormalizeString(raw, false) && s != [] && Normal(s)
    ensures var j := PathNormalize(raw);
      && j != "" && j[0] == '/'
      && Normalize([], Split(j), false) == s
  {
    var joined := "/" + JoinWith(s);
    PathNormalizeJoins(raw);
    SplitJoinWith(s);
    SplitAppend("", JoinWith(s));
    assert "" + "/" + JoinWith(s) == joined;
    assert Split(joined) == [""] + s;
    NormalizeNames([], s, false);
    assert Normalize([], [""] + s, false) == Normalize([], s, false);
    if raw[|raw| - 1] == '/' {
      assert PathNormalize(raw) == joined + "/";
      SplitTrailing(joined);
      NormalizeTrailingEmpty([], [""] + s, false);
    } else {
      assert PathNormalize(raw) == joined;
    }
  }

  /** The components `path.resolve(directory, path.join(...segments))` ends with. */
  lemma ResolvedTarget(cwd: string, directory: string, segments: seq<string>)
    requires IsAbsolute(cwd)
    ensures ResolveSegments(cwd, [directory, PathJoin(segments)]) == Target(cwd, directory, segments)
  {
    var parts := NonEmpty(segments);
    var j := PathJoin(segments);
    var b := ResolveBase(cwd, [directory]);
    var root := Root(cwd, directory);
    ResolveSegmentsOfBase(cwd, [directory, j]);
    ResolveSegmentsOfBase(cwd, [directory]);
    ResolveSegmentsNormal(cwd, [directory]);
    assert [directory, j][..1] == [directory];
    if parts == [] {
      assert j == ".";
      SplitNoSeparator(".");
      assert ResolveBase(cwd, [directory, j]) == b + "/" + ".";
      SplitAppend(b, ".");
      NormalizeAppend([], Split(b), ["."], false);
    } else {
      var raw := JoinWith(parts);
      SplitJoinedComponents(parts);
      assert raw[0] == parts[0][0] by {
        if |parts| > 1 { assert raw == parts[0] + "/" + JoinWith(parts[1..]); }
      }
      if raw[0] == '/' {
        JoinAbsolute(raw);
        assert ResolveBase(cwd, [directory, j]) == j;
      } else {
        JoinRelative(raw, root);
        assert ResolveBase(cwd, [directory, j]) == b + "/" + j;
        SplitAppend(b, j);
        NormalizeAppend([], Split(b), Split(j), false);
      }
    }
  }

  /** A JavaScript array of strings, as a gameplan writes a path reference. */
  function Strs(names: seq<string>): (v: JsValue)
    ensures v.Arr? && |v.items| == |names|
    ensures forall i :: 0 <= i < |names| ==> v.items[i] == Str(names[i])
  {
    Arr(seq(|names|, i requires 0 <= i < |names| => Str(names[i])))
  }

  /** An array of strings is joined as it is. */
  lemma StringsResolve(cwd: string, directory: string, names: seq<string>)
    requires IsAbsolute(cwd)
    ensures ResolvePath(cwd, directory, Strs(names)) == ResolveJoined(cwd, directory, names)
  {
    var v := Strs(names);
    assert AsNested(v) == Lift(v.items);
    LeavesOfLift(v.items);
    assert Texts(v.items) == names;
  }

  /** A single string is one segment. */
  lemma StringResolves(cwd: string, directory: string, p: string)
    requires IsAbsolute(cwd)
    ensures ResolvePath(cwd, directory, Str(p)) == ResolveJoined(cwd, directory, [p])
  {
    assert Leaves(AsNested(Str(p))) == [Str(p)];
    assert Texts([Str(p)]) == [p];
  }

  /** A missing path, such as an omitted `toPath`, flattens to `[undefined]`, which `path.join` rejects. */
  lemma MissingPathRejected(cwd: string, directory: string)
    requires IsAbsolute(cwd)
    ensures ResolvePath(cwd, directory, Undefined) == Err(PathSegmentNotString(Undefined))
  {
    assert Leaves(AsNested(Undefined)) == [Undefined];
  }

  /** An empty reference resolves to the root itself. */
  lemma EmptyReferenceIsRoot(cwd: string, directory: string)
    requires IsAbsolute(cwd)
    ensures ResolvePath(cwd, directory, Arr([])) == Ok(PathString(Root(cwd, directory)))
  {
    StringsResolve(cwd, directory, []);
    assert Strs([]) == Arr([]);
  }

  /** References made of plain names that do not start with `..` stay within the root, below it. */
  lemma NamesStayInside(cwd: string, directory: string, names: seq<string>)
    requires IsAbsolute(cwd) && names != [] && Normal(names) && !StartsWith(names[0], "..")
    ensures ResolvePath(cwd, directory, Strs(names)) == Ok(PathString(Root(cwd, directory) + names))
  {
    StringsResolve(cwd, directory, names);
    var root := Root(cwd, directory);
    NonEmptyOfNames(names);
    ComponentsOfNames(names);
    NormalizeNames(root, names, false);
    var t := root + names;
    assert t[..|root|] == root;
    assert t[|root|] == names[0];
  }

  lemma {:induction false} NonEmptyOfNames(names: seq<string>)
    requires Normal(names)
    ensures NonEmpty(names) == names
  {
    if names != [] {
      NonEmptyOfNames(names[1..]);
    }
  }

  lemma {:induction false} ComponentsOfNames(names: seq<string>)
    requires Normal(names)
    ensures Components(names) == names
  {
    if names != [] {
      SplitNoSeparator(names[0]);
      ComponentsOfNames(names[1..]);
    }
  }

  /** A name that merely starts with `..`, such as `..cfg`, is rejected although it lies below the root. */
  lemma DotDotPrefixedNameRejected(cwd: string, directory: string, name: string)
    requires IsAbsolute(cwd) && IsName(name) && StartsWith(name, "..")
    ensures var target := Root(cwd, directory) + [name];
      ResolvePath(cwd, directory, Str(name)) == Err(OutOfBoundsFile(directory, PathString(target)))
  {
    var root := Root(cwd, directory);
    StringResolves(cwd, directory, name);
    NonEmptyOfNames([name]);
    ComponentsOfNames([name]);
    NormalizeNames(root, [name], false);
    assert (root + [name])[|root|] == name;
  }

  /**
   * `['..', '..', a, b]` (for instance `['..', '..', 'etc', 'passwd']`) under a
   * root of two or more components lands two levels up, so it is rejected
   * unless the root itself ends with `a/b`.
   */
  lemma ParentTraversalRejected(cwd: string, directory: string, a: string, b: string)
    requires IsAbsolute(cwd) && |Root(cwd, directory)| >= 2 && IsName(a) && IsName(b)
    ensures var root := Root(cwd, directory);
      var target := root[..|root| - 2] + [a, b];
      ResolvePath(cwd, directory, Strs(["..", "..", a, b])) ==
        if root[|root| - 2..] == [a, b] then Ok(PathString(target))
        else Err(OutOfBoundsFile(directory, PathString(target)))
  {
    var root := Root(cwd, directory);
    var refs := ["..", "..", a, b];
    StringsResolve(cwd, directory, refs);
    TraversalTarget(cwd, directory, a, b);
    WithinAfterTraversal(root, a, b);
  }

  /** Two `..` then two names, from a root of at least two components. */
  lemma TraversalTarget(cwd: string, directory: string, a: string, b: string)
    requires IsAbsolute(cwd) && |Root(cwd, directory)| >= 2 && IsName(a) && IsName(b)
    ensures var root := Root(cwd, directory);
      Target(cwd, directory, ["..", "..", a, b]) == root[..|root| - 2] + [a, b]
  {
    ResolveSegmentsNormal(cwd, [directory]);
    TraversalComponents(a, b);
    TwoUpThenDown(Root(cwd, directory), a, b);
  }

  /** Replacing the last two components stays within the root only when they are unchanged. */
  lemma WithinAfterTraversal(root: seq<string>, a: string, b: string)
    requires |root| >= 2
    ensures Within(root, root[..|root| - 2] + [a, b]) <==> root[|root| - 2..] == [a, b]
  {
    assert root == root[..|root| - 2] + root[|root| - 2..];
  }

  /**
   * Under a root of fewer than two components the surplus `..` are absorbed
   * at `/`, so `['..', '..', a, b]` lands on `/a/b`: it is accepted under `/`
   * and under `/a` (for instance `etc/passwd` under `/etc`).
   */
  lemma ParentTraversalShallowRoot(cwd: string, directory: string, a: string, b: string)
    requires IsAbsolute(cwd) && |Root(cwd, directory)| < 2 && IsName(a) && IsName(b)
    requires !StartsWith(a, "..") && !StartsWith(b, "..")
    ensures var root := Root(cwd, directory);
      ResolvePath(cwd, directory, Strs(["..", "..", a, b])) ==
        if root == [] || root == [a] then Ok(PathString([a, b]))
        else Err(OutOfBoundsFile(directory, PathString([a, b])))
  {
    var root := Root(cwd, directory);
    var refs := ["..", "..", a, b];
    StringsResolve(cwd, directory, refs);
    ShallowTraversalTarget(cwd, directory, a, b);
    WithinTwoNames(root, a, b);
  }

  /** Two `..` then two names, from a root of fewer than two components. */
  lemma ShallowTraversalTarget(cwd: string, directory: string, a: string, b: string)
    requires IsAbsolute(cwd) && |Root(cwd, directory)| < 2 && IsName(a) && IsName(b)
    ensures Target(cwd, directory, ["..", "..", a, b]) == [a, b]
  {
    ResolveSegmentsNormal(cwd, [directory]);
    TraversalComponents(a, b);
    UpFromShallowRoot(Root(cwd, directory), a, b);
  }

  lemma UpFromShallowRoot(root: seq<string>, a: string, b: string)
    requires |root| < 2 && Normal(root) && IsName(a) && IsName(b)
    ensures Normalize(root, ["..", "..", a, b], false) == [a, b]
  {
    var rest := [a, b];
    assert ["..", "..", a, b][1..] == [".."] + rest;
    assert ([".."] + rest)[1..] == rest;
    assert Step(root, "..", false) == [];
    assert Step([], "..", false) == [];
    assert Normalize(root, ["..", "..", a, b], false) == Normalize([], [".."] + rest, false);
    assert Normalize([], [".."] + rest, false) == Normalize([], rest, false);
    NormalizeNames([], rest, false);
  }

  lemma TraversalComponents(a: string, b: string)
    requires IsName(a) && IsName(b)
    ensures NonEmpty(["..", "..", a, b]) == ["..", "..", a, b]
    ensures Components(["..", "..", a, b]) == ["..", "..", a, b]
  {
    var refs := ["..", "..", a, b];
    SplitNoSeparator("..");
    ComponentsOfNames([a, b]);
    NonEmptyOfNames([a, b]);
    assert refs[2..] == [a, b];
    assert Components(refs[1..]) == [".."] + Components(refs[2..]);
  }

  lemma TwoUpThenDown(root: seq<string>, a: string, b: string)
    requires |root| >= 2 && Normal(root) && IsName(a) && IsName(b)
    ensures Normalize(root, ["..", "..", a, b], false) == root[..|root| - 2] + [a, b]
  {
    var once := root[..|root| - 1];
    var up := root[..|root| - 2];
    assert IsName(root[|root| - 1]) && IsName(root[|root| - 2]);
    assert Step(root, "..", false) == once;
    assert once[|once| - 1] == root[|root| - 2];
    assert once[..|once| - 1] == up;
    assert Step(once, "..", false) == up;
    var rest := [a, b];
    assert ["..", "..", a, b][1..] == [".."] + rest;
    assert ([".."] + rest)[1..] == rest;
    assert Normalize(root, ["..", "..", a, b], false) == Normalize(once, [".."] + rest, false);
    assert Normalize(once, [".."] + rest, false) == Normalize(up, rest, false);
    NormalizeNames(up, rest, false);
  }

  /**
   * An absolute first segment ignores the root: `/a/b` (for instance
   * `/etc/passwd`) is accepted only under `/`, `/a` or `/a/b` itself.
   */
  lemma AbsoluteReferenceIgnoresRoot(cwd: string, directory: string, a: string, b: string)
    requires IsAbsolute(cwd) && IsName(a) && IsName(b) && !StartsWith(a, "..") && !StartsWith(b, "..")
    ensures var root := Root(cwd, directory);
      ResolvePath(cwd, directory, Str("/" + a + "/" + b)) ==
        if root in [[], [a], [a, b]] then Ok(PathString([a, b]))
        else Err(OutOfBoundsFile(directory, PathString([a, b])))
  {
    var root := Root(cwd, directory);
    var target := [a, b];
    var p := "/" + a + "/" + b;
    StringResolves(cwd, directory, p);
    AbsoluteTwoNamesTarget(cwd, directory, a, b);
    WithinTwoNames(root, a, b);
  }

  lemma AbsoluteTwoNamesTarget(cwd: string, directory: string, a: string, b: string)
    requires IsAbsolute(cwd) && IsName(a) && IsName(b)
    ensures Target(cwd, directory, ["/" + a + "/" + b]) == [a, b]
  {
    var p := "/" + a + "/" + b;
    assert NonEmpty([p]) == [p];
    assert p == "" + "/" + (a + "/" + b);
    SplitAppend("", a + "/" + b);
    SplitAppend(a, b);
    SplitNoSeparator(a);
    SplitNoSeparator(b);
    assert Components([p]) == Split(p) + [];
    assert Components([p]) == [""] + [a, b];
    NormalizeNames([], [a, b], false);
  }

  lemma WithinTwoNames(root: seq<string>, a: string, b: string)
    requires !StartsWith(a, "..") && !StartsWith(b, "..")
    ensures Within(root, [a, b]) <==> root in [[], [a], [a, b]]
  {
    var target := [a, b];
    if Within(root, target) {
      assert root == target[..|root|];
    }
    if root == [] {
      assert target[0] == a;
    } else if root == [a] {
      assert target[..1] == [a] && target[1] == b;
    } else if root == [a, b] {
      assert target[..2] == target;
    }
  }

  /** An absolute segment after the first is joined like any other: `['a', '/b']` stays below the root, at `a/b`. */
  lemma LaterAbsoluteSegmentIsJoined(cwd: string, directory: string, a: string, b: string)
    requires IsAbsolute(cwd) && IsName(a) && IsName(b) && !StartsWith(a, "..")
    ensures ResolvePath(cwd, directory, Strs([a, "/" + b])) == Ok(PathString(Root(cwd, directory) + [a, b]))
  {
    var root := Root(cwd, directory);
    var refs := [a, "/" + b];
    StringsResolve(cwd, directory, refs);
    LaterAbsoluteTarget(cwd, directory, a, b);
    var t := root + [a, b];
    assert t[..|root|] == root;
    assert t[|root|] == a;
  }

  lemma LaterAbsoluteTarget(cwd: string, directory: string, a: string, b: string)
    requires IsAbsolute(cwd) && IsName(a) && IsName(b)
    ensures Target(cwd, directory, [a, "/" + b]) == Root(cwd, directory) + [a, b]
  {
    var root := Root(cwd, directory);
    var refs := [a, "/" + b];
    assert ("/" + b)[0] == '/';
    assert NonEmpty(refs[1..]) == refs[1..];
    assert NonEmpty(refs) == refs;
    assert "/" + b == "" + "/" + b;
    SplitAppend("", b);
    SplitNoSeparator(b);
    SplitNoSeparator(a);
    assert Components(refs[1..]) == Split("/" + b) + [];
    assert Components(refs) == [a, "", b];
    assert Normalize(root, [a, "", b], false) == Normalize(root + [a], [b], false);
    NormalizeNames(root + [a], [b], false);
  }
}
