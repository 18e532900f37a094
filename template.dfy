/**
 * src/lib/template.js: `template(contents, variables)` replaces every match of
 * the regular expression `/{{([^}]+)}}/g` with `variables[name]`, in one
 * left-to-right pass, and throws `UndefinedTemplateVariable` for the first
 * name that is undefined.
 */
module Template {
  import opened Wrappers

  /** `UndefinedTemplateVariable(variableName)`. */
  datatype TemplateError = UndefinedTemplateVariable(variableName: string)

  /** A piece of template content: one character copied verbatim, or a `{{name}}` placeholder. */
  datatype Piece = Text(c: char) | Placeholder(name: string)

  /** The end of the run of non-`}` characters that starts at `j`. */
  function RunEnd(s: string, j: nat): (e: nat)
    requires j <= |s|
    ensures j <= e <= |s|
    ensures forall k :: j <= k < e ==> s[k] != '}'
    ensures e < |s| ==> s[e] == '}'
    decreases |s| - j
  {
    if j == |s| || s[j] == '}' then j else RunEnd(s, j + 1)
  }

  /**
   * `s[i..e]` is a match of the regular expression `{{([^}]+)}}`: two opening
   * braces, a non-empty run of characters other than `}`, two closing braces.
   */
  predicate IsMatch(s: string, i: nat, e: nat)
  {
    && i + 5 <= e <= |s|
    && s[i] == '{' && s[i + 1] == '{'
    && s[e - 2] == '}' && s[e - 1] == '}'
    && forall k :: i + 2 <= k < e - 2 ==> s[k] != '}'
  }

  /**
   * The regular expression tried at index `i`: the index just past the match,
   * if one starts there. `[^}]+` is greedy and cannot match `}`, so the name
   * runs up to the first `}` and must be followed by `}}`; backtracking cannot
   * help, so a match at `i` is unique.
   */
  function MatchAt(s: string, i: nat): (r: Option<nat>)
    requires i <= |s|
    ensures r.Some? ==> i + 5 <= r.value <= |s|
    ensures forall e: nat :: IsMatch(s, i, e) <==> r == Some(e)
  {
    if i + 2 <= |s| && s[i] == '{' && s[i + 1] == '{' then
      var e := RunEnd(s, i + 2);
      if e > i + 2 && e + 1 < |s| && s[e + 1] == '}' then Some(e + 2) else None
    else None
  }

  /** True when no match of the placeholder expression starts anywhere in `s`. */
  predicate NoPlaceholder(s: string)
  {
    forall i :: 0 <= i < |s| ==> MatchAt(s, i).None?
  }

  /** `contents.replace(...)` from index `i` on: the callback throws for an undefined name. */
  function RenderFrom(s: string, i: nat, variables: map<string, string>): Result<string, TemplateError>
    requires i <= |s|
    decreases |s| - i
  {
    if i == |s| then Ok("")
    else match MatchAt(s, i)
      case Some(e) =>
        var name := s[i + 2..e - 2];
        if name !in variables then Err(UndefinedTemplateVariable(name))
        else (match RenderFrom(s, e, variables)
              case Ok(t) => Ok(variables[name] + t)
              case Err(x) => Err(x))
      case None =>
        match RenderFrom(s, i + 1, variables)
        case Ok(t) => Ok([s[i]] + t)
        case Err(x) => Err(x)
  }

  /**
   * `template(contents, variables)`. A name maps to a defined value exactly
   * when it is a key of `variables`. The one-pass scan equals lexing the
   * content into text and placeholders, then substituting each placeholder.
   */
  function Render(contents: string, variables: map<string, string>): (r: Result<string, TemplateError>)
    ensures r == Fill(Lex(contents), variables)
  {
    RenderFromIsFill(contents, 0, variables);
    RenderFrom(contents, 0, variables)
  }

  /** The same left-to-right scan, producing the pieces instead of the output. */
  function LexFrom(s: string, i: nat): seq<Piece>
    requires i <= |s|
    decreases |s| - i
  {
    if i == |s| then []
    else match MatchAt(s, i)
      case Some(e) => [Placeholder(s[i + 2..e - 2])] + LexFrom(s, e)
      case None => [Text(s[i])] + LexFrom(s, i + 1)
  }

  function Lex(s: string): seq<Piece>
  {
    LexFrom(s, 0)
  }

  /** The source text a sequence of pieces stands for. */
  function Unlex(p: seq<Piece>): string
  {
    if p == [] then ""
    else (match p[0]
          case Text(c) => [c]
          case Placeholder(n) => "{{" + n + "}}") + Unlex(p[1..])
  }

  /** Reference substitution: text verbatim, each placeholder by its value, failing on the first undefined name. */
  function Fill(p: seq<Piece>, variables: map<string, string>): Result<string, TemplateError>
  {
    if p == [] then Ok("")
    else match p[0]
      case Text(c) =>
        (match Fill(p[1..], variables)
         case Ok(t) => Ok([c] + t)
         case Err(x) => Err(x))
      case Placeholder(n) =>
        if n !in variables then Err(UndefinedTemplateVariable(n))
        else (match Fill(p[1..], variables)
              case Ok(t) => Ok(variables[n] + t)
              case Err(x) => Err(x))
  }

  lemma {:induction false} UnlexAppend(p: seq<Piece>, q: seq<Piece>)
    ensures Unlex(p + q) == Unlex(p) + Unlex(q)
    decreases |p|
  {
    if p != [] {
      assert (p + q)[1..] == p[1..] + q;
      UnlexAppend(p[1..], q);
    } else {
      assert p + q == q;
    }
  }

  lemma {:induction false} LexFromUnlex(s: string, i: nat)
    requires i <= |s|
    ensures Unlex(LexFrom(s, i)) == s[i..]
    decreases |s| - i
  {
    if i < |s| {
      match MatchAt(s, i)
      case Some(e) =>
        LexFromUnlex(s, e);
        var e' := RunEnd(s, i + 2);
        assert e == e' + 2;
        assert s[i..] == "{{" + s[i + 2..e - 2] + "}}" + s[e..];
      case None =>
        LexFromUnlex(s, i + 1);
        assert s[i..] == [s[i]] + s[i + 1..];
    }
  }

  /** Lexing loses nothing: the pieces spell out the content again, text outside placeholders verbatim. */
  lemma LexRoundTrip(s: string)
    ensures Unlex(Lex(s)) == s
  {
    LexFromUnlex(s, 0);
  }

  lemma {:induction false} LexFromNames(s: string, i: nat)
    requires i <= |s|
    ensures forall k :: 0 <= k < |LexFrom(s, i)| && LexFrom(s, i)[k].Placeholder? ==>
              LexFrom(s, i)[k].name != [] && '}' !in LexFrom(s, i)[k].name
    decreases |s| - i
  {
    if i < |s| {
      match MatchAt(s, i)
      case Some(e) =>
        LexFromNames(s, e);
        var n := s[i + 2..e - 2];
        assert forall k :: 0 <= k < |n| ==> n[k] == s[i + 2 + k];
      case None =>
        LexFromNames(s, i + 1);
    }
  }

  /** Placeholder names are non-empty runs of characters other than `}`. */
  lemma PlaceholderNames(s: string)
    ensures forall k :: 0 <= k < |Lex(s)| && Lex(s)[k].Placeholder? ==>
              Lex(s)[k].name != [] && '}' !in Lex(s)[k].name
  {
    LexFromNames(s, 0);
  }

  lemma {:induction false} RenderFromIsFill(s: string, i: nat, variables: map<string, string>)
    requires i <= |s|
    ensures RenderFrom(s, i, variables) == Fill(LexFrom(s, i), variables)
    decreases |s| - i
  {
    if i < |s| {
      match MatchAt(s, i)
      case Some(e) =>
        RenderFromIsFill(s, e, variables);
        assert LexFrom(s, i)[1..] == LexFrom(s, e);
      case None =>
        RenderFromIsFill(s, i + 1, variables);
        assert LexFrom(s, i)[1..] == LexFrom(s, i + 1);
    }
  }

  /**
   * Substitution fails exactly when some placeholder is undefined, and the
   * error names the first such placeholder, left to right.
   */
  lemma {:induction false} FillFailsOnFirstUndefined(p: seq<Piece>, variables: map<string, string>, n: string)
    ensures Fill(p, variables) == Err(UndefinedTemplateVariable(n)) <==>
      exists k :: 0 <= k < |p| && p[k] == Placeholder(n) && n !in variables &&
        forall j :: 0 <= j < k && p[j].Placeholder? ==> p[j].name in variables
  {
    if p != [] {
      FillFailsOnFirstUndefined(p[1..], variables, n);
      if Fill(p, variables) == Err(UndefinedTemplateVariable(n)) {
        if p[0] != Placeholder(n) || n in variables {
          var k :| 0 <= k < |p[1..]| && p[1..][k] == Placeholder(n) && n !in variables &&
            forall j :: 0 <= j < k && p[1..][j].Placeholder? ==> p[1..][j].name in variables;
          assert forall j :: 1 <= j < k + 1 ==> p[j] == p[1..][j - 1];
        }
      }
      if exists k :: 0 <= k < |p| && p[k] == Placeholder(n) && n !in variables &&
           forall j :: 0 <= j < k && p[j].Placeholder? ==> p[j].name in variables {
        var k :| 0 <= k < |p| && p[k] == Placeholder(n) && n !in variables &&
          forall j :: 0 <= j < k && p[j].Placeholder? ==> p[j].name in variables;
        if k > 0 {
          assert p[1..][k - 1] == Placeholder(n);
          assert forall j :: 0 <= j < k - 1 && p[1..][j].Placeholder? ==> p[1..][j].name in variables by {
            assert forall j :: 0 <= j < k - 1 ==> p[1..][j] == p[j + 1];
          }
        }
      }
    }
  }

  /** Substitution succeeds exactly when every placeholder names a defined variable. */
  lemma {:induction false} FillSucceeds(p: seq<Piece>, variables: map<string, string>)
    ensures Fill(p, variables).Ok? <==> forall k :: 0 <= k < |p| && p[k].Placeholder? ==> p[k].name in variables
  {
    if p != [] {
      FillSucceeds(p[1..], variables);
      assert forall k :: 1 <= k < |p| ==> p[k] == p[1..][k - 1];
    }
  }

  /** Rendering fails with `UndefinedTemplateVariable(n)` exactly when `n` is the first undefined placeholder. */
  lemma RenderFailsOnFirstUndefined(contents: string, variables: map<string, string>, n: string)
    ensures Render(contents, variables) == Err(UndefinedTemplateVariable(n)) <==>
      var p := Lex(contents);
      exists k :: 0 <= k < |p| && p[k] == Placeholder(n) && n !in variables &&
        forall j :: 0 <= j < k && p[j].Placeholder? ==> p[j].name in variables
  {
    FillFailsOnFirstUndefined(Lex(contents), variables, n);
  }

  lemma {:induction false} RenderFromNoPlaceholder(s: string, i: nat, variables: map<string, string>)
    requires i <= |s| && NoPlaceholder(s)
    ensures RenderFrom(s, i, variables) == Ok(s[i..])
    decreases |s| - i
  {
    if i < |s| {
      RenderFromNoPlaceholder(s, i + 1, variables);
      assert s[i..] == [s[i]] + s[i + 1..];
    }
  }

  /** Content without a placeholder is returned unchanged, whatever the variables. */
  lemma NoPlaceholderUnchanged(contents: string, variables: map<string, string>)
    requires NoPlaceholder(contents)
    ensures Render(contents, variables) == Ok(contents)
  {
    RenderFromNoPlaceholder(contents, 0, variables);
  }

  /** Rendering an output that holds no placeholder syntax gives that output again. */
  lemma RenderIdempotent(contents: string, variables: map<string, string>)
    requires Render(contents, variables).Ok? && NoPlaceholder(Render(contents, variables).value)
    ensures Render(Render(contents, variables).value, variables) == Render(contents, variables)
  {
    NoPlaceholderUnchanged(Render(contents, variables).value, variables);
  }

  /**
   * A lone placeholder renders to exactly its variable's value, even when that
   * value contains placeholder syntax (no second pass), and even when it is the
   * empty string (only an undefined value fails).
   */
  lemma SinglePlaceholder(name: string, variables: map<string, string>)
    requires name != [] && '}' !in name
    ensures Render("{{" + name + "}}", variables) ==
      if name in variables then Ok(variables[name]) else Err(UndefinedTemplateVariable(name))
  {
    var s := "{{" + name + "}}";
    var e := RunEnd(s, 2);
    assert forall k :: 2 <= k < |name| + 2 ==> s[k] == name[k - 2];
    assert s[|name| + 2] == '}';
    assert e == |name| + 2;
    assert MatchAt(s, 0) == Some(|s|);
    assert s[2..|s| - 2] == name;
    assert RenderFrom(s, |s|, variables) == Ok("");
    if name in variables {
      assert variables[name] + "" == variables[name];
    }
  }

  /** `{{}}` has no name, so it is not a placeholder and stays verbatim. */
  lemma EmptyBracesVerbatim(variables: map<string, string>)
    ensures Render("{{}}", variables) == Ok("{{}}")
  {
    var s := "{{}}";
    assert RunEnd(s, 2) == 2;
    assert RunEnd(s, 3) == 3;
    assert forall i :: 0 <= i < |s| ==> MatchAt(s, i).None?;
    NoPlaceholderUnchanged(s, variables);
  }

  /** In `{{{a}}` the match starts at the first brace and the name is `{a`. */
  lemma BraceInName()
    ensures Lex("{{{a}}") == [Placeholder("{a")]
  {
    var s := "{{{a}}";
    assert RunEnd(s, 4) == 4;
    assert RunEnd(s, 2) == 4;
    assert MatchAt(s, 0) == Some(6);
    assert s[2..4] == "{a";
  }
}
