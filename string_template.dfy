/**
 * String templating (src/stringTemplate.ts): `{{root.path}}` placeholders
 * resolved by a dotted lookup into the request's params, query or body.
 */
module StringTemplate {
  import opened Json
  import opened Text
  import opened TokenScan

  /** Path parameters and query are records; the body is any value or `undefined`. */
  datatype TemplateContext = TemplateContext(
    params: seq<(string, Value)>,
    query: seq<(string, Value)>,
    body: Option<Value>)

  /**
   * One segment of the lookup: undefined or null stops it, so does any value
   * whose `typeof` is not "object"; objects and arrays are indexed.
   */
  function Step(cur: Option<Value>, part: string): Option<Value>
  {
    if cur.None? then None
    else match cur.value
      case JObj(_) => Member(cur.value, part)
      case JArr(_) => Member(cur.value, part)
      case _ => None
  }

  function Walk(cur: Option<Value>, parts: seq<string>): Option<Value>
    decreases |parts|
  {
    if parts == [] then cur else Walk(Step(cur, parts[0]), parts[1..])
  }

  /** What `getPathValue(obj, path)` returns. */
  function PathValue(obj: Option<Value>, path: string): Option<Value>
  {
    if path == "" then None else Walk(obj, Split(path, '.'))
  }

  /** `getPathValue`: the loop over the dot segments, returning early. */
  method GetPathValue(obj: Option<Value>, path: string) returns (r: Option<Value>)
    ensures r == PathValue(obj, path)
  {
    if path == "" {
      return None;
    }
    var parts := Split(path, '.');
    var current := obj;
    var i := 0;
    while i < |parts|
      invariant 0 <= i <= |parts|
      invariant Walk(current, parts[i..]) == Walk(obj, parts)
    {
      assert parts[i..][1..] == parts[i + 1..];
      if current.None? || current.value == JNull {
        WalkNone(parts[i + 1..]);
        return None;
      }
      if !(current.value.JObj? || current.value.JArr?) {
        WalkNone(parts[i + 1..]);
        return None;
      }
      current := Member(current.value, parts[i]);
      i := i + 1;
    }
    assert parts[i..] == [];
    return current;
  }

  // ---------------------------------------------------------------------------
  // Properties of the lookup

  /** Once the lookup has stopped it stays stopped. */
  lemma {:induction false} WalkNone(parts: seq<string>)
    ensures Walk(None, parts) == None
    decreases |parts|
  {
    if parts != [] {
      WalkNone(parts[1..]);
    }
  }

  lemma {:induction false} WalkAppend(cur: Option<Value>, p: seq<string>, q: seq<string>)
    ensures Walk(cur, p + q) == Walk(Walk(cur, p), q)
    decreases |p|
  {
    if p == [] {
      assert p + q == q;
    } else {
      assert (p + q)[1..] == p[1..] + q;
      WalkAppend(Step(cur, p[0]), p[1..], q);
    }
  }

  /** `getPathValue` with an empty path is undefined. */
  lemma EmptyPathUndefined(obj: Option<Value>)
    ensures PathValue(obj, "") == None
  {
  }

  /** A single segment is a plain property access on an object. */
  lemma SingleKey(fields: seq<(string, Value)>, key: string)
    requires key != "" && forall k :: 0 <= k < |key| ==> key[k] != '.'
    ensures PathValue(Some(JObj(fields)), key) == Get(fields, key)
  {
    SplitPlain(key, '.');
    assert Walk(Some(JObj(fields)), [key]) == Walk(Member(JObj(fields), key), []);
  }

  /** A dotted path is looked up one part at a time: `a.b` is `b` inside `a`. */
  lemma PathConcat(obj: Option<Value>, p: string, q: string)
    requires p != "" && q != ""
    ensures PathValue(obj, p + "." + q) == PathValue(PathValue(obj, p), q)
  {
    SplitAppend(p, q, '.');
    WalkAppend(obj, Split(p, '.'), Split(q, '.'));
  }

  /** Strings, numbers, booleans and null are never looked into, and neither is undefined. */
  lemma ScalarStops(v: Option<Value>, path: string)
    requires v.None? || !(v.value.JObj? || v.value.JArr?)
    ensures PathValue(v, path) == None
  {
    if path != "" {
      var parts := Split(path, '.');
      WalkNone(parts[1..]);
    }
  }

  /**
   * The lookup yields a value only by passing through objects and arrays: a
   * defined result after a first segment means the first step reached it.
   */
  lemma DefinedThroughObjects(obj: Option<Value>, key: string, rest: string)
    requires key != "" && rest != "" && forall k :: 0 <= k < |key| ==> key[k] != '.'
    requires PathValue(obj, key + "." + rest).Some?
    ensures obj.Some? && (obj.value.JObj? || obj.value.JArr?)
  {
    PathConcat(obj, key, rest);
    SplitPlain(key, '.');
    assert PathValue(obj, key) == Walk(Step(obj, key), []);
    if obj.None? || !(obj.value.JObj? || obj.value.JArr?) {
      ScalarStops(PathValue(obj, key), rest);
    }
  }

  // ---------------------------------------------------------------------------
  // Rendering

  /** The root a placeholder names: params, query or body, or none. */
  function Source(root: string, ctx: TemplateContext): Option<Option<Value>>
  {
    if root == "params" then Some(Some(JObj(ctx.params)))
    else if root == "query" then Some(Some(JObj(ctx.query)))
    else if root == "body" then Some(ctx.body)
    else None
  }

  /**
   * The text a resolved value is replaced by: nothing for undefined or null,
   * a string verbatim, a number or boolean through `String`, anything else as
   * its JSON text.
   */
  function Show(v: Option<Value>): string
  {
    if IsNullish(v) then ""
    else if v.value.JStr? then v.value.s
    else if v.value.JNum? || v.value.JBool? then ToJsString(v.value)
    else Stringify(v.value)
  }

  /** `replaceToken`. */
  function ReplaceToken(root: string, path: string, ctx: TemplateContext): string
  {
    match Source(root, ctx)
    case None => ""
    case Some(src) => Show(PathValue(src, path))
  }

  /** `renderStringTemplate(input, ctx)`: text without a `{` comes back as it is (PlainTextUnchanged covers any text without a placeholder). */
  function RenderStringTemplate(input: string, ctx: TemplateContext): (r: string)
    ensures (forall k :: 0 <= k < |input| ==> input[k] != '{') ==> r == input
  {
    var f := (root, path) => ReplaceToken(root, path, ctx);
    NoBraceFixed(input, f);
    Substitute(Tokenize(input), f)
  }

  // ---------------------------------------------------------------------------
  // Properties of rendering

  /** A non-string scalar shows as its JSON text, which is its `String` form. */
  lemma ShowScalarIsJson(v: Value)
    requires v.JNum? || v.JBool?
    ensures Show(Some(v)) == Stringify(v) == ToJsString(v)
  {
  }

  /** A string in which no placeholder starts is returned unchanged, even when it holds braces. */
  lemma PlainTextUnchanged(input: string, ctx: TemplateContext)
    requires NoToken(input)
    ensures RenderStringTemplate(input, ctx) == input
  {
    NoTokenUnchanged(input, (root, path) => ReplaceToken(root, path, ctx));
  }

  /**
   * A placeholder is replaced by the text of the value it names and the rest
   * is rendered on its own; the inserted text is not scanned.
   */
  lemma TokenRendersThenRest(w1: string, root: string, path: string, w2: string, rest: string, ctx: TemplateContext)
    requires AllWs(w1) && AllWs(w2)
    requires |root| >= 1 && AllRoot(root)
    requires |path| >= 1 && AllPath(path)
    ensures RenderStringTemplate(TokenText(w1, root, path, w2) + rest, ctx) ==
            ReplaceToken(root, path, ctx) + RenderStringTemplate(rest, ctx)
  {
    TokenThenRest(w1, root, path, w2, rest, (root, path) => ReplaceToken(root, path, ctx));
  }

  /** Text before the first "{" is copied and the rest is rendered on its own. */
  lemma LiteralThenRest(lit: string, rest: string, ctx: TemplateContext)
    requires forall k :: 0 <= k < |lit| ==> lit[k] != '{'
    ensures RenderStringTemplate(lit + rest, ctx) == lit + RenderStringTemplate(rest, ctx)
  {
    var f := (root, path) => ReplaceToken(root, path, ctx);
    LiteralPrefix(lit, rest);
    SubstituteAppend(Lits(lit), Tokenize(rest), f);
    SubstituteLits(lit, f);
  }

  /** Braces that form no placeholder are kept: "{a}" and "{{x}}" (no dot) render to themselves. */
  lemma BracesWithoutPlaceholderKept(ctx: TemplateContext)
    ensures RenderStringTemplate("{a}", ctx) == "{a}"
    ensures RenderStringTemplate("{{x}}", ctx) == "{{x}}"
  {
    var s := "{a}";
    assert NoToken(s) by {
      forall i | 0 <= i < |s| ensures MatchToken(s[i..]).None? {
        assert s[i..][0] != '{' || s[i..][1] != '{';
      }
    }
    var t := "{{x}}";
    assert NoToken(t) by {
      forall i | 0 <= i < |t| ensures MatchToken(t[i..]).None? {
        if i == 0 {
          assert Span(t, 2, IsWs) == 2;
          assert Span(t, 2, IsRootChar) == 3;
        } else {
          assert |t[i..]| < 2 || t[i..][0] != '{' || t[i..][1] != '{';
        }
      }
    }
    PlainTextUnchanged(s, ctx);
    PlainTextUnchanged(t, ctx);
  }

  /** A placeholder with a root other than params, query and body disappears. */
  lemma UnknownRootRemoved(root: string, path: string, rest: string, ctx: TemplateContext)
    requires |root| >= 1 && AllRoot(root) && |path| >= 1 && AllPath(path)
    requires root != "params" && root != "query" && root != "body"
    ensures RenderStringTemplate(TokenText("", root, path, "") + rest, ctx) == RenderStringTemplate(rest, ctx)
  {
    assert Source(root, ctx) == None;
    NothingShownRemoved(root, path, rest, ctx);
  }

  /** A placeholder naming nothing, or null, disappears. */
  lemma MissingValueRemoved(root: string, path: string, rest: string, ctx: TemplateContext)
    requires |root| >= 1 && AllRoot(root) && |path| >= 1 && AllPath(path)
    requires Source(root, ctx).Some? && IsNullish(PathValue(Source(root, ctx).value, path))
    ensures RenderStringTemplate(TokenText("", root, path, "") + rest, ctx) == RenderStringTemplate(rest, ctx)
  {
    assert ReplaceToken(root, path, ctx) == "";
    NothingShownRemoved(root, path, rest, ctx);
  }

  /** A placeholder replaced by the empty text leaves only the rest. */
  lemma NothingShownRemoved(root: string, path: string, rest: string, ctx: TemplateContext)
    requires |root| >= 1 && AllRoot(root) && |path| >= 1 && AllPath(path)
    requires ReplaceToken(root, path, ctx) == ""
    ensures RenderStringTemplate(TokenText("", root, path, "") + rest, ctx) == RenderStringTemplate(rest, ctx)
  {
    TokenRendersThenRest("", root, path, "", rest, ctx);
    var r := RenderStringTemplate(rest, ctx);
    assert "" + r == r;
  }

  /** A placeholder naming a string is replaced by that string, verbatim and unquoted. */
  lemma StringInsertedVerbatim(root: string, path: string, s: string, rest: string, ctx: TemplateContext)
    requires |root| >= 1 && AllRoot(root) && |path| >= 1 && AllPath(path)
    requires Source(root, ctx).Some? && PathValue(Source(root, ctx).value, path) == Some(JStr(s))
    ensures RenderStringTemplate(TokenText("", root, path, "") + rest, ctx) == s + RenderStringTemplate(rest, ctx)
  {
    TokenRendersThenRest("", root, path, "", rest, ctx);
  }

  /** A placeholder naming an array or an object is replaced by its JSON text. */
  lemma CompoundShownAsJson(root: string, path: string, v: Value, rest: string, ctx: TemplateContext)
    requires |root| >= 1 && AllRoot(root) && |path| >= 1 && AllPath(path)
    requires v.JArr? || v.JObj?
    requires Source(root, ctx).Some? && PathValue(Source(root, ctx).value, path) == Some(v)
    ensures RenderStringTemplate(TokenText("", root, path, "") + rest, ctx) == Stringify(v) + RenderStringTemplate(rest, ctx)
  {
    TokenRendersThenRest("", root, path, "", rest, ctx);
  }

  lemma ParamsRoot()
    ensures AllRoot("params") && AllRoot("body")
  {
    assert forall k :: 0 <= k < 6 ==> IsRootChar("params"[k]);
    assert forall k :: 0 <= k < 4 ==> IsRootChar("body"[k]);
  }

  /**
   * `{{params.<key>}}` renders as the path parameter's text: with `id` bound
   * to "42", `{{params.id}}` gives "42".
   */
  lemma ParamPlaceholder(key: string, text: string, ctx: TemplateContext)
    requires |key| >= 1 && AllPath(key) && forall k :: 0 <= k < |key| ==> key[k] != '.'
    requires Get(ctx.params, key) == Some(JStr(text))
    ensures RenderStringTemplate(TokenText("", "params", key, ""), ctx) == text
  {
    ParamsRoot();
    TokenRendersThenRest("", "params", key, "", "", ctx);
    var t := TokenText("", "params", key, "");
    assert t + "" == t;
    SingleKey(ctx.params, key);
    assert Source("params", ctx) == Some(Some(JObj(ctx.params)));
    assert ReplaceToken("params", key, ctx) == text;
  }

  /**
   * `{{body.<outer>.<inner>}}` resolves through a nested object: with body
   * `{profile: {name: "Mia"}}`, `{{body.profile.name}}` gives "Mia".
   */
  lemma NestedBodyPlaceholder(outer: string, inner: string, nested: seq<(string, Value)>, text: string, ctx: TemplateContext)
    requires |outer| >= 1 && AllPath(outer) && forall k :: 0 <= k < |outer| ==> outer[k] != '.'
    requires |inner| >= 1 && AllPath(inner) && forall k :: 0 <= k < |inner| ==> inner[k] != '.'
    requires ctx.body.Some? && ctx.body.value.JObj?
    requires Get(ctx.body.value.fields, outer) == Some(JObj(nested))
    requires Get(nested, inner) == Some(JStr(text))
    ensures RenderStringTemplate(TokenText("", "body", outer + "." + inner, ""), ctx) == text
  {
    ParamsRoot();
    var path := outer + "." + inner;
    assert AllPath(path) by {
      forall k | 0 <= k < |path| ensures IsPathChar(path[k]) {
        if k < |outer| { assert path[k] == outer[k]; }
        else if k > |outer| { assert path[k] == inner[k - |outer| - 1]; }
      }
    }
    TokenRendersThenRest("", "body", path, "", "", ctx);
    var t := TokenText("", "body", path, "");
    assert t + "" == t;
    PathConcat(ctx.body, outer, inner);
    SingleKey(ctx.body.value.fields, outer);
    SingleKey(nested, inner);
  }
}
