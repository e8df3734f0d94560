/**
 * The older templater (src/template.ts): the same placeholder syntax, a
 * laxer path lookup, and a structural renderer without directives.
 */
module LegacyTemplate {
  import opened Json
  import opened Text
  import opened TokenScan
  import StringTemplate

  type TemplateContext = StringTemplate.TemplateContext

  /** One segment of `getPath`: only undefined and null stop it. */
  function Step(cur: Option<Value>, part: string): Option<Value>
  {
    if IsNullish(cur) then None else Member(cur.value, part)
  }

  function Walk(cur: Option<Value>, parts: seq<string>): Option<Value>
    decreases |parts|
  {
    if parts == [] then cur else Walk(Step(cur, parts[0]), parts[1..])
  }

  /** What `getPath(obj, path)` returns. */
  function PathValue(obj: Option<Value>, path: string): Option<Value>
  {
    if path == "" then None else Walk(obj, Split(path, '.'))
  }

  /** `getPath`: the loop over the dot segments. */
  method GetPath(obj: Option<Value>, path: string) returns (r: Option<Value>)
    ensures r == PathValue(obj, path)
  {
    if path == "" {
      return None;
    }
    var parts := Split(path, '.');
    var cur := obj;
    var i := 0;
    while i < |parts|
      invariant 0 <= i <= |parts|
      invariant Walk(cur, parts[i..]) == Walk(obj, parts)
    {
      assert parts[i..][1..] == parts[i + 1..];
      if cur.None? || cur.value == JNull {
        WalkNone(parts[i + 1..]);
        return None;
      }
      cur := Member(cur.value, parts[i]);
      i := i + 1;
    }
    assert parts[i..] == [];
    return cur;
  }

  lemma {:induction false} WalkNone(parts: seq<string>)
    ensures Walk(None, parts) == None
    decreases |parts|
  {
    if parts != [] {
      WalkNone(parts[1..]);
    }
  }

  /** `getPath` with an empty path is undefined. */
  lemma EmptyPathUndefined(obj: Option<Value>)
    ensures PathValue(obj, "") == None
  {
  }

  /**
   * Wherever the newer lookup finds a value the older one finds the same: the
   * two differ only where `getPathValue` gives up at a non-object.
   */
  lemma {:induction false} WalkAgrees(cur: Option<Value>, parts: seq<string>)
    requires StringTemplate.Walk(cur, parts).Some?
    ensures Walk(cur, parts) == StringTemplate.Walk(cur, parts)
    decreases |parts|
  {
    if parts != [] {
      var next := StringTemplate.Step(cur, parts[0]);
      if next.None? {
        StringTemplate.WalkNone(parts[1..]);
      }
      assert cur.Some? && (cur.value.JObj? || cur.value.JArr?);
      assert Step(cur, parts[0]) == next;
      WalkAgrees(next, parts[1..]);
    }
  }

  lemma PathAgrees(obj: Option<Value>, path: string)
    requires StringTemplate.PathValue(obj, path).Some?
    ensures PathValue(obj, path) == StringTemplate.PathValue(obj, path)
  {
    WalkAgrees(obj, Split(path, '.'));
  }

  /** Where they differ: the older lookup indexes into a string, the newer one stops. */
  lemma StringIndexDiffers()
    ensures PathValue(Some(JStr("ab")), "0") == Some(JStr("a"))
    ensures StringTemplate.PathValue(Some(JStr("ab")), "0") == None
  {
    SplitPlain("0", '.');
    assert CanonicalIndex("0") == Some(0) by { assert DigitsValue("0") == 0; }
  }

  // ---------------------------------------------------------------------------
  // Rendering strings

  /** The placeholder callback of src/template.ts. */
  function ReplaceToken(root: string, path: string, ctx: TemplateContext): string
  {
    match StringTemplate.Source(root, ctx)
    case None => ""
    case Some(src) => StringTemplate.Show(PathValue(src, path))
  }

  /** `renderStringTemplate(input, ctx)` of src/template.ts: text without a `{` comes back as it is (PlainTextUnchanged covers any text without a placeholder). */
  function RenderStringTemplate(input: string, ctx: TemplateContext): (r: string)
    ensures (forall k :: 0 <= k < |input| ==> input[k] != '{') ==> r == input
  {
    var f := (root, path) => ReplaceToken(root, path, ctx);
    NoBraceFixed(input, f);
    Substitute(Tokenize(input), f)
  }

  /** A string in which no placeholder starts is returned unchanged, even when it holds braces. */
  lemma PlainTextUnchanged(input: string, ctx: TemplateContext)
    requires NoToken(input)
    ensures RenderStringTemplate(input, ctx) == input
  {
    NoTokenUnchanged(input, (root, path) => ReplaceToken(root, path, ctx));
  }

  /** Each placeholder is replaced by the text of the value it names, the rest rendered on its own. */
  lemma TokenRendersThenRest(w1: string, root: string, path: string, w2: string, rest: string, ctx: TemplateContext)
    requires AllWs(w1) && AllWs(w2)
    requires |root| >= 1 && AllRoot(root)
    requires |path| >= 1 && AllPath(path)
    ensures RenderStringTemplate(TokenText(w1, root, path, w2) + rest, ctx) ==
            ReplaceToken(root, path, ctx) + RenderStringTemplate(rest, ctx)
  {
    TokenThenRest(w1, root, path, w2, rest, (root, path) => ReplaceToken(root, path, ctx));
  }

  /** A placeholder with a root other than params, query and body disappears. */
  lemma UnknownRootRemoved(root: string, path: string, rest: string, ctx: TemplateContext)
    requires |root| >= 1 && AllRoot(root) && |path| >= 1 && AllPath(path)
    requires root != "params" && root != "query" && root != "body"
    ensures RenderStringTemplate(TokenText("", root, path, "") + rest, ctx) == RenderStringTemplate(rest, ctx)
  {
    TokenRendersThenRest("", root, path, "", rest, ctx);
    var r := RenderStringTemplate(rest, ctx);
    assert "" + r == r;
  }

  /** Where the newer lookup resolves a placeholder, both templaters insert the same text. */
  lemma ReplaceAgrees(root: string, path: string, ctx: TemplateContext)
    requires StringTemplate.Source(root, ctx).Some?
    requires StringTemplate.PathValue(StringTemplate.Source(root, ctx).value, path).Some?
    ensures ReplaceToken(root, path, ctx) == StringTemplate.ReplaceToken(root, path, ctx)
  {
    PathAgrees(StringTemplate.Source(root, ctx).value, path);
  }

  // ---------------------------------------------------------------------------
  // Rendering values

  /**
   * What `renderTemplate(value, ctx)` returns: strings are rendered, other
   * scalars kept, an array stays an array of the same length and an object
   * an object with the same keys in the same order.
   */
  function Expand(v: Value, ctx: TemplateContext): (r: Value)
    ensures v.JStr? <==> r.JStr?
    ensures v.JNum? || v.JBool? || v.JNull? ==> r == v
    ensures v.JArr? ==> r.JArr? && |r.items| == |v.items|
    ensures v.JObj? ==> r.JObj? && Keys(r.fields) == Keys(v.fields)
  {
    match v
    case JStr(s) => JStr(RenderStringTemplate(s, ctx))
    case JArr(items) => JArr(seq(|items|, i requires 0 <= i < |items| => Expand(items[i], ctx)))
    case JObj(fields) => JObj(seq(|fields|, i requires 0 <= i < |fields| => (fields[i].0, Expand(fields[i].1, ctx))))
    case _ => v
  }

  /** `renderTemplate`: arrays mapped, objects filled key by key into a fresh object. */
  method RenderTemplate(v: Value, ctx: TemplateContext) returns (r: Value)
    ensures r == Expand(v, ctx)
    decreases v
  {
    match v {
      case JStr(s) =>
        r := JStr(RenderStringTemplate(s, ctx));
      case JArr(items) =>
        var out: seq<Value> := [];
        var i := 0;
        while i < |items|
          invariant 0 <= i <= |items|
          invariant |out| == i
          invariant forall k :: 0 <= k < i ==> out[k] == Expand(items[k], ctx)
        {
          assert items[i] in items;
          var x := RenderTemplate(items[i], ctx);
          out := out + [x];
          i := i + 1;
        }
        assert out == seq(|items|, k requires 0 <= k < |items| => Expand(items[k], ctx));
        r := JArr(out);
      case JObj(fields) =>
        var out: seq<(string, Value)> := [];
        var i := 0;
        while i < |fields|
          invariant 0 <= i <= |fields|
          invariant |out| == i
          invariant forall k :: 0 <= k < i ==> out[k] == (fields[k].0, Expand(fields[k].1, ctx))
        {
          assert fields[i] in fields;
          var x := RenderTemplate(fields[i].1, ctx);
          out := out + [(fields[i].0, x)];
          i := i + 1;
        }
        assert out == seq(|fields|, k requires 0 <= k < |fields| => (fields[k].0, Expand(fields[k].1, ctx)));
        r := JObj(out);
      case _ =>
        r := v;
    }
  }

  // ---------------------------------------------------------------------------
  // Properties of rendering values

  /** Numbers, booleans and null are returned as they are. */
  lemma ScalarsUnchanged(v: Value, ctx: TemplateContext)
    requires v.JNull? || v.JBool? || v.JNum?
    ensures Expand(v, ctx) == v
  {
  }

  /**
   * Rendering rewrites strings only: arrays keep their length and order,
   * objects their keys and order, scalars their value. In particular a
   * `__faker` or `__repeat` key is kept as an ordinary key.
   */
  lemma {:induction false} ShapePreserved(v: Value, ctx: TemplateContext)
    ensures Shape(Expand(v, ctx)) == Shape(v)
    decreases v
  {
    match v
    case JArr(items) =>
      forall i | 0 <= i < |items| ensures Shape(Expand(items[i], ctx)) == Shape(items[i]) {
        ShapePreserved(items[i], ctx);
      }
    case JObj(fields) =>
      forall i | 0 <= i < |fields| ensures Shape(Expand(fields[i].1, ctx)) == Shape(fields[i].1) {
        ShapePreserved(fields[i].1, ctx);
      }
    case _ =>
  }

  /** An object's keys come out in the same order. */
  lemma KeysPreserved(fields: seq<(string, Value)>, ctx: TemplateContext)
    ensures Expand(JObj(fields), ctx).JObj?
    ensures Keys(Expand(JObj(fields), ctx).fields) == Keys(fields)
  {
  }

  /** A value whose strings hold no placeholder renders to itself. */
  lemma {:induction false} BraceFreeUnchanged(v: Value, ctx: TemplateContext)
    requires BraceFree(v)
    ensures Expand(v, ctx) == v
    decreases v
  {
    match v
    case JStr(s) =>
      BraceFreeNoToken(s);
      PlainTextUnchanged(s, ctx);
    case JArr(items) =>
      forall i | 0 <= i < |items| ensures Expand(items[i], ctx) == items[i] {
        BraceFreeUnchanged(items[i], ctx);
      }
      assert Expand(v, ctx).items == items;
    case JObj(fields) =>
      forall i | 0 <= i < |fields| ensures Expand(fields[i].1, ctx) == fields[i].1 {
        BraceFreeUnchanged(fields[i].1, ctx);
      }
      assert Expand(v, ctx).fields == fields;
    case _ =>
  }
}
