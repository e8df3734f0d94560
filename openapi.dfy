/**
 * OpenAPI document derivation (src/openapi.ts): Fastify paths turned into
 * OpenAPI templates, path and query parameters, request bodies and example
 * responses collected from an endpoint and its variants, and one `paths`
 * entry per converted path holding one operation per method.
 */
module OpenApi {
  import opened Json
  import Text
  import RequestMatch

  // ---------------------------------------------------------------------------
  // Paths: the matches of /:([A-Za-z0-9_]+)/g

  predicate NameChar(c: char)
  {
    ('A' <= c <= 'Z') || ('a' <= c <= 'z') || ('0' <= c <= '9') || c == '_'
  }

  /** The end of the run of name characters starting at `i`. */
  function NameRun(s: string, i: nat): (j: nat)
    requires i <= |s|
    ensures i <= j <= |s|
    ensures forall k :: i <= k < j ==> NameChar(s[k])
    ensures j < |s| ==> !NameChar(s[j])
    decreases |s| - i
  {
    if i < |s| && NameChar(s[i]) then NameRun(s, i + 1) else i
  }

  /** A path read left to right: a character kept as it is, or a `:name` parameter. */
  datatype PathPiece = Lit(c: char) | Param(name: string)

  /** The regex's matches, leftmost first, each taking the longest name. */
  function PathPieces(s: string): seq<PathPiece>
    decreases |s|
  {
    if s == [] then []
    else if s[0] == ':' && |s| >= 2 && NameChar(s[1]) then
      var j := NameRun(s, 1);
      [Param(s[1..j])] + PathPieces(s[j..])
    else [Lit(s[0])] + PathPieces(s[1..])
  }

  /** The Fastify text of the pieces. */
  function FastifyText(pieces: seq<PathPiece>): string
    decreases |pieces|
  {
    if pieces == [] then ""
    else (if pieces[0].Lit? then [pieces[0].c] else ":" + pieces[0].name) + FastifyText(pieces[1..])
  }

  /** The OpenAPI text of the pieces: each parameter in braces. */
  function OpenApiText(pieces: seq<PathPiece>): string
    decreases |pieces|
  {
    if pieces == [] then ""
    else (if pieces[0].Lit? then [pieces[0].c] else "{" + pieces[0].name + "}") + OpenApiText(pieces[1..])
  }

  function Names(pieces: seq<PathPiece>): seq<string>
    decreases |pieces|
  {
    if pieces == [] then []
    else (if pieces[0].Param? then [pieces[0].name] else []) + Names(pieces[1..])
  }

  /** `toOpenApiPath`: each `:name` in braces; a path without a colon is its own OpenAPI path. */
  function ToOpenApiPath(fastifyPath: string): (r: string)
    ensures NoColon(fastifyPath) ==> r == fastifyPath
  {
    NoColonPieces(fastifyPath);
    OpenApiText(PathPieces(fastifyPath))
  }

  /** `extractPathParams`: the names matched, each non-empty and of name characters; none without a colon. */
  function ExtractPathParams(fastifyPath: string): (r: seq<string>)
    ensures forall k :: 0 <= k < |r| ==> IsName(r[k])
    ensures NoColon(fastifyPath) ==> r == []
  {
    NoColonPieces(fastifyPath);
    ParamNames(fastifyPath);
    Names(PathPieces(fastifyPath))
  }

  /** A non-empty run of name characters, as `[A-Za-z0-9_]+` matches. */
  predicate IsName(n: string)
  {
    |n| >= 1 && forall m :: 0 <= m < |n| ==> NameChar(n[m])
  }

  lemma NamesCons(p: PathPiece, rest: seq<PathPiece>)
    ensures Names([p] + rest) == (if p.Param? then [p.name] else []) + Names(rest)
  {
    assert ([p] + rest)[1..] == rest;
  }

  /** Every name read from a path is a run the regex could match. */
  lemma {:induction false} ParamNames(s: string)
    ensures forall k :: 0 <= k < |Names(PathPieces(s))| ==> IsName(Names(PathPieces(s))[k])
    decreases |s|
  {
    if s != [] {
      if s[0] == ':' && |s| >= 2 && NameChar(s[1]) {
        var j := NameRun(s, 1);
        ParamNames(s[j..]);
        var rest := PathPieces(s[j..]);
        assert PathPieces(s) == [Param(s[1..j])] + rest;
        NamesCons(Param(s[1..j]), rest);
        forall m | 0 <= m < |s[1..j]| ensures NameChar(s[1..j][m]) {
          assert s[1..j][m] == s[1 + m];
        }
      } else {
        ParamNames(s[1..]);
        assert PathPieces(s) == [Lit(s[0])] + PathPieces(s[1..]);
        NamesCons(Lit(s[0]), PathPieces(s[1..]));
      }
    }
  }

  /** Reading a path into pieces loses nothing. */
  lemma {:induction false} PiecesCover(s: string)
    ensures FastifyText(PathPieces(s)) == s
    decreases |s|
  {
    if s != [] {
      if s[0] == ':' && |s| >= 2 && NameChar(s[1]) {
        PiecesCover(s[NameRun(s, 1)..]);
        CoverParamStep(s);
      } else {
        PiecesCover(s[1..]);
        CoverLitStep(s);
      }
    }
  }

  lemma CoverParamStep(s: string)
    requires |s| >= 2 && s[0] == ':' && NameChar(s[1])
    requires FastifyText(PathPieces(s[NameRun(s, 1)..])) == s[NameRun(s, 1)..]
    ensures FastifyText(PathPieces(s)) == s
  {
    var j := NameRun(s, 1);
    var rest := PathPieces(s[j..]);
    assert PathPieces(s) == [Param(s[1..j])] + rest;
    FastifyCons(Param(s[1..j]), rest);
    ColonSplit(s, j);
  }

  lemma ColonSplit(s: string, j: nat)
    requires 1 <= j <= |s| && s[0] == ':'
    ensures s == ":" + s[1..j] + s[j..]
  {
    assert s == s[..1] + s[1..j] + s[j..];
    assert s[..1] == ":";
  }

  lemma CoverLitStep(s: string)
    requires s != [] && !(s[0] == ':' && |s| >= 2 && NameChar(s[1]))
    requires FastifyText(PathPieces(s[1..])) == s[1..]
    ensures FastifyText(PathPieces(s)) == s
  {
    var rest := PathPieces(s[1..]);
    assert PathPieces(s) == [Lit(s[0])] + rest;
    FastifyCons(Lit(s[0]), rest);
    assert s == [s[0]] + s[1..];
  }

  lemma FastifyCons(p: PathPiece, rest: seq<PathPiece>)
    ensures FastifyText([p] + rest) == (if p.Lit? then [p.c] else ":" + p.name) + FastifyText(rest)
  {
    assert ([p] + rest)[1..] == rest;
  }

  /**
   * The pieces are the regex's matches: every name is non-empty and made of
   * name characters, no name could be longer (it is not followed by a name
   * character), and a colon kept as it is is not followed by one either.
   */
  predicate WellFormed(pieces: seq<PathPiece>)
  {
    (forall k :: 0 <= k < |pieces| && pieces[k].Param? ==>
       |pieces[k].name| >= 1 && forall m :: 0 <= m < |pieces[k].name| ==> NameChar(pieces[k].name[m])) &&
    (forall k :: 0 <= k < |pieces| - 1 && pieces[k + 1].Lit? && NameChar(pieces[k + 1].c) ==>
       pieces[k].Lit? && pieces[k].c != ':')
  }

  lemma {:induction false} PiecesWellFormed(s: string)
    ensures WellFormed(PathPieces(s))
    ensures s != [] ==> |PathPieces(s)| >= 1 && (PathPieces(s)[0] == if s[0] == ':' && |s| >= 2 && NameChar(s[1]) then Param(s[1..NameRun(s, 1)]) else Lit(s[0]))
    decreases |s|
  {
    if s != [] {
      if s[0] == ':' && |s| >= 2 && NameChar(s[1]) {
        var j := NameRun(s, 1);
        PiecesWellFormed(s[j..]);
        var rest := PathPieces(s[j..]);
        assert PathPieces(s) == [Param(s[1..j])] + rest;
        forall m | 0 <= m < |s[1..j]| ensures NameChar(s[1..j][m]) {
          assert s[1..j][m] == s[1 + m];
        }
        if rest != [] && rest[0].Lit? {
          assert rest[0] == Lit(s[j]);
        }
        WellFormedCons(Param(s[1..j]), rest);
      } else {
        PiecesWellFormed(s[1..]);
        var rest := PathPieces(s[1..]);
        assert PathPieces(s) == [Lit(s[0])] + rest;
        if rest != [] && rest[0].Lit? && NameChar(rest[0].c) {
          assert rest[0] == Lit(s[1]);
        }
        WellFormedCons(Lit(s[0]), rest);
      }
    }
  }

  /** A piece put in front of well-formed pieces keeps them well formed when it could not have swallowed what follows. */
  lemma WellFormedCons(p: PathPiece, rest: seq<PathPiece>)
    requires WellFormed(rest)
    requires p.Param? ==> |p.name| >= 1 && forall m :: 0 <= m < |p.name| ==> NameChar(p.name[m])
    requires rest != [] && rest[0].Lit? && NameChar(rest[0].c) ==> p.Lit? && p.c != ':'
    ensures WellFormed([p] + rest)
  {
    var all := [p] + rest;
    assert forall k :: 1 <= k < |all| ==> all[k] == rest[k - 1];
  }

  /** Each character of `a` kept as it is. */
  function Lits(a: string): seq<PathPiece>
    decreases |a|
  {
    if a == [] then [] else [Lit(a[0])] + Lits(a[1..])
  }

  predicate NoColon(s: string)
  {
    forall k :: 0 <= k < |s| ==> s[k] != ':'
  }

  /** Characters before a colon are kept one by one. */
  lemma {:induction false} PlainPrefix(a: string, b: string)
    requires NoColon(a)
    ensures PathPieces(a + b) == Lits(a) + PathPieces(b)
    decreases |a|
  {
    if a != [] {
      PlainPrefix(a[1..], b);
      var ab := a + b;
      assert ab[0] == a[0] && ab[1..] == a[1..] + b;
      LitHead(ab);
      var lits, rest := Lits(a[1..]), PathPieces(b);
      assert [Lit(a[0])] + (lits + rest) == ([Lit(a[0])] + lits) + rest;
    } else {
      assert a + b == b;
    }
  }

  /** A path not starting with a colon starts with a kept character. */
  lemma LitHead(s: string)
    requires s != [] && s[0] != ':'
    ensures PathPieces(s) == [Lit(s[0])] + PathPieces(s[1..])
  {
  }

  lemma {:induction false} OpenApiTextAppend(p: seq<PathPiece>, q: seq<PathPiece>)
    ensures OpenApiText(p + q) == OpenApiText(p) + OpenApiText(q)
    ensures Names(p + q) == Names(p) + Names(q)
    decreases |p|
  {
    if p != [] {
      OpenApiTextAppend(p[1..], q);
      var pq := p + q;
      assert pq != [] && pq[0] == p[0] && pq[1..] == p[1..] + q;
    } else {
      assert p + q == q;
    }
  }

  lemma {:induction false} LitsText(a: string)
    ensures OpenApiText(Lits(a)) == a
    ensures Names(Lits(a)) == []
    decreases |a|
  {
    if a != [] {
      LitsText(a[1..]);
      var lits := Lits(a);
      assert lits == [Lit(a[0])] + Lits(a[1..]);
      assert lits[0] == Lit(a[0]) && lits[1..] == Lits(a[1..]);
      assert OpenApiText(lits) == [a[0]] + OpenApiText(Lits(a[1..]));
      assert a == [a[0]] + a[1..];
    }
  }

  /** A path without a colon is its own OpenAPI path and has no parameters. */
  lemma NoColonUnchanged(s: string)
    requires NoColon(s)
    ensures ToOpenApiPath(s) == s && ExtractPathParams(s) == []
  {
    NoColonPieces(s);
  }

  lemma NoColonPieces(s: string)
    ensures NoColon(s) ==> OpenApiText(PathPieces(s)) == s && Names(PathPieces(s)) == []
  {
    if NoColon(s) {
      NoColonText(s);
    }
  }

  lemma NoColonText(s: string)
    requires NoColon(s)
    ensures OpenApiText(PathPieces(s)) == s && Names(PathPieces(s)) == []
  {
    PlainPrefix(s, "");
    assert s + "" == s;
    var lits := Lits(s);
    assert PathPieces(s) == lits + [];
    assert lits + [] == lits;
    LitsText(s);
  }

  /**
   * A trailing parameter after a colon-free prefix: `/users/:id` becomes
   * `/users/{id}` with the single parameter `id`.
   */
  lemma TrailingParam(prefix: string, name: string)
    requires NoColon(prefix)
    requires |name| >= 1 && forall m :: 0 <= m < |name| ==> NameChar(name[m])
    ensures ToOpenApiPath(prefix + ":" + name) == prefix + "{" + name + "}"
    ensures ExtractPathParams(prefix + ":" + name) == [name]
  {
    TrailingPieces(prefix, name);
    var lits := Lits(prefix);
    OpenApiTextAppend(lits, [Param(name)]);
    LitsText(prefix);
    ParamText(name);
  }

  lemma TrailingPieces(prefix: string, name: string)
    requires NoColon(prefix)
    requires |name| >= 1 && forall m :: 0 <= m < |name| ==> NameChar(name[m])
    ensures PathPieces(prefix + ":" + name) == Lits(prefix) + [Param(name)]
  {
    var t := ":" + name;
    assert prefix + ":" + name == prefix + t;
    PlainPrefix(prefix, t);
    SingleParam(name);
    assert PathPieces(prefix + t) == Lits(prefix) + [Param(name)];
  }

  lemma ParamText(name: string)
    ensures OpenApiText([Param(name)]) == "{" + name + "}"
    ensures Names([Param(name)]) == [name]
  {
    assert [Param(name)][1..] == [];
  }

  /** `:name` alone is one parameter. */
  lemma SingleParam(name: string)
    requires |name| >= 1 && forall m :: 0 <= m < |name| ==> NameChar(name[m])
    ensures PathPieces(":" + name) == [Param(name)]
  {
    var t := ":" + name;
    assert forall k :: 1 <= k < |t| ==> t[k] == name[k - 1];
    assert NameRun(t, 1) == |t|;
    assert t[1..|t|] == name;
    assert t[|t|..] == [];
    assert PathPieces(t) == [Param(name)] + PathPieces(t[|t|..]);
  }

  // ---------------------------------------------------------------------------
  // `uniq` and `asStringEnum`

  predicate Distinct<T(==)>(s: seq<T>)
  {
    forall i, j :: 0 <= i < j < |s| ==> s[i] != s[j]
  }

  /** `Set.prototype.add`, on a set kept in insertion order. */
  function AddKey<T(==)>(keys: seq<T>, k: T): seq<T>
  {
    if k in keys then keys else keys + [k]
  }

  /** Every element of each list is in the other. */
  predicate SameElements<T(==)>(a: seq<T>, b: seq<T>)
  {
    (forall i :: 0 <= i < |a| ==> a[i] in b) && (forall i :: 0 <= i < |b| ==> b[i] in a)
  }

  /** `[...new Set(items)]`: each item at its first occurrence. */
  function Uniq<T(==)>(items: seq<T>): (r: seq<T>)
    ensures Distinct(r)
    ensures SameElements(r, items)
    decreases |items|
  {
    if items == [] then []
    else
      assert items == items[..|items| - 1] + [items[|items| - 1]];
      AddKey(Uniq(items[..|items| - 1]), items[|items| - 1])
  }

  lemma {:induction false} UniqDistinct<T>(items: seq<T>)
    ensures Distinct(Uniq(items))
    ensures forall x :: x in Uniq(items) <==> x in items
    decreases |items|
  {
    if items != [] {
      var init := items[..|items| - 1];
      UniqDistinct(init);
      assert items == init + [items[|items| - 1]];
    }
  }

  lemma {:induction false} UniqOfDistinct<T>(items: seq<T>)
    requires Distinct(items)
    ensures Uniq(items) == items
    decreases |items|
  {
    if items != [] {
      var init := items[..|items| - 1];
      var last := items[|items| - 1];
      assert Distinct(init) by {
        forall i, j | 0 <= i < j < |init| ensures init[i] != init[j] {
          assert init[i] == items[i] && init[j] == items[j];
        }
      }
      UniqOfDistinct(init);
      assert last !in init by {
        forall i | 0 <= i < |init| ensures init[i] != last {
          assert init[i] == items[i];
        }
      }
      assert items == init + [last];
    }
  }

  /** `uniq` is idempotent. */
  lemma UniqIdempotent<T>(items: seq<T>)
    ensures Uniq(Uniq(items)) == Uniq(items)
  {
    UniqDistinct(items);
    UniqOfDistinct(Uniq(items));
  }

  /** First occurrences keep their order: what `uniq` gives for a prefix is a prefix of what it gives for the whole. */
  lemma {:induction false} UniqPrefix<T>(a: seq<T>, b: seq<T>)
    ensures Uniq(a) <= Uniq(a + b)
    decreases |b|
  {
    if b == [] {
      assert a + b == a;
    } else {
      var init := b[..|b| - 1];
      UniqPrefix(a, init);
      assert (a + b)[..|a + b| - 1] == a + init;
    }
  }

  /** `String(v)` of the values that are neither undefined nor null, in order. */
  function Shown(values: seq<Option<Value>>): (r: seq<string>)
    ensures forall x :: x in r <==> exists k :: 0 <= k < |values| && !IsNullish(values[k]) && ToJsString(values[k].value) == x
    decreases |values|
  {
    if values == [] then []
    else
      var rest := Shown(values[1..]);
      assert forall k :: 1 <= k < |values| ==> values[k] == values[1..][k - 1];
      (if IsNullish(values[0]) then [] else [ToJsString(values[0].value)]) + rest
  }

  /** `asStringEnum`. */
  function AsStringEnum(values: seq<Option<Value>>): (r: seq<string>)
    ensures Distinct(r)
    ensures forall x :: x in r <==> exists k :: 0 <= k < |values| && !IsNullish(values[k]) && ToJsString(values[k].value) == x
  {
    UniqDistinct(Shown(values));
    Uniq(Shown(values))
  }

  function AsValues(strings: seq<string>): seq<Option<Value>>
  {
    seq(|strings|, k requires 0 <= k < |strings| => Some(JStr(strings[k])))
  }

  /** For the strings the generator passes, `asStringEnum` is `uniq`. */
  lemma {:induction false} StringEnumIsUniq(strings: seq<string>)
    ensures AsStringEnum(AsValues(strings)) == Uniq(strings)
    decreases |strings|
  {
    ShownStrings(strings);
  }

  lemma {:induction false} ShownStrings(strings: seq<string>)
    ensures Shown(AsValues(strings)) == strings
    decreases |strings|
  {
    if strings != [] {
      ShownStrings(strings[1..]);
      assert AsValues(strings)[1..] == AsValues(strings[1..]);
      assert strings == [strings[0]] + strings[1..];
    }
  }

  // ---------------------------------------------------------------------------
  // The endpoints the generator reads

  /** A response variant: its own name, status, match rule and body. */
  datatype Variant = Variant(
    name: Option<string>,
    status: Option<int>,
    matchRule: Option<RequestMatch.MatchRule>,
    response: Option<Value>)

  datatype Endpoint = Endpoint(
    httpMethod: string,
    path: string,
    status: Option<int>,
    response: Option<Value>,
    matchRule: Option<RequestMatch.MatchRule>,
    variants: Option<seq<Variant>>)

  /** An absent and an empty variant list are treated alike. */
  function VariantsOf(ep: Endpoint): seq<Variant>
  {
    if ep.variants.Some? then ep.variants.value else []
  }

  /** The match rules read: the endpoint's own, then each variant's. */
  function RulesOf(ep: Endpoint): seq<Option<RequestMatch.MatchRule>>
  {
    var vs := VariantsOf(ep);
    [ep.matchRule] + seq(|vs|, i requires 0 <= i < |vs| => vs[i].matchRule)
  }

  function QueryOf(rule: Option<RequestMatch.MatchRule>): Option<seq<(string, RequestMatch.Primitive)>>
  {
    if rule.Some? then rule.value.query else None
  }

  function BodyOf(rule: Option<RequestMatch.MatchRule>): Option<seq<(string, RequestMatch.Primitive)>>
  {
    if rule.Some? then rule.value.body else None
  }

  function EntryKeys(entries: seq<(string, RequestMatch.Primitive)>): (r: seq<string>)
    ensures |r| == |entries|
    decreases |entries|
  {
    if entries == [] then [] else EntryKeys(entries[..|entries| - 1]) + [entries[|entries| - 1].0]
  }

  /** `String(v)` of every value given for key `k`, in order. */
  function ValuesOf(entries: seq<(string, RequestMatch.Primitive)>, k: string): seq<string>
    decreases |entries|
  {
    if entries == [] then []
    else
      var last := entries[|entries| - 1];
      ValuesOf(entries[..|entries| - 1], k) + (if last.0 == k then [RequestMatch.PrimitiveString(last.1)] else [])
  }

  // ---------------------------------------------------------------------------
  // `queryMatchValues`: each key with the values seen for it, keys in order of first sight

  type QueryTable = seq<(string, seq<string>)>

  function TableKeys(table: QueryTable): (r: seq<string>)
    ensures |r| == |table| && forall j :: 0 <= j < |table| ==> r[j] == table[j].0
    decreases |table|
  {
    if table == [] then [] else [table[0].0] + TableKeys(table[1..])
  }

  /** The values listed under `k`, none when `k` is no key. */
  function ValuesFor(table: QueryTable, k: string): seq<string>
    decreases |table|
  {
    if table == [] then [] else if table[0].0 == k then table[0].1 else ValuesFor(table[1..], k)
  }

  /** `if (!queryMatchValues[k]) queryMatchValues[k] = []; queryMatchValues[k].push(v)`, for own keys only. */
  function AddValue(table: QueryTable, k: string, v: string): QueryTable
    decreases |table|
  {
    if table == [] then [(k, [v])]
    else if table[0].0 == k then [(k, table[0].1 + [v])] + table[1..]
    else [table[0]] + AddValue(table[1..], k, v)
  }

  predicate NonEmptyValues(table: QueryTable)
  {
    forall j :: 0 <= j < |table| ==> |table[j].1| >= 1
  }

  /** Adding a value adds its key once, appends to that key's values and leaves every other key's values alone. */
  lemma AddValueMeaning(table: QueryTable, k: string, v: string)
    ensures TableKeys(AddValue(table, k, v)) == AddKey(TableKeys(table), k)
    ensures forall k' :: ValuesFor(AddValue(table, k, v), k') == if k' == k then ValuesFor(table, k) + [v] else ValuesFor(table, k')
    ensures NonEmptyValues(table) ==> NonEmptyValues(AddValue(table, k, v))
  {
    AddValueKeys(table, k, v);
    forall k' ensures ValuesFor(AddValue(table, k, v), k') == if k' == k then ValuesFor(table, k) + [v] else ValuesFor(table, k') {
      AddValueValues(table, k, v, k');
    }
    if NonEmptyValues(table) {
      AddValueNonEmpty(table, k, v);
    }
  }

  lemma {:induction false} AddValueKeys(table: QueryTable, k: string, v: string)
    ensures TableKeys(AddValue(table, k, v)) == AddKey(TableKeys(table), k)
    decreases |table|
  {
    if table != [] {
      var r := AddValue(table, k, v);
      assert TableKeys(table) == [table[0].0] + TableKeys(table[1..]);
      if table[0].0 == k {
        assert r == [(k, table[0].1 + [v])] + table[1..];
        assert TableKeys(r) == [k] + TableKeys(table[1..]);
        assert k in TableKeys(table) by { assert TableKeys(table)[0] == k; }
      } else {
        AddValueKeys(table[1..], k, v);
        assert r == [table[0]] + AddValue(table[1..], k, v);
        assert TableKeys(r) == [table[0].0] + TableKeys(AddValue(table[1..], k, v));
        assert k in TableKeys(table) <==> k in TableKeys(table[1..]);
        if k !in TableKeys(table[1..]) {
          assert [table[0].0] + (TableKeys(table[1..]) + [k]) == TableKeys(table) + [k];
        }
      }
    }
  }

  lemma {:induction false} AddValueValues(table: QueryTable, k: string, v: string, k': string)
    ensures ValuesFor(AddValue(table, k, v), k') == if k' == k then ValuesFor(table, k) + [v] else ValuesFor(table, k')
    decreases |table|
  {
    if table != [] {
      var r := AddValue(table, k, v);
      if table[0].0 == k {
        assert r == [(k, table[0].1 + [v])] + table[1..];
        assert r[1..] == table[1..];
      } else {
        AddValueValues(table[1..], k, v, k');
        assert r == [table[0]] + AddValue(table[1..], k, v);
        assert r[1..] == AddValue(table[1..], k, v);
      }
    }
  }

  lemma {:induction false} AddValueNonEmpty(table: QueryTable, k: string, v: string)
    requires NonEmptyValues(table)
    ensures NonEmptyValues(AddValue(table, k, v))
    decreases |table|
  {
    if table != [] {
      var r := AddValue(table, k, v);
      if table[0].0 == k {
        assert r == [(k, table[0].1 + [v])] + table[1..];
        forall j | 0 <= j < |r| ensures |r[j].1| >= 1 {
          if j > 0 { assert r[j] == table[j]; }
        }
      } else {
        assert NonEmptyValues(table[1..]) by {
          forall j | 0 <= j < |table[1..]| ensures |table[1..][j].1| >= 1 {
            assert table[1..][j] == table[j + 1];
          }
        }
        AddValueNonEmpty(table[1..], k, v);
        assert r == [table[0]] + AddValue(table[1..], k, v);
        forall j | 0 <= j < |r| ensures |r[j].1| >= 1 {
          if j > 0 {
            assert r[j] == AddValue(table[1..], k, v)[j - 1];
          }
        }
      }
    }
  }

  /** The values of each entry of a table with distinct keys are those listed under its key. */
  lemma {:induction false} ValuesForDistinct(table: QueryTable, j: nat)
    requires j < |table| && Distinct(TableKeys(table))
    ensures ValuesFor(table, table[j].0) == table[j].1
    decreases j
  {
    if j > 0 {
      assert TableKeys(table)[0] != TableKeys(table)[j];
      assert Distinct(TableKeys(table[1..])) by {
        forall a, b | 0 <= a < b < |table[1..]| ensures TableKeys(table[1..])[a] != TableKeys(table[1..])[b] {
          assert TableKeys(table)[a + 1] != TableKeys(table)[b + 1];
        }
      }
      ValuesForDistinct(table[1..], j - 1);
    }
  }

  /** `collectQuery`'s loop over one rule's entries. */
  function QueryFold(table: QueryTable, entries: seq<(string, RequestMatch.Primitive)>): QueryTable
    decreases |entries|
  {
    if entries == [] then table
    else
      var last := entries[|entries| - 1];
      AddValue(QueryFold(table, entries[..|entries| - 1]), last.0, RequestMatch.PrimitiveString(last.1))
  }

  lemma {:induction false} QueryFoldAppend(table: QueryTable, a: seq<(string, RequestMatch.Primitive)>, b: seq<(string, RequestMatch.Primitive)>)
    ensures QueryFold(table, a + b) == QueryFold(QueryFold(table, a), b)
    decreases |b|
  {
    if b == [] {
      assert a + b == a;
    } else {
      QueryFoldAppend(table, a, b[..|b| - 1]);
      assert (a + b)[..|a + b| - 1] == a + b[..|b| - 1];
      assert (a + b)[|a + b| - 1] == b[|b| - 1];
    }
  }

  /**
   * Starting from no keys, the table lists each key once, in order of first
   * sight, with every value given for it in order and at least one value.
   */
  lemma {:induction false} QueryFoldMeaning(entries: seq<(string, RequestMatch.Primitive)>)
    ensures TableKeys(QueryFold([], entries)) == Uniq(EntryKeys(entries))
    ensures forall k :: ValuesFor(QueryFold([], entries), k) == ValuesOf(entries, k)
    ensures NonEmptyValues(QueryFold([], entries))
    decreases |entries|
  {
    if entries != [] {
      var init := entries[..|entries| - 1];
      var last := entries[|entries| - 1];
      QueryFoldMeaning(init);
      AddValueMeaning(QueryFold([], init), last.0, RequestMatch.PrimitiveString(last.1));
      var ks := EntryKeys(entries);
      assert ks[..|ks| - 1] == EntryKeys(init);
    }
  }

  function CollectQuery(table: QueryTable, query: Option<seq<(string, RequestMatch.Primitive)>>): QueryTable
  {
    if query.None? then table else QueryFold(table, query.value)
  }

  function CollectQueries(table: QueryTable, rules: seq<Option<RequestMatch.MatchRule>>): QueryTable
    decreases |rules|
  {
    if rules == [] then table
    else CollectQuery(CollectQueries(table, rules[..|rules| - 1]), QueryOf(rules[|rules| - 1]))
  }

  /** Every query entry of every rule, in the order they are read. */
  function AllQueryEntries(rules: seq<Option<RequestMatch.MatchRule>>): seq<(string, RequestMatch.Primitive)>
    decreases |rules|
  {
    if rules == [] then []
    else
      var q := QueryOf(rules[|rules| - 1]);
      AllQueryEntries(rules[..|rules| - 1]) + (if q.Some? then q.value else [])
  }

  lemma {:induction false} CollectQueriesFlat(rules: seq<Option<RequestMatch.MatchRule>>)
    ensures CollectQueries([], rules) == QueryFold([], AllQueryEntries(rules))
    decreases |rules|
  {
    if rules != [] {
      var init := rules[..|rules| - 1];
      var q := QueryOf(rules[|rules| - 1]);
      CollectQueriesFlat(init);
      if q.Some? {
        QueryFoldAppend([], AllQueryEntries(init), q.value);
      } else {
        assert AllQueryEntries(rules) == AllQueryEntries(init) + [];
        assert AllQueryEntries(init) + [] == AllQueryEntries(init);
      }
    }
  }

  /** The query table of an endpoint: its rule's query, then each variant's. */
  function QueryValuesOf(ep: Endpoint): QueryTable
  {
    CollectQueries([], RulesOf(ep))
  }

  // ---------------------------------------------------------------------------
  // `bodyMatchKeys`

  function BodyFold(keys: seq<string>, ks: seq<string>): seq<string>
    decreases |ks|
  {
    if ks == [] then keys else AddKey(BodyFold(keys, ks[..|ks| - 1]), ks[|ks| - 1])
  }

  lemma BodyFoldStep(keys: seq<string>, ks: seq<string>, i: nat)
    requires i < |ks|
    ensures BodyFold(keys, ks[..i + 1]) == AddKey(BodyFold(keys, ks[..i]), ks[i])
  {
    assert ks[..i + 1][..i] == ks[..i];
  }

  function CollectBody(keys: seq<string>, body: Option<seq<(string, RequestMatch.Primitive)>>): seq<string>
  {
    if body.None? then keys else BodyFold(keys, EntryKeys(body.value))
  }

  function CollectBodies(keys: seq<string>, rules: seq<Option<RequestMatch.MatchRule>>): seq<string>
    decreases |rules|
  {
    if rules == [] then keys
    else CollectBody(CollectBodies(keys, rules[..|rules| - 1]), BodyOf(rules[|rules| - 1]))
  }

  /** Every body key of every rule, in the order they are read. */
  function AllBodyKeys(rules: seq<Option<RequestMatch.MatchRule>>): seq<string>
    decreases |rules|
  {
    if rules == [] then []
    else
      var b := BodyOf(rules[|rules| - 1]);
      AllBodyKeys(rules[..|rules| - 1]) + (if b.Some? then EntryKeys(b.value) else [])
  }

  lemma {:induction false} BodyFoldUniq(seen: seq<string>, ks: seq<string>)
    ensures BodyFold(Uniq(seen), ks) == Uniq(seen + ks)
    decreases |ks|
  {
    if ks == [] {
      assert seen + ks == seen;
    } else {
      BodyFoldUniq(seen, ks[..|ks| - 1]);
      assert (seen + ks)[..|seen + ks| - 1] == seen + ks[..|ks| - 1];
      assert (seen + ks)[|seen + ks| - 1] == ks[|ks| - 1];
    }
  }

  /** The body keys are every body key of every rule, each once, in order of first sight. */
  lemma {:induction false} CollectBodiesUniq(rules: seq<Option<RequestMatch.MatchRule>>)
    ensures CollectBodies([], rules) == Uniq(AllBodyKeys(rules))
    decreases |rules|
  {
    if rules != [] {
      var init := rules[..|rules| - 1];
      var b := BodyOf(rules[|rules| - 1]);
      CollectBodiesUniq(init);
      if b.Some? {
        BodyFoldUniq(AllBodyKeys(init), EntryKeys(b.value));
      } else {
        assert AllBodyKeys(rules) == AllBodyKeys(init) + [];
        assert AllBodyKeys(init) + [] == AllBodyKeys(init);
      }
    }
  }

  function BodyKeysOf(ep: Endpoint): seq<string>
  {
    CollectBodies([], RulesOf(ep))
  }

  // ---------------------------------------------------------------------------
  // Operations

  const QueryDescription := "Query param used by mock matching (if configured)."
  const ResponseDescription := "Mock response"

  /** A parameter; its schema is always of type string, with `enumValues` as its enum when present. */
  datatype Parameter = Parameter(
    name: string,
    location: string,
    required: bool,
    enumValues: Option<seq<string>>,
    description: Option<string>)

  /** A response: its description and its examples by name. */
  datatype Response = Response(description: string, examples: map<string, Option<Value>>)

  /** An operation; `requestBody`, when present, lists the object's properties, each of type string. */
  datatype Operation = Operation(
    summary: string,
    parameters: Option<seq<Parameter>>,
    requestBody: Option<seq<string>>,
    responses: map<string, Response>)

  datatype Info = Info(title: string, version: string, description: string)

  datatype Document = Document(
    openapi: string,
    info: Info,
    servers: seq<string>,
    paths: map<string, map<string, Operation>>)

  function PathParameter(name: string): Parameter
  {
    Parameter(name, "path", true, None, None)
  }

  /** A query parameter, its enum being the distinct values seen, when there are any. */
  function QueryParameter(k: string, vals: seq<string>): Parameter
  {
    var e := AsStringEnum(AsValues(vals));
    Parameter(k, "query", false, if |e| > 0 then Some(e) else None, Some(QueryDescription))
  }

  function PathParameters(names: seq<string>): (r: seq<Parameter>)
    ensures |r| == |names|
    ensures forall i :: 0 <= i < |names| ==> r[i] == Parameter(names[i], "path", true, None, None)
    decreases |names|
  {
    if names == [] then [] else PathParameters(names[..|names| - 1]) + [PathParameter(names[|names| - 1])]
  }

  function QueryParameters(table: QueryTable): (r: seq<Parameter>)
    ensures |r| == |table|
    ensures forall j :: 0 <= j < |table| ==> r[j] == QueryParameter(table[j].0, table[j].1)
    decreases |table|
  {
    if table == [] then [] else QueryParameters(table[..|table| - 1]) + [QueryParameter(table[|table| - 1].0, table[|table| - 1].1)]
  }

  /** A body is documented for methods other than GET and DELETE, and only when some rule names body keys. */
  function RequestBodyOf(ep: Endpoint, keys: seq<string>): Option<seq<string>>
  {
    if ep.httpMethod != "GET" && ep.httpMethod != "DELETE" && |keys| > 0 then Some(keys) else None
  }

  /** `addResponseExample`. */
  function AddExample(responses: map<string, Response>, status: int, name: string, example: Option<Value>): map<string, Response>
  {
    var key := IntToString(status);
    var prior := if key in responses then responses[key] else Response(ResponseDescription, map[]);
    responses[key := prior.(examples := prior.examples[name := example])]
  }

  lemma AddExampleMeaning(responses: map<string, Response>, status: int, name: string, example: Option<Value>)
    ensures var r := AddExample(responses, status, name, example);
      r.Keys == responses.Keys + {IntToString(status)} &&
      name in r[IntToString(status)].examples && r[IntToString(status)].examples[name] == example &&
      (IntToString(status) !in responses ==> r[IntToString(status)] == Response(ResponseDescription, map[name := example])) &&
      (IntToString(status) in responses ==>
         r[IntToString(status)].description == responses[IntToString(status)].description &&
         r[IntToString(status)].examples.Keys == responses[IntToString(status)].examples.Keys + {name} &&
         forall n :: n in responses[IntToString(status)].examples && n != name ==>
           r[IntToString(status)].examples[n] == responses[IntToString(status)].examples[n]) &&
      forall key :: key in responses && key != IntToString(status) ==> r[key] == responses[key]
  {
  }

  /** Adding an example adds its status's key and keeps every response's description. */
  lemma AddExampleKeys(responses: map<string, Response>, status: int, name: string, example: Option<Value>)
    requires forall key :: key in responses ==> responses[key].description == ResponseDescription
    ensures AddExample(responses, status, name, example).Keys == responses.Keys + {IntToString(status)}
    ensures forall key :: key in AddExample(responses, status, name, example) ==>
              AddExample(responses, status, name, example)[key].description == ResponseDescription
  {
  }

  function BaseStatus(ep: Endpoint): int
  {
    if ep.status.Some? then ep.status.value else 200
  }

  function VariantStatus(ep: Endpoint, v: Variant): int
  {
    if v.status.Some? then v.status.value else BaseStatus(ep)
  }

  function VariantName(v: Variant): string
  {
    if v.name.Some? then v.name.value else "variant"
  }

  function VariantExamples(responses: map<string, Response>, ep: Endpoint, vs: seq<Variant>): map<string, Response>
    decreases |vs|
  {
    if vs == [] then responses
    else
      var v := vs[|vs| - 1];
      AddExample(VariantExamples(responses, ep, vs[..|vs| - 1]), VariantStatus(ep, v), VariantName(v), v.response)
  }

  function BaseResponses(ep: Endpoint): map<string, Response>
  {
    AddExample(map[], BaseStatus(ep), "default", ep.response)
  }

  /** The responses of an endpoint: the base example, then each variant's, grouped by status. */
  function ResponsesOf(ep: Endpoint): map<string, Response>
  {
    VariantExamples(BaseResponses(ep), ep, VariantsOf(ep))
  }

  /** The path parameters, then the query parameters; none at all when both are empty. */
  function ParametersOf(ep: Endpoint): Option<seq<Parameter>>
  {
    ParamsFrom(ExtractPathParams(ep.path), QueryValuesOf(ep))
  }

  /** The path parameters, then the query parameters; absent when there are none. */
  function ParamsFrom(pp: seq<string>, t: QueryTable): Option<seq<Parameter>>
  {
    var params := PathParameters(pp) + QueryParameters(t);
    if |params| > 0 then Some(params) else None
  }

  /**
   * One endpoint's operation: parameters absent exactly when it has neither
   * path parameters nor query entries, a request body exactly for a method
   * other than GET and DELETE with some body key, and one response per
   * status of the endpoint and its variants.
   */
  function OperationOf(ep: Endpoint): (r: Operation)
    ensures r.parameters.None? <==> ExtractPathParams(ep.path) == [] && AllQueryEntries(RulesOf(ep)) == []
    ensures var keys := AllBodyKeys(RulesOf(ep));
            r.requestBody == if ep.httpMethod != "GET" && ep.httpMethod != "DELETE" && keys != [] then Some(Uniq(keys)) else None
    ensures r.responses.Keys == {IntToString(BaseStatus(ep))} + StatusKeys(ep, VariantsOf(ep))
  {
    OperationParameters(ep);
    CollectBodiesUniq(RulesOf(ep));
    UniqEmpty(AllBodyKeys(RulesOf(ep)));
    ResponsesMeaning(ep);
    Operation("Mock " + ep.httpMethod + " " + ep.path, ParametersOf(ep), RequestBodyOf(ep, BodyKeysOf(ep)), ResponsesOf(ep))
  }

  /** `paths`: one entry per converted path, one operation per lower-cased method, a later endpoint replacing an earlier one. */
  function PathsOf(eps: seq<Endpoint>): (r: map<string, map<string, Operation>>)
    ensures forall key, m :: key in r && m in r[key] <==> Declares(eps, key, m)
  {
    PathsWithExactly(eps, OperationOf);
    PathsWith(eps, OperationOf)
  }

  /** The same fold with the operation of an endpoint given by `op`. */
  function PathsWith(eps: seq<Endpoint>, op: Endpoint -> Operation): map<string, map<string, Operation>>
    decreases |eps|
  {
    if eps == [] then map[]
    else
      var ep := eps[|eps| - 1];
      Insert(PathsWith(eps[..|eps| - 1], op), ToOpenApiPath(ep.path), Text.ToLower(ep.httpMethod), op(ep))
  }

  /** One more endpoint: its operation is inserted under its converted path and lower-cased method. */
  lemma PathsWithStep(eps: seq<Endpoint>, i: nat, op: Endpoint -> Operation)
    requires i < |eps|
    ensures PathsWith(eps[..i + 1], op) == Insert(PathsWith(eps[..i], op), ToOpenApiPath(eps[i].path), Text.ToLower(eps[i].httpMethod), op(eps[i]))
  {
    assert eps[..i + 1][..i] == eps[..i];
    assert eps[..i + 1][i] == eps[i];
  }

  /** `paths[key][m] = op`, creating the path item when it is new. */
  function Insert(paths: map<string, map<string, Operation>>, key: string, m: string, op: Operation): map<string, map<string, Operation>>
  {
    var item := if key in paths then paths[key] else map[];
    paths[key := item[m := op]]
  }

  /** After an insertion, a path and method are present exactly when they are the inserted ones or were present before. */
  lemma InsertDomain(paths: map<string, map<string, Operation>>, key: string, m: string, op: Operation)
    ensures forall k2, m2 :: k2 in Insert(paths, key, m, op) && m2 in Insert(paths, key, m, op)[k2] <==>
              (k2 == key && m2 == m) || (k2 in paths && m2 in paths[k2])
    ensures forall k2 :: k2 in Insert(paths, key, m, op) <==> k2 == key || k2 in paths
    ensures forall k2 :: k2 in paths && |paths[k2]| >= 1 ==> |Insert(paths, key, m, op)[k2]| >= 1
    ensures key in Insert(paths, key, m, op) && m in Insert(paths, key, m, op)[key]
    ensures Insert(paths, key, m, op)[key][m] == op
  {
    var r := Insert(paths, key, m, op);
    forall k2 | k2 in paths && |paths[k2]| >= 1 ensures |r[k2]| >= 1 {
      if k2 == key {
        var m2 :| m2 in paths[k2];
        assert m2 in r[k2];
      }
    }
  }

  /** An insertion leaves other paths and methods as they were. */
  lemma InsertKeeps(paths: map<string, map<string, Operation>>, key: string, m: string, op: Operation, k2: string, m2: string)
    requires k2 in paths && m2 in paths[k2] && !(k2 == key && m2 == m)
    ensures k2 in Insert(paths, key, m, op) && m2 in Insert(paths, key, m, op)[k2]
    ensures Insert(paths, key, m, op)[k2][m2] == paths[k2][m2]
  {
  }

  // ---------------------------------------------------------------------------
  // The generator

  method CollectQueryInto(table: QueryTable, query: Option<seq<(string, RequestMatch.Primitive)>>) returns (r: QueryTable)
    ensures r == CollectQuery(table, query)
  {
    r := table;
    if query.None? {
      return;
    }
    var entries := query.value;
    var i := 0;
    while i < |entries|
      invariant 0 <= i <= |entries|
      invariant r == QueryFold(table, entries[..i])
    {
      assert entries[..i + 1][..i] == entries[..i];
      r := AddValue(r, entries[i].0, RequestMatch.PrimitiveString(entries[i].1));
      i := i + 1;
    }
    assert entries[..|entries|] == entries;
  }

  method CollectBodyInto(keys: seq<string>, body: Option<seq<(string, RequestMatch.Primitive)>>) returns (r: seq<string>)
    ensures r == CollectBody(keys, body)
  {
    r := keys;
    if body.None? {
      return;
    }
    var entries := body.value;
    ghost var ks := EntryKeys(entries);
    var i := 0;
    while i < |entries|
      invariant 0 <= i <= |entries|
      invariant r == BodyFold(keys, ks[..i])
    {
      EntryKeysPrefix(entries, i);
      BodyFoldStep(keys, ks, i);
      r := AddKey(r, entries[i].0);
      i := i + 1;
    }
    assert ks[..|entries|] == ks;
  }

  lemma {:induction false} EntryKeysPrefix(entries: seq<(string, RequestMatch.Primitive)>, n: nat)
    requires n <= |entries|
    ensures EntryKeys(entries)[..n] == EntryKeys(entries[..n])
    ensures n < |entries| ==> EntryKeys(entries)[n] == entries[n].0
    decreases |entries|
  {
    if entries != [] {
      var init := entries[..|entries| - 1];
      if n < |entries| {
        EntryKeysPrefix(init, if n < |init| then n else |init|);
        assert init[..n] == entries[..n];
      } else {
        assert entries[..n] == entries;
      }
    }
  }

  /** The query table and body keys of the endpoint's rule and then of each variant's. */
  method CollectMatchKeys(ep: Endpoint) returns (queryValues: QueryTable, bodyKeys: seq<string>)
    ensures queryValues == QueryValuesOf(ep)
    ensures bodyKeys == BodyKeysOf(ep)
  {
    ghost var rules := RulesOf(ep);
    assert rules[..1] == [ep.matchRule];
    assert [ep.matchRule][..0] == [];
    queryValues := CollectQueryInto([], QueryOf(ep.matchRule));
    bodyKeys := CollectBodyInto([], BodyOf(ep.matchRule));
    var vs := VariantsOf(ep);
    var i := 0;
    while i < |vs|
      invariant 0 <= i <= |vs|
      invariant queryValues == CollectQueries([], rules[..i + 1])
      invariant bodyKeys == CollectBodies([], rules[..i + 1])
    {
      assert rules[..i + 2][..i + 1] == rules[..i + 1];
      assert rules[..i + 2][i + 1] == vs[i].matchRule;
      queryValues := CollectQueryInto(queryValues, QueryOf(vs[i].matchRule));
      bodyKeys := CollectBodyInto(bodyKeys, BodyOf(vs[i].matchRule));
      i := i + 1;
    }
    assert rules[..|vs| + 1] == rules;
  }

  /** Path parameters first, then one query parameter per key of the table. */
  method BuildParameters(pathParams: seq<string>, queryValues: QueryTable) returns (parameters: seq<Parameter>)
    ensures parameters == PathParameters(pathParams) + QueryParameters(queryValues)
  {
    parameters := [];
    var j := 0;
    while j < |pathParams|
      invariant 0 <= j <= |pathParams|
      invariant parameters == PathParameters(pathParams[..j])
    {
      assert pathParams[..j + 1][..j] == pathParams[..j];
      parameters := parameters + [PathParameter(pathParams[j])];
      j := j + 1;
    }
    assert pathParams[..|pathParams|] == pathParams;
    j := 0;
    while j < |queryValues|
      invariant 0 <= j <= |queryValues|
      invariant parameters == PathParameters(pathParams) + QueryParameters(queryValues[..j])
    {
      assert queryValues[..j + 1][..j] == queryValues[..j];
      parameters := parameters + [QueryParameter(queryValues[j].0, queryValues[j].1)];
      j := j + 1;
    }
    assert queryValues[..|queryValues|] == queryValues;
  }

  /** The base example, then each variant's. */
  method BuildResponses(ep: Endpoint) returns (responses: map<string, Response>)
    ensures responses == ResponsesOf(ep)
  {
    responses := AddExample(map[], BaseStatus(ep), "default", ep.response);
    var vs := VariantsOf(ep);
    var i := 0;
    while i < |vs|
      invariant 0 <= i <= |vs|
      invariant responses == VariantExamples(BaseResponses(ep), ep, vs[..i])
    {
      assert vs[..i + 1][..i] == vs[..i];
      responses := AddExample(responses, VariantStatus(ep, vs[i]), VariantName(vs[i]), vs[i].response);
      i := i + 1;
    }
    assert vs[..|vs|] == vs;
  }

  /** One endpoint's operation, built as the loop body of `generateOpenApi` builds it. */
  method BuildOperation(ep: Endpoint) returns (op: Operation)
    ensures op == OperationOf(ep)
  {
    var pathParams := ExtractPathParams(ep.path);
    var queryValues, bodyKeys := CollectMatchKeys(ep);
    var parameters := BuildParameters(pathParams, queryValues);
    var requestBody := if ep.httpMethod != "GET" && ep.httpMethod != "DELETE" && |bodyKeys| > 0 then Some(bodyKeys) else None;
    var responses := BuildResponses(ep);
    op := Operation(
      "Mock " + ep.httpMethod + " " + ep.path,
      if |parameters| > 0 then Some(parameters) else None,
      requestBody,
      responses);
  }

  /** `paths[oasPath] ??= {}` followed by `paths[oasPath][method] = operation`. */
  method AddOperation(paths: map<string, map<string, Operation>>, oasPath: string, httpMethod: string, operation: Operation)
    returns (r: map<string, map<string, Operation>>)
    ensures r == Insert(paths, oasPath, httpMethod, operation)
  {
    r := paths;
    if oasPath !in r {
      r := r[oasPath := map[]];
    }
    r := r[oasPath := r[oasPath][httpMethod := operation]];
  }

  /** `generateOpenApi`. */
  method GenerateOpenApi(endpoints: seq<Endpoint>, serverUrl: string) returns (doc: Document)
    ensures doc.openapi == "3.0.3"
    ensures doc.info == Info("mockserve", "0.1.0", "OpenAPI document generated from mockserve JSON spec.")
    ensures doc.servers == [serverUrl]
    ensures doc.paths == PathsOf(endpoints)
  {
    var paths: map<string, map<string, Operation>> := map[];
    var i := 0;
    while i < |endpoints|
      invariant 0 <= i <= |endpoints|
      invariant paths == PathsWith(endpoints[..i], OperationOf)
    {
      var ep := endpoints[i];
      var oasPath := ToOpenApiPath(ep.path);
      var httpMethod := Text.ToLower(ep.httpMethod);
      var operation := BuildOperation(ep);
      PathsWithStep(endpoints, i, OperationOf);
      paths := AddOperation(paths, oasPath, httpMethod, operation);
      i := i + 1;
    }
    assert endpoints[..|endpoints|] == endpoints;
    doc := Document("3.0.3", Info("mockserve", "0.1.0", "OpenAPI document generated from mockserve JSON spec."), [serverUrl], paths);
  }

  // ---------------------------------------------------------------------------
  // What the document says

  lemma UniqEmpty<T>(items: seq<T>)
    ensures Uniq(items) == [] <==> items == []
  {
    UniqDistinct(items);
    if items != [] {
      assert items[0] in items;
    }
  }

  /**
   * Query parameters: one per distinct query key of the endpoint's and its
   * variants' rules, in order of first sight, never required, each with the
   * distinct values given for its key as its enum (never empty).
   */
  lemma QueryParametersMeaning(ep: Endpoint)
    ensures var t := QueryValuesOf(ep);
            var all := AllQueryEntries(RulesOf(ep));
            TableKeys(t) == Uniq(EntryKeys(all)) &&
            forall j :: 0 <= j < |t| ==>
              t[j].1 == ValuesOf(all, t[j].0) &&
              QueryParameters(t)[j] == Parameter(t[j].0, "query", false, Some(Uniq(ValuesOf(all, t[j].0))), Some(QueryDescription))
  {
    var t := QueryValuesOf(ep);
    var all := AllQueryEntries(RulesOf(ep));
    CollectQueriesFlat(RulesOf(ep));
    QueryFoldMeaning(all);
    UniqDistinct(EntryKeys(all));
    forall j | 0 <= j < |t|
      ensures t[j].1 == ValuesOf(all, t[j].0)
      ensures QueryParameters(t)[j] == Parameter(t[j].0, "query", false, Some(Uniq(ValuesOf(all, t[j].0))), Some(QueryDescription))
    {
      ValuesForDistinct(t, j);
      StringEnumIsUniq(t[j].1);
      UniqEmpty(t[j].1);
    }
  }

  /**
   * The parameter list: absent when there is neither a path parameter nor a
   * query key; otherwise the path parameters, required and in path order,
   * followed by one optional query parameter per distinct query key.
   */
  lemma OperationParameters(ep: Endpoint)
    ensures ParamsLaidOut(ParametersOf(ep), ExtractPathParams(ep.path),
                          Uniq(EntryKeys(AllQueryEntries(RulesOf(ep)))), AllQueryEntries(RulesOf(ep)) == [])
  {
    var pp := ExtractPathParams(ep.path);
    var all := AllQueryEntries(RulesOf(ep));
    QueryKeysOf(ep);
    ParamsMeaning(pp, QueryValuesOf(ep), all);
  }

  /** The parameters when the query table's keys are the distinct keys of the query entries `all`. */
  lemma ParamsMeaning(pp: seq<string>, t: QueryTable, all: seq<(string, RequestMatch.Primitive)>)
    requires TableKeys(t) == Uniq(EntryKeys(all))
    ensures ParamsLaidOut(ParamsFrom(pp, t), pp, Uniq(EntryKeys(all)), all == [])
  {
    NoQueryKeys(all);
    ParamsShape(pp, t, Uniq(EntryKeys(all)), all == []);
  }

  lemma NoQueryKeys(all: seq<(string, RequestMatch.Primitive)>)
    ensures Uniq(EntryKeys(all)) == [] <==> all == []
  {
    UniqEmpty(EntryKeys(all));
    assert |EntryKeys(all)| == |all|;
  }

  /**
   * The parameter list of an operation: absent exactly when there are no
   * path parameters and no query entries; otherwise one parameter per path
   * name, in order, then one optional query parameter per query key.
   */
  predicate ParamsLaidOut(ps: Option<seq<Parameter>>, pp: seq<string>, keys: seq<string>, noQuery: bool)
  {
    (ps.None? <==> pp == [] && noQuery) &&
    (ps.Some? ==>
       |ps.value| == |pp| + |keys| &&
       (forall i :: 0 <= i < |pp| ==> ps.value[i] == PathParameter(pp[i])) &&
       (forall j :: 0 <= j < |keys| ==>
          ps.value[|pp| + j].name == keys[j] &&
          ps.value[|pp| + j].location == "query" &&
          !ps.value[|pp| + j].required))
  }

  /** `ParamsLayout` read through the option that is absent when there are no parameters. */
  lemma ParamsShape(pp: seq<string>, t: QueryTable, keys: seq<string>, noQuery: bool)
    requires TableKeys(t) == keys && (keys == [] <==> noQuery)
    ensures ParamsLaidOut(ParamsFrom(pp, t), pp, keys, noQuery)
  {
    var params := PathParameters(pp) + QueryParameters(t);
    assert |params| == |pp| + |t|;
    assert |keys| == |t|;
    ParamsLayout(pp, t);
  }

  lemma QueryKeysOf(ep: Endpoint)
    ensures TableKeys(QueryValuesOf(ep)) == Uniq(EntryKeys(AllQueryEntries(RulesOf(ep))))
  {
    CollectQueriesFlat(RulesOf(ep));
    QueryFoldMeaning(AllQueryEntries(RulesOf(ep)));
  }

  /** The path parameters, then one query parameter per table entry. */
  lemma ParamsLayout(pp: seq<string>, t: QueryTable)
    ensures var params := PathParameters(pp) + QueryParameters(t);
            |params| == |pp| + |t| &&
            (forall i :: 0 <= i < |pp| ==> params[i] == PathParameter(pp[i])) &&
            (forall j :: 0 <= j < |t| ==>
               params[|pp| + j].name == TableKeys(t)[j] && params[|pp| + j].location == "query" && !params[|pp| + j].required)
  {
    var params := PathParameters(pp) + QueryParameters(t);
    forall j | 0 <= j < |t|
      ensures params[|pp| + j].name == TableKeys(t)[j] && params[|pp| + j].location == "query" && !params[|pp| + j].required
    {
      assert params[|pp| + j] == QueryParameters(t)[j];
    }
  }

  /**
   * A request body is documented exactly for a method other than GET and
   * DELETE whose rules name body keys; it lists those keys once each, in
   * order of first sight.
   */
  lemma RequestBodyMeaning(ep: Endpoint)
    ensures var keys := AllBodyKeys(RulesOf(ep));
            OperationOf(ep).requestBody ==
              if ep.httpMethod != "GET" && ep.httpMethod != "DELETE" && keys != [] then Some(Uniq(keys)) else None
    ensures OperationOf(ep).requestBody.Some? ==> Distinct(OperationOf(ep).requestBody.value)
  {
    CollectBodiesUniq(RulesOf(ep));
    UniqEmpty(AllBodyKeys(RulesOf(ep)));
    UniqDistinct(AllBodyKeys(RulesOf(ep)));
  }

  lemma {:induction false} VariantExamplesAppend(responses: map<string, Response>, ep: Endpoint, a: seq<Variant>, b: seq<Variant>)
    ensures VariantExamples(responses, ep, a + b) == VariantExamples(VariantExamples(responses, ep, a), ep, b)
    decreases |b|
  {
    if b == [] {
      assert a + b == a;
    } else {
      VariantExamplesAppend(responses, ep, a, b[..|b| - 1]);
      assert (a + b)[..|a + b| - 1] == a + b[..|b| - 1];
      assert (a + b)[|a + b| - 1] == b[|b| - 1];
    }
  }

  function StatusKeys(ep: Endpoint, vs: seq<Variant>): set<string>
  {
    set v | v in vs :: IntToString(VariantStatus(ep, v))
  }

  /** One more variant adds its status. */
  lemma StatusKeysSnoc(ep: Endpoint, vs: seq<Variant>)
    requires vs != []
    ensures StatusKeys(ep, vs) == StatusKeys(ep, vs[..|vs| - 1]) + {IntToString(VariantStatus(ep, vs[|vs| - 1]))}
  {
    var init, v := vs[..|vs| - 1], vs[|vs| - 1];
    assert vs == init + [v];
    forall key | key in StatusKeys(ep, vs) ensures key in StatusKeys(ep, init) + {IntToString(VariantStatus(ep, v))} {
      var w :| w in vs && key == IntToString(VariantStatus(ep, w));
      if w != v {
        assert w in init;
      }
    }
  }

  /** The variants add one response per status of theirs, each described as a mock response. */
  lemma {:induction false} VariantExamplesKeys(responses: map<string, Response>, ep: Endpoint, vs: seq<Variant>)
    requires forall key :: key in responses ==> responses[key].description == ResponseDescription
    ensures VariantExamples(responses, ep, vs).Keys == responses.Keys + StatusKeys(ep, vs)
    ensures forall key :: key in VariantExamples(responses, ep, vs) ==> VariantExamples(responses, ep, vs)[key].description == ResponseDescription
    decreases |vs|
  {
    if vs != [] {
      var init := vs[..|vs| - 1];
      var v := vs[|vs| - 1];
      VariantExamplesKeys(responses, ep, init);
      var prev := VariantExamples(responses, ep, init);
      var next := AddExample(prev, VariantStatus(ep, v), VariantName(v), v.response);
      assert VariantExamples(responses, ep, vs) == next;
      AddExampleKeys(prev, VariantStatus(ep, v), VariantName(v), v.response);
      StatusKeysSnoc(ep, vs);
    } else {
      assert StatusKeys(ep, vs) == {};
    }
  }

  /**
   * The responses are keyed by the base status and every variant's status,
   * and nothing else; each is described as a mock response.
   */
  lemma ResponsesMeaning(ep: Endpoint)
    ensures ResponsesOf(ep).Keys == {IntToString(BaseStatus(ep))} + StatusKeys(ep, VariantsOf(ep))
    ensures forall key :: key in ResponsesOf(ep) ==> ResponsesOf(ep)[key].description == ResponseDescription
  {
    VariantExamplesKeys(BaseResponses(ep), ep, VariantsOf(ep));
  }

  /** An example stays as it is while no later variant writes the same name under the same status. */
  lemma {:induction false} ExampleKept(responses: map<string, Response>, ep: Endpoint, vs: seq<Variant>, key: string, name: string)
    requires key in responses && name in responses[key].examples
    requires forall i :: 0 <= i < |vs| ==> !(IntToString(VariantStatus(ep, vs[i])) == key && VariantName(vs[i]) == name)
    ensures key in VariantExamples(responses, ep, vs)
    ensures name in VariantExamples(responses, ep, vs)[key].examples
    ensures VariantExamples(responses, ep, vs)[key].examples[name] == responses[key].examples[name]
    decreases |vs|
  {
    if vs != [] {
      ExampleKept(responses, ep, vs[..|vs| - 1], key, name);
    }
  }

  /**
   * A variant's response is the example under its name and status unless a
   * later variant writes the same name under the same status.
   */
  lemma VariantExampleShown(ep: Endpoint, i: nat)
    requires i < |VariantsOf(ep)|
    requires var vs := VariantsOf(ep);
             forall j :: i < j < |vs| ==>
               !(IntToString(VariantStatus(ep, vs[j])) == IntToString(VariantStatus(ep, vs[i])) && VariantName(vs[j]) == VariantName(vs[i]))
    ensures var v := VariantsOf(ep)[i];
            var key := IntToString(VariantStatus(ep, v));
            key in ResponsesOf(ep) && VariantName(v) in ResponsesOf(ep)[key].examples &&
            ResponsesOf(ep)[key].examples[VariantName(v)] == v.response
  {
    var vs := VariantsOf(ep);
    var v := vs[i];
    var upto := VariantExamples(BaseResponses(ep), ep, vs[..i + 1]);
    assert vs[..i + 1][..i] == vs[..i];
    VariantExamplesAppend(BaseResponses(ep), ep, vs[..i + 1], vs[i + 1..]);
    assert vs[..i + 1] + vs[i + 1..] == vs;
    var rest := vs[i + 1..];
    forall j | 0 <= j < |rest| ensures !(IntToString(VariantStatus(ep, rest[j])) == IntToString(VariantStatus(ep, v)) && VariantName(rest[j]) == VariantName(v)) {
      assert rest[j] == vs[i + 1 + j];
    }
    ExampleKept(upto, ep, rest, IntToString(VariantStatus(ep, v)), VariantName(v));
  }

  /** The endpoint's own response is the "default" example unless a variant writes "default" under the same status. */
  lemma DefaultExampleShown(ep: Endpoint)
    requires var vs := VariantsOf(ep);
             forall j :: 0 <= j < |vs| ==> !(IntToString(VariantStatus(ep, vs[j])) == IntToString(BaseStatus(ep)) && VariantName(vs[j]) == "default")
    ensures var key := IntToString(BaseStatus(ep));
            key in ResponsesOf(ep) && "default" in ResponsesOf(ep)[key].examples &&
            ResponsesOf(ep)[key].examples["default"] == ep.response
  {
    ExampleKept(BaseResponses(ep), ep, VariantsOf(ep), IntToString(BaseStatus(ep)), "default");
  }

  /** An endpoint without match rule or variants documents its path parameters and its one default example. */
  lemma PlainEndpoint(ep: Endpoint)
    requires ep.matchRule.None? && ep.variants.None?
    ensures var pp := ExtractPathParams(ep.path);
            OperationOf(ep) == Operation(
              "Mock " + ep.httpMethod + " " + ep.path,
              if pp == [] then None else Some(PathParameters(pp)),
              None,
              map[IntToString(BaseStatus(ep)) := Response(ResponseDescription, map["default" := ep.response])])
  {
    var rules: seq<Option<RequestMatch.MatchRule>> := [None];
    assert RulesOf(ep) == rules;
    assert rules[..0] == [];
    assert QueryValuesOf(ep) == [];
    assert BodyKeysOf(ep) == [];
    assert PathParameters(ExtractPathParams(ep.path)) + QueryParameters([]) == PathParameters(ExtractPathParams(ep.path));
  }

  /** Every converted path and lower-cased method in `paths` is some endpoint's. */
  lemma PathsFromEndpoints(eps: seq<Endpoint>)
    ensures forall key, m :: key in PathsOf(eps) && m in PathsOf(eps)[key] ==>
              exists i :: 0 <= i < |eps| && ToOpenApiPath(eps[i].path) == key && Text.ToLower(eps[i].httpMethod) == m
    ensures forall key :: key in PathsOf(eps) ==> |PathsOf(eps)[key]| >= 1
  {
    PathsWithFrom(eps, OperationOf);
  }

  /** A path and method are in the map exactly when some endpoint declares them. */
  lemma PathsWithExactly(eps: seq<Endpoint>, op: Endpoint -> Operation)
    ensures forall key, m :: key in PathsWith(eps, op) && m in PathsWith(eps, op)[key] <==> Declares(eps, key, m)
  {
    PathsWithFrom(eps, op);
    forall key, m | Declares(eps, key, m)
      ensures key in PathsWith(eps, op) && m in PathsWith(eps, op)[key]
    {
      var i :| 0 <= i < |eps| && ToOpenApiPath(eps[i].path) == key && Text.ToLower(eps[i].httpMethod) == m;
      EndpointInPaths(eps, i, op);
    }
  }

  /** Some endpoint converts to path `key` and lower-cased method `m`. */
  predicate Declares(eps: seq<Endpoint>, key: string, m: string)
  {
    exists i :: 0 <= i < |eps| && ToOpenApiPath(eps[i].path) == key && Text.ToLower(eps[i].httpMethod) == m
  }

  lemma DeclaresLast(eps: seq<Endpoint>)
    requires eps != []
    ensures Declares(eps, ToOpenApiPath(eps[|eps| - 1].path), Text.ToLower(eps[|eps| - 1].httpMethod))
  {
    var i := |eps| - 1;
    assert ToOpenApiPath(eps[i].path) == ToOpenApiPath(eps[i].path);
  }

  lemma DeclaresInit(eps: seq<Endpoint>, key: string, m: string)
    requires eps != [] && Declares(eps[..|eps| - 1], key, m)
    ensures Declares(eps, key, m)
  {
    var init := eps[..|eps| - 1];
    var i :| 0 <= i < |init| && ToOpenApiPath(init[i].path) == key && Text.ToLower(init[i].httpMethod) == m;
    assert eps[i] == init[i];
  }

  lemma {:induction false} PathsWithFrom(eps: seq<Endpoint>, op: Endpoint -> Operation)
    ensures forall key, m :: key in PathsWith(eps, op) && m in PathsWith(eps, op)[key] ==> Declares(eps, key, m)
    ensures forall key :: key in PathsWith(eps, op) ==> |PathsWith(eps, op)[key]| >= 1
    decreases |eps|
  {
    if eps != [] {
      var init := eps[..|eps| - 1];
      var ep := eps[|eps| - 1];
      PathsWithFrom(init, op);
      var key0 := ToOpenApiPath(ep.path);
      var m0 := Text.ToLower(ep.httpMethod);
      var before := PathsWith(init, op);
      var after := Insert(before, key0, m0, op(ep));
      assert PathsWith(eps, op) == after;
      InsertDomain(before, key0, m0, op(ep));
      forall key, m | key in after && m in after[key] ensures Declares(eps, key, m) {
        if key == key0 && m == m0 {
          DeclaresLast(eps);
        } else {
          assert key in before && m in before[key];
          DeclaresInit(eps, key, m);
        }
      }
    }
  }

  /** Every endpoint's converted path and lower-cased method are in `paths`. */
  lemma EndpointsInPaths(eps: seq<Endpoint>)
    ensures forall i :: 0 <= i < |eps| ==>
              ToOpenApiPath(eps[i].path) in PathsOf(eps) && Text.ToLower(eps[i].httpMethod) in PathsOf(eps)[ToOpenApiPath(eps[i].path)]
  {
    forall i | 0 <= i < |eps|
      ensures ToOpenApiPath(eps[i].path) in PathsOf(eps) && Text.ToLower(eps[i].httpMethod) in PathsOf(eps)[ToOpenApiPath(eps[i].path)]
    {
      EndpointInPaths(eps, i, OperationOf);
    }
  }

  lemma {:induction false} EndpointInPaths(eps: seq<Endpoint>, i: nat, op: Endpoint -> Operation)
    requires i < |eps|
    ensures ToOpenApiPath(eps[i].path) in PathsWith(eps, op)
    ensures Text.ToLower(eps[i].httpMethod) in PathsWith(eps, op)[ToOpenApiPath(eps[i].path)]
    decreases |eps|
  {
    var init := eps[..|eps| - 1];
    var ep := eps[|eps| - 1];
    var before := PathsWith(init, op);
    var key0 := ToOpenApiPath(ep.path);
    var m0 := Text.ToLower(ep.httpMethod);
    assert PathsWith(eps, op) == Insert(before, key0, m0, op(ep));
    var k := ToOpenApiPath(eps[i].path);
    var mm := Text.ToLower(eps[i].httpMethod);
    if i < |init| {
      assert eps[i] == init[i];
      EndpointInPaths(init, i, op);
      if k == key0 && mm == m0 {
        InsertDomain(before, key0, m0, op(ep));
      } else {
        InsertKeeps(before, key0, m0, op(ep), k, mm);
      }
    } else {
      InsertDomain(before, key0, m0, op(ep));
    }
  }

  /**
   * The operation under an endpoint's converted path and lower-cased method
   * is that endpoint's, when no later endpoint has the same path and method.
   */
  lemma LastEndpointWins(eps: seq<Endpoint>, i: nat)
    requires i < |eps|
    requires forall j :: i < j < |eps| ==>
               !(ToOpenApiPath(eps[j].path) == ToOpenApiPath(eps[i].path) && Text.ToLower(eps[j].httpMethod) == Text.ToLower(eps[i].httpMethod))
    ensures ToOpenApiPath(eps[i].path) in PathsOf(eps)
    ensures Text.ToLower(eps[i].httpMethod) in PathsOf(eps)[ToOpenApiPath(eps[i].path)]
    ensures PathsOf(eps)[ToOpenApiPath(eps[i].path)][Text.ToLower(eps[i].httpMethod)] == OperationOf(eps[i])
  {
    LastWins(eps, i, OperationOf);
  }

  lemma {:induction false} LastWins(eps: seq<Endpoint>, i: nat, op: Endpoint -> Operation)
    requires i < |eps|
    requires forall j :: i < j < |eps| ==>
               !(ToOpenApiPath(eps[j].path) == ToOpenApiPath(eps[i].path) && Text.ToLower(eps[j].httpMethod) == Text.ToLower(eps[i].httpMethod))
    ensures ToOpenApiPath(eps[i].path) in PathsWith(eps, op)
    ensures Text.ToLower(eps[i].httpMethod) in PathsWith(eps, op)[ToOpenApiPath(eps[i].path)]
    ensures PathsWith(eps, op)[ToOpenApiPath(eps[i].path)][Text.ToLower(eps[i].httpMethod)] == op(eps[i])
    decreases |eps|
  {
    var init := eps[..|eps| - 1];
    var ep := eps[|eps| - 1];
    var before := PathsWith(init, op);
    var key0 := ToOpenApiPath(ep.path);
    var m0 := Text.ToLower(ep.httpMethod);
    assert PathsWith(eps, op) == Insert(before, key0, m0, op(ep));
    if i < |eps| - 1 {
      assert init[i] == eps[i];
      forall j | i < j < |init|
        ensures !(ToOpenApiPath(init[j].path) == ToOpenApiPath(init[i].path) && Text.ToLower(init[j].httpMethod) == Text.ToLower(init[i].httpMethod))
      {
        assert init[j] == eps[j];
      }
      LastWins(init, i, op);
      InsertKeeps(before, key0, m0, op(ep), ToOpenApiPath(eps[i].path), Text.ToLower(eps[i].httpMethod));
    } else {
      InsertDomain(before, key0, m0, op(ep));
    }
  }

  // ---------------------------------------------------------------------------
  // `collectQuery` as written: the lookup `queryMatchValues[k]` also sees the
  // members every object inherits, so a rule key naming one of them finds a
  // function (or the prototype), skips the initialisation and then fails on
  // `.push`.

  const InheritedNames: set<string> := {
    "constructor", "toString", "toLocaleString", "valueOf", "hasOwnProperty",
    "isPrototypeOf", "propertyIsEnumerable", "__defineGetter__", "__defineSetter__",
    "__lookupGetter__", "__lookupSetter__", "__proto__"}

  function AddValueAsWritten(table: QueryTable, k: string, v: string): Result<QueryTable, string>
  {
    if k !in TableKeys(table) && k in InheritedNames then Err("TypeError: queryMatchValues[k].push is not a function")
    else Ok(AddValue(table, k, v))
  }

  function QueryFoldAsWritten(table: QueryTable, entries: seq<(string, RequestMatch.Primitive)>): Result<QueryTable, string>
    decreases |entries|
  {
    if entries == [] then Ok(table)
    else
      var r := QueryFoldAsWritten(table, entries[..|entries| - 1]);
      var last := entries[|entries| - 1];
      if r.Err? then r else AddValueAsWritten(r.value, last.0, RequestMatch.PrimitiveString(last.1))
  }

  /** A query rule `{ "toString": "x" }` makes the code as written throw, where the own-key table lists the key with its value. */
  lemma ToStringQueryKeyThrows()
    ensures QueryFoldAsWritten([], [("toString", RequestMatch.PStr("x"))]).Err?
    ensures QueryFold([], [("toString", RequestMatch.PStr("x"))]) == [("toString", ["x"])]
  {
    var e := [("toString", RequestMatch.PStr("x"))];
    assert e[..0] == [];
  }

  /** Away from inherited names the code as written and the own-key table agree. */
  lemma {:induction false} AsWrittenAgrees(table: QueryTable, entries: seq<(string, RequestMatch.Primitive)>)
    requires forall j :: 0 <= j < |entries| ==> entries[j].0 !in InheritedNames
    ensures QueryFoldAsWritten(table, entries) == Ok(QueryFold(table, entries))
    decreases |entries|
  {
    if entries != [] {
      var init := entries[..|entries| - 1];
      assert forall j :: 0 <= j < |init| ==> init[j] == entries[j];
      AsWrittenAgrees(table, init);
    }
  }
}
