/**
 * Request matching (src/requestMatch.ts): a match rule is a conjunction of
 * optional sub-rules over the query string, the JSON body, the headers and
 * the cookies of a request; an absent sub-rule holds vacuously.
 */
module RequestMatch {
  import opened Json
  import Text

  /** A rule value: string, number or boolean. */
  datatype Primitive = PStr(s: string) | PNum(n: int) | PBool(b: bool)

  /** A request header value: a string, a list of strings, or `undefined`. */
  datatype HeaderValue = HStr(s: string) | HList(items: seq<string>) | HAbsent

  /**
   * The parts of a request the matcher reads: the parsed query (an object
   * whose repeated keys hold arrays), the parsed body (absent when none was
   * sent), the raw headers and the parsed cookies (absent when no cookie
   * parser ran).
   */
  datatype Request = Request(
    query: Option<Value>,
    body: Option<Value>,
    headers: seq<(string, HeaderValue)>,
    cookies: Option<seq<(string, string)>>)

  datatype MatchRule = MatchRule(
    query: Option<seq<(string, Primitive)>>,
    body: Option<seq<(string, Primitive)>>,
    headers: Option<seq<(string, string)>>,
    cookies: Option<seq<(string, string)>>)

  /** `String(exp)` for a rule value. */
  function PrimitiveString(p: Primitive): string
  {
    match p
    case PStr(s) => s
    case PNum(n) => IntToString(n)
    case PBool(b) => BoolToString(b)
  }

  /** The entries of a plain object, and of anything else none. */
  function ToRecord(v: Option<Value>): seq<(string, Value)>
  {
    if v.Some? && v.value.JObj? then v.value.fields else []
  }

  function LookupString(entries: seq<(string, string)>, key: string): (r: Option<string>)
    ensures r.None? <==> forall j :: 0 <= j < |entries| ==> entries[j].0 != key
    ensures r.Some? ==> exists j :: 0 <= j < |entries| && entries[j] == (key, r.value)
  {
    if entries == [] then None
    else if entries[0].0 == key then Some(entries[0].1)
    else LookupString(entries[1..], key)
  }

  // ---------------------------------------------------------------------------
  // The sub-rules as predicates

  /** One query entry: the actual value is not an array and coerces to the rule's string. */
  predicate QueryEntryHolds(query: seq<(string, Value)>, key: string, exp: Primitive)
  {
    var actual := Get(query, key);
    !(actual.Some? && actual.value.JArr?) && CoerceOrEmpty(actual) == PrimitiveString(exp)
  }

  predicate QueryHolds(req: Request, expected: Option<seq<(string, Primitive)>>)
  {
    expected.None? ||
    forall i :: 0 <= i < |expected.value| ==>
      QueryEntryHolds(ToRecord(req.query), expected.value[i].0, expected.value[i].1)
  }

  predicate BodyEntryHolds(body: seq<(string, Value)>, key: string, exp: Primitive)
  {
    CoerceOrEmpty(Get(body, key)) == PrimitiveString(exp)
  }

  predicate BodyHolds(req: Request, expected: Option<seq<(string, Primitive)>>)
  {
    expected.None? ||
    (IsPlainObject(req.body) &&
     forall i :: 0 <= i < |expected.value| ==>
       BodyEntryHolds(req.body.value.fields, expected.value[i].0, expected.value[i].1))
  }

  /**
   * The lower-cased header map: string-valued headers only, a later header
   * overwriting an earlier one with the same lower-cased name.
   */
  function LowerHeaders(headers: seq<(string, HeaderValue)>): map<string, string>
    decreases |headers|
  {
    if headers == [] then map[]
    else
      var m := LowerHeaders(headers[..|headers| - 1]);
      var (key, value) := headers[|headers| - 1];
      if value.HStr? then m[Text.ToLower(key) := value.s] else m
  }

  predicate HeaderEntryHolds(lowered: map<string, string>, key: string, exp: string)
  {
    Text.ToLower(key) in lowered && lowered[Text.ToLower(key)] == exp
  }

  predicate HeadersHold(req: Request, expected: Option<seq<(string, string)>>)
  {
    expected.None? ||
    forall i :: 0 <= i < |expected.value| ==>
      HeaderEntryHolds(LowerHeaders(req.headers), expected.value[i].0, expected.value[i].1)
  }

  predicate CookiesHold(req: Request, expected: Option<seq<(string, string)>>)
  {
    expected.None? ||
    (req.cookies.Some? &&
     forall i :: 0 <= i < |expected.value| ==>
       LookupString(req.cookies.value, expected.value[i].0) == Some(expected.value[i].1))
  }

  /** The whole rule: every present sub-rule holds. */
  predicate Matches(req: Request, rule: Option<MatchRule>)
  {
    rule.None? ||
    (QueryHolds(req, rule.value.query) && BodyHolds(req, rule.value.body) &&
     HeadersHold(req, rule.value.headers) && CookiesHold(req, rule.value.cookies))
  }

  // ---------------------------------------------------------------------------
  // The matcher as the source runs it: early-exit loops over the rule entries

  method QueryMatches(req: Request, expected: Option<seq<(string, Primitive)>>) returns (ok: bool)
    ensures ok == QueryHolds(req, expected)
  {
    if expected.None? { return true; }
    var query := ToRecord(req.query);
    var entries := expected.value;
    var i := 0;
    while i < |entries|
      invariant 0 <= i <= |entries|
      invariant forall j :: 0 <= j < i ==> QueryEntryHolds(query, entries[j].0, entries[j].1)
    {
      var (key, exp) := entries[i];
      var actual := Get(query, key);
      if actual.Some? && actual.value.JArr? { return false; }
      if CoerceOrEmpty(actual) != PrimitiveString(exp) { return false; }
      i := i + 1;
    }
    return true;
  }

  method BodyMatches(req: Request, expected: Option<seq<(string, Primitive)>>) returns (ok: bool)
    ensures ok == BodyHolds(req, expected)
  {
    if expected.None? { return true; }
    if !(req.body.Some? && req.body.value.JObj?) { return false; }
    var record := req.body.value.fields;
    var entries := expected.value;
    var i := 0;
    while i < |entries|
      invariant 0 <= i <= |entries|
      invariant forall j :: 0 <= j < i ==> BodyEntryHolds(record, entries[j].0, entries[j].1)
    {
      var (key, exp) := entries[i];
      if CoerceOrEmpty(Get(record, key)) != PrimitiveString(exp) { return false; }
      i := i + 1;
    }
    return true;
  }

  /** Builds the lower-cased header map by inserting the string-valued headers in order. */
  method LowerHeaderMap(headers: seq<(string, HeaderValue)>) returns (m: map<string, string>)
    ensures m == LowerHeaders(headers)
  {
    m := map[];
    var i := 0;
    while i < |headers|
      invariant 0 <= i <= |headers|
      invariant m == LowerHeaders(headers[..i])
    {
      assert headers[..i + 1][..i] == headers[..i];
      var (key, value) := headers[i];
      if value.HStr? {
        m := m[Text.ToLower(key) := value.s];
      }
      i := i + 1;
    }
    assert headers[..|headers|] == headers;
  }

  method HeadersMatch(req: Request, expected: Option<seq<(string, string)>>) returns (ok: bool)
    ensures ok == HeadersHold(req, expected)
  {
    if expected.None? { return true; }
    var headers := LowerHeaderMap(req.headers);
    var entries := expected.value;
    var i := 0;
    while i < |entries|
      invariant 0 <= i <= |entries|
      invariant forall j :: 0 <= j < i ==> HeaderEntryHolds(headers, entries[j].0, entries[j].1)
    {
      var (key, exp) := entries[i];
      var lowered := Text.ToLower(key);
      if !(lowered in headers && headers[lowered] == exp) { return false; }
      i := i + 1;
    }
    return true;
  }

  method CookiesMatch(req: Request, expected: Option<seq<(string, string)>>) returns (ok: bool)
    ensures ok == CookiesHold(req, expected)
  {
    if expected.None? { return true; }
    if req.cookies.None? { return false; }
    var cookies := req.cookies.value;
    var entries := expected.value;
    var i := 0;
    while i < |entries|
      invariant 0 <= i <= |entries|
      invariant forall j :: 0 <= j < i ==> LookupString(cookies, entries[j].0) == Some(entries[j].1)
    {
      if LookupString(cookies, entries[i].0) != Some(entries[i].1) { return false; }
      i := i + 1;
    }
    return true;
  }

  method MatchRequest(req: Request, rule: Option<MatchRule>) returns (ok: bool)
    ensures ok == Matches(req, rule)
  {
    if rule.None? { return true; }
    var q := QueryMatches(req, rule.value.query);
    if !q { return false; }
    var b := BodyMatches(req, rule.value.body);
    if !b { return false; }
    var h := HeadersMatch(req, rule.value.headers);
    if !h { return false; }
    var c := CookiesMatch(req, rule.value.cookies);
    if !c { return false; }
    return true;
  }

  // ---------------------------------------------------------------------------
  // Properties

  /** No rule, or a rule with every sub-rule absent, matches every request. */
  lemma AbsentRulesMatch(req: Request)
    ensures Matches(req, None)
    ensures Matches(req, Some(MatchRule(None, None, None, None)))
  {
  }

  /** A repeated query parameter fails its entry, even when one of its values is the expected one. */
  lemma RepeatedQueryFails(req: Request, key: string, exp: Primitive, values: seq<Value>)
    requires IsPlainObject(req.query) && Get(req.query.value.fields, key) == Some(JArr(values))
    ensures !QueryHolds(req, Some([(key, exp)]))
  {
    var entries := [(key, exp)];
    assert entries[0] == (key, exp);
    assert !QueryEntryHolds(ToRecord(req.query), entries[0].0, entries[0].1);
  }

  /** A missing (or null) query key matches exactly the expected value whose string is "". */
  lemma MissingQueryKey(req: Request, key: string, exp: Primitive)
    requires IsNullish(Get(ToRecord(req.query), key))
    ensures QueryHolds(req, Some([(key, exp)])) <==> PrimitiveString(exp) == ""
  {
    var entries := [(key, exp)];
    assert entries[0] == (key, exp);
    assert QueryHolds(req, Some(entries)) <==> QueryEntryHolds(ToRecord(req.query), entries[0].0, entries[0].1);
  }

  /** Values are compared as strings: a boolean `true` in the request matches the rule string "true". */
  lemma BooleanMatchesItsString(req: Request, key: string)
    requires IsPlainObject(req.body) && Get(req.body.value.fields, key) == Some(JBool(true))
    ensures BodyHolds(req, Some([(key, PStr("true"))]))
    ensures BodyHolds(req, Some([(key, PBool(true))]))
  {
    assert BodyEntryHolds(req.body.value.fields, key, PStr("true"));
    assert BodyEntryHolds(req.body.value.fields, key, PBool(true));
  }

  /** An absent, scalar or array body fails every body rule, even an empty one. */
  lemma NonObjectBodyFails(req: Request, expected: seq<(string, Primitive)>)
    requires !IsPlainObject(req.body)
    ensures !BodyHolds(req, Some(expected))
    ensures !Matches(req, Some(MatchRule(None, Some(expected), None, None)))
  {
  }

  /** A cookie rule fails when the request carries no cookies object at all. */
  lemma NoCookieJarFails(req: Request, expected: seq<(string, string)>)
    requires req.cookies.None?
    ensures !CookiesHold(req, Some(expected))
  {
  }

  /** A header that is present in the map has the value of the last string-valued header with that lower-cased name. */
  lemma {:induction false} LowerHeadersLast(headers: seq<(string, HeaderValue)>, k: nat)
    requires k < |headers| && headers[k].1.HStr?
    requires forall j :: k < j < |headers| && headers[j].1.HStr? ==> Text.ToLower(headers[j].0) != Text.ToLower(headers[k].0)
    ensures Text.ToLower(headers[k].0) in LowerHeaders(headers)
    ensures LowerHeaders(headers)[Text.ToLower(headers[k].0)] == headers[k].1.s
    decreases |headers|
  {
    if k < |headers| - 1 {
      LowerHeadersLast(headers[..|headers| - 1], k);
    }
  }

  /** A name is in the lower-cased map only if some string-valued header has that lower-cased name. */
  lemma {:induction false} LowerHeadersOnlyStrings(headers: seq<(string, HeaderValue)>, name: string)
    requires forall j :: 0 <= j < |headers| && Text.ToLower(headers[j].0) == name ==> !headers[j].1.HStr?
    ensures name !in LowerHeaders(headers)
    decreases |headers|
  {
    if headers != [] {
      LowerHeadersOnlyStrings(headers[..|headers| - 1], name);
    }
  }

  /** Multi-valued or undefined headers count as missing: a rule naming only such a header fails. */
  lemma MultiValuedHeaderIsMissing(req: Request, key: string, exp: string)
    requires forall j :: 0 <= j < |req.headers| && Text.ToLower(req.headers[j].0) == Text.ToLower(key) ==> !req.headers[j].1.HStr?
    ensures !HeadersHold(req, Some([(key, exp)]))
  {
    LowerHeadersOnlyStrings(req.headers, Text.ToLower(key));
    var entries := [(key, exp)];
    assert !HeaderEntryHolds(LowerHeaders(req.headers), entries[0].0, entries[0].1);
  }

  /** A single string header matches a rule naming it in any letter case, with exactly its value. */
  lemma HeaderCaseInsensitive(name: string, value: string, key: string, exp: string)
    requires Text.ToLower(key) == Text.ToLower(name)
    ensures var req := Request(None, None, [(name, HStr(value))], None);
            HeadersHold(req, Some([(key, exp)])) <==> exp == value
  {
    var req := Request(None, None, [(name, HStr(value))], None);
    assert [(name, HStr(value))][..0] == [];
    assert LowerHeaders(req.headers) == map[Text.ToLower(name) := value];
    var entries := [(key, exp)];
    assert HeadersHold(req, Some(entries)) <==> HeaderEntryHolds(LowerHeaders(req.headers), entries[0].0, entries[0].1);
  }

  /** Header rules depend on their keys only up to letter case. */
  lemma HeaderRuleKeyCase(req: Request, key: string, exp: string)
    ensures HeadersHold(req, Some([(key, exp)])) == HeadersHold(req, Some([(Text.ToLower(key), exp)]))
  {
    Text.ToLowerIdempotent(key);
    var m := LowerHeaders(req.headers);
    var entries, lowered := [(key, exp)], [(Text.ToLower(key), exp)];
    assert HeadersHold(req, Some(entries)) <==> HeaderEntryHolds(m, entries[0].0, entries[0].1);
    assert HeadersHold(req, Some(lowered)) <==> HeaderEntryHolds(m, lowered[0].0, lowered[0].1);
  }

  /** The rule is the conjunction of its sub-rules: one violated sub-rule makes the match fail. */
  lemma ViolatedSubRuleFails(req: Request, rule: MatchRule)
    ensures !QueryHolds(req, rule.query) ==> !Matches(req, Some(rule))
    ensures !BodyHolds(req, rule.body) ==> !Matches(req, Some(rule))
    ensures !HeadersHold(req, rule.headers) ==> !Matches(req, Some(rule))
    ensures !CookiesHold(req, rule.cookies) ==> !Matches(req, Some(rule))
  {
  }

  /** Removing a sub-rule never turns a match into a non-match. */
  lemma DroppingSubRuleKeepsMatch(req: Request, rule: MatchRule)
    requires Matches(req, Some(rule))
    ensures Matches(req, Some(rule.(query := None)))
    ensures Matches(req, Some(rule.(body := None)))
    ensures Matches(req, Some(rule.(headers := None)))
    ensures Matches(req, Some(rule.(cookies := None)))
  {
  }

  /** Removing entries from a query sub-rule never turns a match into a non-match. */
  lemma FewerQueryEntriesKeepMatch(req: Request, entries: seq<(string, Primitive)>, kept: seq<(string, Primitive)>)
    requires forall e :: e in kept ==> e in entries
    requires QueryHolds(req, Some(entries))
    ensures QueryHolds(req, Some(kept))
  {
    forall i | 0 <= i < |kept|
      ensures QueryEntryHolds(ToRecord(req.query), kept[i].0, kept[i].1)
    {
      assert kept[i] in entries;
      var j :| 0 <= j < |entries| && entries[j] == kept[i];
    }
  }

  /** Several rules in order: the index of the first that matches the request. */
  function FirstMatch(rules: seq<Option<MatchRule>>, req: Request): (r: Option<nat>)
    ensures r.Some? ==> r.value < |rules| && Matches(req, rules[r.value])
    ensures r.Some? ==> forall j :: 0 <= j < r.value ==> !Matches(req, rules[j])
    ensures r.None? ==> forall j :: 0 <= j < |rules| ==> !Matches(req, rules[j])
  {
    FirstWhere(rules, (rule: Option<MatchRule>) => Matches(req, rule))
  }

  /** The index of the first rule `p` holds for, if any. */
  function FirstWhere(rules: seq<Option<MatchRule>>, p: Option<MatchRule> -> bool): (r: Option<nat>)
    ensures r.Some? ==> r.value < |rules| && p(rules[r.value])
    ensures r.Some? ==> forall j :: 0 <= j < r.value ==> !p(rules[j])
    ensures r.None? ==> forall j :: 0 <= j < |rules| ==> !p(rules[j])
  {
    if rules == [] then None
    else if p(rules[0]) then Some(0)
    else match FirstWhere(rules[1..], p)
      case None => None
      case Some(i) => Some(i + 1)
  }
}
