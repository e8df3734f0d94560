/**
 * The version-1 spec schema (src/spec.ts) as a validating function: a parsed
 * JSON document either becomes a spec with every default filled in, or the
 * list of all issues found, each with the path of the offending field.
 */
module Spec {
  import opened Json
  import Behavior

  /** One validation issue: the path of segments to the field and a message. */
  datatype Issue = Issue(path: seq<string>, message: string)

  datatype EndpointSpec = EndpointSpec(
    httpMethod: string,
    path: string,
    status: int,
    response: Option<Value>,
    delayMs: Option<int>,
    errorRate: Option<real>,
    errorStatus: Option<int>,
    errorResponse: Option<Value>)

  datatype MockSpec = MockSpec(
    version: int,
    settings: Behavior.BehaviorSettings,
    endpoints: seq<EndpointSpec>)

  /** The accepted HTTP verbs. */
  const Methods: seq<string> := ["GET", "POST", "PUT", "DELETE", "PATCH"]

  const DefaultStatus := 200
  const DefaultErrorResponse := JObj([("error", JStr("Mock error"))])
  const DefaultSettings := Behavior.BehaviorSettings(0, 0.0, 500, DefaultErrorResponse)

  type Checked<T> = Result<T, seq<Issue>>

  function IssuesOf<T>(r: Checked<T>): seq<Issue>
  {
    if r.Ok? then [] else r.error
  }

  // ---------------------------------------------------------------------------
  // Messages

  function TypeName(v: Value): string
  {
    if v.JNull? then "null"
    else if v.JBool? then "boolean"
    else if v.JNum? then "number"
    else if v.JStr? then "string"
    else if v.JArr? then "array"
    else "object"
  }

  /** The issue for a value of the wrong type; an absent field is "Required". */
  function WrongType(path: seq<string>, expected: string, raw: Option<Value>): Issue
  {
    Issue(path, if raw.None? then "Required" else "Expected " + expected + ", received " + TypeName(raw.value))
  }

  function OptionsText(ms: seq<string>): string
  {
    if ms == [] then ""
    else if |ms| == 1 then "'" + ms[0] + "'"
    else "'" + ms[0] + "' | " + OptionsText(ms[1..])
  }

  // ---------------------------------------------------------------------------
  // The schema as data: each object is a table of field rules

  /**
   * The rule for one field. `OneOf` is `z.enum`, `Text(n)` is
   * `z.string().min(n)`, and `Num(lo, hi)` is `z.number().int().min(lo)` with
   * an optional `.max(hi)`; every numeric field of the schema is optional or
   * has a default, so an absent number is always accepted.
   */
  datatype Rule = OneOf(options: seq<string>) | Text(minLength: nat) | Num(lo: int, hi: Option<int>)

  const EndpointRules: seq<(string, Rule)> := [
    ("method", OneOf(Methods)),
    ("path", Text(1)),
    ("status", Num(200, Some(599))),
    ("delayMs", Num(0, None)),
    ("errorRate", Num(0, Some(1))),
    ("errorStatus", Num(100, Some(599)))]

  const SettingsRules: seq<(string, Rule)> := [
    ("delayMs", Num(0, None)),
    ("errorRate", Num(0, Some(1))),
    ("errorStatus", Num(100, Some(599)))]

  /** The in-range test of a present number. */
  predicate InRange(raw: Option<Value>, lo: int, hi: Option<int>)
  {
    raw.Some? && raw.value.JNum? && lo <= raw.value.n && (hi.None? || raw.value.n <= hi.value)
  }

  /** Whether the field value `raw` (`None`: absent) satisfies `rule`. */
  predicate Holds(raw: Option<Value>, rule: Rule)
  {
    match rule
    case OneOf(options) => raw.Some? && raw.value.JStr? && raw.value.s in options
    case Text(n) => raw.Some? && raw.value.JStr? && |raw.value.s| >= n
    case Num(lo, hi) => raw.None? || InRange(raw, lo, hi)
  }

  /** The issue, if any, of one field. */
  function Check(path: seq<string>, raw: Option<Value>, rule: Rule): (r: seq<Issue>)
    ensures r == [] <==> Holds(raw, rule)
    ensures |r| <= 1 && (r != [] ==> r[0].path == path)
  {
    match rule
    case OneOf(options) =>
      if raw.None? || !raw.value.JStr? then [WrongType(path, OptionsText(options), raw)]
      else if raw.value.s !in options then
        [Issue(path, "Invalid enum value. Expected " + OptionsText(options) + ", received '" + raw.value.s + "'")]
      else []
    case Text(n) =>
      if raw.None? || !raw.value.JStr? then [WrongType(path, "string", raw)]
      else if |raw.value.s| < n then [Issue(path, "String must contain at least " + NatToString(n) + " character(s)")]
      else []
    case Num(lo, hi) =>
      if raw.None? then []
      else if !raw.value.JNum? then [WrongType(path, "number", raw)]
      else if raw.value.n < lo then [Issue(path, "Number must be greater than or equal to " + IntToString(lo))]
      else if hi.Some? && raw.value.n > hi.value then [Issue(path, "Number must be less than or equal to " + IntToString(hi.value))]
      else []
  }

  /** Issues that all lie under the field at `prefix`. */
  predicate Under(issues: seq<Issue>, prefix: seq<string>)
  {
    forall k :: 0 <= k < |issues| ==> prefix <= issues[k].path
  }

  predicate AllHold(fields: seq<(string, Value)>, rules: seq<(string, Rule)>)
  {
    forall k :: 0 <= k < |rules| ==> Holds(Get(fields, rules[k].0), rules[k].1)
  }

  /** The issues of an object's fields, in the order of its rules, each under `here`. */
  function CheckAll(here: seq<string>, fields: seq<(string, Value)>, rules: seq<(string, Rule)>): (r: seq<Issue>)
    ensures r == [] <==> AllHold(fields, rules)
    ensures Under(r, here)
    decreases |rules|
  {
    if rules == [] then []
    else
      var first := Check(here + [rules[0].0], Get(fields, rules[0].0), rules[0].1);
      var rest := CheckAll(here, fields, rules[1..]);
      assert forall k :: 1 <= k < |rules| ==> rules[k] == rules[1..][k - 1];
      assert first != [] ==> here <= first[0].path;
      first + rest
  }

  // ---------------------------------------------------------------------------
  // Acceptance and decoding

  predicate EndpointAccepted(v: Value)
  {
    v.JObj? && AllHold(v.fields, EndpointRules)
  }

  predicate SettingsAccepted(raw: Option<Value>)
  {
    raw.None? || (raw.value.JObj? && AllHold(raw.value.fields, SettingsRules))
  }

  predicate EndpointsAccepted(raw: Option<Value>)
  {
    raw.Some? && raw.value.JArr? && |raw.value.items| >= 1 &&
    forall k :: 0 <= k < |raw.value.items| ==> EndpointAccepted(raw.value.items[k])
  }

  predicate Accepted(doc: Value)
  {
    doc.JObj? &&
    Get(doc.fields, "version") == Some(JNum(1)) &&
    SettingsAccepted(Get(doc.fields, "settings")) &&
    EndpointsAccepted(Get(doc.fields, "endpoints"))
  }

  /** A field of an optional object; `None` when the object or the field is absent. */
  function Field(raw: Option<Value>, key: string): Option<Value>
  {
    if raw.Some? && raw.value.JObj? then Get(raw.value.fields, key) else None
  }

  /** The number a present numeric field holds, or the default `d`. */
  function NumberOr(raw: Option<Value>, d: int): int
  {
    if raw.Some? && raw.value.JNum? then raw.value.n else d
  }

  function OptionalNumberOf(raw: Option<Value>): Option<int>
  {
    if raw.Some? && raw.value.JNum? then Some(raw.value.n) else None
  }

  function OptionalRateOf(raw: Option<Value>): Option<real>
  {
    if raw.Some? && raw.value.JNum? then Some(raw.value.n as real) else None
  }

  function StringOf(raw: Option<Value>): string
  {
    if raw.Some? && raw.value.JStr? then raw.value.s else ""
  }

  /**
   * What an accepted endpoint object becomes: its fields as given, `status`
   * defaulted to 200, the optional overrides absent when absent.
   */
  function DecodeEndpoint(v: Value): EndpointSpec
  {
    var raw := Some(v);
    EndpointSpec(
      StringOf(Field(raw, "method")),
      StringOf(Field(raw, "path")),
      NumberOr(Field(raw, "status"), DefaultStatus),
      Field(raw, "response"),
      OptionalNumberOf(Field(raw, "delayMs")),
      OptionalRateOf(Field(raw, "errorRate")),
      OptionalNumberOf(Field(raw, "errorStatus")),
      Field(raw, "errorResponse"))
  }

  function DecodeAll(items: seq<Value>): seq<EndpointSpec>
  {
    DecodeWith(items, DecodeEndpoint)
  }

  /** Each item decoded by `decode`, in order. */
  function DecodeWith(items: seq<Value>, decode: Value -> EndpointSpec): seq<EndpointSpec>
  {
    if items == [] then [] else [decode(items[0])] + DecodeWith(items[1..], decode)
  }

  /** What accepted settings become: each absent field takes its default. */
  function DecodeSettings(raw: Option<Value>): Behavior.BehaviorSettings
  {
    Behavior.BehaviorSettings(
      NumberOr(Field(raw, "delayMs"), 0),
      NumberOr(Field(raw, "errorRate"), 0) as real,
      NumberOr(Field(raw, "errorStatus"), 500),
      if Field(raw, "errorResponse").None? then DefaultErrorResponse else Field(raw, "errorResponse").value)
  }

  // ---------------------------------------------------------------------------
  // The validator

  function EndpointAt(i: nat, v: Value): (r: Checked<EndpointSpec>)
    ensures r.Ok? <==> EndpointAccepted(v)
    ensures r.Ok? ==> r.value == DecodeEndpoint(v)
    ensures r.Err? ==> |r.error| >= 1 && Under(r.error, ["endpoints", NatToString(i)])
  {
    var here := ["endpoints", NatToString(i)];
    if !v.JObj? then Err([WrongType(here, "object", Some(v))])
    else
      var issues := CheckAll(here, v.fields, EndpointRules);
      if issues == [] then Ok(DecodeEndpoint(v)) else Err(issues)
  }

  /** The endpoints from index `i` on, with the issues of every bad one. */
  function EndpointsFrom(items: seq<Value>, i: nat): (r: Checked<seq<EndpointSpec>>)
    requires i <= |items|
    ensures r.Ok? <==> forall k :: i <= k < |items| ==> EndpointAccepted(items[k])
    ensures r.Ok? ==> r.value == DecodeAll(items[i..])
    ensures r.Err? ==> |r.error| >= 1
    decreases |items| - i
  {
    if i == |items| then Ok([])
    else
      var e := EndpointAt(i, items[i]);
      var rest := EndpointsFrom(items, i + 1);
      assert items[i..][1..] == items[i + 1..];
      if e.Ok? && rest.Ok? then Ok([e.value] + rest.value)
      else Err(IssuesOf(e) + IssuesOf(rest))
  }

  function Endpoints(raw: Option<Value>): (r: Checked<seq<EndpointSpec>>)
    ensures r.Ok? <==> EndpointsAccepted(raw)
    ensures r.Ok? ==> r.value == DecodeAll(raw.value.items)
    ensures r.Err? ==> |r.error| >= 1
  {
    if raw.None? || !raw.value.JArr? then Err([WrongType(["endpoints"], "array", raw)])
    else if raw.value.items == [] then Err([Issue(["endpoints"], "Array must contain at least 1 element(s)")])
    else
      assert raw.value.items[0..] == raw.value.items;
      EndpointsFrom(raw.value.items, 0)
  }

  /** The global settings; an absent object takes every default. */
  function Settings(raw: Option<Value>): (r: Checked<Behavior.BehaviorSettings>)
    ensures r.Ok? <==> SettingsAccepted(raw)
    ensures r.Ok? ==> r.value == DecodeSettings(raw)
    ensures r.Err? ==> |r.error| >= 1 && Under(r.error, ["settings"])
  {
    if raw.None? then Ok(DefaultSettings)
    else if !raw.value.JObj? then Err([WrongType(["settings"], "object", raw)])
    else
      var issues := CheckAll(["settings"], raw.value.fields, SettingsRules);
      if issues == [] then Ok(DecodeSettings(raw)) else Err(issues)
  }

  function Version(raw: Option<Value>): (r: Checked<int>)
    ensures r.Ok? <==> raw == Some(JNum(1))
    ensures r.Ok? ==> r.value == 1
    ensures r.Err? ==> |r.error| == 1
  {
    if raw == Some(JNum(1)) then Ok(1) else Err([Issue(["version"], "Invalid literal value, expected 1")])
  }

  /** `MockSpecSchema.safeParse`: the defaulted spec, or every issue found, in field order. */
  function Validate(doc: Value): (r: Checked<MockSpec>)
    ensures r.Ok? <==> Accepted(doc)
    ensures r.Ok? ==> doc.JObj? && Get(doc.fields, "endpoints").Some? && Get(doc.fields, "endpoints").value.JArr? &&
                      r.value == MockSpec(1, DecodeSettings(Get(doc.fields, "settings")),
                                          DecodeAll(Get(doc.fields, "endpoints").value.items))
    ensures r.Err? ==> |r.error| >= 1
  {
    if !doc.JObj? then Err([WrongType([], "object", Some(doc))])
    else
      var f := doc.fields;
      var v := Version(Get(f, "version"));
      var s := Settings(Get(f, "settings"));
      var e := Endpoints(Get(f, "endpoints"));
      if v.Ok? && s.Ok? && e.Ok? then Ok(MockSpec(v.value, s.value, e.value))
      else Err(IssuesOf(v) + IssuesOf(s) + IssuesOf(e))
  }

  // ---------------------------------------------------------------------------
  // Properties

  function Overrides(e: EndpointSpec): Behavior.BehaviorOverrides
  {
    Behavior.BehaviorOverrides(e.delayMs, e.errorRate, e.errorStatus, e.errorResponse)
  }

  /** The ranges of the behaviour settings. */
  predicate SettingsInRange(b: Behavior.BehaviorSettings)
  {
    b.delayMs >= 0 && 0.0 <= b.errorRate <= 1.0 && 100 <= b.errorStatus <= 599
  }

  predicate OverridesInRange(o: Behavior.BehaviorOverrides)
  {
    (o.delayMs.Some? ==> o.delayMs.value >= 0) &&
    (o.errorRate.Some? ==> 0.0 <= o.errorRate.value <= 1.0) &&
    (o.errorStatus.Some? ==> 100 <= o.errorStatus.value <= 599)
  }

  predicate EndpointInRange(e: EndpointSpec)
  {
    e.httpMethod in Methods && |e.path| >= 1 && 200 <= e.status <= 599 && OverridesInRange(Overrides(e))
  }

  /** Everything the schema promises about a spec it returns. */
  predicate InRangeSpec(spec: MockSpec)
  {
    spec.version == 1 && SettingsInRange(spec.settings) && |spec.endpoints| >= 1 &&
    forall k :: 0 <= k < |spec.endpoints| ==> EndpointInRange(spec.endpoints[k])
  }

  /**
   * The endpoint table, stated field by field: a method among the five verbs,
   * a non-empty path, and each of `status`, `delayMs`, `errorRate` and
   * `errorStatus` either absent or an integer in its range.
   */
  lemma EndpointSchemaMeaning(v: Value)
    requires v.JObj?
    ensures EndpointAccepted(v) <==>
      (var f := v.fields;
       Holds(Get(f, "method"), OneOf(["GET", "POST", "PUT", "DELETE", "PATCH"])) &&
       (Get(f, "path").Some? && Get(f, "path").value.JStr? && |Get(f, "path").value.s| >= 1) &&
       (Get(f, "status").None? || InRange(Get(f, "status"), 200, Some(599))) &&
       (Get(f, "delayMs").None? || InRange(Get(f, "delayMs"), 0, None)) &&
       (Get(f, "errorRate").None? || InRange(Get(f, "errorRate"), 0, Some(1))) &&
       (Get(f, "errorStatus").None? || InRange(Get(f, "errorStatus"), 100, Some(599))))
  {
    var f := v.fields;
    AllHoldSix(f, EndpointRules);
    assert Holds(Get(f, EndpointRules[0].0), EndpointRules[0].1) == Holds(Get(f, "method"), OneOf(Methods));
    assert Holds(Get(f, EndpointRules[1].0), EndpointRules[1].1) == Holds(Get(f, "path"), Text(1));
    assert Holds(Get(f, EndpointRules[2].0), EndpointRules[2].1) == Holds(Get(f, "status"), Num(200, Some(599)));
    assert Holds(Get(f, EndpointRules[3].0), EndpointRules[3].1) == Holds(Get(f, "delayMs"), Num(0, None));
    assert Holds(Get(f, EndpointRules[4].0), EndpointRules[4].1) == Holds(Get(f, "errorRate"), Num(0, Some(1)));
    assert Holds(Get(f, EndpointRules[5].0), EndpointRules[5].1) == Holds(Get(f, "errorStatus"), Num(100, Some(599)));
  }

  /** A table of six rules holds when each of its rules does. */
  lemma AllHoldSix(fields: seq<(string, Value)>, rules: seq<(string, Rule)>)
    requires |rules| == 6
    ensures AllHold(fields, rules) <==>
      Holds(Get(fields, rules[0].0), rules[0].1) && Holds(Get(fields, rules[1].0), rules[1].1) &&
      Holds(Get(fields, rules[2].0), rules[2].1) && Holds(Get(fields, rules[3].0), rules[3].1) &&
      Holds(Get(fields, rules[4].0), rules[4].1) && Holds(Get(fields, rules[5].0), rules[5].1)
  {
  }

  /** The settings table, stated field by field. */
  lemma SettingsSchemaMeaning(fields: seq<(string, Value)>)
    ensures AllHold(fields, SettingsRules) <==>
      (Get(fields, "delayMs").None? || InRange(Get(fields, "delayMs"), 0, None)) &&
      (Get(fields, "errorRate").None? || InRange(Get(fields, "errorRate"), 0, Some(1))) &&
      (Get(fields, "errorStatus").None? || InRange(Get(fields, "errorStatus"), 100, Some(599)))
  {
    assert Holds(Get(fields, SettingsRules[0].0), SettingsRules[0].1) == Holds(Get(fields, "delayMs"), Num(0, None));
    assert Holds(Get(fields, SettingsRules[1].0), SettingsRules[1].1) == Holds(Get(fields, "errorRate"), Num(0, Some(1)));
    assert Holds(Get(fields, SettingsRules[2].0), SettingsRules[2].1) == Holds(Get(fields, "errorStatus"), Num(100, Some(599)));
  }

  /** The decoded endpoints correspond one to one, in order, to the given ones. */
  lemma DecodeAllIndex(items: seq<Value>)
    ensures |DecodeAll(items)| == |items|
    ensures forall k :: 0 <= k < |items| ==> DecodeAll(items)[k] == DecodeEndpoint(items[k])
  {
    DecodeWithIndex(items, DecodeEndpoint);
  }

  lemma {:induction false} DecodeWithIndex(items: seq<Value>, decode: Value -> EndpointSpec)
    ensures |DecodeWith(items, decode)| == |items|
    ensures forall k :: 0 <= k < |items| ==> DecodeWith(items, decode)[k] == decode(items[k])
  {
    if items != [] {
      DecodeWithIndex(items[1..], decode);
      var d := DecodeWith(items, decode);
      var rest := DecodeWith(items[1..], decode);
      assert d == [decode(items[0])] + rest;
      forall k | 0 <= k < |items| ensures d[k] == decode(items[k]) {
        if k > 0 {
          assert d[k] == rest[k - 1] && items[k] == items[1..][k - 1];
        }
      }
    }
  }

  /** Every issue of a bad endpoint is among the issues of the list. */
  lemma {:induction false} EndpointIssuesKept(items: seq<Value>, i: nat, k: nat)
    requires i <= k < |items| && EndpointAt(k, items[k]).Err?
    ensures EndpointsFrom(items, i).Err?
    ensures forall x :: x in EndpointAt(k, items[k]).error ==> x in EndpointsFrom(items, i).error
    decreases |items| - i
  {
    var e := EndpointAt(i, items[i]);
    var rest := EndpointsFrom(items, i + 1);
    if i < k {
      EndpointIssuesKept(items, i + 1, k);
      assert EndpointsFrom(items, i).error == IssuesOf(e) + rest.error;
    } else {
      assert EndpointsFrom(items, i).error == e.error + IssuesOf(rest);
    }
  }

  /**
   * A bad endpoint makes the whole spec invalid, and it is reported: at least
   * one issue names `endpoints.<index>` as its place.
   */
  lemma BadEndpointReported(doc: Value, k: nat)
    requires doc.JObj?
    requires var e := Get(doc.fields, "endpoints"); e.Some? && e.value.JArr? && k < |e.value.items|
    requires !EndpointAccepted(Get(doc.fields, "endpoints").value.items[k])
    ensures Validate(doc).Err?
    ensures exists x :: x in Validate(doc).error && ["endpoints", NatToString(k)] <= x.path
  {
    var items := Get(doc.fields, "endpoints").value.items;
    var bad := EndpointAt(k, items[k]);
    EndpointIssuesKept(items, 0, k);
    var x := bad.error[0];
    assert x in bad.error;
    var f := doc.fields;
    assert Validate(doc).error == IssuesOf(Version(Get(f, "version"))) + IssuesOf(Settings(Get(f, "settings"))) + IssuesOf(Endpoints(Get(f, "endpoints")));
    assert x in Validate(doc).error;
  }

  /** Any `version` other than the number 1 is reported at `version`. */
  lemma VersionMustBeOne(doc: Value)
    requires doc.JObj? && Get(doc.fields, "version") != Some(JNum(1))
    ensures Validate(doc).Err?
    ensures Validate(doc).error[0] == Issue(["version"], "Invalid literal value, expected 1")
  {
  }

  /** An empty endpoint list is reported at `endpoints`, even when all else is valid. */
  lemma EndpointsMustBeNonEmpty(doc: Value)
    requires doc.JObj? && Get(doc.fields, "endpoints") == Some(JArr([]))
    ensures Validate(doc).Err?
    ensures Issue(["endpoints"], "Array must contain at least 1 element(s)") in Validate(doc).error
  {
  }

  /** A document that is not an object is reported once, at the root. */
  lemma NotAnObjectAtRoot(doc: Value)
    requires !doc.JObj?
    ensures Validate(doc).Err? && |Validate(doc).error| == 1 && Validate(doc).error[0].path == []
  {
  }

  /**
   * Without a `settings` object, or with an empty one, the settings are 0 ms,
   * rate 0, status 500 and `{"error": "Mock error"}`: the object default
   * agrees with the field defaults.
   */
  lemma MissingSettingsDefaults()
    ensures Settings(None) == Ok(Behavior.BehaviorSettings(0, 0.0, 500, JObj([("error", JStr("Mock error"))])))
    ensures Settings(Some(JObj([]))) == Settings(None)
  {
    SettingsSchemaMeaning([]);
  }

  /** A validated spec's endpoints are the given ones, each accepted and decoded, in order. */
  lemma ValidatedEndpoints(doc: Value)
    requires Validate(doc).Ok?
    ensures var raw := Get(doc.fields, "endpoints");
            raw.Some? && raw.value.JArr? &&
            (forall k :: 0 <= k < |raw.value.items| ==> EndpointAccepted(raw.value.items[k])) &&
            Validate(doc).value.endpoints == DecodeAll(raw.value.items)
  {
    var e := Endpoints(Get(doc.fields, "endpoints"));
    assert Validate(doc).value.endpoints == e.value;
  }

  /** An accepted endpoint without a `status` answers 200; one with a status keeps it. */
  lemma StatusDefaultsTo200(v: Value)
    requires EndpointAccepted(v)
    ensures var raw := Field(Some(v), "status");
            var status := DecodeEndpoint(v).status;
            (raw.None? ==> status == 200) && (raw.Some? ==> raw.value.JNum? && status == raw.value.n)
  {
    EndpointSchemaMeaning(v);
  }

  /** Everything the schema constrains holds of the spec it returns. */
  lemma ValidatedInRange(doc: Value)
    requires Validate(doc).Ok?
    ensures InRangeSpec(Validate(doc).value)
  {
    var spec := Validate(doc).value;
    ValidatedEndpoints(doc);
    var items := Get(doc.fields, "endpoints").value.items;
    DecodeAllIndex(items);
    forall k | 0 <= k < |spec.endpoints| ensures EndpointInRange(spec.endpoints[k]) {
      DecodedEndpointInRange(items[k]);
    }
    ValidatedSettings(doc);
  }

  lemma DecodedEndpointInRange(v: Value)
    requires EndpointAccepted(v)
    ensures EndpointInRange(DecodeEndpoint(v))
  {
    EndpointSchemaMeaning(v);
  }

  lemma ValidatedSettings(doc: Value)
    requires Validate(doc).Ok?
    ensures Validate(doc).value.version == 1 && SettingsInRange(Validate(doc).value.settings)
  {
    var raw := Get(doc.fields, "settings");
    var s := Settings(raw);
    assert s.Ok? && Validate(doc).value.settings == s.value;
    DecodedSettingsInRange(raw);
  }

  lemma DecodedSettingsInRange(raw: Option<Value>)
    requires SettingsAccepted(raw)
    ensures SettingsInRange(DecodeSettings(raw))
  {
    if raw.Some? {
      SettingsSchemaMeaning(raw.value.fields);
    }
  }

  /**
   * Behaviour resolved from a validated spec stays in range: whatever the
   * level each field comes from, the delay is not negative, the rate lies in
   * [0, 1] and the error status in [100, 599].
   */
  lemma ResolvedInRange(spec: MockSpec, k: nat, chosen: Option<Behavior.BehaviorOverrides>)
    requires InRangeSpec(spec) && k < |spec.endpoints|
    requires chosen.Some? ==> OverridesInRange(chosen.value)
    ensures SettingsInRange(Behavior.ResolveBehavior(spec.settings, Some(Overrides(spec.endpoints[k])), chosen))
  {
    assert EndpointInRange(spec.endpoints[k]);
  }
}
