/**
 * JSON-like values shared by every part of the model: request data, template
 * values, rendered responses and the raw specification file.
 *
 * A JavaScript `undefined` is written `None` wherever a value may be absent
 * (`Option<Value>`); `JNull` is the JSON `null`. Numbers are integers.
 * Objects are ordered key/value sequences; a lookup finds the first pair with
 * the key, which for a JavaScript object (whose keys are distinct) is the one.
 */
module Json {

  datatype Option<+T> = None | Some(value: T)

  datatype Result<+T, +E> = Ok(value: T) | Err(error: E)

  datatype Value =
    | JNull
    | JBool(b: bool)
    | JNum(n: int)
    | JStr(s: string)
    | JArr(items: seq<Value>)
    | JObj(fields: seq<(string, Value)>)

  /** Index of the first pair whose key is `key`. */
  function FindKey(fields: seq<(string, Value)>, key: string): (r: Option<nat>)
    ensures r.Some? ==> r.value < |fields| && fields[r.value].0 == key
    ensures r.Some? ==> forall j :: 0 <= j < r.value ==> fields[j].0 != key
    ensures r.None? ==> forall j :: 0 <= j < |fields| ==> fields[j].0 != key
  {
    if fields == [] then None
    else if fields[0].0 == key then Some(0)
    else match FindKey(fields[1..], key)
      case None => None
      case Some(i) => Some(i + 1)
  }

  /** `record[key]` on a plain object: the value, or `undefined`. */
  function Get(fields: seq<(string, Value)>, key: string): (r: Option<Value>)
    ensures r.None? <==> forall j :: 0 <= j < |fields| ==> fields[j].0 != key
    ensures r.Some? ==> exists j :: 0 <= j < |fields| && fields[j] == (key, r.value)
  {
    match FindKey(fields, key)
    case None => None
    case Some(i) => Some(fields[i].1)
  }

  /** The element an array index names, or `undefined`. */
  function ElementAt<T>(items: seq<T>, key: string): Option<T>
  {
    match CanonicalIndex(key)
    case Some(i) => if i < |items| then Some(items[i]) else None
    case None => None
  }

  /**
   * Property access `v[key]` on a value that is not null: an object's own
   * key, an array element, or one character of a string. Numbers, booleans
   * and inherited members give `undefined`.
   */
  function Member(v: Value, key: string): Option<Value>
  {
    match v
    case JObj(fields) => Get(fields, key)
    case JArr(items) => ElementAt(items, key)
    case JStr(s) => (match ElementAt(s, key) case Some(c) => Some(JStr([c])) case None => None)
    case _ => None
  }

  /** `key in obj` for a plain object. */
  predicate HasKey(fields: seq<(string, Value)>, key: string)
  {
    exists j :: 0 <= j < |fields| && fields[j].0 == key
  }

  lemma HasKeyIsFound(fields: seq<(string, Value)>, key: string)
    ensures HasKey(fields, key) <==> FindKey(fields, key).Some?
  {
  }

  /** A JavaScript `typeof v === "object" && v !== null && !Array.isArray(v)`. */
  predicate IsPlainObject(v: Option<Value>)
  {
    v.Some? && v.value.JObj?
  }

  /** A value for which `v ?? x` picks `x`: `undefined` or `null`. */
  predicate IsNullish(v: Option<Value>)
  {
    v.None? || v.value == JNull
  }

  /** The value with every string emptied: what a string rewriting cannot change. */
  function Shape(v: Value): Value
  {
    match v
    case JStr(_) => JStr("")
    case JArr(items) => JArr(seq(|items|, i requires 0 <= i < |items| => Shape(items[i])))
    case JObj(fields) => JObj(seq(|fields|, i requires 0 <= i < |fields| => (fields[i].0, Shape(fields[i].1))))
    case _ => v
  }

  /** No string anywhere inside `v` holds a "{", so none holds a placeholder. */
  predicate BraceFree(v: Value)
  {
    match v
    case JStr(s) => forall k :: 0 <= k < |s| ==> s[k] != '{'
    case JArr(items) => forall i :: 0 <= i < |items| ==> BraceFree(items[i])
    case JObj(fields) => forall i :: 0 <= i < |fields| ==> BraceFree(fields[i].1)
    case _ => true
  }

  /** The keys of an object, in order. */
  function Keys(fields: seq<(string, Value)>): seq<string>
  {
    seq(|fields|, i requires 0 <= i < |fields| => fields[i].0)
  }

  /** A key is among the keys exactly when some entry has it. */
  lemma KeyInKeys(fields: seq<(string, Value)>, key: string)
    ensures key in Keys(fields) <==> HasKey(fields, key)
  {
    if HasKey(fields, key) {
      var j :| 0 <= j < |fields| && fields[j].0 == key;
      assert Keys(fields)[j] == key;
    }
  }

  /** The keys of a field list with one more field in front. */
  lemma KeysCons(field: (string, Value), rest: seq<(string, Value)>)
    ensures Keys([field] + rest) == [field.0] + Keys(rest)
  {
    assert Keys([field] + rest)[1..] == Keys(rest);
  }

  // ---------------------------------------------------------------------------
  // Decimal numerals

  function DigitChar(d: nat): (c: char)
    requires d < 10
    ensures '0' <= c <= '9' && c as int - '0' as int == d
  {
    ('0' as int + d) as char
  }

  /** Decimal numeral of a natural number, most significant digit first. */
  function NatToString(n: nat): (s: string)
    ensures |s| >= 1
    ensures forall i :: 0 <= i < |s| ==> '0' <= s[i] <= '9'
    ensures |s| > 1 ==> s[0] != '0'
    decreases n
  {
    if n < 10 then [DigitChar(n)] else NatToString(n / 10) + [DigitChar(n % 10)]
  }

  /** JavaScript `String(n)` for an integer. */
  function IntToString(n: int): (s: string)
    ensures |s| >= 1
  {
    if n < 0 then "-" + NatToString(-n) else NatToString(n)
  }

  function DigitsValue(s: string): (n: nat)
    requires forall i :: 0 <= i < |s| ==> '0' <= s[i] <= '9'
    decreases |s|
  {
    if s == [] then 0 else 10 * DigitsValue(s[..|s| - 1]) + (s[|s| - 1] as int - '0' as int)
  }

  /**
   * The array index that a property key names: a non-empty run of digits
   * without a leading zero (the canonical numeric strings), or none.
   */
  function CanonicalIndex(key: string): (r: Option<nat>)
  {
    if |key| >= 1 && (forall i :: 0 <= i < |key| ==> '0' <= key[i] <= '9') && (|key| == 1 || key[0] != '0')
    then Some(DigitsValue(key))
    else None
  }

  lemma {:induction false} DigitsOfNat(n: nat)
    ensures DigitsValue(NatToString(n)) == n
    decreases n
  {
    if n >= 10 {
      DigitsOfNat(n / 10);
      var s := NatToString(n);
      assert s == NatToString(n / 10) + [DigitChar(n % 10)];
      assert s[..|s| - 1] == NatToString(n / 10);
      assert DigitsValue(s) == 10 * (n / 10) + n % 10;
    }
  }

  /** A canonical run of digits is the numeral of its value. */
  lemma {:induction false} NumeralOfDigits(s: string)
    requires |s| >= 1 && forall i :: 0 <= i < |s| ==> '0' <= s[i] <= '9'
    requires |s| == 1 || s[0] != '0'
    ensures NatToString(DigitsValue(s)) == s
    decreases |s|
  {
    var p := s[..|s| - 1];
    if |s| > 1 {
      NumeralOfDigits(p);
      var v := DigitsValue(p);
      assert v >= 1 by {
        if |p| > 1 {
          assert |NatToString(v)| > 1;
        } else {
          assert p[..0] == [];
        }
      }
      var n := DigitsValue(s);
      assert n == 10 * v + (s[|s| - 1] as int - '0' as int);
      assert n / 10 == v && n % 10 == s[|s| - 1] as int - '0' as int;
      assert s == p + [s[|s| - 1]];
    } else {
      assert p == [];
    }
  }

  /** Every index is named by exactly its own numeral. */
  lemma IndexRoundTrip(n: nat)
    ensures CanonicalIndex(NatToString(n)) == Some(n)
  {
    DigitsOfNat(n);
  }

  /** The numeral of n reaches element n of an array, and nothing past its end. */
  lemma ElementAtNumeral<T>(items: seq<T>, n: nat)
    ensures ElementAt(items, NatToString(n)) == (if n < |items| then Some(items[n]) else None)
  {
    IndexRoundTrip(n);
  }

  /** Only a numeral reaches an array element: any key that finds one is the numeral of its index. */
  lemma ElementAtOnlyNumerals<T>(items: seq<T>, key: string)
    requires ElementAt(items, key).Some?
    ensures exists n: nat :: n < |items| && key == NatToString(n) && ElementAt(items, key) == Some(items[n])
  {
    NumeralOfDigits(key);
    var n := DigitsValue(key);
    assert key == NatToString(n);
  }

  // ---------------------------------------------------------------------------
  // JavaScript String() coercion

  function BoolToString(b: bool): string
  {
    if b then "true" else "false"
  }

  /**
   * `String(v)`: numbers in decimal, booleans as words, arrays as their
   * elements joined by "," (a null element shows as ""), objects as
   * "[object Object]".
   */
  function ToJsString(v: Value): (r: string)
    ensures v.JStr? ==> r == v.s
    ensures v.JNum? || v.JBool? || v.JNull? ==> r == Stringify(v)
    ensures v.JArr? && v.items == [] ==> r == ""
  {
    match v
    case JNull => "null"
    case JBool(b) => BoolToString(b)
    case JNum(n) => IntToString(n)
    case JStr(s) => s
    case JArr(items) => ItemsToJsString(items, 0)
    case JObj(_) => "[object Object]"
  }

  function ItemsToJsString(items: seq<Value>, i: nat): string
    requires i <= |items|
    decreases JArr(items), |items| - i
  {
    if i == |items| then ""
    else
      var shown := if items[i] == JNull then "" else ToJsString(items[i]);
      (if i == 0 then "" else ",") + shown + ItemsToJsString(items, i + 1)
  }

  /** `String(actual ?? "")`. */
  function CoerceOrEmpty(v: Option<Value>): string
  {
    if IsNullish(v) then "" else ToJsString(v.value)
  }

  // ---------------------------------------------------------------------------
  // JSON text (JSON.stringify without indentation)

  function HexDigit(d: nat): char
    requires d < 16
  {
    "0123456789abcdef"[d]
  }

  function EscapeChar(c: char): string
  {
    if c == '"' then "\\\""
    else if c == '\\' then "\\\\"
    else if c == '\n' then "\\n"
    else if c == '\r' then "\\r"
    else if c == '\t' then "\\t"
    else if c == 8 as char then "\\b"
    else if c == 12 as char then "\\f"
    else if (c as int) < 32 then "\\u00" + [HexDigit(c as int / 16), HexDigit(c as int % 16)]
    else [c]
  }

  function EscapeString(s: string): string
    decreases |s|
  {
    if s == [] then "" else EscapeChar(s[0]) + EscapeString(s[1..])
  }

  function Quote(s: string): (r: string)
    ensures |r| >= 2 && r[0] == '"' && r[|r| - 1] == '"'
  {
    "\"" + EscapeString(s) + "\""
  }

  /** `JSON.stringify(v)`: each kind of value delimited as JSON writes it. */
  function Stringify(v: Value): (r: string)
    ensures |r| >= 1
    ensures v.JStr? ==> r[0] == '"' && r[|r| - 1] == '"'
    ensures v.JArr? ==> r[0] == '[' && r[|r| - 1] == ']'
    ensures v.JObj? ==> r[0] == '{' && r[|r| - 1] == '}'
  {
    match v
    case JNull => "null"
    case JBool(b) => BoolToString(b)
    case JNum(n) => IntToString(n)
    case JStr(s) => Quote(s)
    case JArr(items) => "[" + StringifyItems(items, 0) + "]"
    case JObj(fields) => "{" + StringifyFields(fields, 0) + "}"
  }

  function StringifyItems(items: seq<Value>, i: nat): string
    requires i <= |items|
    decreases JArr(items), |items| - i
  {
    if i == |items| then ""
    else (if i == 0 then "" else ",") + Stringify(items[i]) + StringifyItems(items, i + 1)
  }

  function StringifyFields(fields: seq<(string, Value)>, i: nat): string
    requires i <= |fields|
    decreases JObj(fields), |fields| - i
  {
    if i == |fields| then ""
    else (if i == 0 then "" else ",") + Quote(fields[i].0) + ":" + Stringify(fields[i].1) + StringifyFields(fields, i + 1)
  }
}
