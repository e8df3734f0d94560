/**
 * The response renderer (src/responseRenderer.ts): structural rendering of
 * a response template, with `__faker` directives that call a generator
 * method and `__repeat` directives that expand to arrays.
 *
 * The faker library is a closed registry: a tree of namespaces whose leaves
 * are methods threading a generator state. `Render` is the renderer as a
 * function of that state; the `Faker` class holds the one shared state that
 * the source reseeds and every call advances, and the methods at the end of
 * this module render against it in place.
 */
module ResponseRenderer {
  import opened Json
  import opened Text
  import StringTemplate
  import TokenScan

  type TemplateContext = StringTemplate.TemplateContext

  // ---------------------------------------------------------------------------
  // The generator and the registry

  /** State of the random generator behind every faker method. */
  datatype Generator = Generator(state: int)

  /** The state `faker.seed(seed)` installs. */
  function Seeded(seed: int): Generator
  {
    Generator(seed)
  }

  /**
   * `faker.number.int({ min, max })`: some integer in [min, max] and the next
   * state. The arithmetic stands in for the library's own generator; nothing
   * here depends on it beyond the range.
   */
  function NumberInt(g: Generator, lo: int, hi: int): (r: (int, Generator))
    requires lo <= hi
    ensures lo <= r.0 <= hi
  {
    (lo + g.state % (hi - lo + 1), Generator((g.state * 1103515245 + 12345) % 0x8000_0000))
  }

  /** A faker method: rendered arguments and a state in, a value and a state out. */
  type FakerFn = (seq<Value>, Generator) -> (Value, Generator)

  /** A registry entry: a namespace of members, a method, or a plain data member. */
  datatype FakerNode =
    | Namespace(members: seq<(string, FakerNode)>)
    | Method(fn: FakerFn)
    | Data(v: Value)

  /** `namespace[key]`: the first member with that name, or `undefined`. */
  function Lookup(members: seq<(string, FakerNode)>, key: string): (r: Option<FakerNode>)
    ensures r.None? <==> forall j :: 0 <= j < |members| ==> members[j].0 != key
  {
    if members == [] then None
    else if members[0].0 == key then Some(members[0].1)
    else Lookup(members[1..], key)
  }

  /** The renderer's errors: the three it raises itself, and a TypeError the runtime raises. */
  datatype RenderError =
    | FakerNotFound(path: string)
    | FakerNotCallable(path: string)
    | RepeatRange(min: int, max: int)
    | TypeError

  function Message(e: RenderError): string
  {
    match e
    case FakerNotFound(path) => "Faker method not found: " + path
    case FakerNotCallable(path) => "Faker method is not callable: " + path
    case RepeatRange(lo, hi) => "Repeat max must be >= min (min=" + IntToString(lo) + ", max=" + IntToString(hi) + ")"
    case TypeError => "TypeError"
  }

  /** A result together with the generator state after computing it. */
  datatype Outcome<+T> = Outcome(result: Result<T, RenderError>, gen: Generator)

  /** `done` put in front of a successful result; an error passes through. */
  function Prepend<T>(done: seq<T>, o: Outcome<seq<T>>): Outcome<seq<T>>
  {
    match o.result
    case Ok(rest) => Outcome(Ok(done + rest), o.gen)
    case Err(_) => o
  }

  lemma PrependNothing<T>(o: Outcome<seq<T>>)
    ensures Prepend([], o) == o
  {
    if o.result.Ok? {
      assert [] + o.result.value == o.result.value;
    }
  }

  lemma PrependTwice<T>(a: seq<T>, b: seq<T>, o: Outcome<seq<T>>)
    ensures Prepend(a, Prepend(b, o)) == Prepend(a + b, o)
  {
    if o.result.Ok? {
      assert a + (b + o.result.value) == (a + b) + o.result.value;
    }
  }

  // ---------------------------------------------------------------------------
  // Directive recognition

  /** `isFakerTemplate`: a plain object (not null, not an array) with a `__faker` key. */
  function IsFakerTemplate(v: Value): (r: bool)
    ensures r <==> v.JObj? && "__faker" in Keys(v.fields)
    ensures r <==> v.JObj? && FindKey(v.fields, "__faker").Some?
  {
    if v.JObj? then
      KeyInKeys(v.fields, "__faker");
      HasKeyIsFound(v.fields, "__faker");
      HasKey(v.fields, "__faker")
    else false
  }

  /** `isRepeatTemplate`: a plain object (not null, not an array) with a `__repeat` key. */
  function IsRepeatTemplate(v: Value): (r: bool)
    ensures r <==> v.JObj? && "__repeat" in Keys(v.fields)
    ensures r <==> v.JObj? && FindKey(v.fields, "__repeat").Some?
  {
    if v.JObj? then
      KeyInKeys(v.fields, "__repeat");
      HasKeyIsFound(v.fields, "__repeat");
      HasKey(v.fields, "__repeat")
    else false
  }

  // ---------------------------------------------------------------------------
  // Method resolution

  /** Whether the loop may look into the current value: defined, and an object or a function. */
  predicate Walkable(cur: Option<FakerNode>)
  {
    cur.Some? &&
    match cur.value
    case Namespace(_) => true
    case Method(_) => true
    case Data(v) => v.JObj? || v.JArr?
  }

  /** `record[part]` on a walkable entry; members of a function are not modelled. */
  function Descend(cur: FakerNode, part: string): Option<FakerNode>
  {
    match cur
    case Namespace(members) => Lookup(members, part)
    case Method(_) => None
    case Data(v) => (match Member(v, part) case Some(x) => Some(Data(x)) case None => None)
  }

  /** The loop over the segments: `None` when it throws "not found", else where it ends. */
  function ResolveWalk(cur: Option<FakerNode>, parts: seq<string>): Option<Option<FakerNode>>
    decreases |parts|
  {
    if parts == [] then Some(cur)
    else if !Walkable(cur) then None
    else ResolveWalk(Descend(cur.value, parts[0]), parts[1..])
  }

  /** What `resolveFakerMethod(faker, methodPath)` returns or throws. */
  function ResolvedMethod(registry: FakerNode, methodPath: string): Result<FakerFn, RenderError>
  {
    match ResolveWalk(Some(registry), Split(methodPath, '.'))
    case None => Err(FakerNotFound(methodPath))
    case Some(Some(Method(fn))) => Ok(fn)
    case Some(_) => Err(FakerNotCallable(methodPath))
  }

  /** `resolveFakerMethod`: the loop reassigning `current`, throwing early. */
  method ResolveFakerMethod(registry: FakerNode, methodPath: string) returns (r: Result<FakerFn, RenderError>)
    ensures r == ResolvedMethod(registry, methodPath)
  {
    var parts := Split(methodPath, '.');
    var current: Option<FakerNode> := Some(registry);
    var i := 0;
    while i < |parts|
      invariant 0 <= i <= |parts|
      invariant ResolveWalk(current, parts[i..]) == ResolveWalk(Some(registry), parts)
    {
      assert parts[i..][1..] == parts[i + 1..];
      if current.None? || (current.value.Data? && current.value.v == JNull) {
        return Err(FakerNotFound(methodPath));
      }
      if current.value.Data? && !(current.value.v.JObj? || current.value.v.JArr?) {
        return Err(FakerNotFound(methodPath));
      }
      current := Descend(current.value, parts[i]);
      i := i + 1;
    }
    assert parts[i..] == [];
    if current.None? || !current.value.Method? {
      return Err(FakerNotCallable(methodPath));
    }
    return Ok(current.value.fn);
  }

  /** `method(...renderedArgs)` after resolution. */
  function Call(m: Result<FakerFn, RenderError>, args: seq<Value>, g: Generator): Outcome<Value>
  {
    match m
    case Err(e) => Outcome(Err(e), g)
    case Ok(fn) => var (x, g') := fn(args, g); Outcome(Ok(x), g')
  }

  // ---------------------------------------------------------------------------
  // Rendering as a function of the generator state

  /** `obj[key]` for destructuring: an object's own key; primitives and arrays have none of the keys read here. */
  function Field(v: Value, key: string): Option<Value>
  {
    if v.JObj? then Get(v.fields, key) else None
  }

  /**
   * What `renderTemplateValue(value, ctx)` returns, and the generator state
   * after it: a string goes through the string templater and other scalars
   * stay, neither drawing; an array renders to an array as long, and an
   * object that is no directive to an object with as many entries.
   */
  function Render(v: Value, ctx: TemplateContext, reg: FakerNode, g: Generator): (r: Outcome<Value>)
    ensures v.JNum? || v.JBool? || v.JNull? ==> r == Outcome(Ok(v), g)
    ensures v.JStr? ==> r == Outcome(Ok(JStr(StringTemplate.RenderStringTemplate(v.s, ctx))), g)
    ensures v.JArr? && r.result.Ok? ==> r.result.value.JArr? && |r.result.value.items| == |v.items|
    ensures v.JObj? && !IsFakerTemplate(v) && !IsRepeatTemplate(v) && r.result.Ok? ==>
              r.result.value.JObj? && |r.result.value.fields| == |v.fields|
    decreases v, 2
  {
    match v
    case JStr(s) => Outcome(Ok(JStr(StringTemplate.RenderStringTemplate(s, ctx))), g)
    case JNum(_) => Outcome(Ok(v), g)
    case JBool(_) => Outcome(Ok(v), g)
    case JNull => Outcome(Ok(v), g)
    case JArr(items) =>
      var o := RenderItems(items, 0, ctx, reg, g);
      Outcome(match o.result case Ok(xs) => Ok(JArr(xs)) case Err(e) => Err(e), o.gen)
    case JObj(fields) =>
      match FindKey(fields, "__faker")
      case Some(j) => RenderFaker(fields[j].1, ctx, reg, g)
      case None =>
        match FindKey(fields, "__repeat")
        case Some(j) => RenderRepeat(fields[j].1, ctx, reg, g)
        case None =>
          var o := RenderFields(fields, 0, ctx, reg, g);
          Outcome(match o.result case Ok(fs) => Ok(JObj(fs)) case Err(e) => Err(e), o.gen)
  }

  /** `items.map(render)` from index `i` on, each item seeing the state the previous one left. */
  function RenderItems(items: seq<Value>, i: nat, ctx: TemplateContext, reg: FakerNode, g: Generator): (r: Outcome<seq<Value>>)
    requires i <= |items|
    ensures r.result.Ok? ==> |r.result.value| == |items| - i
    decreases JArr(items), 1, |items| - i
  {
    if i == |items| then Outcome(Ok([]), g)
    else
      var first := Render(items[i], ctx, reg, g);
      match first.result
      case Err(e) => Outcome(Err(e), first.gen)
      case Ok(x) => Prepend([x], RenderItems(items, i + 1, ctx, reg, first.gen))
  }

  /** The object branch: each value rendered in key order under its own key. */
  function RenderFields(fields: seq<(string, Value)>, i: nat, ctx: TemplateContext, reg: FakerNode, g: Generator): (r: Outcome<seq<(string, Value)>>)
    requires i <= |fields|
    ensures r.result.Ok? ==> |r.result.value| == |fields| - i
    decreases JObj(fields), 1, |fields| - i
  {
    if i == |fields| then Outcome(Ok([]), g)
    else
      var first := Render(fields[i].1, ctx, reg, g);
      match first.result
      case Err(e) => Outcome(Err(e), first.gen)
      case Ok(x) => Prepend([(fields[i].0, x)], RenderFields(fields, i + 1, ctx, reg, first.gen))
  }

  /**
   * `renderFakerTemplate` on the value of `__faker`: a string names the
   * method and passes no arguments; an object gives `method` and `args`,
   * the arguments rendered first, then the method resolved and called.
   */
  function RenderFaker(raw: Value, ctx: TemplateContext, reg: FakerNode, g: Generator): Outcome<Value>
    decreases raw, 1
  {
    match raw
    case JStr(path) => Call(ResolvedMethod(reg, path), [], g)
    case JObj(f) =>
      var rendered :=
        match FindKey(f, "args")
        case None => Outcome(Ok([]), g)
        case Some(j) =>
          if f[j].1 == JNull then Outcome(Ok([]), g)
          else if f[j].1.JArr? then RenderItems(f[j].1.items, 0, ctx, reg, g)
          else Outcome(Err(TypeError), g);
      (match rendered.result
       case Err(e) => Outcome(Err(e), rendered.gen)
       case Ok(args) =>
         match Get(f, "method")
         case Some(JStr(path)) => Call(ResolvedMethod(reg, path), args, rendered.gen)
         case _ => Outcome(Err(TypeError), rendered.gen))
    case _ => Outcome(Err(TypeError), g)
  }

  /** The lower bound `typeof min === "number" ? min : 0`. */
  function MinValue(rep: Value): int
  {
    match Field(rep, "min") case Some(JNum(n)) => n case _ => 0
  }

  /** The upper bound `typeof max === "number" ? max : minValue`. */
  function Upper(rep: Value): int
  {
    match Field(rep, "max") case Some(JNum(n)) => n case _ => MinValue(rep)
  }

  /**
   * `renderRepeatTemplate` on the value of `__repeat`: a numeric `count` is
   * the length as it is; otherwise the length is drawn from [min, max],
   * which must not be empty.
   */
  function RenderRepeat(rep: Value, ctx: TemplateContext, reg: FakerNode, g: Generator): Outcome<Value>
    decreases rep, 1
  {
    if rep == JNull then Outcome(Err(TypeError), g)
    else
      var o :=
        match Field(rep, "count")
        case Some(JNum(c)) => RepeatTimes(rep, c, ctx, reg, g)
        case _ =>
          if Upper(rep) < MinValue(rep) then Outcome(Err(RepeatRange(MinValue(rep), Upper(rep))), g)
          else
            var (total, g1) := NumberInt(g, MinValue(rep), Upper(rep));
            RepeatTimes(rep, total, ctx, reg, g1);
      Outcome(match o.result case Ok(xs) => Ok(JArr(xs)) case Err(e) => Err(e), o.gen)
  }

  /**
   * `Array.from({ length: n }, ...)` over the item template: no items for a
   * length of 0 or less; rendering a missing template throws.
   */
  function RepeatTimes(rep: Value, n: int, ctx: TemplateContext, reg: FakerNode, g: Generator): Outcome<seq<Value>>
    requires rep != JNull
    decreases rep, 0
  {
    if n <= 0 then Outcome(Ok([]), g)
    else if !rep.JObj? then Outcome(Err(TypeError), g)
    else match FindKey(rep.fields, "template")
      case None => Outcome(Err(TypeError), g)
      case Some(j) => RenderRepeatN(rep.fields[j].1, n, ctx, reg, g)
  }

  function RenderRepeatN(t: Value, n: nat, ctx: TemplateContext, reg: FakerNode, g: Generator): Outcome<seq<Value>>
    decreases t, 3, n
  {
    if n == 0 then Outcome(Ok([]), g)
    else
      var first := Render(t, ctx, reg, g);
      match first.result
      case Err(e) => Outcome(Err(e), first.gen)
      case Ok(x) => Prepend([x], RenderRepeatN(t, n - 1, ctx, reg, first.gen))
  }

  // ---------------------------------------------------------------------------
  // Properties of rendering

  /** Numbers, booleans and null render to themselves and draw nothing. */
  lemma ScalarsRenderToThemselves(v: Value, ctx: TemplateContext, reg: FakerNode, g: Generator)
    requires v.JNum? || v.JBool? || v.JNull?
    ensures Render(v, ctx, reg, g) == Outcome(Ok(v), g)
  {
  }

  lemma {:induction false} ItemsLength(items: seq<Value>, i: nat, ctx: TemplateContext, reg: FakerNode, g: Generator)
    requires i <= |items|
    requires RenderItems(items, i, ctx, reg, g).result.Ok?
    ensures |RenderItems(items, i, ctx, reg, g).result.value| == |items| - i
    ensures i < |items| ==> Render(items[i], ctx, reg, g).result.Ok? &&
                            RenderItems(items, i, ctx, reg, g).result.value[0] == Render(items[i], ctx, reg, g).result.value
    decreases |items| - i
  {
    if i < |items| {
      var first := Render(items[i], ctx, reg, g);
      ItemsLength(items, i + 1, ctx, reg, first.gen);
    }
  }

  /** The generator state item `k` is rendered from: the state left by items `i` to `k - 1`. */
  function ItemStateAt(items: seq<Value>, i: nat, k: nat, ctx: TemplateContext, reg: FakerNode, g: Generator): Generator
    requires i <= k <= |items|
    decreases k - i
  {
    if k == i then g else ItemStateAt(items, i + 1, k, ctx, reg, Render(items[i], ctx, reg, g).gen)
  }

  /** Every element from index `i` on is its item rendered from the state the earlier items left. */
  lemma {:induction false} ItemsElementwise(items: seq<Value>, i: nat, ctx: TemplateContext, reg: FakerNode, g: Generator)
    requires i <= |items|
    requires RenderItems(items, i, ctx, reg, g).result.Ok?
    ensures |RenderItems(items, i, ctx, reg, g).result.value| == |items| - i
    ensures forall k :: i <= k < |items| ==>
              Render(items[k], ctx, reg, ItemStateAt(items, i, k, ctx, reg, g)).result.Ok? &&
              RenderItems(items, i, ctx, reg, g).result.value[k - i] == Render(items[k], ctx, reg, ItemStateAt(items, i, k, ctx, reg, g)).result.value
    decreases |items| - i
  {
    ItemsLength(items, i, ctx, reg, g);
    if i < |items| {
      var first := Render(items[i], ctx, reg, g);
      ItemsElementwise(items, i + 1, ctx, reg, first.gen);
      forall k | i < k < |items|
        ensures ItemStateAt(items, i, k, ctx, reg, g) == ItemStateAt(items, i + 1, k, ctx, reg, first.gen)
      {
      }
    }
  }

  /**
   * An array renders element by element: as many elements, in order, each
   * item rendered from the state the items before it left.
   */
  lemma ArrayRendersElementwise(items: seq<Value>, ctx: TemplateContext, reg: FakerNode, g: Generator)
    requires Render(JArr(items), ctx, reg, g).result.Ok?
    ensures Render(JArr(items), ctx, reg, g).result.value.JArr?
    ensures |Render(JArr(items), ctx, reg, g).result.value.items| == |items|
    ensures |items| > 0 ==> Render(items[0], ctx, reg, g).result.Ok? &&
                            Render(JArr(items), ctx, reg, g).result.value.items[0] == Render(items[0], ctx, reg, g).result.value
    ensures forall k :: 0 <= k < |items| ==>
              Render(items[k], ctx, reg, ItemStateAt(items, 0, k, ctx, reg, g)).result.Ok? &&
              Render(JArr(items), ctx, reg, g).result.value.items[k] == Render(items[k], ctx, reg, ItemStateAt(items, 0, k, ctx, reg, g)).result.value
  {
    ItemsElementwise(items, 0, ctx, reg, g);
  }

  lemma {:induction false} FieldsKeys(fields: seq<(string, Value)>, i: nat, ctx: TemplateContext, reg: FakerNode, g: Generator)
    requires i <= |fields|
    requires RenderFields(fields, i, ctx, reg, g).result.Ok?
    ensures Keys(RenderFields(fields, i, ctx, reg, g).result.value) == Keys(fields[i..])
    decreases |fields| - i
  {
    if i < |fields| {
      var first := Render(fields[i].1, ctx, reg, g);
      FieldsKeys(fields, i + 1, ctx, reg, first.gen);
      var rest := RenderFields(fields, i + 1, ctx, reg, first.gen).result.value;
      assert RenderFields(fields, i, ctx, reg, g).result.value == [(fields[i].0, first.result.value)] + rest;
      KeysCons((fields[i].0, first.result.value), rest);
      assert fields[i..] == [fields[i]] + fields[i + 1..];
      KeysCons(fields[i], fields[i + 1..]);
    } else {
      assert fields[i..] == [];
    }
  }

  /** The generator state the value at `k` is rendered from: the state left by the values at `i` to `k - 1`. */
  function FieldStateAt(fields: seq<(string, Value)>, i: nat, k: nat, ctx: TemplateContext, reg: FakerNode, g: Generator): Generator
    requires i <= k <= |fields|
    decreases k - i
  {
    if k == i then g else FieldStateAt(fields, i + 1, k, ctx, reg, Render(fields[i].1, ctx, reg, g).gen)
  }

  /** Every entry from index `i` on keeps its key and holds its value rendered from the state the earlier values left. */
  lemma {:induction false} FieldsElementwise(fields: seq<(string, Value)>, i: nat, ctx: TemplateContext, reg: FakerNode, g: Generator)
    requires i <= |fields|
    requires RenderFields(fields, i, ctx, reg, g).result.Ok?
    ensures |RenderFields(fields, i, ctx, reg, g).result.value| == |fields| - i
    ensures forall k :: i <= k < |fields| ==>
              Render(fields[k].1, ctx, reg, FieldStateAt(fields, i, k, ctx, reg, g)).result.Ok? &&
              RenderFields(fields, i, ctx, reg, g).result.value[k - i] ==
                (fields[k].0, Render(fields[k].1, ctx, reg, FieldStateAt(fields, i, k, ctx, reg, g)).result.value)
    decreases |fields| - i
  {
    if i < |fields| {
      var first := Render(fields[i].1, ctx, reg, g);
      FieldsElementwise(fields, i + 1, ctx, reg, first.gen);
      forall k | i < k < |fields|
        ensures FieldStateAt(fields, i, k, ctx, reg, g) == FieldStateAt(fields, i + 1, k, ctx, reg, first.gen)
      {
      }
    }
  }

  /** An object that is not a directive renders to an object with the same keys in the same order. */
  lemma ObjectKeepsKeys(fields: seq<(string, Value)>, ctx: TemplateContext, reg: FakerNode, g: Generator)
    requires !HasKey(fields, "__faker") && !HasKey(fields, "__repeat")
    requires Render(JObj(fields), ctx, reg, g).result.Ok?
    ensures var o := Render(JObj(fields), ctx, reg, g).result.value;
            o.JObj? && Keys(o.fields) == Keys(fields) && |o.fields| == |fields| &&
            forall k :: 0 <= k < |fields| ==>
              var item := Render(fields[k].1, ctx, reg, FieldStateAt(fields, 0, k, ctx, reg, g)).result;
              item.Ok? && o.fields[k] == (fields[k].0, item.value)
  {
    ObjectBranch(fields, ctx, reg, g);
    FieldsKeys(fields, 0, ctx, reg, g);
    assert fields[0..] == fields;
    FieldsElementwise(fields, 0, ctx, reg, g);
  }

  /** An object without either directive key takes the object branch. */
  lemma ObjectBranch(fields: seq<(string, Value)>, ctx: TemplateContext, reg: FakerNode, g: Generator)
    requires !HasKey(fields, "__faker") && !HasKey(fields, "__repeat")
    ensures var o := RenderFields(fields, 0, ctx, reg, g);
            Render(JObj(fields), ctx, reg, g) == Outcome(match o.result case Ok(fs) => Ok(JObj(fs)) case Err(e) => Err(e), o.gen)
  {
    HasKeyIsFound(fields, "__faker");
    HasKeyIsFound(fields, "__repeat");
  }

  /** `__faker` is checked first: an object with both keys is a faker directive. */
  lemma FakerBeforeRepeat(fields: seq<(string, Value)>, ctx: TemplateContext, reg: FakerNode, g: Generator)
    requires IsFakerTemplate(JObj(fields))
    ensures Get(fields, "__faker").Some?
    ensures Render(JObj(fields), ctx, reg, g) == RenderFaker(Get(fields, "__faker").value, ctx, reg, g)
  {
    HasKeyIsFound(fields, "__faker");
  }

  /** An object with `__repeat` and without `__faker` is a repeat directive. */
  lemma RepeatDirective(fields: seq<(string, Value)>, ctx: TemplateContext, reg: FakerNode, g: Generator)
    requires IsRepeatTemplate(JObj(fields)) && !IsFakerTemplate(JObj(fields))
    ensures Get(fields, "__repeat").Some?
    ensures Render(JObj(fields), ctx, reg, g) == RenderRepeat(Get(fields, "__repeat").value, ctx, reg, g)
  {
    HasKeyIsFound(fields, "__faker");
    HasKeyIsFound(fields, "__repeat");
  }

  lemma {:induction false} RepeatNLength(t: Value, n: nat, ctx: TemplateContext, reg: FakerNode, g: Generator)
    requires RenderRepeatN(t, n, ctx, reg, g).result.Ok?
    ensures |RenderRepeatN(t, n, ctx, reg, g).result.value| == n
    decreases n
  {
    if n > 0 {
      var first := Render(t, ctx, reg, g);
      RepeatNLength(t, n - 1, ctx, reg, first.gen);
    }
  }

  lemma RepeatTimesLength(rep: Value, n: int, ctx: TemplateContext, reg: FakerNode, g: Generator)
    requires rep != JNull
    requires RepeatTimes(rep, n, ctx, reg, g).result.Ok?
    ensures |RepeatTimes(rep, n, ctx, reg, g).result.value| == if n <= 0 then 0 else n
  {
    if n > 0 {
      var j := FindKey(rep.fields, "template").value;
      RepeatNLength(rep.fields[j].1, n, ctx, reg, g);
    }
  }

  /** A numeric `count` gives exactly that many items (none when it is 0 or less). */
  lemma CountIsExact(rep: Value, c: int, ctx: TemplateContext, reg: FakerNode, g: Generator)
    requires rep.JObj? && Field(rep, "count") == Some(JNum(c))
    requires RenderRepeat(rep, ctx, reg, g).result.Ok?
    ensures RenderRepeat(rep, ctx, reg, g).result.value.JArr?
    ensures |RenderRepeat(rep, ctx, reg, g).result.value.items| == if c <= 0 then 0 else c
  {
    RepeatTimesLength(rep, c, ctx, reg, g);
  }

  /**
   * With a numeric `count`, `min` and `max` are not consulted at all: two
   * directives with the same count and template render alike, even when one
   * of them has `max < min`.
   */
  lemma CountIgnoresBounds(rep1: Value, rep2: Value, c: int, ctx: TemplateContext, reg: FakerNode, g: Generator)
    requires rep1.JObj? && rep2.JObj?
    requires Field(rep1, "count") == Some(JNum(c)) && Field(rep2, "count") == Some(JNum(c))
    requires Field(rep1, "template") == Field(rep2, "template")
    ensures RenderRepeat(rep1, ctx, reg, g) == RenderRepeat(rep2, ctx, reg, g)
  {
  }

  /** Without a numeric `count`, `max < min` raises the range error before anything is drawn. */
  lemma RangeErrorWhenMaxBelowMin(rep: Value, ctx: TemplateContext, reg: FakerNode, g: Generator)
    requires rep != JNull && !(Field(rep, "count").Some? && Field(rep, "count").value.JNum?)
    requires Upper(rep) < MinValue(rep)
    ensures RenderRepeat(rep, ctx, reg, g) == Outcome(Err(RepeatRange(MinValue(rep), Upper(rep))), g)
  {
  }

  /** The error `{min: 5, max: 2}` raises, with its text. */
  lemma RangeErrorMessage()
    ensures Message(RepeatRange(5, 2)) == "Repeat max must be >= min (min=5, max=2)"
  {
    assert IntToString(5) == "5" && IntToString(2) == "2";
  }

  lemma RangeErrorExample(template: Value, ctx: TemplateContext, reg: FakerNode, g: Generator)
    ensures var rep := JObj([("min", JNum(5)), ("max", JNum(2)), ("template", template)]);
            RenderRepeat(rep, ctx, reg, g).result == Err(RepeatRange(5, 2))
    ensures Message(RepeatRange(5, 2)) == "Repeat max must be >= min (min=5, max=2)"
  {
    RangeErrorMessage();
    var rep := JObj([("min", JNum(5)), ("max", JNum(2)), ("template", template)]);
    assert Field(rep, "count") == None;
    assert Field(rep, "min") == Some(JNum(5));
    assert "min" != "max" by { assert "min"[1] != "max"[1]; }
    var f := rep.fields;
    assert f[1..][0] == ("max", JNum(2));
    assert FindKey(f[1..], "max") == Some(0);
    assert FindKey(f, "max") == Some(1);
    assert Field(rep, "max") == Some(JNum(2));
    RangeErrorWhenMaxBelowMin(rep, ctx, reg, g);
  }

  /**
   * Without a numeric `count`, the length is drawn from [min, max]; a negative
   * draw gives none, which still lies in the range while max is not negative.
   */
  lemma LengthWithinBounds(rep: Value, ctx: TemplateContext, reg: FakerNode, g: Generator)
    requires rep != JNull && !(Field(rep, "count").Some? && Field(rep, "count").value.JNum?)
    requires MinValue(rep) <= Upper(rep) && 0 <= Upper(rep)
    requires RenderRepeat(rep, ctx, reg, g).result.Ok?
    ensures RenderRepeat(rep, ctx, reg, g).result.value.JArr?
    ensures MinValue(rep) <= |RenderRepeat(rep, ctx, reg, g).result.value.items| <= Upper(rep)
  {
    var (total, g1) := NumberInt(g, MinValue(rep), Upper(rep));
    RepeatTimesLength(rep, total, ctx, reg, g1);
  }

  /** A negative max (with min not above it) draws a negative length, so no items at all: outside [min, max]. */
  lemma NegativeMaxGivesNone(rep: Value, ctx: TemplateContext, reg: FakerNode, g: Generator)
    requires rep != JNull && !(Field(rep, "count").Some? && Field(rep, "count").value.JNum?)
    requires MinValue(rep) <= Upper(rep) < 0
    ensures RenderRepeat(rep, ctx, reg, g).result == Ok(JArr([]))
  {
    var (total, g1) := NumberInt(g, MinValue(rep), Upper(rep));
    assert RepeatTimes(rep, total, ctx, reg, g1).result == Ok([]);
  }

  /** Without `count` and `max`, exactly `min` items (0 when `min` is missing too). */
  lemma MaxDefaultsToMin(rep: Value, ctx: TemplateContext, reg: FakerNode, g: Generator)
    requires rep != JNull && !(Field(rep, "count").Some? && Field(rep, "count").value.JNum?)
    requires !(Field(rep, "max").Some? && Field(rep, "max").value.JNum?)
    requires MinValue(rep) >= 0
    requires RenderRepeat(rep, ctx, reg, g).result.Ok?
    ensures RenderRepeat(rep, ctx, reg, g).result.value.JArr?
    ensures |RenderRepeat(rep, ctx, reg, g).result.value.items| == MinValue(rep)
  {
    assert Upper(rep) == MinValue(rep);
    LengthWithinBounds(rep, ctx, reg, g);
  }

  /** The string form calls the method with no arguments, from the current state. */
  lemma StringFormHasNoArgs(path: string, fn: FakerFn, ctx: TemplateContext, reg: FakerNode, g: Generator)
    requires ResolvedMethod(reg, path) == Ok(fn)
    ensures RenderFaker(JStr(path), ctx, reg, g) == Outcome(Ok(fn([], g).0), fn([], g).1)
  {
  }

  /** A failed resolution is the directive's error, for the string form and the object form alike. */
  lemma ResolveFailurePropagates(raw: Value, path: string, ctx: TemplateContext, reg: FakerNode, g: Generator)
    requires raw == JStr(path) || (raw.JObj? && Get(raw.fields, "method") == Some(JStr(path)) && !HasKey(raw.fields, "args"))
    requires ResolvedMethod(reg, path).Err?
    ensures RenderFaker(raw, ctx, reg, g) == Outcome(Err(ResolvedMethod(reg, path).error), g)
  {
    if raw.JObj? {
      HasKeyIsFound(raw.fields, "args");
    }
  }

  /**
   * Arguments are rendered before the method is resolved: an argument that
   * fails is the error even when the method does not exist.
   */
  lemma ArgsRenderedFirst(f: seq<(string, Value)>, items: seq<Value>, ctx: TemplateContext, reg: FakerNode, g: Generator)
    requires Get(f, "args") == Some(JArr(items))
    requires RenderItems(items, 0, ctx, reg, g).result.Err?
    ensures var args := RenderItems(items, 0, ctx, reg, g);
            RenderFaker(JObj(f), ctx, reg, g) == Outcome(Err(args.result.error), args.gen)
  {
  }

  /** With a list of arguments they are rendered, then passed to the method in order. */
  lemma ArgsPassedRendered(f: seq<(string, Value)>, items: seq<Value>, path: string, fn: FakerFn, ctx: TemplateContext, reg: FakerNode, g: Generator)
    requires Get(f, "args") == Some(JArr(items)) && Get(f, "method") == Some(JStr(path))
    requires ResolvedMethod(reg, path) == Ok(fn)
    requires RenderItems(items, 0, ctx, reg, g).result.Ok?
    ensures var args := RenderItems(items, 0, ctx, reg, g);
            RenderFaker(JObj(f), ctx, reg, g) == Outcome(Ok(fn(args.result.value, args.gen).0), fn(args.result.value, args.gen).1)
  {
  }

  // ---------------------------------------------------------------------------
  // Properties of method resolution

  lemma WalkOne(cur: Option<FakerNode>, a: string)
    ensures ResolveWalk(cur, [a]) == if !Walkable(cur) then None else Some(Descend(cur.value, a))
  {
    assert [a][1..] == [];
  }

  lemma WalkTwo(cur: Option<FakerNode>, a: string, b: string)
    ensures ResolveWalk(cur, [a, b]) == if !Walkable(cur) then None else ResolveWalk(Descend(cur.value, a), [b])
  {
    assert [a, b][1..] == [b];
  }

  lemma PlainSplit(a: string, b: string)
    requires a != "" && forall k :: 0 <= k < |a| ==> a[k] != '.'
    requires b != "" && forall k :: 0 <= k < |b| ==> b[k] != '.'
    ensures Split(a + "." + b, '.') == [a, b]
  {
    SplitAppend(a, b, '.');
    SplitPlain(a, '.');
    SplitPlain(b, '.');
  }

  /** `ns.name` where the registry has no `ns`: "not found" (as for "nope.method"). */
  lemma MissingNamespaceNotFound(members: seq<(string, FakerNode)>, ns: string, name: string)
    requires ns != "" && forall k :: 0 <= k < |ns| ==> ns[k] != '.'
    requires name != "" && forall k :: 0 <= k < |name| ==> name[k] != '.'
    requires Lookup(members, ns) == None
    ensures ResolvedMethod(Namespace(members), ns + "." + name) == Err(FakerNotFound(ns + "." + name))
  {
    PlainSplit(ns, name);
    WalkTwo(Some(Namespace(members)), ns, name);
    WalkOne(Lookup(members, ns), name);
  }

  /** `ns.name` where `ns` is data that is not an object (null, a string, a number...): "not found". */
  lemma ScalarNamespaceNotFound(members: seq<(string, FakerNode)>, ns: string, name: string, v: Value)
    requires ns != "" && forall k :: 0 <= k < |ns| ==> ns[k] != '.'
    requires name != "" && forall k :: 0 <= k < |name| ==> name[k] != '.'
    requires Lookup(members, ns) == Some(Data(v)) && !(v.JObj? || v.JArr?)
    ensures ResolvedMethod(Namespace(members), ns + "." + name) == Err(FakerNotFound(ns + "." + name))
  {
    PlainSplit(ns, name);
    WalkTwo(Some(Namespace(members)), ns, name);
    WalkOne(Lookup(members, ns), name);
  }

  /** A path ending anywhere but at a method is "not callable", missing final member included. */
  lemma EndNotMethodNotCallable(members: seq<(string, FakerNode)>, name: string)
    requires name != "" && forall k :: 0 <= k < |name| ==> name[k] != '.'
    requires Lookup(members, name).None? || !Lookup(members, name).value.Method?
    ensures ResolvedMethod(Namespace(members), name) == Err(FakerNotCallable(name))
  {
    SplitPlain(name, '.');
    WalkOne(Some(Namespace(members)), name);
  }

  /** `ns.name` naming a method in a namespace resolves to it. */
  lemma NamespacedMethodResolves(members: seq<(string, FakerNode)>, ns: string, name: string, inner: seq<(string, FakerNode)>, fn: FakerFn)
    requires ns != "" && forall k :: 0 <= k < |ns| ==> ns[k] != '.'
    requires name != "" && forall k :: 0 <= k < |name| ==> name[k] != '.'
    requires Lookup(members, ns) == Some(Namespace(inner)) && Lookup(inner, name) == Some(Method(fn))
    ensures ResolvedMethod(Namespace(members), ns + "." + name) == Ok(fn)
  {
    PlainSplit(ns, name);
    WalkTwo(Some(Namespace(members)), ns, name);
    WalkOne(Lookup(members, ns), name);
  }

  /** A walk that stopped stays stopped: "not found" is final. */
  lemma {:induction false} StoppedStaysStopped(cur: Option<FakerNode>, parts: seq<string>)
    requires parts != [] && !Walkable(cur)
    ensures ResolveWalk(cur, parts) == None
  {
  }

  // ---------------------------------------------------------------------------
  // Values without directives or placeholders

  /** No `__faker` or `__repeat` key and no placeholder in any string inside. */
  predicate Static(v: Value)
  {
    match v
    case JStr(s) => TokenScan.NoToken(s)
    case JArr(items) => forall i :: 0 <= i < |items| ==> Static(items[i])
    case JObj(fields) =>
      !HasKey(fields, "__faker") && !HasKey(fields, "__repeat") &&
      forall i :: 0 <= i < |fields| ==> Static(fields[i].1)
    case _ => true
  }

  /** A static value renders to itself and leaves the generator untouched. */
  lemma {:induction false} StaticRendersToItself(v: Value, ctx: TemplateContext, reg: FakerNode, g: Generator)
    requires Static(v)
    ensures Render(v, ctx, reg, g) == Outcome(Ok(v), g)
    decreases v, 2
  {
    match v
    case JStr(s) =>
      StringTemplate.PlainTextUnchanged(s, ctx);
    case JArr(items) =>
      StaticItems(items, 0, ctx, reg, g);
      assert items[0..] == items;
    case JObj(fields) =>
      HasKeyIsFound(fields, "__faker");
      HasKeyIsFound(fields, "__repeat");
      StaticFields(fields, 0, ctx, reg, g);
      assert fields[0..] == fields;
    case _ =>
  }

  lemma {:induction false} StaticItems(items: seq<Value>, i: nat, ctx: TemplateContext, reg: FakerNode, g: Generator)
    requires i <= |items| && forall k :: 0 <= k < |items| ==> Static(items[k])
    ensures RenderItems(items, i, ctx, reg, g) == Outcome(Ok(items[i..]), g)
    decreases JArr(items), 1, |items| - i
  {
    if i < |items| {
      StaticRendersToItself(items[i], ctx, reg, g);
      StaticItems(items, i + 1, ctx, reg, g);
      var rest := RenderItems(items, i + 1, ctx, reg, g);
      assert RenderItems(items, i, ctx, reg, g) == Prepend([items[i]], rest);
      assert items[i..] == [items[i]] + items[i + 1..];
    } else {
      assert items[i..] == [];
    }
  }

  lemma {:induction false} StaticFields(fields: seq<(string, Value)>, i: nat, ctx: TemplateContext, reg: FakerNode, g: Generator)
    requires i <= |fields| && forall k :: 0 <= k < |fields| ==> Static(fields[k].1)
    ensures RenderFields(fields, i, ctx, reg, g) == Outcome(Ok(fields[i..]), g)
    decreases JObj(fields), 1, |fields| - i
  {
    if i < |fields| {
      StaticRendersToItself(fields[i].1, ctx, reg, g);
      StaticFields(fields, i + 1, ctx, reg, g);
      var head: (string, Value) := (fields[i].0, fields[i].1);
      assert head == fields[i];
      var rest := RenderFields(fields, i + 1, ctx, reg, g);
      assert rest == Outcome(Ok(fields[i + 1..]), g);
      assert RenderFields(fields, i, ctx, reg, g) == Prepend([head], rest);
      assert Prepend([head], rest) == Outcome(Ok([head] + fields[i + 1..]), g);
      assert fields[i..] == [head] + fields[i + 1..];
    } else {
      assert fields[i..] == [];
    }
  }

  // ---------------------------------------------------------------------------
  // The shared generator and rendering in place

  /** The faker instance: its registry, and the generator state every call advances. */
  class Faker {
    var gen: Generator
    const registry: FakerNode

    constructor (registry: FakerNode, gen: Generator)
      ensures this.registry == registry && this.gen == gen
    {
      this.registry := registry;
      this.gen := gen;
    }

    /** `faker.seed(seed)`. */
    method Seed(seed: int)
      modifies this
      ensures gen == Seeded(seed)
    {
      gen := Seeded(seed);
    }
  }

  /** The template context together with the shared faker instance. */
  datatype RenderContext = RenderContext(template: TemplateContext, faker: Faker)

  /** `createRenderContext`: reseeds the shared instance when a seed is given and hands it out. */
  method CreateRenderContext(ctx: TemplateContext, faker: Faker, fakerSeed: Option<int>) returns (rc: RenderContext)
    modifies faker
    ensures rc.template == ctx && rc.faker == faker
    ensures faker.gen == if fakerSeed.Some? then Seeded(fakerSeed.value) else old(faker.gen)
  {
    if fakerSeed.Some? {
      faker.Seed(fakerSeed.value);
    }
    rc := RenderContext(ctx, faker);
  }

  /** `renderTemplateValue` against the shared state: the result and new state are those of `Render`. */
  method RenderTemplateValue(v: Value, rc: RenderContext) returns (r: Result<Value, RenderError>)
    modifies rc.faker
    ensures Outcome(r, rc.faker.gen) == Render(v, rc.template, rc.faker.registry, old(rc.faker.gen))
    decreases v, 2
  {
    match v {
      case JStr(s) =>
        r := Ok(JStr(StringTemplate.RenderStringTemplate(s, rc.template)));
      case JNum(_) =>
        r := Ok(v);
      case JBool(_) =>
        r := Ok(v);
      case JNull =>
        r := Ok(v);
      case JArr(items) =>
        var xs := RenderAll(items, rc);
        r := if xs.Ok? then Ok(JArr(xs.value)) else Err(xs.error);
      case JObj(fields) =>
        var fk := FindKey(fields, "__faker");
        if fk.Some? {
          r := RenderFakerTemplate(fields[fk.value].1, rc);
          return;
        }
        var rk := FindKey(fields, "__repeat");
        if rk.Some? {
          r := RenderRepeatTemplate(fields[rk.value].1, rc);
          return;
        }
        var fs := RenderObject(fields, rc);
        r := if fs.Ok? then Ok(JObj(fs.value)) else Err(fs.error);
    }
  }

  /** `items.map(...)`: each item rendered in order, the first error ending it. */
  method RenderAll(items: seq<Value>, rc: RenderContext) returns (r: Result<seq<Value>, RenderError>)
    modifies rc.faker
    ensures Outcome(r, rc.faker.gen) == RenderItems(items, 0, rc.template, rc.faker.registry, old(rc.faker.gen))
    decreases JArr(items), 1
  {
    ghost var start := rc.faker.gen;
    var out: seq<Value> := [];
    PrependNothing(RenderItems(items, 0, rc.template, rc.faker.registry, start));
    var i := 0;
    while i < |items|
      invariant 0 <= i <= |items|
      invariant Prepend(out, RenderItems(items, i, rc.template, rc.faker.registry, rc.faker.gen)) ==
                RenderItems(items, 0, rc.template, rc.faker.registry, start)
    {
      var x := RenderTemplateValue(items[i], rc);
      if x.Err? {
        return Err(x.error);
      }
      PrependTwice(out, [x.value], RenderItems(items, i + 1, rc.template, rc.faker.registry, rc.faker.gen));
      out := out + [x.value];
      i := i + 1;
    }
    assert out + [] == out;
    return Ok(out);
  }

  /** The object branch: `output[key] = renderTemplateValue(item)` for each entry in order. */
  method RenderObject(fields: seq<(string, Value)>, rc: RenderContext) returns (r: Result<seq<(string, Value)>, RenderError>)
    modifies rc.faker
    ensures Outcome(r, rc.faker.gen) == RenderFields(fields, 0, rc.template, rc.faker.registry, old(rc.faker.gen))
    decreases JObj(fields), 1
  {
    ghost var start := rc.faker.gen;
    var output: seq<(string, Value)> := [];
    PrependNothing(RenderFields(fields, 0, rc.template, rc.faker.registry, start));
    var i := 0;
    while i < |fields|
      invariant 0 <= i <= |fields|
      invariant Prepend(output, RenderFields(fields, i, rc.template, rc.faker.registry, rc.faker.gen)) ==
                RenderFields(fields, 0, rc.template, rc.faker.registry, start)
    {
      var (key, item) := fields[i];
      var x := RenderTemplateValue(item, rc);
      if x.Err? {
        return Err(x.error);
      }
      PrependTwice(output, [(key, x.value)], RenderFields(fields, i + 1, rc.template, rc.faker.registry, rc.faker.gen));
      output := output + [(key, x.value)];
      i := i + 1;
    }
    assert output + [] == output;
    return Ok(output);
  }

  /** `renderFakerTemplate`: arguments rendered, method resolved, then called, advancing the state. */
  method RenderFakerTemplate(raw: Value, rc: RenderContext) returns (r: Result<Value, RenderError>)
    modifies rc.faker
    ensures Outcome(r, rc.faker.gen) == RenderFaker(raw, rc.template, rc.faker.registry, old(rc.faker.gen))
    decreases raw, 1
  {
    var methodPath: string;
    var args: seq<Value> := [];
    match raw {
      case JStr(path) =>
        methodPath := path;
      case JObj(f) =>
        var ak := FindKey(f, "args");
        if ak.Some? && f[ak.value].1 != JNull {
          if !f[ak.value].1.JArr? {
            return Err(TypeError);
          }
          var rendered := RenderAll(f[ak.value].1.items, rc);
          if rendered.Err? {
            return Err(rendered.error);
          }
          args := rendered.value;
        }
        var m := Get(f, "method");
        if !(m.Some? && m.value.JStr?) {
          return Err(TypeError);
        }
        methodPath := m.value.s;
      case _ =>
        return Err(TypeError);
    }
    var resolved := ResolveFakerMethod(rc.faker.registry, methodPath);
    if resolved.Err? {
      return Err(resolved.error);
    }
    var (x, next) := resolved.value(args, rc.faker.gen);
    rc.faker.gen := next;
    r := Ok(x);
  }

  /** `renderRepeatTemplate`: the length from `count`, or drawn from [min, max]; then the items. */
  method RenderRepeatTemplate(rep: Value, rc: RenderContext) returns (r: Result<Value, RenderError>)
    modifies rc.faker
    ensures Outcome(r, rc.faker.gen) == RenderRepeat(rep, rc.template, rc.faker.registry, old(rc.faker.gen))
    decreases rep, 1
  {
    if rep == JNull {
      return Err(TypeError);
    }
    var count := Field(rep, "count");
    var minValue := MinValue(rep);
    var length: int;
    if count.Some? && count.value.JNum? {
      length := count.value.n;
    } else {
      var upper := Upper(rep);
      if upper < minValue {
        return Err(RepeatRange(minValue, upper));
      }
      var (total, next) := NumberInt(rc.faker.gen, minValue, upper);
      rc.faker.gen := next;
      length := total;
    }
    if length <= 0 {
      return Ok(JArr([]));
    }
    if !rep.JObj? {
      return Err(TypeError);
    }
    var tk := FindKey(rep.fields, "template");
    if tk.None? {
      return Err(TypeError);
    }
    var items := RenderTimes(rep.fields[tk.value].1, length, rc);
    r := if items.Ok? then Ok(JArr(items.value)) else Err(items.error);
  }

  /** `Array.from({ length: n }, () => renderTemplateValue(itemTemplate, ctx))`. */
  method RenderTimes(t: Value, n: nat, rc: RenderContext) returns (r: Result<seq<Value>, RenderError>)
    modifies rc.faker
    ensures Outcome(r, rc.faker.gen) == RenderRepeatN(t, n, rc.template, rc.faker.registry, old(rc.faker.gen))
    decreases t, 3
  {
    ghost var start := rc.faker.gen;
    var out: seq<Value> := [];
    PrependNothing(RenderRepeatN(t, n, rc.template, rc.faker.registry, start));
    var i := 0;
    while i < n
      invariant 0 <= i <= n
      invariant Prepend(out, RenderRepeatN(t, n - i, rc.template, rc.faker.registry, rc.faker.gen)) ==
                RenderRepeatN(t, n, rc.template, rc.faker.registry, start)
    {
      ghost var before := rc.faker.gen;
      var x := RenderTemplateValue(t, rc);
      if x.Err? {
        return Err(x.error);
      }
      assert RenderRepeatN(t, n - i, rc.template, rc.faker.registry, before) ==
             Prepend([x.value], RenderRepeatN(t, n - i - 1, rc.template, rc.faker.registry, rc.faker.gen));
      PrependTwice(out, [x.value], RenderRepeatN(t, n - i - 1, rc.template, rc.faker.registry, rc.faker.gen));
      out := out + [x.value];
      i := i + 1;
    }
    assert out + [] == out;
    return Ok(out);
  }
}
