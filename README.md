# mockserve core in Dafny

This is a model of the request-to-response core of **mockserve**
(api-json-server). mockserve is a mock HTTP server driven by a JSON spec file. The model covers:

- **Request matching** (`RequestMatch`): the conjunctive query, body, header and cookie rules an
  endpoint variant can carry.
- **Behaviour resolution** (`Behavior`): delay, error rate, error status and error response, which fall
  through chosen overrides, then endpoint overrides, then global settings. It also covers the fault draw.
- **String templating** (`TokenScan`, `StringTemplate`, `LegacyTemplate`): the `{{root.path}}`
  placeholder scan, the dotted lookups into `params`, `query` and `body`, and the older copy in
  `src/template.ts`, with the one place where the two lookups differ.
- **Response rendering** (`ResponseRenderer`): the recursive renderer with its `__faker` and
  `__repeat` directives. The faker library is a closed registry of methods that thread a generator
  state, held by a shared `Faker` object that `createRenderContext` reseeds.
- **Request history** (`History`): a bounded FIFO log as a class. It has `record`, `query` (filters
  and "last N"), `clear` and `count`.
- **Spec validation** (`Spec`): the version, settings and endpoints schema, with its defaults and its
  list of issues.
- **Loading** (`LoadSpec`): the three ordered failure kinds and the one-line-per-issue report.
- **OpenAPI derivation** (`OpenApi`): `:name` rewritten to `{name}`, path and query parameters,
  request body keys, response examples grouped by status, and the `paths` object.

Shared values live in `Json` (one `Value` type for JSON, template values and request data;
`Option<Value>` is `None` for `undefined`) and `Text` (split/join and ASCII case mapping).

Imperative parts of the source are methods with loops. Each is proved equal to a specification
function, and the lemmas state the meaning of those functions:

- the matcher loops;
- the header map;
- the path-lookup loops;
- the faker method resolution;
- the object branch of the renderer;
- the history recorder;
- the OpenAPI generator.

## Model

| member | source | states |
|---|---|---|
| Json.Get | src/requestMatch.ts:30 | `record[key]`: undefined exactly when no entry has the key, else the value of an entry with that key |
| Json.FindKey | src/responseRenderer.ts:23 | `key in object`: the first index holding the key, none when no entry has it |
| Json.HasKeyIsFound | src/responseRenderer.ts:23 | `key in object` holds exactly when the lookup finds an index |
| Json.KeyInKeys | src/responseRenderer.ts:108 | a key is among the `Object.entries` keys exactly when some entry has it |
| Json.NatToString | src/openapi.ts:107 | `String(n)` of a natural number below 10^21 (all the core formats) is a non-empty string of decimal digits without a leading zero |
| Json.IntToString | src/openapi.ts:107 | `String(n)` of an integer is non-empty |
| Json.ToJsString | src/requestMatch.ts:32 | `String(v)`: a string is itself, a number, boolean or null shows as its JSON text, an empty array as "" |
| Json.DigitsOfNat | src/openapi.ts:107 | reading back the decimal text of `n` gives `n` |
| Json.IndexRoundTrip | src/stringTemplate.ts:21 | the decimal text of `n` is the canonical array index `n` |
| Json.NumeralOfDigits | src/stringTemplate.ts:21 | a canonical digit run is the decimal text of its value, so array index keys and numerals correspond one to one |
| Json.ElementAtNumeral | src/stringTemplate.ts:21 | a path segment that is the numeral of `n` reaches element `n` of an array, and undefined past its end |
| Json.ElementAtOnlyNumerals | src/stringTemplate.ts:21 | a path segment that reaches an array element is the numeral of that element's index |
| Json.Quote | src/stringTemplate.ts:48 | JSON text of a string starts and ends with a double quote |
| Json.Stringify | src/stringTemplate.ts:48 | `JSON.stringify` text is non-empty; strings, arrays and objects are delimited by quotes, brackets and braces |
| Text.Split | src/stringTemplate.ts:13 | `split(".")` gives at least one part |
| Text.SplitPieces | src/stringTemplate.ts:13 | no part of a split contains the separator |
| Text.JoinSplit | src/loadSpec.ts:22 | joining the parts of a split with the separator gives back the string |
| Text.SplitJoin | src/loadSpec.ts:22-23 | splitting a join of separator-free parts gives back the parts |
| Text.SplitPlain | src/stringTemplate.ts:13 | a string without the separator splits into itself |
| Text.SplitAppend | src/stringTemplate.ts:13 | splitting `a.b` is splitting `a` followed by splitting `b` |
| Text.SplitCons | src/stringTemplate.ts:13 | a leading separator starts a new empty part; any other leading character joins the first part |
| Text.ToLower | src/requestMatch.ts:66 | `toLowerCase` on ASCII: same length, each character lower-cased |
| Text.ToUpper | src/history/historyRecorder.ts:50 | `toUpperCase` on ASCII: same length, each character upper-cased |
| Text.ToLowerIdempotent | src/requestMatch.ts:66 | lower-casing twice is lower-casing once |
| Text.ToUpperIdempotent | src/history/historyRecorder.ts:50 | upper-casing twice is upper-casing once |
| Text.ToUpperOfLower | src/history/historyRecorder.ts:50 | upper-casing ignores an earlier lower-casing |
| RequestMatch.LookupString | src/requestMatch.ts:88 | `cookies[key]`: none exactly when no cookie has the key, else the value of one that does |
| RequestMatch.QueryMatches | src/requestMatch.ts:25-36 | the early-exit loop returns true exactly when every query entry holds: the actual value is not an array and `String(actual ?? "")` equals `String(exp)` |
| RequestMatch.BodyMatches | src/requestMatch.ts:41-54 | true exactly when there is no body rule, or the body is a plain object and every entry compares equal as strings |
| RequestMatch.LowerHeaderMap | src/requestMatch.ts:63-68 | the insertion loop builds the map of lower-cased names of string-valued headers, a later one overwriting |
| RequestMatch.HeadersMatch | src/requestMatch.ts:59-76 | true exactly when every expected header, looked up by lower-cased name, is present and exactly equal |
| RequestMatch.CookiesMatch | src/requestMatch.ts:81-92 | true exactly when there is no cookie rule, or a cookies object exists and every cookie is exactly equal |
| RequestMatch.MatchRequest | src/requestMatch.ts:97-104 | true exactly when every present sub-rule holds |
| RequestMatch.AbsentRulesMatch | src/requestMatch.ts:98 | no rule, or a rule with all four sub-rules absent, matches every request |
| RequestMatch.RepeatedQueryFails | src/requestMatch.ts:31 | a query key holding an array fails its entry, whatever its elements |
| RequestMatch.MissingQueryKey | src/requestMatch.ts:32 | a missing or null query key matches exactly an expected value whose string is "" |
| RequestMatch.BooleanMatchesItsString | src/requestMatch.ts:50 | a boolean `true` in the body matches both the rule string "true" and the rule boolean true |
| RequestMatch.NonObjectBodyFails | src/requestMatch.ts:45 | an absent, scalar or array body fails every body rule, even an empty one, and so the whole match |
| RequestMatch.NoCookieJarFails | src/requestMatch.ts:85 | a cookie rule fails when the request has no cookies object |
| RequestMatch.LowerHeadersLast | src/requestMatch.ts:64-67 | the map holds, under a lower-cased name, the value of the last string-valued header with that name |
| RequestMatch.LowerHeadersOnlyStrings | src/requestMatch.ts:65 | a name with no string-valued header is absent from the map |
| RequestMatch.MultiValuedHeaderIsMissing | src/requestMatch.ts:65-72 | a rule naming only multi-valued or undefined headers fails |
| RequestMatch.HeaderCaseInsensitive | src/requestMatch.ts:66-72 | a single string header matches a rule naming it in any letter case exactly when the values are equal |
| RequestMatch.HeaderRuleKeyCase | src/requestMatch.ts:71 | a header rule depends on its key only up to letter case |
| RequestMatch.ViolatedSubRuleFails | src/requestMatch.ts:99-102 | one violated sub-rule makes the whole match false |
| RequestMatch.DroppingSubRuleKeepsMatch | src/requestMatch.ts:97-104 | removing any sub-rule keeps a match a match |
| RequestMatch.FewerQueryEntriesKeepMatch | src/requestMatch.ts:29-33 | a query rule with a subset of the entries still holds |
| RequestMatch.FirstMatch | tests/matching.test.ts:55-115 | the first rule in order that matches: it matches, none before it does, and none is chosen only when none matches |
| RequestMatch.FirstWhere | tests/matching.test.ts:55-115 | the first index whose rule passes the test: it passes, none before it does, and none is found only when no rule passes |
| Behavior.ResolveBehavior | src/behavior.ts:31-41 | each field is the chosen override when defined, else the endpoint override, else the global setting; for the error response null falls through like undefined |
| Behavior.ShouldFail | src/behavior.ts:22-26 | never at a rate of 0 or less, always at 1 or more, and for a draw in [0, 1) exactly when the draw is below the rate |
| Behavior.NoOverridesGiveGlobal | src/behavior.ts:31-41 | without overrides, or with empty ones, the global settings come back unchanged |
| Behavior.NullResponseFallsThrough | src/behavior.ts:40 | a chosen `errorResponse: null` resolves as if it were absent |
| Behavior.FieldsResolveIndependently | src/behavior.ts:37-40 | fields mix levels: a delay given only by the endpoint overrides and a status given only by the chosen ones are both used, while the rate and response stay global |
| Behavior.ZeroRateNeverFails | src/behavior.ts:23 | a rate at or below 0 never faults |
| Behavior.FullRateAlwaysFails | src/behavior.ts:24 | a rate at or above 1 always faults, whatever the draw |
| Behavior.FaultIsDrawBelowRate | src/behavior.ts:22-26 | for every draw in [0, 1) the decision is exactly "draw < rate" |
| Behavior.FaultMonotoneInRate | src/behavior.ts:22-26 | a larger rate faults on every draw a smaller one faults on |
| TokenScan.Span | src/stringTemplate.ts:54 | a character-class run in the pattern is maximal: all characters in it match and the next one does not |
| TokenScan.SpanExact | src/stringTemplate.ts:54 | a run is determined by its extent |
| TokenScan.MatchToken | src/stringTemplate.ts:54 | a found placeholder is at least `{{a.b}}` long and lies inside the text |
| TokenScan.MatchTokenSound | src/stringTemplate.ts:54 | a found placeholder has the shape `{{ws root.path ws}}` with its root, path and length |
| TokenScan.MatchRoot | src/stringTemplate.ts:54 | what the root step finds lies inside the text |
| TokenScan.RootSound | src/stringTemplate.ts:54 | the root step keeps the placeholder shape |
| TokenScan.MatchPath | src/stringTemplate.ts:54 | what the path step finds lies inside the text |
| TokenScan.PathSound | src/stringTemplate.ts:54 | the path step keeps the placeholder shape |
| TokenScan.MatchClose | src/stringTemplate.ts:54 | what the closing step finds lies inside the text |
| TokenScan.CloseSound | src/stringTemplate.ts:54 | the closing step keeps the placeholder shape |
| TokenScan.MatchTokenComplete | src/stringTemplate.ts:54 | whenever the text has the shape of a placeholder, the scanner finds exactly that one |
| TokenScan.CompleteFrom | src/stringTemplate.ts:54 | a text of the form `{{ws root.path ws}}` at known split points is matched with that root, path and length |
| TokenScan.RootOnwards | src/stringTemplate.ts:54 | from the first non-space after `{{` the root step finds that placeholder |
| TokenScan.OpenStep | src/stringTemplate.ts:54 | spaces after `{{` are skipped up to the first non-space character |
| TokenScan.RootStep | src/stringTemplate.ts:54 | the root is the maximal letter run before the dot |
| TokenScan.PathStep | src/stringTemplate.ts:54 | the path is the maximal run of path characters |
| TokenScan.CloseStep | src/stringTemplate.ts:54 | white space and `}}` end the placeholder |
| TokenScan.TokenizeCovers | src/stringTemplate.ts:54 | the scan loses nothing: its pieces put back together give the input |
| TokenScan.Lits | src/stringTemplate.ts:54 | each character kept as itself |
| TokenScan.LiteralPrefix | src/stringTemplate.ts:54 | text before the first `{` passes through character by character |
| TokenScan.NoBraceUnchanged | src/stringTemplate.ts:54 | a string without `{` has no placeholder, so any substitution leaves it unchanged |
| TokenScan.SubstituteLits | src/stringTemplate.ts:54 | substituting into plain characters gives the text back |
| TokenScan.SubstituteAppend | src/stringTemplate.ts:54 | substitution distributes over the pieces |
| TokenScan.TokenThenRest | src/stringTemplate.ts:54 | a placeholder is replaced by the callback's text and the rest is scanned on its own, substituted text not rescanned |
| TokenScan.UnmatchedBrace | src/stringTemplate.ts:54 | a `{` that opens no placeholder stays a character |
| TokenScan.BraceFreeNoToken | src/stringTemplate.ts:54 | a string without `{` holds no placeholder |
| TokenScan.NoTokenUnchanged | src/stringTemplate.ts:54 | a string in which the placeholder pattern matches at no position is scanned as plain characters, so any substitution leaves it unchanged, stray braces included |
| StringTemplate.GetPathValue | src/stringTemplate.ts:10-25 | the loop over dot segments returns what the segment-by-segment lookup gives |
| StringTemplate.WalkNone | src/stringTemplate.ts:17 | once the lookup has stopped it stays stopped |
| StringTemplate.WalkAppend | src/stringTemplate.ts:16-22 | looking up `p + q` is looking up `q` in the result of `p` |
| StringTemplate.EmptyPathUndefined | src/stringTemplate.ts:11 | an empty path is undefined |
| StringTemplate.SingleKey | src/stringTemplate.ts:20-21 | a one-segment path is a property access on an object |
| StringTemplate.PathConcat | src/stringTemplate.ts:13-22 | `a.b` is `b` inside `a` |
| StringTemplate.ScalarStops | src/stringTemplate.ts:17-18 | strings, numbers, booleans, null and undefined are never looked into |
| StringTemplate.DefinedThroughObjects | src/stringTemplate.ts:18 | a defined nested result implies the outer value was an object or array |
| StringTemplate.RenderStringTemplate | src/stringTemplate.ts:30-55 | text without a `{` renders to itself |
| StringTemplate.ShowScalarIsJson | src/stringTemplate.ts:45 | for numbers and booleans the `String` form and the JSON text agree |
| StringTemplate.StringInsertedVerbatim | src/stringTemplate.ts:44 | a placeholder naming a string is replaced by that string unquoted, and the rest is rendered after it |
| StringTemplate.CompoundShownAsJson | src/stringTemplate.ts:47-48 | a placeholder naming an array or an object is replaced by its JSON text, and the rest is rendered after it |
| StringTemplate.PlainTextUnchanged | src/stringTemplate.ts:54 | a string in which no placeholder matches at any position renders to itself, whatever braces it holds |
| StringTemplate.BracesWithoutPlaceholderKept | src/stringTemplate.ts:54 | braces that form no placeholder, as in "{a}" or "{{x}}", are kept verbatim |
| StringTemplate.TokenRendersThenRest | src/stringTemplate.ts:54 | a leading placeholder renders to its replacement followed by the rendered rest |
| StringTemplate.LiteralThenRest | src/stringTemplate.ts:54 | text before the first `{` is copied and the rest rendered on its own |
| StringTemplate.UnknownRootRemoved | src/stringTemplate.ts:39 | a placeholder with a root other than params, query and body disappears |
| StringTemplate.MissingValueRemoved | src/stringTemplate.ts:43 | a placeholder naming nothing, or null, disappears |
| StringTemplate.NothingShownRemoved | src/stringTemplate.ts:39-43 | a placeholder that shows as "" leaves only the rendered rest |
| StringTemplate.ParamsRoot | src/stringTemplate.ts:54 | `params` and `body` are made of characters the placeholder pattern accepts as a root |
| StringTemplate.ParamPlaceholder | tests/template.test.ts:12-34 | `{{params.id}}` renders to the parameter's text |
| StringTemplate.NestedBodyPlaceholder | tests/template.test.ts:36-62 | `{{body.profile.name}}` resolves through the nested object |
| LegacyTemplate.GetPath | src/template.ts:7-18 | the loop over dot segments returns what the segment-by-segment lookup gives |
| LegacyTemplate.WalkNone | src/template.ts:14 | once the lookup has stopped it stays stopped |
| LegacyTemplate.EmptyPathUndefined | src/template.ts:8 | an empty path is undefined |
| LegacyTemplate.WalkAgrees | src/template.ts:13-16 | wherever the newer lookup is defined, the older one gives the same value |
| LegacyTemplate.PathAgrees | src/template.ts:7-18 | the same for whole dotted paths |
| LegacyTemplate.StringIndexDiffers | src/template.ts:14-15 | the older lookup indexes into a string ("ab", "0" gives "a") where the newer one stops |
| LegacyTemplate.RenderStringTemplate | src/template.ts:20-42 | text without a `{` renders to itself |
| LegacyTemplate.PlainTextUnchanged | src/template.ts:22 | a string in which no placeholder matches at any position renders to itself, whatever braces it holds |
| LegacyTemplate.TokenRendersThenRest | src/template.ts:22 | a leading placeholder renders to its replacement followed by the rendered rest |
| LegacyTemplate.UnknownRootRemoved | src/template.ts:27 | a placeholder with a root other than params, query and body disappears |
| LegacyTemplate.ReplaceAgrees | src/template.ts:22-40 | where the newer lookup resolves a placeholder, both templaters insert the same text |
| LegacyTemplate.Expand | src/template.ts:44-61 | strings stay strings and only they; other scalars are kept; an array keeps its length and an object its keys in order |
| LegacyTemplate.RenderTemplate | src/template.ts:44-61 | the recursive method, filling each object key by key, returns the structural expansion |
| LegacyTemplate.ScalarsUnchanged | src/template.ts:59-60 | numbers, booleans and null are returned as they are |
| LegacyTemplate.ShapePreserved | src/template.ts:47-57 | the expansion keeps the shape: same array lengths, same keys in the same order |
| LegacyTemplate.KeysPreserved | src/template.ts:51-57 | object keys come out in the same order, `__faker` and `__repeat` included |
| LegacyTemplate.BraceFreeUnchanged | src/template.ts:44-61 | a value whose strings hold no `{` renders to itself |
| ResponseRenderer.NumberInt | src/responseRenderer.ts:89 | the length draw lies within [min, max] |
| ResponseRenderer.Lookup | src/responseRenderer.ts:49 | `namespace[key]` is undefined exactly when no member has the key |
| ResponseRenderer.IsFakerTemplate | src/responseRenderer.ts:22-24 | true exactly for an object (not an array, not null) among whose keys is `__faker` |
| ResponseRenderer.IsRepeatTemplate | src/responseRenderer.ts:29-31 | true exactly for an object (not an array, not null) among whose keys is `__repeat` |
| ResponseRenderer.PrependNothing | src/responseRenderer.ts:101 | putting nothing in front of a result leaves it |
| ResponseRenderer.PrependTwice | src/responseRenderer.ts:101 | putting two prefixes in front is putting their concatenation |
| ResponseRenderer.ResolveFakerMethod | src/responseRenderer.ts:36-57 | the loop reassigning `current`, throwing early, returns the specified resolution or error |
| ResponseRenderer.ScalarsRenderToThemselves | src/responseRenderer.ts:98 | numbers, booleans and null render to themselves and draw nothing |
| ResponseRenderer.Render | src/responseRenderer.ts:96-112 | a string goes through the string templater and other scalars stay, drawing nothing; an array renders to an array as long, a non-directive object to one with as many entries |
| ResponseRenderer.RenderItems | src/responseRenderer.ts:101 | one result per item from index i |
| ResponseRenderer.RenderFields | src/responseRenderer.ts:107-111 | one entry per field from index i |
| ResponseRenderer.ItemsLength | src/responseRenderer.ts:100-102 | rendering the items from index i gives one result per item |
| ResponseRenderer.ItemsElementwise | src/responseRenderer.ts:100-102 | from index i on, element k - i is item k rendered from the state items i to k-1 left |
| ResponseRenderer.ArrayRendersElementwise | src/responseRenderer.ts:100-102 | an array renders to an array of the same length whose element k is item k rendered from the state items 0 to k-1 left; the first from the current state |
| ResponseRenderer.FieldsKeys | src/responseRenderer.ts:107-111 | the object branch gives the same keys in the same order |
| ResponseRenderer.FieldsElementwise | src/responseRenderer.ts:107-111 | from index i on, entry k - i keeps key k and holds value k rendered from the state the values before it left |
| ResponseRenderer.ObjectBranch | src/responseRenderer.ts:104-111 | an object with neither directive key takes the object branch |
| ResponseRenderer.ObjectKeepsKeys | src/responseRenderer.ts:107-111 | a non-directive object renders to an object with the same keys in the same order, entry k holding value k rendered from the state the values before it left |
| ResponseRenderer.FakerBeforeRepeat | src/responseRenderer.ts:104-105 | an object with a `__faker` key is a faker directive, even with `__repeat` too |
| ResponseRenderer.RepeatDirective | src/responseRenderer.ts:105 | an object with `__repeat` and no `__faker` is a repeat directive |
| ResponseRenderer.RepeatNLength | src/responseRenderer.ts:80-82 | rendering n copies gives n items |
| ResponseRenderer.RepeatTimesLength | src/responseRenderer.ts:81 | a length at or below 0 gives no items, otherwise exactly that many |
| ResponseRenderer.CountIsExact | src/responseRenderer.ts:80-82 | a numeric `count` gives exactly that many items |
| ResponseRenderer.CountIgnoresBounds | src/responseRenderer.ts:80-82 | with a numeric `count`, `min` and `max` make no difference at all |
| ResponseRenderer.RangeErrorWhenMaxBelowMin | src/responseRenderer.ts:84-87 | without `count`, `max < min` raises the range error before anything is drawn |
| ResponseRenderer.RangeErrorExample | src/responseRenderer.ts:86 | `{min: 5, max: 2}` raises "Repeat max must be >= min (min=5, max=2)" |
| ResponseRenderer.LengthWithinBounds | src/responseRenderer.ts:78-90 | without `count`, for min ≤ max and max not negative, the length lies within [min, max] |
| ResponseRenderer.MaxDefaultsToMin | src/responseRenderer.ts:84 | without `count` and `max`, exactly `min` items |
| ResponseRenderer.NegativeMaxGivesNone | src/responseRenderer.ts:84-90 | with min ≤ max < 0 the draw is negative and no items come back, a length outside [min, max] |
| ResponseRenderer.StringFormHasNoArgs | src/responseRenderer.ts:65-66 | the string form calls the method with no arguments |
| ResponseRenderer.ResolveFailurePropagates | src/responseRenderer.ts:68 | a failed resolution is the directive's error, for both forms |
| ResponseRenderer.ArgsRenderedFirst | src/responseRenderer.ts:67-68 | arguments are rendered before resolution: an argument's error wins over a resolution error |
| ResponseRenderer.ArgsPassedRendered | src/responseRenderer.ts:67-69 | the rendered arguments are passed to the method in order, from the state their rendering left |
| ResponseRenderer.WalkOne | src/responseRenderer.ts:40-50 | one segment: "not found" on a value it may not look into, else the member |
| ResponseRenderer.WalkTwo | src/responseRenderer.ts:40-50 | two segments: the second looked up in the first's member |
| ResponseRenderer.PlainSplit | src/responseRenderer.ts:37 | `ns.name` splits into its two parts |
| ResponseRenderer.MissingNamespaceNotFound | src/responseRenderer.ts:41-43 | a missing namespace gives "not found" |
| ResponseRenderer.ScalarNamespaceNotFound | src/responseRenderer.ts:44-46 | a namespace that is neither object nor function gives "not found" |
| ResponseRenderer.EndNotMethodNotCallable | src/responseRenderer.ts:52-54 | a path ending anywhere but at a method, a missing final member included, gives "not callable" |
| ResponseRenderer.NamespacedMethodResolves | src/responseRenderer.ts:36-57 | `ns.name` naming a method resolves to it |
| ResponseRenderer.StoppedStaysStopped | src/responseRenderer.ts:41-46 | "not found" is final |
| ResponseRenderer.StaticRendersToItself | src/responseRenderer.ts:96-112 | a value with no directive key and no string in which a placeholder matches renders to itself and draws nothing |
| ResponseRenderer.StaticItems | src/responseRenderer.ts:100-102 | static items render to themselves |
| ResponseRenderer.StaticFields | src/responseRenderer.ts:107-111 | static fields render to themselves |
| ResponseRenderer.Faker.constructor | src/responseRenderer.ts:5-7 | the faker instance holds its registry and generator state |
| ResponseRenderer.Faker.Seed | src/responseRenderer.ts:14 | `seed` installs the seeded state |
| ResponseRenderer.CreateRenderContext | src/responseRenderer.ts:12-17 | a given seed reseeds the shared instance, no seed leaves its state; the context hands that instance out |
| ResponseRenderer.RenderTemplateValue | src/responseRenderer.ts:96-112 | the result and the shared state afterwards are those of the specification renderer |
| ResponseRenderer.RenderAll | src/responseRenderer.ts:101 | `map` over the items: each rendered in order, the first error ending it |
| ResponseRenderer.RenderObject | src/responseRenderer.ts:107-111 | the loop filling `output` key by key agrees with the specification |
| ResponseRenderer.RenderFakerTemplate | src/responseRenderer.ts:62-70 | arguments rendered, method resolved, then called, advancing the state |
| ResponseRenderer.RenderRepeatTemplate | src/responseRenderer.ts:75-91 | the length from `count`, or the range check then a draw; then the items |
| ResponseRenderer.RenderTimes | src/responseRenderer.ts:81 | `Array.from` with n renders n copies in order |
| History.Keep | src/history/historyRecorder.ts:45-55 | a filter never makes the list longer |
| History.Select | src/history/historyRecorder.ts:42-62 | the result is a subsequence of the log, at most `limit` long when a limit takes part |
| History.FilteredIsSubsequence | src/history/historyRecorder.ts:45-59 | the filter stages keep a subsequence |
| History.LastN | src/history/historyRecorder.ts:57-59 | `slice(-n)`: the last n entries (all when fewer), in order |
| History.LastNMember | src/history/historyRecorder.ts:57-59 | every entry of the last n is a stored entry |
| History.LimitIsSubsequence | src/history/historyRecorder.ts:57-59 | the limit step keeps a subsequence |
| History.HistoryRecorder.constructor | src/history/historyRecorder.ts:15-17 | an empty log with the given capacity, 1000 by default |
| History.HistoryRecorder.Record | src/history/historyRecorder.ts:22-37 | returns the completed entry; the log is the old one plus the entry, the oldest dropped when over capacity; the bound is kept |
| History.HistoryRecorder.Query | src/history/historyRecorder.ts:42-62 | the results are the successive filters and the limit applied to the entries |
| History.HistoryRecorder.Clear | src/history/historyRecorder.ts:67-69 | the log is empty afterwards |
| History.HistoryRecorder.Count | src/history/historyRecorder.ts:74-76 | the number of stored entries |
| History.TrimWithinCapacity | src/history/historyRecorder.ts:32-34 | after a record the log stays within capacity |
| History.CompleteKeepsInput | src/history/historyRecorder.ts:23-27 | the stored entry carries the generated id and timestamp, and removing them gives back exactly the caller's entry |
| History.RecordedIsLast | src/history/historyRecorder.ts:29 | the recorded entry is the last one |
| History.OverflowDropsOldest | src/history/historyRecorder.ts:32-34 | below capacity the entry is appended; at capacity exactly the oldest entry goes and the order of the rest is kept |
| History.DefaultCapacity | src/history/historyRecorder.ts:15 | the default capacity is 1000 |
| History.KeepsMostRecent | src/history/historyRecorder.ts:22-37 | any run of records leaves the most recent `capacity` entries, in order |
| History.KeepIsSubsequence | src/history/historyRecorder.ts:45-55 | a filter keeps a subsequence |
| History.SubsequenceDropFirst | src/history/historyRecorder.ts:45-55 | dropping the first element keeps a subsequence one |
| History.SubsequenceOfTail | src/history/historyRecorder.ts:45-55 | a subsequence of the tail is one of the whole |
| History.SubsequenceTransitive | src/history/historyRecorder.ts:45-59 | successive filters compose into a subsequence |
| History.SuffixIsSubsequence | src/history/historyRecorder.ts:57-59 | a suffix is a subsequence |
| History.SubsequenceReflexive | src/history/historyRecorder.ts:43 | the unfiltered entries are a subsequence of themselves |
| History.QueryIsSubsequence | src/history/historyRecorder.ts:42-62 | every query result is a subsequence of the entries |
| History.KeepKeep | src/history/historyRecorder.ts:45-55 | two successive filters are one filter by the conjunction |
| History.KeepAll | src/history/historyRecorder.ts:45-55 | a filter every entry passes keeps everything |
| History.KeepSame | src/history/historyRecorder.ts:45-55 | filters that agree on the entries keep the same ones |
| History.QueryIsConjunction | src/history/historyRecorder.ts:42-62 | a query is the entries the whole filter admits, then the limit |
| History.KeepMembers | src/history/historyRecorder.ts:45-55 | an entry is kept exactly when it is present and passes |
| History.QueryResultsAdmitted | src/history/historyRecorder.ts:42-62 | every result is a stored entry the filter admits |
| History.QueryReturnsAllAdmitted | src/history/historyRecorder.ts:42-62 | without a limit every admitted entry is returned |
| History.NoFilterReturnsAll | src/history/historyRecorder.ts:43 | no filter, or an empty one, returns all entries in order |
| History.EmptyFieldsIgnored | src/history/historyRecorder.ts:45-59 | an empty endpoint or method and a non-positive limit filter nothing |
| History.LimitKeepsLast | src/history/historyRecorder.ts:57-59 | a positive limit keeps the last `limit` of the filtered results |
| History.StatusZeroFilters | src/history/historyRecorder.ts:53-55 | a status filter of 0 is a real filter |
| History.MethodFilterIgnoresCase | src/history/historyRecorder.ts:49-51 | the method filter ignores letter case on both sides |
| Spec.Check | src/spec.ts:13-23 | one field's issue list is empty exactly when the field meets its rule, and holds at most one issue, at the field's path |
| Spec.CheckAll | src/spec.ts:12-25 | no issues exactly when every field meets its rule; all issues lie under the object's path |
| Spec.EndpointAt | src/spec.ts:12-25 | accepted exactly when the endpoint meets the schema, then decoded with defaults; otherwise issues under `endpoints.i` |
| Spec.EndpointsFrom | src/spec.ts:37 | accepted exactly when every endpoint from i on is, then the decoded list |
| Spec.Endpoints | src/spec.ts:37 | accepted exactly for a non-empty array of good endpoints, then the decoded list |
| Spec.Settings | src/spec.ts:29-36 | accepted exactly when the settings meet the schema, then decoded with defaults; otherwise issues under `settings` |
| Spec.Version | src/spec.ts:28 | accepted exactly for the number 1 |
| Spec.Validate | src/spec.ts:27-38 | accepted exactly when version, settings and endpoints all are, then version 1, the settings with defaults filled in and the endpoints decoded in order; otherwise at least one issue |
| Spec.EndpointSchemaMeaning | src/spec.ts:12-25 | method one of the five verbs, non-empty path, status an integer in [200, 599] or absent, delay at least 0, rate in [0, 1], error status in [100, 599] when present |
| Spec.SettingsSchemaMeaning | src/spec.ts:31-33 | settings delay at least 0, rate in [0, 1], error status in [100, 599] when present |
| Spec.DecodeAllIndex | src/spec.ts:37 | the decoded list has one endpoint per raw endpoint, in order |
| Spec.DecodeWithIndex | src/spec.ts:37 | decoding a list element by element keeps its length and decodes each element in place |
| Spec.EndpointIssuesKept | src/spec.ts:37 | every issue of every bad endpoint is reported |
| Spec.BadEndpointReported | src/spec.ts:37 | a bad endpoint k makes the document invalid with an issue under `endpoints.k` |
| Spec.VersionMustBeOne | src/spec.ts:28 | a version other than 1 is reported at `version` |
| Spec.EndpointsMustBeNonEmpty | src/spec.ts:37 | an empty endpoint list is reported |
| Spec.NotAnObjectAtRoot | src/spec.ts:27 | a document that is not an object gives one issue at the root |
| Spec.MissingSettingsDefaults | src/spec.ts:31-36 | missing settings give delay 0, rate 0, status 500 and `{error: "Mock error"}`, the same as empty settings |
| Spec.ValidatedEndpoints | src/spec.ts:37 | a valid document's endpoints are the decoded raw endpoints |
| Spec.StatusDefaultsTo200 | src/spec.ts:17 | an accepted endpoint's status is the given one, or 200 when absent |
| Spec.ValidatedInRange | src/spec.ts:27-38 | every value of a validated spec lies in its range |
| Spec.DecodedEndpointInRange | src/spec.ts:12-25 | an accepted endpoint decodes with every value in its range |
| Spec.DecodedSettingsInRange | src/spec.ts:29-36 | accepted settings decode with every value in its range |
| Spec.ValidatedSettings | src/spec.ts:27-38 | a valid document has version 1 and in-range settings |
| Spec.ResolvedInRange | src/behavior.ts:31-41 | resolving validated settings with validated overrides stays in range |
| LoadSpec.PathText | src/loadSpec.ts:22 | an issue path shows as a non-empty text |
| LoadSpec.LoadSpecFromFile | src/loadSpec.ts:4-28 | a read failure stops at its message; then a parse failure; then schema issues; otherwise the validated spec |
| LoadSpec.JoinNoNewline | src/loadSpec.ts:22 | joining newline-free parts gives a newline-free line |
| LoadSpec.OneLinePerIssue | src/loadSpec.ts:21-23 | the report splits at newlines back into exactly one line per issue, in order |
| LoadSpec.PathTextExamples | src/loadSpec.ts:22 | the empty path shows as "(root)", one segment as itself, two joined by "." |
| LoadSpec.PathTextSplits | src/loadSpec.ts:22 | the dotted text splits back into the segments |
| LoadSpec.EndpointIssueLine | src/loadSpec.ts:22 | an endpoint field issue shows as `- endpoints.i.field: message` |
| OpenApi.NameRun | src/openapi.ts:7 | a parameter name is the longest run of `[A-Za-z0-9_]` |
| OpenApi.ToOpenApiPath | src/openapi.ts:5-8 | a path without a colon is its own OpenAPI path |
| OpenApi.ExtractPathParams | src/openapi.ts:10-13 | every name found is a non-empty run of `[A-Za-z0-9_]`; a path without a colon has none |
| OpenApi.ParamNames | src/openapi.ts:10-13 | every name read from a path is a non-empty run of name characters |
| OpenApi.PiecesCover | src/openapi.ts:7 | reading a path into characters and `:name` parameters loses nothing |
| OpenApi.PiecesWellFormed | src/openapi.ts:7 | the pieces are the regex's matches: names non-empty and of name characters, no name could be longer, and a colon kept as a character is not followed by a name character |
| OpenApi.NoColonUnchanged | src/openapi.ts:5-13 | a path without a colon is its own OpenAPI path and has no parameters |
| OpenApi.TrailingParam | src/openapi.ts:5-13 | `/users/:id` becomes `/users/{id}` with the single parameter `id` |
| OpenApi.PlainPrefix | src/openapi.ts:7 | a colon-free prefix reads as plain characters before the rest |
| OpenApi.SingleParam | src/openapi.ts:7 | `:name` of name characters reads as the one parameter `name` |
| OpenApi.UniqDistinct | src/openapi.ts:15-17 | `uniq` gives no duplicates and the same elements |
| OpenApi.Uniq | src/openapi.ts:15-17 | no duplicates, and every element of each list is in the other |
| OpenApi.UniqOfDistinct | src/openapi.ts:15-17 | `uniq` of a duplicate-free list is that list |
| OpenApi.UniqIdempotent | src/openapi.ts:15-17 | `uniq` is idempotent |
| OpenApi.UniqPrefix | src/openapi.ts:15-17 | first occurrences keep their order: `uniq` of a prefix is a prefix of `uniq` of the whole |
| OpenApi.Shown | src/openapi.ts:21-23 | the shown strings are `String(v)` of exactly the values that are neither undefined nor null |
| OpenApi.AsStringEnum | src/openapi.ts:19-25 | no duplicates, and exactly the `String` forms of the defined, non-null values |
| OpenApi.StringEnumIsUniq | src/openapi.ts:76 | for the strings the generator passes, `asStringEnum` is `uniq` |
| OpenApi.EntryKeys | src/openapi.ts:42 | one key per rule entry |
| OpenApi.TableKeys | src/openapi.ts:75 | the query table's keys in order |
| OpenApi.AddValueMeaning | src/openapi.ts:43-44 | adding a value adds its key once, appends to that key's values and leaves every other key alone |
| OpenApi.AddValueKeys | src/openapi.ts:43-44 | adding a value adds its key to the key list once, at the end when new |
| OpenApi.AddValueValues | src/openapi.ts:43-44 | adding a value appends it to its key's values and leaves other keys' values alone |
| OpenApi.AddValueNonEmpty | src/openapi.ts:43-44 | every key keeps at least one value |
| OpenApi.ValuesForDistinct | src/openapi.ts:75 | each entry of the table holds the values listed under its key |
| OpenApi.QueryFoldAppend | src/openapi.ts:53-61 | collecting two lists of entries one after the other is collecting their concatenation |
| OpenApi.QueryFoldMeaning | src/openapi.ts:40-46 | each query key once, in order of first sight, with every value given for it in order and at least one value |
| OpenApi.CollectQueriesFlat | src/openapi.ts:53-61 | the endpoint's and the variants' rules are collected as one list of entries |
| OpenApi.BodyFoldUniq | src/openapi.ts:48-51 | adding keys to the set is `uniq` of all keys seen |
| OpenApi.CollectBodiesUniq | src/openapi.ts:53-61 | the body keys are every body key of every rule, each once, in order of first sight |
| OpenApi.PathParameters | src/openapi.ts:66-73 | one required `in: path` parameter per name, in order |
| OpenApi.QueryParameters | src/openapi.ts:75-84 | one query parameter per table entry, in order |
| OpenApi.AddExampleMeaning | src/openapi.ts:106-116 | the example is stored under `String(status)` and its name; a new status gets a "Mock response"; other statuses and names are untouched |
| OpenApi.AddExampleKeys | src/openapi.ts:106-116 | adding an example adds exactly its status to the response keys, all responses staying "Mock response" |
| OpenApi.CollectQueryInto | src/openapi.ts:40-46 | `collectQuery`'s loop agrees with the specification |
| OpenApi.CollectBodyInto | src/openapi.ts:48-51 | `collectBody`'s loop agrees with the specification |
| OpenApi.EntryKeysPrefix | src/openapi.ts:50 | the keys of a prefix are the prefix of the keys |
| OpenApi.CollectMatchKeys | src/openapi.ts:53-61 | the endpoint's rule, then each variant's, collected into the query table and body keys |
| OpenApi.BuildParameters | src/openapi.ts:64-84 | the path parameters, then the query parameters |
| OpenApi.BuildResponses | src/openapi.ts:118-126 | the base example, then each variant's |
| OpenApi.BuildOperation | src/openapi.ts:31-133 | one endpoint's operation |
| OpenApi.OperationOf | src/openapi.ts:31-133 | parameters absent exactly without path parameters and query entries; a body exactly for a method other than GET and DELETE with body keys, listing them once; responses keyed by the base and variant statuses |
| OpenApi.GenerateOpenApi | src/openapi.ts:27-149 | version 3.0.3, the fixed info, the one server, and the paths of all endpoints |
| OpenApi.UniqEmpty | src/openapi.ts:15-17 | `uniq` is empty exactly for an empty list |
| OpenApi.QueryParametersMeaning | src/openapi.ts:75-84 | one optional query parameter per distinct query key of the endpoint and its variants, in order of first sight, with the distinct values as its enum, never empty |
| OpenApi.OperationParameters | src/openapi.ts:63-84 | no parameter list exactly when there are no path parameters and no query entries; otherwise path parameters first, in path order, then one per query key |
| OpenApi.ParamsMeaning | src/openapi.ts:63-84 | for query keys that are `uniq` of the entries: no list exactly when no path parameter and no entry, otherwise path parameters in order then one optional query parameter per key |
| OpenApi.RequestBodyMeaning | src/openapi.ts:87-101 | a body is documented exactly for a method other than GET and DELETE with some body key, listing each key once in order of first sight |
| OpenApi.VariantExamplesAppend | src/openapi.ts:122-126 | adding the examples of two lists of variants in turn is adding those of their concatenation |
| OpenApi.VariantExamplesKeys | src/openapi.ts:122-126 | the variants add one response per status of theirs, each described as a mock response |
| OpenApi.StatusKeysSnoc | src/openapi.ts:122-126 | one more variant adds its status to the status keys |
| OpenApi.ResponsesMeaning | src/openapi.ts:103-126 | responses are keyed by the base status and every variant's status and nothing else; all are "Mock response" |
| OpenApi.ExampleKept | src/openapi.ts:115 | an example stays as it is while no later variant writes the same name under the same status |
| OpenApi.VariantExampleShown | src/openapi.ts:124 | a variant's response is the example under its name (default "variant") and status (default the endpoint's, then 200) unless a later variant overwrites it |
| OpenApi.DefaultExampleShown | src/openapi.ts:119 | the endpoint's own response is the "default" example under its status (default 200) unless a variant overwrites it |
| OpenApi.PlainEndpoint | src/openapi.ts:27-133 | an endpoint without match rule or variants documents only its path parameters and its default example |
| OpenApi.PathsFromEndpoints | src/openapi.ts:135-136 | every path and method in `paths` is some endpoint's converted path and lower-cased method |
| OpenApi.PathsOf | src/openapi.ts:30-32 | a path and method are in `paths` exactly when some endpoint converts to them |
| OpenApi.PathsWithExactly | src/openapi.ts:135-136 | the same for any operation function |
| OpenApi.PathsWithFrom | src/openapi.ts:135-136 | every path and method in the map is declared by some endpoint, and no path has an empty method map |
| OpenApi.PathsWithStep | src/openapi.ts:135-136 | one more endpoint inserts its operation under its path and method |
| OpenApi.InsertDomain | src/openapi.ts:135-136 | the insertion adds exactly the new path and method and stores the operation there |
| OpenApi.InsertKeeps | src/openapi.ts:135-136 | every other path and method keeps its operation |
| OpenApi.AddOperation | src/openapi.ts:135-136 | creating the path entry when missing, then setting the method, is the map insertion |
| OpenApi.EndpointsInPaths | src/openapi.ts:31-32 | every endpoint's converted path and lower-cased method are in `paths` |
| OpenApi.EndpointInPaths | src/openapi.ts:135-136 | endpoint i's converted path and lower-cased method are in the map |
| OpenApi.LastEndpointWins | src/openapi.ts:135-136 | the operation under a path and method is that of the last endpoint with them |
| OpenApi.LastWins | src/openapi.ts:135-136 | with no later endpoint on the same path and method, endpoint i's operation is the one stored |
| OpenApi.ToStringQueryKeyThrows | src/openapi.ts:43-44 | a query rule key `toString` makes the code as written throw, where the own-key table lists it with its value |
| OpenApi.AsWrittenAgrees | src/openapi.ts:40-46 | away from inherited member names the code as written and the own-key table agree |

## Left out

- Fastify wiring, the server, the CLI and logging: `src/server.ts`, `src/registerEndpoints.ts`,
  `src/index.ts` and `src/logger/*` are I/O and host code. `src/registerEndpoints.ts` is not part of this model.
- The per-request pipeline (variant selection, 404, applying headers) and the reload orchestrator are
  not in these sources. `RequestMatch.FirstMatch` is a first-match selector over the matcher, written from
  the matching tests.
- Time, identity and randomness are parameters:
  - `Date`, `randomUUID`: the id and timestamp passed to `History.HistoryRecorder.Record`;
  - `Math.random`: the `draw` of `Behavior.ShouldFail`;
  - `readFile`, `JSON.parse`: `read` and `parse` of `LoadSpec.LoadSpecFromFile`;
  - `sleep`.
- The model's JSON numbers are integers. The one exception is the error rate, a `real` in
  `Behavior.BehaviorSettings`. So a fractional rate in a file (such as 0.25) cannot be validated or
  decoded: `Spec` only ever sees an integral rate. For the same reason the zod `.int()` checks, which
  reject for example `status: 200.5`, are not represented.
- The model's integers are unbounded, where JavaScript numbers are IEEE doubles:
  - `JSON.parse` rounds integers beyond 2^53 (12345678901234567890 becomes 12345678901234567000);
    the model keeps them exact;
  - `String(n)` and `JSON.stringify` write numbers of magnitude 10^21 and above in exponent form
    ("1e+21"); Json.NatToString, Json.IntToString, Json.Stringify and StringTemplate.Show write plain
    digits for every integer.
- Strings are sequences of Unicode scalar values, where JavaScript strings are UTF-16 code units. So
  `Json.Member` indexing a string (reached by LegacyTemplate.GetPath, src/template.ts:14-15) gives the
  whole character where the source gives one code unit: `"😀"` at `"0"` is a lone surrogate in the
  source. String lengths and the character positions the template scanner works on differ the same
  way for characters outside the Basic Multilingual Plane.
- Case mapping is ASCII only (`toLowerCase`, `toUpperCase`).
- Object keys are ordered entry lists, looked up at the first entry with the key. Left out:
  - JSON.parse keeping the last duplicate key;
  - the JavaScript ordering of integer-like keys in `Object.entries`;
  - `.length` and other prototype members reachable through dotted paths;
  - inherited members reachable through `record[key]` in the body matcher (src/requestMatch.ts:49): a
    body rule `{"toString": ""}` fails against a body without that key in the source, but matches in the
    model, where a missing key reads as "";
  - the same inherited members reachable through `query[key]` in the query matcher
    (src/requestMatch.ts:27-32), whether the query is a plain object or the `{}` that `toRecord`
    returns for anything else: a query rule `{"toString": ""}` fails in the source, where
    `String(query.toString)` is the function's text, but matches in the model, where the missing key
    reads as "";
  - a `__proto__` key assigned with `out[k] =` (src/template.ts:54) or `output[key] =`
    (src/responseRenderer.ts:109) does not become an own key in the source; `LegacyTemplate.Expand` and
    `ResponseRenderer.RenderFields` keep it as an ordinary entry.
- Faker is a closed registry of functions threading a `Generator` state. The library, its data and its
  seed determinism are not modelled: `ResponseRenderer.Seeded` and `ResponseRenderer.NumberInt` stand in
  for `faker.seed` and `faker.number.int`.
- `JSON.stringify`'s catch for cyclic values cannot arise with acyclic values. `Json.Stringify` is a plain
  serializer.
- The zod library: only the stated constraints and defaults are modelled. The issue messages follow zod
  version 3's wording as closely as the model can, not its exact texts for every case. Unknown keys are
  dropped as zod drops them.
- `src/spec.ts` as it stands defines no `match` or `variants` fields, although `src/requestMatch.ts` and
  `src/openapi.ts` read them. So:
  - endpoints validated by `Spec` carry neither, and a match rule is never validated;
  - `OpenApi.Endpoint` is the generator's own input type, carrying both.
- CORS and cookie parsing are library middleware.
- Aliasing of arrays:
  - `query` without a filter hands out the stored array itself;
  - `record` returns the object it stores;
  - `...entry` may override the generated `id` and `timestamp`.

  The model returns values, so later mutation through those references is not represented.
- A non-integer or NaN `maxEntries`: capacity is modelled for integers, a negative one holding nothing.
- `Array.from` limits (very large repeat counts) and `RangeError`s from the runtime.
- `OpenApi.PathsOf`: the same inherited-name lookup as in the finding below affects `paths[oasPath]` and
  `examples[name]`. A converted path or example name such as `constructor` or `__proto__` would land on
  an inherited member. Those are modelled as ordinary own keys.
- OpenApi.GenerateOpenApi and OpenApi.CollectQueryInto follow the corrected own-key table of the finding
  below: where the source throws on an inherited query key, they do not.
- `Document.paths`, `Operation.responses` and `Response.examples` are Dafny maps, so the insertion order
  of paths, methods, status codes and example names, and so the key order of the JSON document, is lost.
- OpenAPI schema objects are reduced to what varies: the enum of a query parameter and the property names of a
  request body. The constant parts (`type: "string"`, `required: false`, the content type) are
  implicit.

## Findings

| source | as written | input that shows it | evidently intended | confidence | as-written member | corrected member |
|---|---|---|---|---|---|---|
| src/openapi.ts:43-44 | `if (!queryMatchValues[k]) queryMatchValues[k] = []` tests a plain `{}`, so a key naming an inherited member (`toString`, `constructor`, `valueOf`, ...) finds a function, skips the initialisation, and `.push` then throws a TypeError | an endpoint whose match rule has query `{ "toString": "x" }` | every query key gets its own value list, and a `toString` query parameter is documented | medium, not executed | OpenApi.ToStringQueryKeyThrows | OpenApi.QueryFoldMeaning |
