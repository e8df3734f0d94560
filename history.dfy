/**
 * The request history (src/history/historyRecorder.ts, src/history/types.ts):
 * a bounded log in arrival order, dropping the oldest entry on overflow, and
 * queried through successive filters and a "last N" limit.
 */
module History {
  import opened Json
  import opened Text
  import RequestMatch

  /** One recorded request. */
  datatype HistoryEntry = HistoryEntry(
    id: string,
    timestamp: string,
    httpMethod: string,
    url: string,
    path: string,
    query: seq<(string, Value)>,
    headers: seq<(string, RequestMatch.HeaderValue)>,
    body: Option<Value>,
    statusCode: Option<int>,
    responseTime: Option<int>)

  /** What the caller of `record` supplies: an entry without id and timestamp. */
  datatype EntryInput = EntryInput(
    httpMethod: string,
    url: string,
    path: string,
    query: seq<(string, Value)>,
    headers: seq<(string, RequestMatch.HeaderValue)>,
    body: Option<Value>,
    statusCode: Option<int>,
    responseTime: Option<int>)

  datatype HistoryFilter = HistoryFilter(
    endpoint: Option<string>,
    httpMethod: Option<string>,
    statusCode: Option<int>,
    limit: Option<int>)

  /** The default capacity. */
  const DefaultMaxEntries := 1000

  /** The entry `record` stores: the generated id and timestamp, then the caller's fields. */
  function Complete(entry: EntryInput, id: string, timestamp: string): HistoryEntry
  {
    HistoryEntry(id, timestamp, entry.httpMethod, entry.url, entry.path, entry.query,
                 entry.headers, entry.body, entry.statusCode, entry.responseTime)
  }

  /** The caller's part of a stored entry: everything but the id and the timestamp. */
  function Caller(e: HistoryEntry): EntryInput
  {
    EntryInput(e.httpMethod, e.url, e.path, e.query, e.headers, e.body, e.statusCode, e.responseTime)
  }

  /** Completing an entry adds the id and timestamp and keeps every field the caller gave. */
  lemma CompleteKeepsInput(entry: EntryInput, id: string, timestamp: string)
    ensures Caller(Complete(entry, id, timestamp)) == entry
    ensures Complete(entry, id, timestamp).id == id && Complete(entry, id, timestamp).timestamp == timestamp
  {
  }

  /** How many entries the log can hold: a capacity of 0 or less keeps none. */
  function Capacity(maxEntries: int): nat
  {
    if maxEntries < 0 then 0 else maxEntries
  }

  /** After `push`: one `shift` when the log is over capacity. */
  function Trim(s: seq<HistoryEntry>, maxEntries: int): seq<HistoryEntry>
  {
    if |s| > maxEntries && |s| > 0 then s[1..] else s
  }

  // ---------------------------------------------------------------------------
  // Queries

  /** `Array.prototype.filter`: the elements satisfying `p`, in order. */
  function Keep(s: seq<HistoryEntry>, p: HistoryEntry -> bool): (r: seq<HistoryEntry>)
    ensures |r| <= |s|
    decreases |s|
  {
    if s == [] then []
    else if p(s[0]) then [s[0]] + Keep(s[1..], p)
    else Keep(s[1..], p)
  }

  /** `slice(-n)` for a positive `n`: the last `n` elements, or all of them. */
  function LastN(s: seq<HistoryEntry>, n: nat): (r: seq<HistoryEntry>)
    ensures |r| == if n < |s| then n else |s|
    ensures forall k :: 0 <= k < |r| ==> r[k] == s[|s| - |r| + k]
  {
    if n < |s| then s[|s| - n..] else s
  }

  /** A filter field that takes part: `endpoint` and `method` only when non-empty. */
  predicate Active(s: Option<string>)
  {
    s.Some? && s.value != ""
  }

  /** The limit that takes part: `limit && limit > 0`. */
  predicate Limited(f: HistoryFilter)
  {
    f.limit.Some? && f.limit.value > 0
  }

  /** What `query(filter)` returns: the filters applied one after the other. */
  function Select(entries: seq<HistoryEntry>, filter: Option<HistoryFilter>): (r: seq<HistoryEntry>)
    ensures IsSubsequence(r, entries)
    ensures filter.Some? && Limited(filter.value) ==> |r| <= filter.value.limit.value
  {
    if filter.None? then
      SubsequenceReflexive(entries);
      entries
    else
      FilteredIsSubsequence(entries, filter.value);
      Filtered(entries, filter.value)
  }

  /** The filter stages of `query`, for a filter that is given. */
  function Filtered(entries: seq<HistoryEntry>, f: HistoryFilter): seq<HistoryEntry>
  {
    var byPath := if Active(f.endpoint) then Keep(entries, PathIs(f.endpoint.value)) else entries;
    var byMethod := if Active(f.httpMethod) then Keep(byPath, MethodIs(f.httpMethod.value)) else byPath;
    var byStatus := if f.statusCode.Some? then Keep(byMethod, StatusIs(f.statusCode)) else byMethod;
    if Limited(f) then LastN(byStatus, f.limit.value) else byStatus
  }

  /** The three filters, as the callbacks handed to `filter`. */
  function PathIs(endpoint: string): HistoryEntry -> bool
  {
    (e: HistoryEntry) => e.path == endpoint
  }

  function MethodIs(m: string): HistoryEntry -> bool
  {
    (e: HistoryEntry) => ToUpper(e.httpMethod) == ToUpper(m)
  }

  function StatusIs(code: Option<int>): HistoryEntry -> bool
  {
    (e: HistoryEntry) => e.statusCode == code
  }

  /** Reference description of an entry a filter lets through. */
  predicate Admits(f: HistoryFilter, e: HistoryEntry)
  {
    (Active(f.endpoint) ==> e.path == f.endpoint.value) &&
    (Active(f.httpMethod) ==> ToUpper(e.httpMethod) == ToUpper(f.httpMethod.value)) &&
    (f.statusCode.Some? ==> e.statusCode == f.statusCode)
  }

  function AdmittedBy(f: HistoryFilter): HistoryEntry -> bool
  {
    (e: HistoryEntry) => Admits(f, e)
  }

  // ---------------------------------------------------------------------------
  // The recorder

  class HistoryRecorder {
    var entries: seq<HistoryEntry>
    const maxEntries: int

    ghost predicate Valid()
      reads this
    {
      |entries| <= Capacity(maxEntries)
    }

    constructor (maxEntries: int := DefaultMaxEntries)
      ensures Valid()
      ensures this.maxEntries == maxEntries && entries == []
    {
      this.maxEntries := maxEntries;
      entries := [];
    }

    /** `record`: append the completed entry, drop the oldest on overflow, return the entry. */
    method Record(entry: EntryInput, id: string, timestamp: string) returns (fullEntry: HistoryEntry)
      requires Valid()
      modifies this
      ensures Valid()
      ensures fullEntry == Complete(entry, id, timestamp)
      ensures entries == Trim(old(entries) + [fullEntry], maxEntries)
    {
      fullEntry := Complete(entry, id, timestamp);
      entries := entries + [fullEntry];
      if |entries| > maxEntries {
        entries := entries[1..];
      }
    }

    /** `query`: the filters one after the other, then the limit; the log is not changed. */
    method Query(filter: Option<HistoryFilter>) returns (results: seq<HistoryEntry>)
      ensures results == Select(entries, filter)
    {
      results := entries;
      if filter.None? {
        return;
      }
      var f := filter.value;
      if Active(f.endpoint) {
        results := Keep(results, PathIs(f.endpoint.value));
      }
      if Active(f.httpMethod) {
        results := Keep(results, MethodIs(f.httpMethod.value));
      }
      if f.statusCode.Some? {
        results := Keep(results, StatusIs(f.statusCode));
      }
      if Limited(f) {
        results := LastN(results, f.limit.value);
      }
    }

    /** `clear`. */
    method Clear()
      requires Valid()
      modifies this
      ensures Valid() && entries == []
    {
      entries := [];
    }

    /** `count`. */
    method Count() returns (n: nat)
      ensures n == |entries|
    {
      n := |entries|;
    }
  }

  // ---------------------------------------------------------------------------
  // Properties of recording

  /** Recording keeps the log within its capacity. */
  lemma TrimWithinCapacity(s: seq<HistoryEntry>, x: HistoryEntry, maxEntries: int)
    requires |s| <= Capacity(maxEntries)
    ensures |Trim(s + [x], maxEntries)| <= Capacity(maxEntries)
  {
  }

  /** With room for at least one entry, the new entry is the last one. */
  lemma RecordedIsLast(s: seq<HistoryEntry>, x: HistoryEntry, maxEntries: int)
    requires |s| <= Capacity(maxEntries) && maxEntries >= 1
    ensures var t := Trim(s + [x], maxEntries); |t| >= 1 && t[|t| - 1] == x
  {
  }

  /**
   * Below capacity nothing is dropped; at capacity exactly the oldest entry
   * goes and the others keep their order.
   */
  lemma OverflowDropsOldest(s: seq<HistoryEntry>, x: HistoryEntry, maxEntries: int)
    requires |s| <= Capacity(maxEntries)
    ensures |s| < maxEntries ==> Trim(s + [x], maxEntries) == s + [x]
    ensures |s| >= maxEntries && |s| >= 1 ==> Trim(s + [x], maxEntries) == s[1..] + [x]
  {
    if |s| >= maxEntries && |s| >= 1 {
      assert (s + [x])[1..] == s[1..] + [x];
    }
  }

  /** A recorder created without an argument holds up to 1000 entries. */
  lemma DefaultCapacity()
    ensures Capacity(DefaultMaxEntries) == 1000
  {
  }

  /** The log after recording `xs` one after the other. */
  function RecordAll(s: seq<HistoryEntry>, xs: seq<HistoryEntry>, maxEntries: int): seq<HistoryEntry>
    decreases |xs|
  {
    if xs == [] then s else RecordAll(Trim(s + [xs[0]], maxEntries), xs[1..], maxEntries)
  }

  /** However many entries are recorded, the log holds the most recent ones up to its capacity. */
  lemma {:induction false} KeepsMostRecent(s: seq<HistoryEntry>, xs: seq<HistoryEntry>, maxEntries: int)
    requires |s| <= Capacity(maxEntries)
    ensures RecordAll(s, xs, maxEntries) == LastN(s + xs, Capacity(maxEntries))
    decreases |xs|
  {
    var c := Capacity(maxEntries);
    if xs == [] {
      assert s + xs == s;
    } else {
      var u := s + [xs[0]];
      var t := Trim(u, maxEntries);
      TrimWithinCapacity(s, xs[0], maxEntries);
      KeepsMostRecent(t, xs[1..], maxEntries);
      assert s + xs == u + xs[1..];
      if t != u {
        assert t == u[1..] && |t| == c;
        LastNDropFirst(u, xs[1..], c);
      }
    }
  }

  /** Dropping the first of more than `c` entries does not change the last `c`. */
  lemma LastNDropFirst(u: seq<HistoryEntry>, rest: seq<HistoryEntry>, c: nat)
    requires |u| >= 1 && |u| - 1 >= c
    ensures LastN(u[1..] + rest, c) == LastN(u + rest, c)
  {
    var a := u[1..] + rest;
    var b := u + rest;
    var sa, sb := LastN(a, c), LastN(b, c);
    forall k | 0 <= k < c ensures sa[k] == sb[k] {
      assert sa[k] == a[|a| - c + k] && sb[k] == b[|b| - c + k];
    }
  }

  // ---------------------------------------------------------------------------
  // Properties of querying

  /** `b` keeps all elements of `a`, in order, possibly with others between them. */
  predicate IsSubsequence(a: seq<HistoryEntry>, b: seq<HistoryEntry>)
    decreases |b|
  {
    if a == [] then true
    else if b == [] then false
    else if a[0] == b[0] then IsSubsequence(a[1..], b[1..])
    else IsSubsequence(a, b[1..])
  }

  lemma {:induction false} KeepIsSubsequence(s: seq<HistoryEntry>, p: HistoryEntry -> bool)
    ensures IsSubsequence(Keep(s, p), s)
    decreases |s|
  {
    if s != [] {
      KeepIsSubsequence(s[1..], p);
      if !p(s[0]) {
        var k := Keep(s[1..], p);
        if k != [] && k[0] == s[0] {
          SubsequenceDropFirst(k, s[1..]);
        }
      }
    }
  }

  /** A subsequence minus its first element is still a subsequence. */
  lemma {:induction false} SubsequenceDropFirst(a: seq<HistoryEntry>, b: seq<HistoryEntry>)
    requires a != [] && IsSubsequence(a, b)
    ensures IsSubsequence(a[1..], b)
    decreases |b|, 1
  {
    if a[0] == b[0] {
      SubsequenceOfTail(a[1..], b);
    } else {
      SubsequenceDropFirst(a, b[1..]);
      SubsequenceOfTail(a[1..], b);
    }
  }

  /** A subsequence of the tail is a subsequence of the whole. */
  lemma {:induction false} SubsequenceOfTail(a: seq<HistoryEntry>, b: seq<HistoryEntry>)
    requires b != [] && IsSubsequence(a, b[1..])
    ensures IsSubsequence(a, b)
    decreases |b|, 0
  {
    if a != [] && a[0] == b[0] {
      SubsequenceDropFirst(a, b[1..]);
    }
  }

  lemma {:induction false} SubsequenceTransitive(a: seq<HistoryEntry>, b: seq<HistoryEntry>, c: seq<HistoryEntry>)
    requires IsSubsequence(a, b) && IsSubsequence(b, c)
    ensures IsSubsequence(a, c)
    decreases |c|
  {
    if a != [] {
      assert b != [] && c != [];
      if b[0] == c[0] {
        if a[0] == b[0] {
          SubsequenceTransitive(a[1..], b[1..], c[1..]);
        } else {
          SubsequenceTransitive(a, b[1..], c[1..]);
          SubsequenceOfTail(a, c);
        }
      } else {
        SubsequenceTransitive(a, b, c[1..]);
        SubsequenceOfTail(a, c);
      }
    }
  }

  lemma {:induction false} SuffixIsSubsequence(s: seq<HistoryEntry>, k: nat)
    requires k <= |s|
    ensures IsSubsequence(s[k..], s)
    decreases k
  {
    SubsequenceReflexive(s[k..]);
    if k > 0 {
      SuffixIsSubsequence(s, k - 1);
      assert s[k - 1..][1..] == s[k..];
      SubsequenceDropFirst(s[k - 1..], s);
    }
  }

  lemma {:induction false} SubsequenceReflexive(s: seq<HistoryEntry>)
    ensures IsSubsequence(s, s)
    decreases |s|
  {
    if s != [] {
      SubsequenceReflexive(s[1..]);
    }
  }

  /** The limit, applied or skipped, keeps a subsequence. */
  lemma LimitIsSubsequence(s: seq<HistoryEntry>, f: HistoryFilter)
    ensures IsSubsequence(if Limited(f) then LastN(s, f.limit.value) else s, s)
  {
    if Limited(f) && f.limit.value < |s| {
      SuffixIsSubsequence(s, |s| - f.limit.value);
    } else {
      SubsequenceReflexive(s);
    }
  }

  /** A query returns a subsequence of the log: no entry invented, none reordered. */
  lemma QueryIsSubsequence(entries: seq<HistoryEntry>, filter: Option<HistoryFilter>)
    ensures IsSubsequence(Select(entries, filter), entries)
  {
  }

  lemma FilteredIsSubsequence(entries: seq<HistoryEntry>, f: HistoryFilter)
    ensures IsSubsequence(Filtered(entries, f), entries)
  {
    var byPath := if Active(f.endpoint) then Keep(entries, PathIs(f.endpoint.value)) else entries;
    var byMethod := if Active(f.httpMethod) then Keep(byPath, MethodIs(f.httpMethod.value)) else byPath;
    var byStatus := if f.statusCode.Some? then Keep(byMethod, StatusIs(f.statusCode)) else byMethod;
    var limited := if Limited(f) then LastN(byStatus, f.limit.value) else byStatus;
    if Active(f.endpoint) { KeepIsSubsequence(entries, PathIs(f.endpoint.value)); } else { SubsequenceReflexive(entries); }
    if Active(f.httpMethod) { KeepIsSubsequence(byPath, MethodIs(f.httpMethod.value)); } else { SubsequenceReflexive(byPath); }
    if f.statusCode.Some? { KeepIsSubsequence(byMethod, StatusIs(f.statusCode)); } else { SubsequenceReflexive(byMethod); }
    LimitIsSubsequence(byStatus, f);
    SubsequenceTransitive(byMethod, byPath, entries);
    SubsequenceTransitive(byStatus, byMethod, entries);
    SubsequenceTransitive(limited, byStatus, entries);
    assert Filtered(entries, f) == limited;
  }

  /** Filtering twice is filtering once by both conditions. */
  lemma {:induction false} KeepKeep(s: seq<HistoryEntry>, p: HistoryEntry -> bool, q: HistoryEntry -> bool)
    ensures Keep(Keep(s, p), q) == Keep(s, (e: HistoryEntry) => p(e) && q(e))
    decreases |s|
  {
    if s != [] {
      KeepKeep(s[1..], p, q);
      if p(s[0]) {
        assert Keep(s, p) == [s[0]] + Keep(s[1..], p);
        assert ([s[0]] + Keep(s[1..], p))[1..] == Keep(s[1..], p);
      }
    }
  }

  /** Filtering by a condition every element meets changes nothing. */
  lemma {:induction false} KeepAll(s: seq<HistoryEntry>, p: HistoryEntry -> bool)
    requires forall k :: 0 <= k < |s| ==> p(s[k])
    ensures Keep(s, p) == s
    decreases |s|
  {
    if s != [] {
      KeepAll(s[1..], p);
      assert [s[0]] + s[1..] == s;
    }
  }

  lemma {:induction false} KeepSame(s: seq<HistoryEntry>, p: HistoryEntry -> bool, q: HistoryEntry -> bool)
    requires forall k :: 0 <= k < |s| ==> p(s[k]) == q(s[k])
    ensures Keep(s, p) == Keep(s, q)
    decreases |s|
  {
    if s != [] {
      KeepSame(s[1..], p, q);
    }
  }

  /**
   * The successive filters are one conjunctive filter: before the limit, a
   * query keeps exactly the entries the filter admits, in log order.
   */
  lemma QueryIsConjunction(entries: seq<HistoryEntry>, f: HistoryFilter)
    ensures var kept := Keep(entries, AdmittedBy(f));
            Select(entries, Some(f)) == if Limited(f) then LastN(kept, f.limit.value) else kept
  {
    var c1 := (e: HistoryEntry) => !Active(f.endpoint) || e.path == f.endpoint.value;
    var c2 := (e: HistoryEntry) => c1(e) && (!Active(f.httpMethod) || ToUpper(e.httpMethod) == ToUpper(f.httpMethod.value));
    var c3 := (e: HistoryEntry) => c2(e) && (f.statusCode.None? || e.statusCode == f.statusCode);
    var byPath := if Active(f.endpoint) then Keep(entries, PathIs(f.endpoint.value)) else entries;
    assert byPath == Keep(entries, c1) by {
      if Active(f.endpoint) {
        KeepSame(entries, PathIs(f.endpoint.value), c1);
      } else {
        KeepAll(entries, c1);
      }
    }
    var byMethod := if Active(f.httpMethod) then Keep(byPath, MethodIs(f.httpMethod.value)) else byPath;
    assert byMethod == Keep(entries, c2) by {
      if Active(f.httpMethod) {
        var q := MethodIs(f.httpMethod.value);
        KeepKeep(entries, c1, q);
        KeepSame(entries, (e: HistoryEntry) => c1(e) && q(e), c2);
      } else {
        KeepSame(entries, c1, c2);
      }
    }
    var byStatus := if f.statusCode.Some? then Keep(byMethod, StatusIs(f.statusCode)) else byMethod;
    assert byStatus == Keep(entries, c3) by {
      if f.statusCode.Some? {
        var q := StatusIs(f.statusCode);
        KeepKeep(entries, c2, q);
        KeepSame(entries, (e: HistoryEntry) => c2(e) && q(e), c3);
      } else {
        KeepSame(entries, c2, c3);
      }
    }
    KeepSame(entries, c3, AdmittedBy(f));
  }

  lemma {:induction false} KeepMembers(s: seq<HistoryEntry>, p: HistoryEntry -> bool)
    ensures forall x :: x in Keep(s, p) <==> x in s && p(x)
    decreases |s|
  {
    if s != [] {
      KeepMembers(s[1..], p);
      assert s == [s[0]] + s[1..];
    }
  }

  /** Every entry a query returns is admitted by the filter. */
  lemma QueryResultsAdmitted(entries: seq<HistoryEntry>, f: HistoryFilter, x: HistoryEntry)
    requires x in Select(entries, Some(f))
    ensures x in entries && Admits(f, x)
  {
    QueryIsConjunction(entries, f);
    var kept := Keep(entries, AdmittedBy(f));
    KeepMembers(entries, AdmittedBy(f));
    if Limited(f) {
      LastNMember(kept, f.limit.value, x);
    }
  }

  /** The last entries are entries of the log. */
  lemma LastNMember(s: seq<HistoryEntry>, n: nat, x: HistoryEntry)
    requires x in LastN(s, n)
    ensures x in s
  {
    if n < |s| {
      assert LastN(s, n) == s[|s| - n..];
      assert x in s[|s| - n..];
    }
  }

  /** Without a limit, every admitted entry of the log is returned. */
  lemma QueryReturnsAllAdmitted(entries: seq<HistoryEntry>, f: HistoryFilter, x: HistoryEntry)
    requires !Limited(f) && x in entries && Admits(f, x)
    ensures x in Select(entries, Some(f))
  {
    QueryIsConjunction(entries, f);
    KeepMembers(entries, AdmittedBy(f));
  }

  /** No filter, or a filter with nothing set, returns the whole log in order. */
  lemma NoFilterReturnsAll(entries: seq<HistoryEntry>)
    ensures Select(entries, None) == entries
    ensures Select(entries, Some(HistoryFilter(None, None, None, None))) == entries
  {
  }

  /** Empty strings for `endpoint` and `method` and a limit of 0 or less are ignored. */
  lemma EmptyFieldsIgnored(entries: seq<HistoryEntry>, limit: int)
    requires limit <= 0
    ensures Select(entries, Some(HistoryFilter(Some(""), Some(""), None, Some(limit)))) == entries
  {
  }

  /** A positive limit returns the last `limit` of the filtered entries, or all when fewer. */
  lemma LimitKeepsLast(entries: seq<HistoryEntry>, f: HistoryFilter)
    requires Limited(f)
    ensures var all := Select(entries, Some(f.(limit := None)));
            var r := Select(entries, Some(f));
            |r| == (if f.limit.value < |all| then f.limit.value else |all|) &&
            r == all[|all| - |r|..]
  {
    var g := f.(limit := None);
    assert g.endpoint == f.endpoint && g.httpMethod == f.httpMethod && g.statusCode == f.statusCode && !Limited(g);
    var all := Select(entries, Some(g));
    assert Select(entries, Some(f)) == LastN(all, f.limit.value);
  }

  /** A status code of 0 is a filter like any other: it keeps only entries with status 0. */
  lemma StatusZeroFilters(entries: seq<HistoryEntry>, x: HistoryEntry)
    requires x in Select(entries, Some(HistoryFilter(None, None, Some(0), None)))
    ensures x.statusCode == Some(0)
  {
    QueryResultsAdmitted(entries, HistoryFilter(None, None, Some(0), None), x);
  }

  /** The method filter ignores letter case, on both sides. */
  lemma MethodFilterIgnoresCase(f: HistoryFilter, e: HistoryEntry)
    requires Active(f.httpMethod)
    ensures Admits(f, e) <==> Admits(f, e.(httpMethod := ToLower(e.httpMethod)))
    ensures Admits(f, e) <==> Admits(f.(httpMethod := Some(ToLower(f.httpMethod.value))), e)
  {
    ToUpperOfLower(e.httpMethod);
    ToUpperOfLower(f.httpMethod.value);
    assert ToLower(f.httpMethod.value) != "";
  }
}
