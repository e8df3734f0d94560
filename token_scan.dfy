/**
 * The placeholder scanner shared by both string templaters
 * (src/stringTemplate.ts and src/template.ts): a global `String.replace`
 * with the pattern `\{\{\s*([a-zA-Z]+)\.([a-zA-Z0-9_.]+)\s*\}\}`.
 *
 * The pattern is deterministic: each part is a maximal run of a character
 * class that the next part cannot start with, so a match at a position is
 * unique when it exists. A scan tries a match at each position from the left;
 * after a match it resumes right after it, and a replacement is never scanned
 * again.
 */
module TokenScan {
  import opened Json

  /** ECMAScript `\s`: white space and line terminators. */
  predicate IsWs(c: char)
  {
    var n := c as int;
    n == 0x09 || n == 0x0A || n == 0x0B || n == 0x0C || n == 0x0D || n == 0x20 ||
    n == 0xA0 || n == 0x1680 || (0x2000 <= n <= 0x200A) || n == 0x2028 || n == 0x2029 ||
    n == 0x202F || n == 0x205F || n == 0x3000 || n == 0xFEFF
  }

  /** `[a-zA-Z]` */
  predicate IsRootChar(c: char)
  {
    ('a' <= c <= 'z') || ('A' <= c <= 'Z')
  }

  /** `[a-zA-Z0-9_.]` */
  predicate IsPathChar(c: char)
  {
    IsRootChar(c) || ('0' <= c <= '9') || c == '_' || c == '.'
  }

  predicate AllWs(s: string) { forall k :: 0 <= k < |s| ==> IsWs(s[k]) }

  predicate AllRoot(s: string) { forall k :: 0 <= k < |s| ==> IsRootChar(s[k]) }

  predicate AllPath(s: string) { forall k :: 0 <= k < |s| ==> IsPathChar(s[k]) }

  /** End of the maximal run of `p`-characters of `s` that starts at `i`. */
  function Span(s: string, i: nat, p: char -> bool): (j: nat)
    requires i <= |s|
    ensures i <= j <= |s|
    ensures forall k :: i <= k < j ==> p(s[k])
    ensures j < |s| ==> !p(s[j])
    decreases |s| - i
  {
    if i == |s| || !p(s[i]) then i else Span(s, i + 1, p)
  }

  /** A run is maximal exactly where it ends: the span is determined by its extent. */
  lemma {:induction false} SpanExact(s: string, i: nat, j: nat, p: char -> bool)
    requires i <= j <= |s|
    requires forall k :: i <= k < j ==> p(s[k])
    requires j < |s| ==> !p(s[j])
    ensures Span(s, i, p) == j
    decreases j - i
  {
    if i < j {
      SpanExact(s, i + 1, j, p);
    }
  }

  /** A match at the start of a string: root, path and the length of the matched text. */
  datatype Token = Token(root: string, path: string, length: nat)

  /**
   * Reference description of a match: `s[..n]` is "{{", white space, the
   * root, ".", the path, white space, "}}", with the root starting at `a`.
   */
  predicate TokenAt(s: string, n: nat, a: nat, root: string, path: string)
  {
    var b := a + |root|;
    var c := b + 1 + |path|;
    2 <= a && c + 2 <= n <= |s| &&
    s[0] == '{' && s[1] == '{' && AllWs(s[2..a]) &&
    |root| >= 1 && AllRoot(root) && s[a..b] == root && s[b] == '.' &&
    |path| >= 1 && AllPath(path) && s[b + 1..c] == path &&
    AllWs(s[c..n - 2]) && s[n - 2] == '}' && s[n - 1] == '}'
  }

  /** The pattern, tried at the start of `s`. */
  function MatchToken(s: string): (r: Option<Token>)
    ensures r.Some? ==> 7 <= r.value.length <= |s|
  {
    if |s| < 2 || s[0] != '{' || s[1] != '{' then None
    else MatchRoot(s, Span(s, 2, IsWs))
  }

  /** After "{{" and white space up to `a`: the root, then ".". */
  function MatchRoot(s: string, a: nat): (r: Option<Token>)
    requires 2 <= a <= |s| && s[0] == '{' && s[1] == '{' && AllWs(s[2..a])
    ensures r.Some? ==> 7 <= r.value.length <= |s|
  {
    var b := Span(s, a, IsRootChar);
    if b == a || b == |s| || s[b] != '.' then None
    else MatchPath(s, a, b)
  }

  /** After the root `s[a..b]` and ".": the path. */
  function MatchPath(s: string, a: nat, b: nat): (r: Option<Token>)
    requires 2 <= a < b < |s| && s[0] == '{' && s[1] == '{' && AllWs(s[2..a])
    requires AllRoot(s[a..b]) && s[b] == '.'
    ensures r.Some? ==> 7 <= r.value.length <= |s|
  {
    var c := Span(s, b + 1, IsPathChar);
    if c == b + 1 then None
    else MatchClose(s, a, b, c)
  }

  /** After the path `s[b + 1..c]`: white space, then "}}". */
  function MatchClose(s: string, a: nat, b: nat, c: nat): (r: Option<Token>)
    requires 2 <= a < b && b + 1 < c <= |s| && s[0] == '{' && s[1] == '{' && AllWs(s[2..a])
    requires AllRoot(s[a..b]) && s[b] == '.' && AllPath(s[b + 1..c])
    ensures r.Some? ==> 7 <= r.value.length <= |s|
  {
    var d := Span(s, c, IsWs);
    if d + 2 <= |s| && s[d] == '}' && s[d + 1] == '}' then
      Some(Token(s[a..b], s[b + 1..c], d + 2))
    else None
  }

  /** Whatever the scanner finds at the start has the shape of a placeholder. */
  lemma MatchTokenSound(s: string)
    requires MatchToken(s).Some?
    ensures exists a :: TokenAt(s, MatchToken(s).value.length, a, MatchToken(s).value.root, MatchToken(s).value.path)
  {
    var a := Span(s, 2, IsWs);
    assert AllWs(s[2..a]);
    RootSound(s, a);
  }

  lemma RootSound(s: string, a: nat)
    requires 2 <= a <= |s| && s[0] == '{' && s[1] == '{' && AllWs(s[2..a])
    requires MatchRoot(s, a).Some?
    ensures TokenAt(s, MatchRoot(s, a).value.length, a, MatchRoot(s, a).value.root, MatchRoot(s, a).value.path)
  {
    var b := Span(s, a, IsRootChar);
    assert AllRoot(s[a..b]);
    PathSound(s, a, b);
  }

  lemma PathSound(s: string, a: nat, b: nat)
    requires 2 <= a < b < |s| && s[0] == '{' && s[1] == '{' && AllWs(s[2..a])
    requires AllRoot(s[a..b]) && s[b] == '.'
    requires MatchPath(s, a, b).Some?
    ensures TokenAt(s, MatchPath(s, a, b).value.length, a, MatchPath(s, a, b).value.root, MatchPath(s, a, b).value.path)
  {
    var c := Span(s, b + 1, IsPathChar);
    assert AllPath(s[b + 1..c]);
    CloseSound(s, a, b, c);
  }

  lemma CloseSound(s: string, a: nat, b: nat, c: nat)
    requires 2 <= a < b && b + 1 < c <= |s| && s[0] == '{' && s[1] == '{' && AllWs(s[2..a])
    requires AllRoot(s[a..b]) && s[b] == '.' && AllPath(s[b + 1..c])
    requires MatchClose(s, a, b, c).Some?
    ensures TokenAt(s, MatchClose(s, a, b, c).value.length, a, MatchClose(s, a, b, c).value.root, MatchClose(s, a, b, c).value.path)
  {
    var d := Span(s, c, IsWs);
    assert AllWs(s[c..d]);
  }

  /** Whenever the text has the shape of a placeholder, the scanner finds exactly that one. */
  lemma MatchTokenComplete(s: string, n: nat, a: nat, root: string, path: string)
    requires TokenAt(s, n, a, root, path)
    ensures MatchToken(s) == Some(Token(root, path, n))
  {
    var b := a + |root|;
    var c := b + 1 + |path|;
    assert AllRoot(s[a..b]) && AllPath(s[b + 1..c]);
    CompleteFrom(s, a, b, c, n);
  }

  /** The same, with the parts of the placeholder given by their bounds. */
  lemma CompleteFrom(s: string, a: nat, b: nat, c: nat, n: nat)
    requires 2 <= a < b && b + 1 < c && c + 2 <= n <= |s| && s[0] == '{' && s[1] == '{' && AllWs(s[2..a])
    requires AllRoot(s[a..b]) && s[b] == '.' && AllPath(s[b + 1..c])
    requires AllWs(s[c..n - 2]) && s[n - 2] == '}' && s[n - 1] == '}'
    ensures MatchToken(s) == Some(Token(s[a..b], s[b + 1..c], n))
  {
    assert IsRootChar(s[a]) by { assert s[a..b][0] == s[a]; }
    OpenStep(s, a);
    RootOnwards(s, a, b, c, n);
  }

  lemma RootOnwards(s: string, a: nat, b: nat, c: nat, n: nat)
    requires 2 <= a < b && b + 1 < c && c + 2 <= n <= |s| && s[0] == '{' && s[1] == '{' && AllWs(s[2..a])
    requires AllRoot(s[a..b]) && s[b] == '.' && AllPath(s[b + 1..c])
    requires AllWs(s[c..n - 2]) && s[n - 2] == '}' && s[n - 1] == '}'
    ensures MatchRoot(s, a) == Some(Token(s[a..b], s[b + 1..c], n))
  {
    RootStep(s, a, b);
    assert !IsPathChar(s[c]) by {
      if c < n - 2 { assert s[c..n - 2][0] == s[c]; }
    }
    PathStep(s, a, b, c);
    CloseStep(s, a, b, c, n);
  }

  lemma OpenStep(s: string, a: nat)
    requires 2 <= a < |s| && s[0] == '{' && s[1] == '{' && AllWs(s[2..a]) && !IsWs(s[a])
    ensures MatchToken(s) == MatchRoot(s, a)
  {
    WsRun(s, 2, a);
    SpanExact(s, 2, a, IsWs);
  }

  lemma RootStep(s: string, a: nat, b: nat)
    requires 2 <= a < b < |s| && s[0] == '{' && s[1] == '{' && AllWs(s[2..a])
    requires AllRoot(s[a..b]) && s[b] == '.'
    ensures MatchRoot(s, a) == MatchPath(s, a, b)
  {
    RootRun(s, a, b);
    SpanExact(s, a, b, IsRootChar);
  }

  lemma PathStep(s: string, a: nat, b: nat, c: nat)
    requires 2 <= a < b && b + 1 < c < |s| && s[0] == '{' && s[1] == '{' && AllWs(s[2..a])
    requires AllRoot(s[a..b]) && s[b] == '.' && AllPath(s[b + 1..c]) && !IsPathChar(s[c])
    ensures MatchPath(s, a, b) == MatchClose(s, a, b, c)
  {
    PathRun(s, b + 1, c);
    SpanExact(s, b + 1, c, IsPathChar);
  }

  lemma CloseStep(s: string, a: nat, b: nat, c: nat, n: nat)
    requires 2 <= a < b && b + 1 < c && c + 2 <= n <= |s| && s[0] == '{' && s[1] == '{' && AllWs(s[2..a])
    requires AllRoot(s[a..b]) && s[b] == '.' && AllPath(s[b + 1..c])
    requires AllWs(s[c..n - 2]) && s[n - 2] == '}' && s[n - 1] == '}'
    ensures MatchClose(s, a, b, c) == Some(Token(s[a..b], s[b + 1..c], n))
  {
    WsRun(s, c, n - 2);
    SpanExact(s, c, n - 2, IsWs);
  }

  lemma WsRun(s: string, i: nat, j: nat)
    requires i <= j <= |s| && AllWs(s[i..j])
    ensures forall k :: i <= k < j ==> IsWs(s[k])
  {
    forall k | i <= k < j ensures IsWs(s[k]) { assert s[i..j][k - i] == s[k]; }
  }

  lemma RootRun(s: string, i: nat, j: nat)
    requires i <= j <= |s| && AllRoot(s[i..j])
    ensures forall k :: i <= k < j ==> IsRootChar(s[k])
  {
    forall k | i <= k < j ensures IsRootChar(s[k]) { assert s[i..j][k - i] == s[k]; }
  }

  lemma PathRun(s: string, i: nat, j: nat)
    requires i <= j <= |s| && AllPath(s[i..j])
    ensures forall k :: i <= k < j ==> IsPathChar(s[k])
  {
    forall k | i <= k < j ensures IsPathChar(s[k]) { assert s[i..j][k - i] == s[k]; }
  }

  // ---------------------------------------------------------------------------
  // Scanning

  /** Either an untouched character or a placeholder with the text it matched. */
  datatype Piece = Lit(c: char) | Tok(root: string, path: string, text: string)

  function PieceText(p: Piece): string
  {
    match p
    case Lit(c) => [c]
    case Tok(_, _, text) => text
  }

  /** The left-to-right scan of a global replace. */
  function Tokenize(s: string): (r: seq<Piece>)
    decreases |s|
  {
    if s == [] then []
    else match MatchToken(s)
      case Some(t) => [Tok(t.root, t.path, s[..t.length])] + Tokenize(s[t.length..])
      case None => [Lit(s[0])] + Tokenize(s[1..])
  }

  function Concat(pieces: seq<Piece>): string
    decreases |pieces|
  {
    if pieces == [] then "" else PieceText(pieces[0]) + Concat(pieces[1..])
  }

  /** Each piece replaced: a character by itself, a placeholder by `f(root, path)`. */
  function Substitute(pieces: seq<Piece>, f: (string, string) -> string): string
    decreases |pieces|
  {
    if pieces == [] then ""
    else
      (match pieces[0]
       case Lit(c) => [c]
       case Tok(root, path, _) => f(root, path)) + Substitute(pieces[1..], f)
  }

  // ---------------------------------------------------------------------------
  // Properties of the scan

  /** The pieces partition the input: their texts put back together give it back. */
  lemma {:induction false} TokenizeCovers(s: string)
    ensures Concat(Tokenize(s)) == s
    decreases |s|
  {
    if s != [] {
      var m := MatchToken(s);
      if m.Some? {
        var n := m.value.length;
        TokenizeCovers(s[n..]);
        TokenizeFront(s, m.value);
        ConcatFront(Tokenize(s), Tok(m.value.root, m.value.path, s[..n]), Tokenize(s[n..]), s, n);
      } else {
        TokenizeCovers(s[1..]);
        ConcatFront(Tokenize(s), Lit(s[0]), Tokenize(s[1..]), s, 1);
      }
    }
  }

  lemma TokenizeFront(s: string, t: Token)
    requires MatchToken(s) == Some(t)
    ensures Tokenize(s) == [Tok(t.root, t.path, s[..t.length])] + Tokenize(s[t.length..])
  {
  }

  /** A first piece covering `s[..n]` and a rest covering `s[n..]` cover `s`. */
  lemma ConcatFront(pieces: seq<Piece>, p: Piece, rest: seq<Piece>, s: string, n: nat)
    requires n <= |s| && pieces == [p] + rest
    requires PieceText(p) == s[..n] && Concat(rest) == s[n..]
    ensures Concat(pieces) == s
  {
    assert pieces[1..] == rest;
    assert s[..n] + s[n..] == s;
  }

  function Lits(s: string): (r: seq<Piece>)
    ensures |r| == |s|
    ensures forall k :: 0 <= k < |s| ==> r[k] == Lit(s[k])
  {
    seq(|s|, k requires 0 <= k < |s| => Lit(s[k]))
  }

  /** Text before the first "{" passes through the scan character by character. */
  lemma {:induction false} LiteralPrefix(a: string, b: string)
    requires forall k :: 0 <= k < |a| ==> a[k] != '{'
    ensures Tokenize(a + b) == Lits(a) + Tokenize(b)
    decreases |a|
  {
    if a != [] {
      var s := a + b;
      assert s[0] == a[0];
      assert s[1..] == a[1..] + b;
      UnmatchedBrace(s);
      LiteralPrefix(a[1..], b);
      LitsCons(a);
    } else {
      assert a + b == b;
    }
  }

  lemma LitsCons(a: string)
    requires a != []
    ensures Lits(a) == [Lit(a[0])] + Lits(a[1..])
  {
  }

  /** A string without "{" has no placeholder, so any substitution leaves it unchanged. */
  lemma NoBraceUnchanged(s: string, f: (string, string) -> string)
    requires forall k :: 0 <= k < |s| ==> s[k] != '{'
    ensures Tokenize(s) == Lits(s)
    ensures Substitute(Tokenize(s), f) == s
  {
    LiteralPrefix(s, "");
    assert s + "" == s;
    SubstituteLits(s, f);
  }

  /** No placeholder starts anywhere in `s`: the pattern matches at no position. */
  predicate NoToken(s: string)
  {
    forall i :: 0 <= i < |s| ==> MatchToken(s[i..]).None?
  }

  /** A string without "{" holds no placeholder. */
  lemma BraceFreeNoToken(s: string)
    requires forall k :: 0 <= k < |s| ==> s[k] != '{'
    ensures NoToken(s)
  {
    forall i | 0 <= i < |s|
      ensures MatchToken(s[i..]).None?
    {
      assert s[i..][0] == s[i];
    }
  }

  /**
   * A string in which the pattern matches nowhere is scanned as plain
   * characters, so any substitution leaves it unchanged, braces and all.
   */
  lemma {:induction false} NoTokenUnchanged(s: string, f: (string, string) -> string)
    requires NoToken(s)
    ensures Tokenize(s) == Lits(s)
    ensures Substitute(Tokenize(s), f) == s
    decreases |s|
  {
    if s != [] {
      assert s[0..] == s;
      UnmatchedBrace(s);
      assert NoToken(s[1..]) by {
        forall i | 0 <= i < |s[1..]|
          ensures MatchToken(s[1..][i..]).None?
        {
          assert s[1..][i..] == s[i + 1..];
        }
      }
      NoTokenUnchanged(s[1..], f);
      LitsCons(s);
    }
    SubstituteLits(s, f);
  }

  /** The same fact as an implication, for contracts that hold of every input. */
  lemma NoBraceFixed(s: string, f: (string, string) -> string)
    ensures (forall k :: 0 <= k < |s| ==> s[k] != '{') ==> Substitute(Tokenize(s), f) == s
  {
    if forall k :: 0 <= k < |s| ==> s[k] != '{' {
      NoBraceUnchanged(s, f);
    }
  }

  lemma {:induction false} SubstituteLits(s: string, f: (string, string) -> string)
    ensures Substitute(Lits(s), f) == s
    decreases |s|
  {
    if s != [] {
      assert Lits(s)[1..] == Lits(s[1..]);
      SubstituteLits(s[1..], f);
      assert [s[0]] + s[1..] == s;
    }
  }

  /** Substitution distributes over the pieces. */
  lemma {:induction false} SubstituteAppend(p: seq<Piece>, q: seq<Piece>, f: (string, string) -> string)
    ensures Substitute(p + q, f) == Substitute(p, f) + Substitute(q, f)
    decreases |p|
  {
    if p == [] {
      assert p + q == q;
    } else {
      assert (p + q)[1..] == p[1..] + q;
      SubstituteAppend(p[1..], q, f);
    }
  }

  /** The text of one placeholder, with the white space it allows inside the braces. */
  function TokenText(w1: string, root: string, path: string, w2: string): string
  {
    "{{" + w1 + root + "." + path + w2 + "}}"
  }

  /**
   * A placeholder at the start is replaced as a whole and the scan resumes
   * right after it; the replacement text is not scanned again.
   */
  lemma TokenThenRest(w1: string, root: string, path: string, w2: string, rest: string, f: (string, string) -> string)
    requires AllWs(w1) && AllWs(w2)
    requires |root| >= 1 && AllRoot(root)
    requires |path| >= 1 && AllPath(path)
    ensures Tokenize(TokenText(w1, root, path, w2) + rest) ==
            [Tok(root, path, TokenText(w1, root, path, w2))] + Tokenize(rest)
    ensures Substitute(Tokenize(TokenText(w1, root, path, w2) + rest), f) == f(root, path) + Substitute(Tokenize(rest), f)
  {
    var t := TokenText(w1, root, path, w2);
    var s := t + rest;
    var n := |t|;
    var a := 2 + |w1|;
    var b := a + |root|;
    var c := b + 1 + |path|;
    assert s[..n] == t;
    assert s[2..a] == w1;
    assert s[a..b] == root;
    assert s[b] == '.';
    assert s[b + 1..c] == path;
    assert s[c..n - 2] == w2;
    assert TokenAt(s, n, a, root, path);
    MatchTokenComplete(s, n, a, root, path);
    assert s[n..] == rest;
    var toks := Tokenize(s);
    assert toks == [Tok(root, path, t)] + Tokenize(rest);
    assert toks[1..] == Tokenize(rest);
  }

  /** A "{" that does not open a placeholder stays as a character. */
  lemma UnmatchedBrace(s: string)
    requires |s| >= 1 && MatchToken(s).None?
    ensures Tokenize(s) == [Lit(s[0])] + Tokenize(s[1..])
  {
  }
}
