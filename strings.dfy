/** The string primitives the browser code and the server code rely on: JavaScript's
    `trim`, `\s`, `split('\n')`, `startsWith`, `toUpperCase` followed by `charCodeAt(0)`,
    and Python's `strip`, `rsplit('.', 1)` and `lower`. Characters are Unicode scalar
    values; JavaScript's UTF-16 code units appear only where `charCodeAt` exposes them. */
module Strings {
  import opened Wrappers

  /** Whose idea of whitespace a trim uses. */
  datatype Runtime = JavaScript | Python

  /** ECMAScript WhiteSpace and LineTerminator: what `String.prototype.trim` removes and
      what the regular-expression class `\s` matches. */
  predicate IsJsSpace(c: char) {
    c == '\t' || c == '\n' || c == '\U{000B}' || c == '\U{000C}' || c == '\r' || c == ' '
    || c == '\U{00A0}' || c == '\U{1680}' || ('\U{2000}' <= c <= '\U{200A}')
    || c == '\U{2028}' || c == '\U{2029}' || c == '\U{202F}' || c == '\U{205F}'
    || c == '\U{3000}' || c == '\U{FEFF}'
  }

  /** Python's `str.isspace`, which decides what `str.strip()` removes. */
  predicate IsPySpace(c: char) {
    ('\t' <= c <= '\r') || ('\U{001C}' <= c <= '\U{001F}') || c == ' '
    || c == '\U{0085}' || c == '\U{00A0}' || c == '\U{1680}' || ('\U{2000}' <= c <= '\U{200A}')
    || c == '\U{2028}' || c == '\U{2029}' || c == '\U{202F}' || c == '\U{205F}' || c == '\U{3000}'
  }

  predicate IsSpace(rt: Runtime, c: char) {
    match rt
    case JavaScript => IsJsSpace(c)
    case Python => IsPySpace(c)
  }

  predicate AllSpace(rt: Runtime, s: string) {
    forall k :: 0 <= k < |s| ==> IsSpace(rt, s[k])
  }

  /** The suffix of `s` left after its leading whitespace. */
  function TrimStart(rt: Runtime, s: string): string {
    if s == [] || !IsSpace(rt, s[0]) then s else TrimStart(rt, s[1..])
  }

  /** The prefix of `s` left after its trailing whitespace. */
  function TrimEnd(rt: Runtime, s: string): string {
    if s == [] || !IsSpace(rt, s[|s| - 1]) then s else TrimEnd(rt, s[..|s| - 1])
  }

  /** JavaScript `s.trim()` or Python `s.strip()`. */
  function Trim(rt: Runtime, s: string): string {
    TrimEnd(rt, TrimStart(rt, s))
  }

  /** `TrimStart` removes exactly the leading whitespace. */
  lemma {:induction false} TrimStartSpec(rt: Runtime, s: string)
    ensures var r := TrimStart(rt, s);
      |r| <= |s| && r == s[|s| - |r|..] && AllSpace(rt, s[..|s| - |r|]) && (r != [] ==> !IsSpace(rt, r[0]))
  {
    if s != [] && IsSpace(rt, s[0]) {
      TrimStartSpec(rt, s[1..]);
      var r := TrimStart(rt, s);
      var n := |s| - |r|;
      assert s[1..][..n - 1] == s[1..n];
      forall k | 0 <= k < n ensures IsSpace(rt, s[..n][k]) {
        if k > 0 { assert s[..n][k] == s[1..][..n - 1][k - 1]; }
      }
    }
  }

  /** `TrimEnd` removes exactly the trailing whitespace. */
  lemma {:induction false} TrimEndSpec(rt: Runtime, s: string)
    ensures var r := TrimEnd(rt, s);
      |r| <= |s| && r == s[..|r|] && AllSpace(rt, s[|r|..]) && (r != [] ==> !IsSpace(rt, r[|r| - 1]))
  {
    if s != [] && IsSpace(rt, s[|s| - 1]) {
      var s' := s[..|s| - 1];
      TrimEndSpec(rt, s');
      var r := TrimEnd(rt, s);
      assert s'[..|r|] == s[..|r|];
      forall k | 0 <= k < |s| - |r| ensures IsSpace(rt, s[|r|..][k]) {
        if k < |s| - 1 - |r| { assert s[|r|..][k] == s'[|r|..][k]; }
      }
    }
  }

  /** The trimmed string is the infix of `s` that is left once all surrounding whitespace
      is gone: it neither starts nor ends with whitespace, it is empty exactly when `s` is
      all whitespace, and what was cut on either side is whitespace. */
  lemma TrimSpec(rt: Runtime, s: string)
    ensures var r := Trim(rt, s);
      && |r| <= |s|
      && (r == [] <==> AllSpace(rt, s))
      && (r != [] ==> !IsSpace(rt, r[0]) && !IsSpace(rt, r[|r| - 1]))
      && SurroundedBySpace(rt, s, r, |s| - |TrimStart(rt, s)|)
  {
    TrimEnds(rt, s);
    TrimInfix(rt, s);
  }

  /** The ends of the trimmed string, and when it is empty. */
  lemma TrimEnds(rt: Runtime, s: string)
    ensures var r := Trim(rt, s);
      && |r| <= |s|
      && (r == [] <==> AllSpace(rt, s))
      && (r != [] ==> !IsSpace(rt, r[0]) && !IsSpace(rt, r[|r| - 1]))
  {
    var t := TrimStart(rt, s);
    var r := TrimEnd(rt, t);
    TrimStartSpec(rt, s);
    TrimEndSpec(rt, t);
    var i := |s| - |t|;
    assert Trim(rt, s) == r;
    if r == [] {
      assert s[i..] == t;
      AllSpaceSplit(rt, s, i);
    } else {
      assert s[i..] == t;
      assert s[i] == r[0];
    }
  }

  /** What `Trim` cuts away on either side is whitespace. */
  lemma TrimInfix(rt: Runtime, s: string)
    ensures SurroundedBySpace(rt, s, Trim(rt, s), |s| - |TrimStart(rt, s)|)
  {
    var t := TrimStart(rt, s);
    var r := TrimEnd(rt, t);
    TrimStartSpec(rt, s);
    TrimEndSpec(rt, t);
    var i := |s| - |t|;
    assert s[i..] == t;
    assert s[i..i + |r|] == t[..|r|] == r;
    assert s[i + |r|..] == t[|r|..];
  }

  lemma AllSpaceSplit(rt: Runtime, s: string, i: nat)
    requires i <= |s|
    ensures AllSpace(rt, s) <==> AllSpace(rt, s[..i]) && AllSpace(rt, s[i..])
  {
    if AllSpace(rt, s[..i]) && AllSpace(rt, s[i..]) {
      forall k | 0 <= k < |s| ensures IsSpace(rt, s[k]) {
        if k < i { assert s[k] == s[..i][k]; } else { assert s[k] == s[i..][k - i]; }
      }
    }
  }

  /** Trimming twice is trimming once. */
  lemma TrimIdempotent(rt: Runtime, s: string)
    ensures Trim(rt, Trim(rt, s)) == Trim(rt, s)
  {
    var r := Trim(rt, s);
    TrimSpec(rt, s);
    if r != [] {
      assert TrimStart(rt, r) == r;
      assert TrimEnd(rt, r) == r;
    }
  }

  /** `r` stands in `s` at offset `i` with nothing but whitespace before and after it. */
  predicate SurroundedBySpace(rt: Runtime, s: string, r: string, i: int) {
    0 <= i && i + |r| <= |s| && s[i..i + |r|] == r && AllSpace(rt, s[..i]) && AllSpace(rt, s[i + |r|..])
  }

  /** `s.startsWith(p)` in JavaScript. */
  predicate StartsWith(s: string, p: string) {
    |p| <= |s| && s[..|p|] == p
  }

  // ---------------------------------------------------------------------------
  // split('\n')

  /** The pieces of `s` between line feeds, as `s.split('\n')` gives them. */
  function SplitLines(s: string): (r: seq<string>)
    ensures |r| >= 1
    ensures forall k :: 0 <= k < |r| ==> '\n' !in r[k]
    ensures JoinLines(r) == s
    decreases |s|
  {
    var i := FirstIndexOf(s, '\n');
    if i == |s| then [s]
    else
      var rest := SplitLines(s[i + 1..]);
      assert s == s[..i] + "\n" + s[i + 1..];
      [s[..i]] + rest
  }

  /** The inverse of `SplitLines`: the pieces glued back with line feeds. */
  function JoinLines(r: seq<string>): string
    requires |r| >= 1
  {
    if |r| == 1 then r[0] else r[0] + "\n" + JoinLines(r[1..])
  }

  /** Index of the first `c` in `s`, or `|s|` when there is none. */
  function FirstIndexOf(s: string, c: char): (i: nat)
    ensures i <= |s|
    ensures forall k :: 0 <= k < i ==> s[k] != c
    ensures i < |s| ==> s[i] == c
  {
    if s == [] then 0 else if s[0] == c then 0 else 1 + FirstIndexOf(s[1..], c)
  }

  /** Splitting is determined by the round trip: any list of line-feed-free pieces that
      joins back to `s` is exactly what `split('\n')` returns. */
  lemma {:induction false} SplitLinesUnique(s: string, r: seq<string>)
    requires |r| >= 1
    requires forall k :: 0 <= k < |r| ==> '\n' !in r[k]
    requires JoinLines(r) == s
    ensures SplitLines(s) == r
    decreases |r|
  {
    var i := FirstIndexOf(s, '\n');
    if |r| == 1 {
      assert '\n' !in s;
      assert i == |s|;
    } else {
      var tail := JoinLines(r[1..]);
      assert s == r[0] + "\n" + tail;
      assert s[|r[0]|] == '\n';
      forall k | 0 <= k < |r[0]| ensures s[k] != '\n' {
        assert s[k] == r[0][k];
      }
      assert i == |r[0]|;
      assert s[..i] == r[0];
      assert s[i + 1..] == tail;
      SplitLinesUnique(tail, r[1..]);
    }
  }

  /** Line-feed-free lines followed by an empty one split back to themselves. */
  lemma SplitJoinWithEmptyLast(r: seq<string>)
    requires forall k :: 0 <= k < |r| ==> '\n' !in r[k]
    ensures SplitLines(JoinLines(r + [""])) == r + [""]
  {
    var lines := r + [""];
    forall k | 0 <= k < |lines| ensures '\n' !in lines[k] {
      if k < |r| { assert lines[k] == r[k]; }
    }
    SplitLinesUnique(JoinLines(lines), lines);
  }

  // ---------------------------------------------------------------------------
  // rsplit('.', 1) and lower()

  /** `s.rsplit('.', 1)[1]` when `'.' in s`, and `None` when there is no dot (where the
      indexing would raise). */
  function AfterLastDot(s: string): (r: Option<string>)
    ensures r.None? <==> '.' !in s
    ensures r.Some? ==>
      |r.value| < |s| && s[|s| - |r.value| - 1] == '.' && s[|s| - |r.value|..] == r.value && '.' !in r.value
  {
    if s == [] then None
    else if s[|s| - 1] == '.' then Some([])
    else match AfterLastDot(s[..|s| - 1])
      case None => None
      case Some(ext) => Some(ext + [s[|s| - 1]])
  }

  /** Python `str.lower()` on the ASCII letters; other characters are kept. */
  function LowerAscii(s: string): (r: string)
    ensures |r| == |s|
    ensures forall k :: 0 <= k < |s| ==>
      r[k] == if 'A' <= s[k] <= 'Z' then (s[k] as int + 32) as char else s[k]
  {
    if s == [] then []
    else [if 'A' <= s[0] <= 'Z' then (s[0] as int + 32) as char else s[0]] + LowerAscii(s[1..])
  }

  // ---------------------------------------------------------------------------
  // toUpperCase() then charCodeAt(0)

  /** The first UTF-16 code unit of `c.toUpperCase()`. Covers ASCII, Latin-1 and the
      lowercase characters whose uppercase form begins with an ASCII letter; any other
      character keeps its own code unit (a supplementary character its high surrogate). */
  function UpperFirstCodeUnit(c: char): (u: int)
    ensures 0 <= u < 0x1_0000
    ensures 'a' <= c <= 'z' ==> u == c as int - 32
    ensures 'A' <= c <= 'Z' ==> u == c as int
  {
    var n := c as int;
    if 'a' <= c <= 'z' then n - 32
    else if c == '\U{00B5}' then 0x039C                                   // micro sign -> capital mu
    else if c == '\U{00DF}' then 'S' as int                               // sharp s -> "SS"
    else if '\U{00E0}' <= c <= '\U{00FE}' && c != '\U{00F7}' then n - 32
    else if c == '\U{00FF}' then 0x0178
    else if c == '\U{0131}' then 'I' as int                               // dotless i
    else if c == '\U{017F}' then 'S' as int                               // long s
    else if c == '\U{01F0}' then 'J' as int                               // j with caron -> "J" + caron
    else if c == '\U{1E96}' then 'H' as int
    else if c == '\U{1E97}' then 'T' as int
    else if c == '\U{1E98}' then 'W' as int
    else if c == '\U{1E99}' then 'Y' as int
    else if c == '\U{1E9A}' then 'A' as int                               // a with right half ring
    else if '\U{FB00}' <= c <= '\U{FB04}' then 'F' as int                 // ligatures ff, fi, fl, ffi, ffl
    else if c == '\U{FB05}' || c == '\U{FB06}' then 'S' as int            // ligatures long s t, st
    else if n >= 0x1_0000 then 0xD800 + (n - 0x1_0000) / 0x400           // high surrogate
    else n
  }
}
