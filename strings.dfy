/**
 * The parts of Go's `strings` and `bytes` packages that the core uses, on strings
 * held as sequences of runes (`seq<char>`).
 */
module Strings {

  /** Index of the first `c` in `s`, or `|s|` when `s` holds no `c`. */
  function IndexOf(s: string, c: char): (i: nat)
    ensures i <= |s|
  {
    if s == [] then 0
    else if s[0] == c then 0
    else 1 + IndexOf(s[1..], c)
  }

  /** The index is that of an occurrence of `c`, with none before it. */
  lemma {:induction false} IndexOfFirst(s: string, c: char)
    ensures IndexOf(s, c) < |s| <==> c in s
    ensures IndexOf(s, c) < |s| ==> s[IndexOf(s, c)] == c
    ensures c !in s[..IndexOf(s, c)]
  {
    if s != [] && s[0] != c {
      var j := IndexOf(s[1..], c);
      IndexOfFirst(s[1..], c);
      assert s[..j + 1] == [s[0]] + s[1..][..j];
    }
  }

  /** The pieces joined back together, with `sep` between neighbours. */
  function Join(parts: seq<string>, sep: char): string
    requires parts != []
  {
    if |parts| == 1 then parts[0] else parts[0] + [sep] + Join(parts[1..], sep)
  }

  /**
   * `strings.Split(s, sep)` for a one-character separator: the pieces between
   * successive occurrences of `sep`.
   */
  function Split(s: string, sep: char): (parts: seq<string>)
    ensures parts != []
    decreases |s|
  {
    var i := IndexOf(s, sep);
    if i == |s| then [s] else [s[..i]] + Split(s[i + 1..], sep)
  }

  /**
   * No piece holds the separator, the first piece is the text before the first
   * separator, and there is more than one piece exactly when `s` holds a separator.
   */
  lemma {:induction false} SplitPieces(s: string, sep: char)
    ensures forall k :: 0 <= k < |Split(s, sep)| ==> sep !in Split(s, sep)[k]
    ensures Split(s, sep)[0] == s[..IndexOf(s, sep)]
    ensures |Split(s, sep)| >= 2 <==> sep in s
    decreases |s|
  {
    var i := IndexOf(s, sep);
    IndexOfFirst(s, sep);
    if i < |s| {
      SplitPieces(s[i + 1..], sep);
      assert Split(s, sep) == [s[..i]] + Split(s[i + 1..], sep);
    } else {
      assert s[..i] == s;
    }
  }

  /** Joining the pieces with the separator gives back the string. */
  lemma {:induction false} SplitJoin(s: string, sep: char)
    ensures Join(Split(s, sep), sep) == s
    decreases |s|
  {
    var i := IndexOf(s, sep);
    IndexOfFirst(s, sep);
    if i < |s| {
      var rest := Split(s[i + 1..], sep);
      SplitJoin(s[i + 1..], sep);
      assert Split(s, sep)[1..] == rest;
      assert s == s[..i] + [sep] + s[i + 1..];
    } else {
      assert s[..i] == s;
    }
  }

  /** Splitting at the first separator: the text before it is the first piece. */
  lemma SplitAt(a: string, sep: char, b: string)
    requires sep !in a
    ensures Split(a + [sep] + b, sep) == [a] + Split(b, sep)
  {
    var s := a + [sep] + b;
    var i := IndexOf(s, sep);
    IndexOfFirst(s, sep);
    assert s[|a|] == sep;
    assert forall k :: 0 <= k < |a| ==> s[k] == a[k];
    assert i == |a|;
    assert s[..i] == a;
    assert s[i + 1..] == b;
  }

  /** A string without separators is a single piece. */
  lemma SplitNone(a: string, sep: char)
    requires sep !in a
    ensures Split(a, sep) == [a]
  {
    IndexOfFirst(a, sep);
    assert a[..IndexOf(a, sep)] == a;
  }

  /** Drops the leading characters that satisfy `f`. */
  function TrimLeft(s: string, f: char -> bool): (r: string)
    ensures |r| <= |s| && r == s[|s| - |r|..]
    ensures forall k :: 0 <= k < |s| - |r| ==> f(s[k])
    ensures r != [] ==> !f(r[0])
  {
    if s != [] && f(s[0]) then TrimLeft(s[1..], f) else s
  }

  /** Drops the trailing characters that satisfy `f`. */
  function TrimRight(s: string, f: char -> bool): (r: string)
    ensures |r| <= |s| && r == s[..|r|]
    ensures forall k :: |r| <= k < |s| ==> f(s[k])
    ensures r != [] ==> !f(r[|r| - 1])
  {
    if s != [] && f(s[|s| - 1]) then TrimRight(s[..|s| - 1], f) else s
  }

  /**
   * `strings.TrimFunc` / `bytes.Trim`: the longest middle slice of `s` that neither
   * starts nor ends with a character satisfying `f`.
   */
  function Trim(s: string, f: char -> bool): (r: string)
    ensures |r| <= |s|
    ensures r != [] ==> !f(r[0]) && !f(r[|r| - 1])
    ensures (forall k :: 0 <= k < |s| ==> f(s[k])) ==> r == []
    ensures (forall k :: 0 <= k < |s| ==> !f(s[k])) ==> r == s
  {
    var l := TrimLeft(s, f);
    var r := TrimRight(l, f);
    assert r != [] ==> r[0] == l[0];
    r
  }

  /** A token without spaces, followed by nothing or by a space, is the first piece of the split. */
  lemma FirstToken(token: string, rest: string)
    requires ' ' !in token
    requires rest == [] || rest[0] == ' '
    ensures Split(token + rest, ' ')[0] == token
  {
    if rest == [] {
      assert token + rest == token;
      SplitNone(token, ' ');
    } else {
      assert token + rest == token + [' '] + rest[1..];
      SplitAt(token, ' ', rest[1..]);
    }
  }

  /** A run of `f`s in front of a character that is not one is exactly what is trimmed. */
  lemma TrimLeftRun(x: string, n: nat, f: char -> bool)
    requires n < |x| && !f(x[n])
    requires forall k :: 0 <= k < n ==> f(x[k])
    ensures TrimLeft(x, f) == x[n..]
  {
  }

  /** Trimming from the right keeps a leading stretch whose last character is not an `f`. */
  lemma TrimRightKeeps(y: string, m: nat, f: char -> bool)
    requires 0 < m <= |y| && !f(y[m - 1])
    ensures m <= |TrimRight(y, f)| && TrimRight(y, f) == y[..m] + y[m..|TrimRight(y, f)|]
  {
    var r := TrimRight(y, f);
    assert r == y[..m] + y[m..|r|];
  }

  /**
   * When `x` is a run of spaces, a word without spaces from `n` to `m`, and then
   * nothing or a space, the first space-separated piece of the trimmed `x` is that word.
   */
  lemma FirstWord(x: string, n: nat, m: nat)
    requires n < m <= |x|
    requires forall k :: 0 <= k < n ==> IsSpace(x[k])
    requires forall k :: n <= k < m ==> !IsSpace(x[k])
    requires m == |x| || x[m] == ' '
    ensures Split(TrimSpace(x), ' ')[0] == x[n..m]
  {
    TrimSpaceFrom(x, n);
    NoBlank(x, n, m);
    FirstWordRight(x, n, m);
  }

  lemma TrimSpaceFrom(x: string, n: nat)
    requires n < |x| && !IsSpace(x[n])
    requires forall k :: 0 <= k < n ==> IsSpace(x[k])
    ensures TrimSpace(x) == TrimRight(x[n..], IsSpace)
  {
    TrimLeftRun(x, n, IsSpace);
  }

  /** Trimming the right end of a space-free word and a space-led tail keeps the word first. */
  lemma FirstWordRight(x: string, n: nat, m: nat)
    requires n < m <= |x| && !IsSpace(x[m - 1]) && ' ' !in x[n..m]
    requires m == |x| || x[m] == ' '
    ensures Split(TrimRight(x[n..], IsSpace), ' ')[0] == x[n..m]
  {
    var y := x[n..];
    assert y[m - n - 1] == x[m - 1];
    TrimRightKeeps(y, m - n, IsSpace);
    var r := TrimRight(y, IsSpace);
    assert y[..m - n] == x[n..m];
    assert y[m - n..|r|] == [] || y[m - n..|r|][0] == x[m];
    FirstToken(x[n..m], y[m - n..|r|]);
  }

  /** A stretch of characters that are not spaces holds no ` `. */
  lemma NoBlank(x: string, n: nat, m: nat)
    requires n <= m <= |x|
    requires forall k :: n <= k < m ==> !IsSpace(x[k])
    ensures ' ' !in x[n..m]
  {
    assert forall k :: 0 <= k < m - n ==> x[n..m][k] == x[n + k];
  }

  /** Where the trimmed slice starts: the number of leading characters dropped. */
  function TrimStart(s: string, f: char -> bool): (i: nat)
    ensures i <= |s|
  {
    |s| - |TrimLeft(s, f)|
  }

  /** The trimmed text is the slice of `s` between a run of `f`s at each end. */
  lemma TrimIsSlice(s: string, f: char -> bool)
    ensures TrimStart(s, f) + |Trim(s, f)| <= |s|
    ensures Trim(s, f) == s[TrimStart(s, f)..TrimStart(s, f) + |Trim(s, f)|]
    ensures forall k :: 0 <= k < TrimStart(s, f) ==> f(s[k])
    ensures forall k :: TrimStart(s, f) + |Trim(s, f)| <= k < |s| ==> f(s[k])
  {
    var l := TrimLeft(s, f);
    assert Trim(s, f) == TrimRight(l, f);
    SliceOfSuffix(s, |s| - |l|, TrimRight(l, f), f);
  }

  /** A prefix `r` of the suffix `s[i..]`, followed only by `f`s there, is a slice of `s`. */
  lemma SliceOfSuffix(s: string, i: nat, r: string, f: char -> bool)
    requires i <= |s| && |r| <= |s| - i && r == s[i..][..|r|]
    requires forall k :: |r| <= k < |s[i..]| ==> f(s[i..][k])
    ensures r == s[i..i + |r|]
    ensures forall k :: i + |r| <= k < |s| ==> f(s[k])
  {
    forall k | i + |r| <= k < |s| ensures f(s[k]) {
      assert s[k] == s[i..][k - i];
    }
  }

  /** Go's `unicode.IsSpace`, which `strings.TrimSpace` trims. */
  predicate IsSpace(c: char)
  {
    || c == ' ' || '\t' <= c <= '\r' || c == '\U{85}' || c == '\U{A0}'
    || c == '\U{1680}' || '\U{2000}' <= c <= '\U{200A}' || c == '\U{2028}'
    || c == '\U{2029}' || c == '\U{202F}' || c == '\U{205F}' || c == '\U{3000}'
  }

  /** `strings.TrimSpace`. */
  function TrimSpace(s: string): (r: string)
    ensures r != [] ==> !IsSpace(r[0]) && !IsSpace(r[|r| - 1])
  {
    Trim(s, IsSpace)
  }

  predicate IsUpper(c: char)
  {
    'A' <= c <= 'Z'
  }

  function LowerChar(c: char): (d: char)
    ensures !IsUpper(d)
    ensures !IsUpper(c) ==> d == c
  {
    if IsUpper(c) then (c as int + 32) as char else c
  }

  /** `strings.ToLower`, restricted to the ASCII letters. */
  function Lower(s: string): (r: string)
    ensures |r| == |s|
  {
    if s == [] then [] else [LowerChar(s[0])] + Lower(s[1..])
  }

  /** Each character is lower-cased on its own; none is upper-case afterwards. */
  lemma {:induction false} LowerAt(s: string)
    ensures forall k :: 0 <= k < |s| ==> Lower(s)[k] == LowerChar(s[k]) && !IsUpper(Lower(s)[k])
  {
    if s != [] {
      LowerAt(s[1..]);
    }
  }

  /** Lower-casing twice is lower-casing once. */
  lemma LowerIdempotent(s: string)
    ensures Lower(Lower(s)) == Lower(s)
  {
    var l := Lower(s);
    LowerAt(s);
    LowerAt(l);
    assert forall k :: 0 <= k < |s| ==> Lower(l)[k] == l[k];
  }

  /** Number of bytes of the UTF-8 encoding of a rune. */
  function Utf8Width(c: char): (n: nat)
    ensures 1 <= n <= 4
    ensures n == 1 <==> c as int < 0x80
  {
    if c as int < 0x80 then 1
    else if c as int < 0x800 then 2
    else if c as int < 0x10000 then 3
    else 4
  }

  /** `len(s)` of a Go string: the byte length of its UTF-8 encoding. */
  function Utf8Len(s: string): (n: nat)
    ensures n >= |s|
    ensures (forall k :: 0 <= k < |s| ==> s[k] as int < 0x80) ==> n == |s|
  {
    if s == [] then 0 else Utf8Width(s[0]) + Utf8Len(s[1..])
  }
}
