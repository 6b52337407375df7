/**
 * String helpers shared by the command-line parsers and the UI rules.
 * Strings are sequences of characters; whitespace is the ASCII set that
 * Rust's `char::is_whitespace`, JavaScript's `\s` and `trim` agree on.
 */
module Text {

  predicate IsSpace(c: char) {
    c == ' ' || c == '\t' || c == '\n' || c == '\r' || c == '\U{000B}' || c == '\U{000C}'
  }

  /** The characters a JavaScript regular expression's `.` does not match. */
  predicate IsLineTerminator(c: char) {
    c == '\n' || c == '\r' || c == '\U{2028}' || c == '\U{2029}'
  }

  /** The characters of the regular-expression class `\w`. */
  predicate IsWordChar(c: char) {
    ('a' <= c <= 'z') || ('A' <= c <= 'Z') || ('0' <= c <= '9') || c == '_'
  }

  predicate StartsWith(s: string, p: string) {
    |p| <= |s| && s[..|p|] == p
  }

  predicate EndsWith(s: string, p: string) {
    |p| <= |s| && s[|s| - |p|..] == p
  }

  /** `s.includes(p)` / `s.contains(p)`: p occurs somewhere in s. */
  predicate Contains(s: string, p: string)
    decreases |s|
  {
    StartsWith(s, p) || (s != [] && Contains(s[1..], p))
  }

  lemma {:induction false} ContainsAt(s: string, p: string, i: nat)
    requires i + |p| <= |s| && s[i..i + |p|] == p
    ensures Contains(s, p)
    decreases i
  {
    if i == 0 {
      assert s[..|p|] == s[0..|p|];
    } else {
      assert s[1..][i - 1..i - 1 + |p|] == s[i..i + |p|];
      ContainsAt(s[1..], p, i - 1);
    }
  }

  /** An occurrence of p also holds an occurrence of every prefix of p. */
  lemma {:induction false} ContainsPrefix(s: string, p: string, q: string)
    requires Contains(s, p) && StartsWith(p, q)
    ensures Contains(s, q)
    decreases |s|
  {
    if StartsWith(s, p) {
      assert s[..|q|] == s[..|p|][..|q|];
    } else {
      ContainsPrefix(s[1..], p, q);
    }
  }

  /** An occurrence in a part is an occurrence in the whole. */
  lemma {:induction false} ContainsInSuffix(a: string, b: string, p: string)
    requires Contains(b, p)
    ensures Contains(a + b, p)
    decreases |a|
  {
    if a != [] {
      assert (a + b)[1..] == a[1..] + b;
      ContainsInSuffix(a[1..], b, p);
    } else {
      assert a + b == b;
    }
  }

  /** Every character of an occurring pattern occurs in the text. */
  lemma {:induction false} ContainsChar(s: string, p: string, i: nat)
    requires Contains(s, p) && i < |p|
    ensures p[i] in s
    decreases |s|
  {
    if StartsWith(s, p) {
      assert s[i] == p[i];
    } else {
      ContainsChar(s[1..], p, i);
    }
  }

  lemma NotContainsMissingChar(s: string, p: string, i: nat)
    requires i < |p| && p[i] !in s
    ensures !Contains(s, p)
  {
    if Contains(s, p) {
      ContainsChar(s, p, i);
    }
  }

  lemma {:induction false} NotContainsShorter(s: string, p: string)
    requires |s| < |p|
    ensures !Contains(s, p)
    decreases |s|
  {
    if s != [] { NotContainsShorter(s[1..], p); }
  }

  function TrimStart(s: string): (r: string)
    ensures |r| <= |s| && r == s[|s| - |r|..]
    ensures r != [] ==> !IsSpace(r[0])
    decreases |s|
  {
    if s != [] && IsSpace(s[0]) then TrimStart(s[1..]) else s
  }

  function TrimEnd(s: string): (r: string)
    ensures |r| <= |s| && r == s[..|r|]
    ensures r != [] ==> !IsSpace(r[|r| - 1])
    decreases |s|
  {
    if s != [] && IsSpace(s[|s| - 1]) then TrimEnd(s[..|s| - 1]) else s
  }

  /** `trim()`: whitespace removed from both ends. */
  function Trim(s: string): (r: string)
    ensures |r| <= |s|
    ensures r != [] ==> !IsSpace(r[0]) && !IsSpace(r[|r| - 1])
    ensures forall c :: c in r ==> c in s
  {
    var t := TrimStart(s);
    var r := TrimEnd(t);
    assert r != [] ==> r[0] == t[0];
    assert forall c :: c in r ==> c in t;
    r
  }

  /**
   * `s.split(sep)` in both languages: the pieces between separators, so a
   * string with n separators gives n + 1 pieces.
   */
  function SplitOn(s: string, sep: char): (r: seq<string>)
    ensures |r| >= 1
    ensures forall k :: 0 <= k < |r| ==> sep !in r[k]
    decreases |s|
  {
    if s == [] then [""]
    else
      var rest := SplitOn(s[1..], sep);
      if s[0] == sep then [""] + rest
      else [[s[0]] + rest[0]] + rest[1..]
  }

  /** Text before the first `sep`, i.e. `s.split(sep)[0]`. */
  function Before(s: string, sep: char): (r: string)
    ensures sep !in r && StartsWith(s, r)
    ensures |r| < |s| ==> s[|r|] == sep
    decreases |s|
  {
    if s == [] || s[0] == sep then "" else [s[0]] + Before(s[1..], sep)
  }

  /** The text before the first separator of `x + [sep] + y` is x when x holds no separator. */
  lemma {:induction false} BeforeConcat(x: string, sep: char, y: string)
    requires sep !in x
    ensures Before(x + [sep] + y, sep) == x
    decreases |x|
  {
    if x != [] {
      assert (x + [sep] + y)[1..] == x[1..] + [sep] + y;
      BeforeConcat(x[1..], sep, y);
    }
  }

  /** Splitting `x + [sep] + y` at its first separator gives x and y back. */
  lemma SplitFirstUnique(x: string, y: string, x': string, y': string, sep: char)
    requires sep !in x && sep !in x'
    requires x + [sep] + y == x' + [sep] + y'
    ensures x == x' && y == y'
  {
    BeforeConcat(x, sep, y);
    BeforeConcat(x', sep, y');
    assert y == (x + [sep] + y)[|x| + 1..];
    assert y' == (x' + [sep] + y')[|x'| + 1..];
  }

  lemma {:induction false} BeforeIsFirstPiece(s: string, sep: char)
    ensures SplitOn(s, sep)[0] == Before(s, sep)
    decreases |s|
  {
    if s != [] && s[0] != sep { BeforeIsFirstPiece(s[1..], sep); }
  }

  /**
   * Rust's `str::lines`: split at '\n', drop one '\r' before each '\n',
   * and no final empty line after a trailing '\n'.
   */
  function Lines(s: string): seq<string> {
    var pieces := SplitOn(s, '\n');
    var last := pieces[|pieces| - 1];
    var body := StripAll(pieces[..|pieces| - 1]);
    if last == "" then body else body + [last]
  }

  /** Every piece that a '\n' ended, with its '\r' dropped. */
  function StripAll(pieces: seq<string>): (r: seq<string>)
    ensures |r| == |pieces|
  {
    if pieces == [] then [] else [StripCR(pieces[0])] + StripAll(pieces[1..])
  }

  /** A line ending in '\n' followed by more text splits into that line and the lines of the rest. */
  lemma {:induction false} SplitOnCons(h: string, sep: char, rest: string)
    requires sep !in h
    ensures SplitOn(h + [sep] + rest, sep) == [h] + SplitOn(rest, sep)
    decreases |h|
  {
    if h == [] {
      assert h + [sep] + rest == [sep] + rest;
    } else {
      assert (h + [sep] + rest)[1..] == h[1..] + [sep] + rest;
      SplitOnCons(h[1..], sep, rest);
      assert [h[0]] + h[1..] == h;
    }
  }

  lemma LinesCons(h: string, rest: string)
    requires '\n' !in h
    ensures Lines(h + "\n" + rest) == [StripCR(h)] + Lines(rest)
  {
    SplitOnCons(h, '\n', rest);
    var P := SplitOn(rest, '\n');
    var pieces := [h] + P;
    assert SplitOn(h + "\n" + rest, '\n') == pieces;
    assert pieces[..|pieces| - 1] == [h] + P[..|P| - 1];
    assert pieces[|pieces| - 1] == P[|P| - 1];
    assert ([h] + P[..|P| - 1])[1..] == P[..|P| - 1];
  }

  function StripCR(s: string): string {
    if s != [] && s[|s| - 1] == '\r' then s[..|s| - 1] else s
  }

  /** Rust's `split_whitespace`: the maximal runs of non-whitespace. */
  function SplitWhitespace(s: string): (r: seq<string>)
    ensures forall k :: 0 <= k < |r| ==> r[k] != ""
    ensures forall k :: 0 <= k < |r| ==> NoSpace(r[k])
    decreases |s|
  {
    var t := TrimStart(s);
    if t == [] then []
    else
      var w := Word(t);
      assert w != [] && |w| <= |t| <= |s|;
      var rest := SplitWhitespace(t[|w|..]);
      WordsCons(w, rest);
      [w] + rest
  }

  /** A non-empty word in front of a sequence of words keeps every element a non-empty word. */
  lemma WordsCons(w: string, rest: seq<string>)
    requires w != "" && NoSpace(w)
    requires forall k :: 0 <= k < |rest| ==> rest[k] != "" && NoSpace(rest[k])
    ensures forall k :: 0 <= k < |[w] + rest| ==> ([w] + rest)[k] != "" && NoSpace(([w] + rest)[k])
  {
    forall k | 0 <= k < |[w] + rest|
      ensures ([w] + rest)[k] != "" && NoSpace(([w] + rest)[k])
    {
      if k > 0 { assert ([w] + rest)[k] == rest[k - 1]; }
    }
  }

  /** A word runs up to the first whitespace: a space-free w followed by nothing or by whitespace is read whole. */
  lemma {:induction false} WordWhole(w: string, x: string)
    requires NoSpace(w) && (x == [] || IsSpace(x[0]))
    ensures Word(w + x) == w
    decreases |w|
  {
    if w == [] {
      assert w + x == x;
    } else {
      assert (w + x)[1..] == w[1..] + x;
      WordWhole(w[1..], x);
      assert [w[0]] + w[1..] == w;
    }
  }

  /** A space-free string is at most one whitespace-separated word. */
  lemma WordsOfWord(w: string)
    requires NoSpace(w)
    ensures SplitWhitespace(w) == if w == "" then [] else [w]
  {
    if w != "" {
      assert TrimStart(w) == w;
      WordWhole(w, []);
      assert w + [] == w;
      assert w[|w|..] == [];
    }
  }

  /** Leading whitespace separates nothing. */
  lemma SpaceSkipped(s: string)
    requires s != [] && IsSpace(s[0])
    ensures SplitWhitespace(s) == SplitWhitespace(s[1..])
  {
    assert TrimStart(s) == TrimStart(s[1..]);
  }

  /** A non-empty space-free prefix followed by whitespace is the first word. */
  lemma WordBeforeSpace(w: string, s: string)
    requires w != "" && NoSpace(w) && s != [] && IsSpace(s[0])
    ensures SplitWhitespace(w + s) == [w] + SplitWhitespace(s)
  {
    var t := w + s;
    assert TrimStart(t) == t;
    WordWhole(w, s);
    assert t[|w|..] == s;
  }

  predicate NoSpace(w: string) {
    forall i :: 0 <= i < |w| ==> !IsSpace(w[i])
  }

  function Word(s: string): (r: string)
    ensures StartsWith(s, r)
    ensures NoSpace(r)
    ensures s != [] && !IsSpace(s[0]) ==> r != []
    decreases |s|
  {
    if s == [] || IsSpace(s[0]) then "" else [s[0]] + Word(s[1..])
  }

  function LowerChar(c: char): char {
    if 'A' <= c <= 'Z' then (c as int + 32) as char else c
  }

  /** `to_lowercase` / `toLowerCase` on the ASCII letters. */
  function ToLower(s: string): (r: string)
    ensures |r| == |s|
    ensures forall i :: 0 <= i < |s| ==> r[i] == LowerChar(s[i])
  {
    seq(|s|, i requires 0 <= i < |s| => LowerChar(s[i]))
  }

  function Digit(d: nat): char
    requires d < 10
  {
    "0123456789"[d]
  }

  /** Decimal rendering of a natural number, as `to_string` and template literals print it. */
  function NatToString(n: nat): (r: string)
    ensures r != []
    ensures forall i :: 0 <= i < |r| ==> '0' <= r[i] <= '9'
  {
    if n < 10 then [Digit(n)] else NatToString(n / 10) + [Digit(n % 10)]
  }

  /** Every occurrence of `from` replaced by `to`. */
  function ReplaceChar(s: string, from: char, to: char): (r: string)
    ensures |r| == |s|
    ensures forall i :: 0 <= i < |s| ==> r[i] == (if s[i] == from then to else s[i])
  {
    seq(|s|, i requires 0 <= i < |s| => if s[i] == from then to else s[i])
  }

  /** Number of occurrences of c in s. */
  function Count(s: string, c: char): nat
    decreases |s|
  {
    if s == [] then 0 else Count(s[..|s| - 1], c) + (if s[|s| - 1] == c then 1 else 0)
  }

  lemma {:induction false} CountAppend(a: string, b: string, c: char)
    ensures Count(a + b, c) == Count(a, c) + Count(b, c)
    decreases |b|
  {
    if b == [] {
      assert a + b == a;
    } else {
      assert (a + b)[..|a + b| - 1] == a + b[..|b| - 1];
      CountAppend(a, b[..|b| - 1], c);
    }
  }

  lemma {:induction false} CountAbsent(s: string, c: char)
    requires c !in s
    ensures Count(s, c) == 0
    decreases |s|
  {
    if s != [] { CountAbsent(s[..|s| - 1], c); }
  }
}
