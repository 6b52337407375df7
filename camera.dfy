/**
 * Reading the camera list out of `scrcpy --list-cameras`. The hook splits
 * the output at '\n', trims each line and tries two line forms:
 *
 *   scrcpy 3.x   `--camera-id=<id> (<details>)` anywhere in the line, named
 *                `<id>: <details>`;
 *   older        `[- ][<id>] (<resolution>) <metadata>` at the start of the
 *                line, named `<id>: <metadata or "Camera"> (<resolution>)`.
 *
 * The regular expressions are written out by hand: `\w` is a word
 * character, `\s` whitespace, `.` anything but a line terminator, and the
 * lazy `(.*?)\)` stops at the first ')'.
 */
module Cameras {
  import opened Wrappers
  import opened Text

  datatype Camera = Camera(id: string, name: string)

  predicate AllWord(s: string) { forall i :: 0 <= i < |s| ==> IsWordChar(s[i]) }

  predicate AllSpace(s: string) { forall i :: 0 <= i < |s| ==> IsSpace(s[i]) }

  predicate NoLineEnd(s: string) { forall i :: 0 <= i < |s| ==> !IsLineTerminator(s[i]) }

  /** `\w+` taken greedily: the longest run of word characters at the front. */
  function WordRun(s: string): (r: string)
    ensures StartsWith(s, r)
    ensures AllWord(r)
    ensures |r| < |s| ==> !IsWordChar(s[|r|])
    decreases |s|
  {
    if s != [] && IsWordChar(s[0]) then [s[0]] + WordRun(s[1..]) else ""
  }

  /** `(.*?)\)`: the text before the first ')', and what follows it; none if a line ends first. */
  function UpToParen(s: string): (r: Option<(string, string)>)
    ensures r.Some? ==> ')' !in r.value.0 && s == r.value.0 + ")" + r.value.1
    ensures r.Some? ==> NoLineEnd(r.value.0)
    decreases |s|
  {
    if s == [] || IsLineTerminator(s[0]) then None
    else if s[0] == ')' then Some(("", s[1..]))
    else match UpToParen(s[1..])
      case Some((inside, rest)) => Some(([s[0]] + inside, rest))
      case None => None
  }

  /** `\s*\((.*?)\)`: optional spaces, then a parenthesised group. */
  function ParenGroup(s: string): Option<(string, string)> {
    var t := TrimStart(s);
    if t != [] && t[0] == '(' then UpToParen(t[1..]) else None
  }

  /** `.*`: the text up to the first line terminator. */
  function LineRest(s: string): (r: string)
    ensures StartsWith(s, r)
    ensures NoLineEnd(r)
    decreases |s|
  {
    if s == [] || IsLineTerminator(s[0]) then "" else [s[0]] + LineRest(s[1..])
  }

  const CameraIdFlag: string := "--camera-id="

  /** The scrcpy 3.x form tried at position `i`: the id and the details. */
  function MatchNewAt(s: string, i: nat): (r: Option<(string, string)>)
    requires i <= |s|
    ensures r.Some? ==> i + |CameraIdFlag| <= |s| && s[i + |CameraIdFlag| - 1] == '='
    ensures r.Some? ==> r.value.0 != [] && AllWord(r.value.0)
  {
    if StartsWith(s[i..], CameraIdFlag) then
      var after := s[i + |CameraIdFlag|..];
      var id := WordRun(after);
      if id == "" then None
      else match ParenGroup(after[|id|..])
        case Some((details, _)) => Some((id, details))
        case None => None
    else None
  }

  /** An unanchored search: the match at the leftmost position where one starts. */
  function MatchNewFrom(s: string, i: nat): (r: Option<(string, string)>)
    requires i <= |s|
    ensures r.Some? ==> r.value.0 != [] && AllWord(r.value.0)
    decreases |s| - i
  {
    match MatchNewAt(s, i)
    case Some(m) => Some(m)
    case None => if i == |s| then None else MatchNewFrom(s, i + 1)
  }

  function MatchNew(s: string): (r: Option<(string, string)>)
    ensures r.Some? ==> r.value.0 != [] && AllWord(r.value.0)
  {
    MatchNewFrom(s, 0)
  }

  /** The older form, anchored at the start: the id, the resolution and the metadata. */
  function MatchOld(s: string): (r: Option<(string, string, string)>)
    ensures r.Some? ==> r.value.0 != [] && AllWord(r.value.0)
  {
    MatchBracket(if s != [] && s[0] == '-' then TrimStart(s[1..]) else s)
  }

  /** `\[(\w+)\]` and what follows, after the optional dash. */
  function MatchBracket(t: string): (r: Option<(string, string, string)>)
    ensures r.Some? ==> r.value.0 != [] && AllWord(r.value.0)
  {
    if t != [] && t[0] == '[' then
      var id := WordRun(t[1..]);
      MatchAfterId(id, t[1 + |id|..])
    else None
  }

  /** `\]\s*\((.*?)\)\s*(.*)` after a non-empty id. */
  function MatchAfterId(id: string, after: string): (r: Option<(string, string, string)>)
    requires AllWord(id)
    ensures r.Some? ==> r.value.0 == id != []
  {
    if id != "" && after != [] && after[0] == ']' then
      match ParenGroup(after[1..])
      case Some((res, rest)) => Some((id, res, LineRest(TrimStart(rest))))
      case None => None
    else None
  }

  /** One line of the listing, trimmed first. */
  function ParseLine(line: string): (r: Option<Camera>)
    ensures r.Some? ==> r.value.id != [] && AllWord(r.value.id)
  {
    ParseTrimmed(Trim(line))
  }

  /** The new form first; the older form only when that fails. */
  function ParseTrimmed(t: string): (r: Option<Camera>)
    ensures r.Some? ==> r.value.id != [] && AllWord(r.value.id)
  {
    match MatchNew(t)
    case Some((id, details)) => Some(Camera(id, id + ": " + details))
    case None => OldCamera(MatchOld(t))
  }

  /** `<id>: <metadata or "Camera"> (<resolution>)`, the metadata trimmed. */
  function OldCamera(m: Option<(string, string, string)>): (r: Option<Camera>)
    requires m.Some? ==> m.value.0 != [] && AllWord(m.value.0)
    ensures r.Some? ==> r.value.id != [] && AllWord(r.value.id)
  {
    match m
    case Some((id, res, rest)) =>
      var meta := Trim(rest);
      Some(Camera(id, id + ": " + (if meta == "" then "Camera" else meta) + " (" + res + ")"))
    case None => None
  }

  /** What one line adds to the list. */
  function Found(p: Option<Camera>): seq<Camera> {
    match p
    case Some(c) => [c]
    case None => []
  }

  /** The cameras of a listing, in line order, one per recognised line. */
  function CamerasOf(lines: seq<string>): (r: seq<Camera>)
    ensures |r| <= |lines|
  {
    if lines == [] then []
    else CamerasOf(lines[..|lines| - 1]) + Found(ParseLine(lines[|lines| - 1]))
  }

  /** One more line adds what that line holds. */
  lemma CamerasOfSnoc(lines: seq<string>, i: nat)
    requires i < |lines|
    ensures CamerasOf(lines[..i + 1]) == CamerasOf(lines[..i]) + Found(ParseLine(lines[i]))
  {
    assert lines[..i + 1][..i] == lines[..i];
  }

  /** The `lines.forEach` loop over the output split at '\n'. */
  method ParseCameras(output: string) returns (cameras: seq<Camera>)
    ensures cameras == CamerasOf(SplitOn(output, '\n'))
  {
    var lines := SplitOn(output, '\n');
    cameras := [];
    var i := 0;
    while i < |lines|
      invariant 0 <= i <= |lines|
      invariant cameras == CamerasOf(lines[..i])
    {
      CamerasOfSnoc(lines, i);
      var parsed := ParseLine(lines[i]);
      if parsed.Some? {
        cameras := cameras + [parsed.value];
      }
      i := i + 1;
    }
    CamerasOfAll(lines);
  }

  /** Reading every line is reading the whole listing. */
  lemma CamerasOfAll(lines: seq<string>)
    ensures CamerasOf(lines[..|lines|]) == CamerasOf(lines)
  {
    assert lines[..|lines|] == lines;
  }

  // ---------------------------------------------------------------------
  // Properties
  // ---------------------------------------------------------------------

  /** The listing is read line by line: the cameras of two blocks of lines are those of each. */
  lemma {:induction false} CamerasOfAppend(a: seq<string>, b: seq<string>)
    ensures CamerasOf(a + b) == CamerasOf(a) + CamerasOf(b)
    decreases |b|
  {
    if b == [] {
      assert a + b == a;
    } else {
      var b' := b[..|b| - 1];
      assert (a + b)[..|a + b| - 1] == a + b';
      CamerasOfAppend(a, b');
    }
  }

  /** A line that matches neither form contributes nothing. */
  lemma SkippedLine(a: seq<string>, line: string, b: seq<string>)
    requires ParseLine(line).None?
    ensures CamerasOf(a + [line] + b) == CamerasOf(a + b)
  {
    NoCameraInLine(line);
    DropEmptyBlock(a, [line], b);
  }

  lemma NoCameraInLine(line: string)
    requires ParseLine(line).None?
    ensures CamerasOf([line]) == []
  {
    assert [line][..0] == [];
  }

  lemma DropEmptyBlock(a: seq<string>, m: seq<string>, b: seq<string>)
    requires CamerasOf(m) == []
    ensures CamerasOf(a + m + b) == CamerasOf(a + b)
  {
    CamerasOfAppend(a + m, b);
    CamerasOfAppend(a, m);
    CamerasOfAppend(a, b);
  }

  /** Every camera comes from a line of the listing. */
  lemma {:induction false} CamerasComeFromLines(lines: seq<string>, c: Camera)
    requires c in CamerasOf(lines)
    ensures exists k :: 0 <= k < |lines| && ParseLine(lines[k]) == Some(c)
  {
    var p := lines[..|lines| - 1];
    if c in CamerasOf(p) {
      CamerasComeFromLines(p, c);
      var k :| 0 <= k < |p| && ParseLine(p[k]) == Some(c);
      assert lines[k] == p[k];
    } else {
      assert ParseLine(lines[|lines| - 1]) == Some(c);
    }
  }

  /** A match of the new form holds an '='; a line without one can only be of the older form. */
  lemma {:induction false} MatchNewNeedsEquals(s: string, i: nat)
    requires i <= |s| && '=' !in s
    ensures MatchNewFrom(s, i).None?
    decreases |s| - i
  {
    if i < |s| {
      MatchNewNeedsEquals(s, i + 1);
    }
  }

  /** Leading spaces are what `TrimStart` removes. */
  lemma {:induction false} TrimStartSpaces(pad: string, x: string)
    requires AllSpace(pad)
    requires x != [] && !IsSpace(x[0])
    ensures TrimStart(pad + x) == x
    decreases |pad|
  {
    if pad != [] {
      assert (pad + x)[1..] == pad[1..] + x;
      TrimStartSpaces(pad[1..], x);
    } else {
      assert pad + x == x;
    }
  }

  /** A line indented by spaces and ending in a non-space trims to its text. */
  lemma TrimIndented(pad: string, x: string)
    requires AllSpace(pad)
    requires x != [] && !IsSpace(x[0]) && !IsSpace(x[|x| - 1])
    ensures Trim(pad + x) == x
  {
    TrimStartSpaces(pad, x);
  }

  /** `WordRun` reads back a word that a non-word character ends. */
  lemma {:induction false} WordRunOf(id: string, rest: string)
    requires AllWord(id)
    requires rest != [] && !IsWordChar(rest[0])
    ensures WordRun(id + rest) == id
    decreases |id|
  {
    if id != [] {
      assert (id + rest)[1..] == id[1..] + rest;
      WordRunOf(id[1..], rest);
    } else {
      assert id + rest == rest;
    }
  }

  /** `UpToParen` reads back a group without ')' or line terminator. */
  lemma {:induction false} UpToParenOf(inside: string, rest: string)
    requires ')' !in inside && NoLineEnd(inside)
    ensures UpToParen(inside + (")" + rest)) == Some((inside, rest))
    decreases |inside|
  {
    var s := inside + (")" + rest);
    if inside != [] {
      assert s[1..] == inside[1..] + (")" + rest);
      assert s[0] == inside[0] && inside[0] in inside && !IsLineTerminator(inside[0]);
      assert NoLineEnd(inside[1..]) by {
        forall i | 0 <= i < |inside| - 1 ensures !IsLineTerminator(inside[1..][i]) { assert inside[1..][i] == inside[i + 1]; }
      }
      UpToParenOf(inside[1..], rest);
      assert [s[0]] + inside[1..] == inside;
    } else {
      assert s == ")" + rest;
    }
  }

  /** `\s*\((.*?)\)` reads back spaces, then a parenthesised group. */
  lemma ParenGroupOf(gap: string, inside: string, rest: string)
    requires AllSpace(gap)
    requires ')' !in inside && NoLineEnd(inside)
    ensures ParenGroup(gap + ("(" + (inside + (")" + rest)))) == Some((inside, rest))
  {
    var x := "(" + (inside + (")" + rest));
    TrimStartSpaces(gap, x);
    assert x[1..] == inside + (")" + rest);
    UpToParenOf(inside, rest);
  }

  /** `<pad>--camera-id=<id><gap>(<details>)`: a line of the scrcpy 3.x listing. */
  function NewFormLine(pad: string, id: string, gap: string, details: string): string {
    pad + (CameraIdFlag + (id + (gap + ("(" + (details + ")")))))
  }

  /** A scrcpy 3.x line gives the camera `<id>` named `<id>: <details>`. */
  lemma NewFormRoundTrip(pad: string, id: string, gap: string, details: string)
    requires AllSpace(pad)
    requires AllSpace(gap)
    requires id != [] && AllWord(id)
    requires ')' !in details && NoLineEnd(details)
    ensures ParseLine(NewFormLine(pad, id, gap, details)) == Some(Camera(id, id + ": " + details))
  {
    var x := CameraIdFlag + (id + (gap + ("(" + (details + ")"))));
    assert Trim(NewFormLine(pad, id, gap, details)) == x by {
      assert x[0] == '-' && x[|x| - 1] == ')';
      TrimIndented(pad, x);
    }
    assert MatchNew(x) == Some((id, details)) by {
      NewFormMatch(id, gap, details, x);
    }
  }

  /** The new form read back from the trimmed line. */
  lemma NewFormMatch(id: string, gap: string, details: string, x: string)
    requires AllSpace(gap)
    requires id != [] && AllWord(id)
    requires ')' !in details && NoLineEnd(details)
    requires x == CameraIdFlag + (id + (gap + ("(" + (details + ")"))))
    ensures MatchNewAt(x, 0) == Some((id, details))
  {
    var y := gap + ("(" + (details + ")"));
    assert x[0..] == x;
    assert x[..|CameraIdFlag|] == CameraIdFlag;
    var after := x[|CameraIdFlag|..];
    assert WordRun(after) == id by {
      assert after == id + y;
      assert y[0] == (if gap == [] then '(' else gap[0]);
      WordRunOf(id, y);
    }
    assert ParenGroup(after[|id|..]) == Some((details, "")) by {
      assert after[|id|..] == y;
      assert ")" + "" == ")";
      ParenGroupOf(gap, details, "");
    }
  }

  /** `<pad>- [<id>] (<resolution>) <metadata>`: a line of the older listing. */
  function OldFormLine(pad: string, id: string, res: string, meta: string): string {
    pad + ("- [" + (id + ("] (" + (res + (")" + (if meta == "" then "" else " " + meta))))))
  }

  /**
   * An older line gives the camera `<id>` named `<id>: <metadata> (<resolution>)`,
   * with "Camera" when there is no metadata. The line holds no '=', so the
   * new form cannot match it.
   */
  lemma OldFormRoundTrip(pad: string, id: string, res: string, meta: string)
    requires AllSpace(pad)
    requires id != [] && AllWord(id)
    requires ')' !in res && NoLineEnd(res)
    requires NoLineEnd(meta)
    requires meta != [] ==> !IsSpace(meta[0]) && !IsSpace(meta[|meta| - 1])
    requires '=' !in res && '=' !in meta && '=' !in id
    ensures ParseLine(OldFormLine(pad, id, res, meta))
      == Some(Camera(id, id + ": " + (if meta == "" then "Camera" else meta) + " (" + res + ")"))
  {
    var tail := if meta == "" then "" else " " + meta;
    var x := "- [" + (id + ("] (" + (res + (")" + tail))));
    assert Trim(OldFormLine(pad, id, res, meta)) == x by {
      assert x[0] == '-';
      assert x[|x| - 1] == if meta == "" then ')' else meta[|meta| - 1];
      TrimIndented(pad, x);
    }
    OldFormParsed(id, res, meta, tail, x);
  }

  /** The trimmed older line parses to its camera. */
  lemma OldFormParsed(id: string, res: string, meta: string, tail: string, x: string)
    requires id != [] && AllWord(id)
    requires ')' !in res && NoLineEnd(res)
    requires NoLineEnd(meta)
    requires meta != [] ==> !IsSpace(meta[0]) && !IsSpace(meta[|meta| - 1])
    requires '=' !in res && '=' !in meta && '=' !in id
    requires tail == if meta == "" then "" else " " + meta
    requires x == "- [" + (id + ("] (" + (res + (")" + tail))))
    ensures ParseTrimmed(x) == Some(Camera(id, id + ": " + (if meta == "" then "Camera" else meta) + " (" + res + ")"))
  {
    OldFormNotNew(id, res, tail, x);
    OldFormMatch(id, res, tail, x);
    MetadataRead(meta, tail);
  }

  /** The older line has no '=', so the new form does not match it. */
  lemma OldFormNotNew(id: string, res: string, tail: string, x: string)
    requires '=' !in id && '=' !in res && '=' !in tail
    requires x == "- [" + (id + ("] (" + (res + (")" + tail))))
    ensures MatchNew(x).None?
  {
    EqualsFree(id, res, tail);
    MatchNewNeedsEquals(x, 0);
  }

  /** `(.*)` after the parenthesis, trimmed, gives the metadata back. */
  lemma MetadataRead(meta: string, tail: string)
    requires NoLineEnd(meta)
    requires meta != [] ==> !IsSpace(meta[0]) && !IsSpace(meta[|meta| - 1])
    requires tail == if meta == "" then "" else " " + meta
    ensures Trim(LineRest(TrimStart(tail))) == meta
  {
    if meta != [] {
      TrimStartSpaces(" ", meta);
      LineRestWhole(meta);
      TrimFixed(meta);
    }
  }

  /** The older line has no '=' when its pieces have none. */
  lemma EqualsFree(id: string, res: string, tail: string)
    requires '=' !in id && '=' !in res && '=' !in tail
    ensures '=' !in "- [" + (id + ("] (" + (res + (")" + tail))))
  {
    var c := ")" + tail;
    assert '=' !in c;
    var b := res + c;
    assert '=' !in b;
    var a := "] (" + b;
    assert '=' !in a;
  }

  /** The older form read back from the trimmed line. */
  lemma OldFormMatch(id: string, res: string, tail: string, x: string)
    requires id != [] && AllWord(id)
    requires ')' !in res && NoLineEnd(res)
    requires x == "- [" + (id + ("] (" + (res + (")" + tail))))
    ensures MatchOld(x) == Some((id, res, LineRest(TrimStart(tail))))
  {
    var u := "[" + (id + ("] (" + (res + (")" + tail))));
    assert x != [] && x[0] == '-';
    assert TrimStart(x[1..]) == u by {
      assert x[1..] == " " + u;
      TrimStartSpaces(" ", u);
    }
    BracketMatch(id, res, tail, u);
  }

  lemma BracketMatch(id: string, res: string, tail: string, u: string)
    requires id != [] && AllWord(id)
    requires ')' !in res && NoLineEnd(res)
    requires u == "[" + (id + ("] (" + (res + (")" + tail))))
    ensures MatchBracket(u) == Some((id, res, LineRest(TrimStart(tail))))
  {
    var v := "] (" + (res + (")" + tail));
    assert u != [] && u[0] == '[';
    assert WordRun(u[1..]) == id by {
      assert u[1..] == id + v;
      WordRunOf(id, v);
    }
    assert u[1 + |id|..] == v;
    AfterIdMatch(id, res, tail, v);
  }

  lemma AfterIdMatch(id: string, res: string, tail: string, v: string)
    requires id != [] && AllWord(id)
    requires ')' !in res && NoLineEnd(res)
    requires v == "] (" + (res + (")" + tail))
    ensures MatchAfterId(id, v) == Some((id, res, LineRest(TrimStart(tail))))
  {
    assert v != [] && v[0] == ']';
    assert ParenGroup(v[1..]) == Some((res, tail)) by {
      assert v[1..] == " " + ("(" + (res + (")" + tail)));
      ParenGroupOf(" ", res, tail);
    }
  }

  /** A string without line terminators is all of `.*`. */
  lemma {:induction false} LineRestWhole(s: string)
    requires NoLineEnd(s)
    ensures LineRest(s) == s
    decreases |s|
  {
    if s != [] {
      LineRestWhole(s[1..]);
    }
  }

  /** A string that starts and ends with a non-space is its own trim. */
  lemma TrimFixed(s: string)
    requires s != [] && !IsSpace(s[0]) && !IsSpace(s[|s| - 1])
    ensures Trim(s) == s
  {
    TrimIndented("", s);
    assert "" + s == s;
  }

  /** The new form wins: a line holding both forms is read as the new one. */
  lemma NewFormFirst(line: string)
    requires MatchNew(Trim(line)).Some?
    ensures var m := MatchNew(Trim(line)).value;
      ParseLine(line) == Some(Camera(m.0, m.0 + ": " + m.1))
  {
  }
}
