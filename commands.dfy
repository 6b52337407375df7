/**
 * The text logic of the backend commands (src-tauri/src/commands.rs): the
 * quote-aware tokenizer, the parsers of `adb devices` and `adb mdns services`
 * output, the argument assembly of the terminal command and the success
 * rules of `adb connect` and `adb pair`. Process output reaches these
 * functions as values; spawning the processes is outside the model.
 */
module Commands {
  import opened Wrappers
  import opened Text
  import Seqs

  // ---------------------------------------------------------------------
  // split_args
  // ---------------------------------------------------------------------

  /** The state of the tokenizer loop: finished tokens, the token being built, quote mode. */
  datatype Scan = Scan(args: seq<string>, current: string, inQuotes: bool)

  /** One character of the tokenizer loop. */
  function Step(st: Scan, c: char): Scan {
    if c == '"' then st.(inQuotes := !st.inQuotes)
    else if IsSpace(c) && !st.inQuotes then
      (if st.current != "" then Scan(st.args + [st.current], "", st.inQuotes) else st)
    else st.(current := st.current + [c])
  }

  /** The tokenizer state after reading all of s. */
  function ScanAll(s: string): Scan
    decreases |s|
  {
    if s == [] then Scan([], "", false) else Step(ScanAll(s[..|s| - 1]), s[|s| - 1])
  }

  /** All tokens written one after the other. */
  function Flatten(ts: seq<string>): string
    decreases |ts|
  {
    if ts == [] then [] else Flatten(ts[..|ts| - 1]) + ts[|ts| - 1]
  }

  /**
   * The characters of s that belong to tokens: every character except the
   * quote characters and the whitespace that lies outside quotes (after an
   * even number of quotes).
   */
  function Kept(s: string): string
    decreases |s|
  {
    if s == [] then []
    else
      var p := s[..|s| - 1];
      var c := s[|s| - 1];
      Kept(p) + (if c == '"' || (IsSpace(c) && Count(p, '"') % 2 == 0) then [] else [c])
  }

  predicate Token(t: string) {
    t != "" && '"' !in t
  }

  predicate SpaceFree(t: string) {
    forall i :: 0 <= i < |t| ==> !IsSpace(t[i])
  }

  /** The quote mode after s is the parity of its quote characters. */
  lemma {:induction false} ScanQuoteParity(s: string)
    ensures ScanAll(s).inQuotes <==> Count(s, '"') % 2 == 1
    decreases |s|
  {
    if s != [] {
      ScanQuoteParity(s[..|s| - 1]);
    }
  }

  /** Finished tokens are non-empty and quote-free, and so is the token being built. */
  lemma {:induction false} ScanTokens(s: string)
    ensures forall k :: 0 <= k < |ScanAll(s).args| ==> Token(ScanAll(s).args[k])
    ensures '"' !in ScanAll(s).current
    decreases |s|
  {
    if s != [] {
      ScanTokens(s[..|s| - 1]);
    }
  }

  /** The token characters read so far are exactly the kept characters. */
  lemma {:induction false} ScanKept(s: string)
    ensures Flatten(ScanAll(s).args) + ScanAll(s).current == Kept(s)
    decreases |s|
  {
    if s != [] {
      var p := s[..|s| - 1];
      var c := s[|s| - 1];
      ScanKept(p);
      ScanQuoteParity(p);
      StepKept(ScanAll(p), c);
    }
  }

  /** One character adds itself to the token text unless it is a quote or an unquoted space. */
  lemma StepKept(st: Scan, c: char)
    ensures Flatten(Step(st, c).args) + Step(st, c).current
      == Flatten(st.args) + st.current + (if c == '"' || (IsSpace(c) && !st.inQuotes) then [] else [c])
  {
    if c != '"' && IsSpace(c) && !st.inQuotes && st.current != "" {
      var args := st.args + [st.current];
      assert args[..|args| - 1] == st.args;
    }
  }

  /** Without quote characters no token holds whitespace. */
  lemma {:induction false} ScanNoQuotesNoSpaces(s: string)
    ensures '"' !in s ==> (SpaceFree(ScanAll(s).current) &&
      forall k :: 0 <= k < |ScanAll(s).args| ==> SpaceFree(ScanAll(s).args[k]))
    decreases |s|
  {
    if s != [] && '"' !in s {
      var p := s[..|s| - 1];
      assert '"' !in p;
      ScanNoQuotesNoSpaces(p);
      ScanQuoteParity(p);
      CountAbsent(p, '"');
    }
  }

  /** The tokenizer loop run from a given state over s, first character first. */
  function ScanFrom(st: Scan, s: string): Scan
    decreases |s|
  {
    if s == [] then st else ScanFrom(Step(st, s[0]), s[1..])
  }

  lemma {:induction false} ScanFromSnoc(st: Scan, s: string, c: char)
    ensures ScanFrom(st, s + [c]) == Step(ScanFrom(st, s), c)
    decreases |s|
  {
    if s != [] {
      assert (s + [c])[1..] == s[1..] + [c];
      ScanFromSnoc(Step(st, s[0]), s[1..], c);
    }
  }

  /** Reading p then q is reading q from the state p leaves. */
  lemma {:induction false} ScanAllAppend(p: string, q: string)
    ensures ScanAll(p + q) == ScanFrom(ScanAll(p), q)
    decreases |q|
  {
    if q == [] {
      assert p + q == p;
    } else {
      var q' := q[..|q| - 1];
      var c := q[|q| - 1];
      assert (p + q)[..|p + q| - 1] == p + q';
      assert q' + [c] == q;
      ScanAllAppend(p, q');
      ScanFromSnoc(ScanAll(p), q', c);
    }
  }

  /**
   * Outside quotes, quote-free text is split at whitespace exactly as
   * `split_whitespace` splits the pending token followed by that text.
   */
  lemma {:induction false} ScanFromWords(args: seq<string>, cur: string, s: string)
    requires '"' !in s && NoSpace(cur)
    ensures Finish(ScanFrom(Scan(args, cur, false), s)) == args + SplitWhitespace(cur + s)
    decreases |s|
  {
    if s == [] {
      FinishWord(args, cur);
      assert cur + s == cur;
    } else {
      var c, rest := s[0], s[1..];
      assert '"' !in rest;
      assert cur + s == cur + [c] + rest;
      if IsSpace(c) {
        var args' := if cur != "" then args + [cur] else args;
        assert ScanFrom(Scan(args, cur, false), s) == ScanFrom(Scan(args', "", false), rest);
        ScanFromWords(args', "", rest);
        assert "" + rest == rest;
        SpaceEndsWord(args, cur, s);
      } else {
        assert ScanFrom(Scan(args, cur, false), s) == ScanFrom(Scan(args, cur + [c], false), rest);
        assert NoSpace(cur + [c]);
        ScanFromWords(args, cur + [c], rest);
      }
    }
  }

  /** At the end of the text the pending word is pushed, as `split_whitespace` reads it. */
  lemma FinishWord(args: seq<string>, cur: string)
    requires NoSpace(cur)
    ensures Finish(Scan(args, cur, false)) == args + SplitWhitespace(cur)
  {
    WordsOfWord(cur);
  }

  /** Unquoted whitespace closes the pending word, as it separates words for `split_whitespace`. */
  lemma SpaceEndsWord(args: seq<string>, cur: string, s: string)
    requires NoSpace(cur) && s != [] && IsSpace(s[0])
    ensures (if cur != "" then args + [cur] else args) + SplitWhitespace(s[1..])
      == args + SplitWhitespace(cur + s)
  {
    SpaceSkipped(s);
    var words := SplitWhitespace(s[1..]);
    if cur == "" {
      assert cur + s == s;
    } else {
      WordBeforeSpace(cur, s);
      Seqs.ConcatAssoc(args, [cur], words);
    }
  }

  /** Without quote characters the scan ends outside quotes. */
  lemma QuoteFreeOutsideQuotes(s: string)
    requires '"' !in s
    ensures !ScanAll(s).inQuotes
  {
    ScanQuoteParity(s);
    CountAbsent(s, '"');
    assert Count(s, '"') % 2 == 0;
  }

  lemma QuoteFreeWords(s: string)
    ensures '"' !in s ==> !ScanAll(s).inQuotes && Finish(ScanAll(s)) == SplitWhitespace(s)
  {
    if '"' !in s {
      QuoteFreeOutsideQuotes(s);
      var empty: string := [];
      var none: seq<string> := [];
      var start := Scan(none, empty, false);
      assert ScanAll(empty) == start;
      ScanAllAppend(empty, s);
      assert empty + s == s;
      var st := ScanAll(s);
      assert st == ScanFrom(start, s);
      ScanFromWords(none, empty, s);
      assert empty + s == s;
      var words := SplitWhitespace(s);
      assert Finish(st) == none + words;
      assert none + words == words;
    }
  }

  /** Inside quotes every character but a quote, whitespace included, joins the pending token. */
  lemma {:induction false} ScanQuoted(st: Scan, q: string)
    requires st.inQuotes && '"' !in q
    ensures ScanFrom(st, q) == st.(current := st.current + q)
    decreases |q|
  {
    if q == [] {
      assert st.current + q == st.current;
    } else {
      assert '"' !in q[1..];
      ScanQuoted(Step(st, q[0]), q[1..]);
      assert st.current + [q[0]] + q[1..] == st.current + q;
    }
  }

  /**
   * A quoted segment without quotes inside lands whole in the pending token:
   * no token ends within it, and its whitespace is kept.
   */
  lemma QuotedSegmentOneToken(p: string, q: string)
    requires Count(p, '"') % 2 == 0 && '"' !in q
    ensures ScanAll(p + "\"" + q + "\"") == ScanAll(p).(current := ScanAll(p).current + q)
  {
    ScanQuoteParity(p);
    var st := ScanAll(p);
    var open := p + "\"";
    assert open[..|open| - 1] == p;
    assert ScanAll(open) == st.(inQuotes := true);
    ScanAllAppend(open, q);
    ScanQuoted(st.(inQuotes := true), q);
    var whole := p + "\"" + q + "\"";
    assert whole[..|whole| - 1] == open + q;
  }

  /** The finishing step: the pending token is pushed when non-empty. */
  function Finish(st: Scan): (args: seq<string>)
    ensures Flatten(args) == Flatten(st.args) + st.current
    ensures forall t :: t in args ==> t in st.args || t == st.current
    ensures st.current == "" ==> args == st.args
  {
    var args := if st.current != "" then st.args + [st.current] else st.args;
    assert st.current != "" ==> args[..|args| - 1] == st.args;
    assert st.current == "" ==> st.current + [] == st.current && Flatten(st.args) + st.current == Flatten(st.args);
    args
  }

  /**
   * `split_args`: the tokens of s, or "Unclosed quotes" when a quote is
   * left open.
   */
  function SplitArgsSpec(s: string): (r: Result<seq<string>, string>)
    ensures r.Err? <==> Count(s, '"') % 2 == 1
    ensures r.Err? ==> r.error == "Unclosed quotes"
    ensures r.Ok? ==> (forall k :: 0 <= k < |r.value| ==> Token(r.value[k])) && Flatten(r.value) == Kept(s)
    ensures r.Ok? && '"' !in s ==> forall k :: 0 <= k < |r.value| ==> SpaceFree(r.value[k])
  {
    ScanQuoteParity(s);
    ScanTokens(s);
    ScanKept(s);
    ScanNoQuotesNoSpaces(s);
    var st := ScanAll(s);
    var args := Finish(st);
    assert forall k :: 0 <= k < |args| ==> args[k] in st.args || args[k] == st.current;
    if st.inQuotes then Err("Unclosed quotes") else Ok(args)
  }

  /**
   * Without quote characters `split_args` agrees with `split_whitespace`:
   * the tokens are exactly the maximal runs of non-whitespace.
   */
  lemma SplitArgsWithoutQuotes(s: string)
    requires '"' !in s
    ensures SplitArgsSpec(s) == Ok(SplitWhitespace(s))
  {
    QuoteFreeWords(s);
  }

  /** The tokenizer as the source writes it: one pass over the characters. */
  method SplitArgs(s: string) returns (r: Result<seq<string>, string>)
    ensures r == SplitArgsSpec(s)
  {
    var args: seq<string> := [];
    var current := "";
    var inQuotes := false;
    var i := 0;
    while i < |s|
      invariant 0 <= i <= |s|
      invariant Scan(args, current, inQuotes) == ScanAll(s[..i])
    {
      var c := s[i];
      assert s[..i + 1][..i] == s[..i];
      if c == '"' {
        inQuotes := !inQuotes;
      } else if IsSpace(c) && !inQuotes {
        if current != "" {
          args := args + [current];
          current := "";
        }
      } else {
        current := current + [c];
      }
      i := i + 1;
    }
    assert s[..|s|] == s;
    if current != "" {
      args := args + [current];
    }
    assert args == Finish(ScanAll(s));
    if inQuotes {
      return Err("Unclosed quotes");
    }
    return Ok(args);
  }

  /** A quoted argument keeps its inner space and loses its quotes. */
  lemma QuotedArgumentExample()
    ensures SplitArgsSpec("a \"b c\"") == Ok(["a", "b c"])
  {
    var s := "a \"b c\"";
    QuotedArgumentScan();
    assert Finish(ScanAll(s)) == ["a"] + ["b c"] == ["a", "b c"];
    assert SplitArgsSpec(s) == Ok(Finish(ScanAll(s)));
  }

  /** The tokenizer state after each character of `a "b c"`. */
  lemma QuotedArgumentScan()
    ensures ScanAll("a \"b c\"") == Scan(["a"], "b c", false)
  {
    var s := "a \"b c\"";
    assert s[..0] == [];
    ScanPrefix(s, 0);
    assert ScanAll(s[..1]) == Scan([], "a", false);
    ScanPrefix(s, 1);
    assert ScanAll(s[..2]) == Scan(["a"], "", false);
    ScanPrefix(s, 2);
    ScanPrefix(s, 3);
    assert ScanAll(s[..4]) == Scan(["a"], "b", true);
    ScanPrefix(s, 4);
    ScanPrefix(s, 5);
    assert ScanAll(s[..6]) == Scan(["a"], "b c", true);
    ScanPrefix(s, 6);
    assert s[..7] == s;
  }

  /** Reading one more character is one more step. */
  lemma ScanPrefix(s: string, i: nat)
    requires i < |s|
    ensures ScanAll(s[..i + 1]) == Step(ScanAll(s[..i]), s[i])
  {
    assert s[..i + 1][..i] == s[..i];
  }

  // ---------------------------------------------------------------------
  // Process output
  // ---------------------------------------------------------------------

  /** What a finished process returned: exit status, stdout and stderr (lossily decoded). */
  datatype Output = Output(statusOk: bool, stdout: string, stderr: string)

  /** `.lines().skip(1)`: everything after the header line. */
  function SkipHeader(lines: seq<string>): (r: seq<string>)
    ensures lines != [] ==> r == lines[1..]
  {
    if lines == [] then [] else lines[1..]
  }

  // ---------------------------------------------------------------------
  // get_devices
  // ---------------------------------------------------------------------

  /** `l.split('\t').next().unwrap_or("").trim()`. */
  function DeviceIdOf(line: string): (id: string)
    ensures '\t' !in id
  {
    Trim(Before(line, '\t'))
  }

  predicate IsDeviceLine(line: string) {
    Contains(line, "\tdevice")
  }

  /** Ids that are kept: non-empty and not an mDNS service name. */
  predicate KeepsId(id: string) {
    id != "" && !Contains(id, "._tcp") && !Contains(id, "._udp")
  }

  predicate Selected(line: string) {
    IsDeviceLine(line) && KeepsId(DeviceIdOf(line))
  }

  /** The id chain of `get_devices` over the lines after the header. */
  function SelectDevices(lines: seq<string>): (r: seq<string>)
    ensures |r| <= |lines|
    ensures forall k :: 0 <= k < |r| ==> KeepsId(r[k]) && '\t' !in r[k]
    decreases |lines|
  {
    if lines == [] then []
    else (if Selected(lines[0]) then [DeviceIdOf(lines[0])] else []) + SelectDevices(lines[1..])
  }

  /** Every selected line contributes its id. */
  lemma SelectDevicesComplete(lines: seq<string>, k: nat)
    requires k < |lines| && Selected(lines[k])
    ensures DeviceIdOf(lines[k]) in SelectDevices(lines)
  {
    SelectedLineKept(lines, lines[k]);
  }

  lemma {:induction false} SelectedLineKept(lines: seq<string>, line: string)
    requires line in lines && Selected(line)
    ensures DeviceIdOf(line) in SelectDevices(lines)
    decreases |lines|
  {
    if lines[0] == line {
      SelectedHeadKept(lines);
    } else {
      TailHolds(lines, line);
      SelectedLineKept(lines[1..], line);
      SelectedTailKept(lines, DeviceIdOf(line));
    }
  }

  lemma TailHolds(lines: seq<string>, line: string)
    requires line in lines && lines[0] != line
    ensures line in lines[1..]
  {
    var i :| 0 <= i < |lines| && lines[i] == line;
    assert lines[1..][i - 1] == line;
  }

  lemma SelectedHeadKept(lines: seq<string>)
    requires lines != [] && Selected(lines[0])
    ensures DeviceIdOf(lines[0]) in SelectDevices(lines)
  {
    assert SelectDevices(lines)[0] == DeviceIdOf(lines[0]);
  }

  lemma SelectedTailKept(lines: seq<string>, x: string)
    requires lines != [] && x in SelectDevices(lines[1..])
    ensures x in SelectDevices(lines)
  {
    var head := if Selected(lines[0]) then [DeviceIdOf(lines[0])] else [];
    var rest := SelectDevices(lines[1..]);
    var i :| 0 <= i < |rest| && rest[i] == x;
    assert SelectDevices(lines)[|head| + i] == x;
  }

  /** Every listed id comes from a selected line. */
  lemma {:induction false} SelectDevicesSound(lines: seq<string>, d: string)
    requires d in SelectDevices(lines)
    ensures exists k :: 0 <= k < |lines| && Selected(lines[k]) && DeviceIdOf(lines[k]) == d
    decreases |lines|
  {
    if !(Selected(lines[0]) && DeviceIdOf(lines[0]) == d) {
      SelectDevicesSound(lines[1..], d);
      var k :| 0 <= k < |lines[1..]| && Selected(lines[1..][k]) && DeviceIdOf(lines[1..][k]) == d;
      assert lines[k + 1] == lines[1..][k];
    }
  }

  /** The parser keeps the input order: the ids of a + b are those of a, then those of b. */
  lemma {:induction false} SelectDevicesAppend(a: seq<string>, b: seq<string>)
    ensures SelectDevices(a + b) == SelectDevices(a) + SelectDevices(b)
    decreases |a|
  {
    if a == [] {
      assert a + b == b;
    } else {
      var head := if Selected(a[0]) then [DeviceIdOf(a[0])] else [];
      assert (a + b)[0] == a[0] && (a + b)[1..] == a[1..] + b;
      assert SelectDevices(a + b) == head + SelectDevices(a[1..] + b);
      SelectDevicesAppend(a[1..], b);
      Seqs.ConcatAssoc(head, SelectDevices(a[1..]), SelectDevices(b));
    }
  }

  /** The reply of `get_devices`: the ids, or an error message. */
  datatype DeviceList = DeviceIds(ids: seq<string>) | ListError(message: string)

  function GetDevices(o: Result<Output, string>): (r: DeviceList)
    ensures r.DeviceIds? <==> o.Ok? && o.value.statusOk
    ensures r.DeviceIds? ==> r.ids == SelectDevices(SkipHeader(Lines(o.value.stdout)))
    ensures o.Ok? && !o.value.statusOk ==> r == ListError("ADB returned error")
    ensures o.Err? ==> r == ListError(o.error)
  {
    match o
    case Ok(out) =>
      if out.statusOk then DeviceIds(SelectDevices(SkipHeader(Lines(out.stdout))))
      else ListError("ADB returned error")
    case Err(e) => ListError(e)
  }

  /** The first line is never inspected, whatever it says. */
  lemma HeaderIgnored(header: string, rest: string)
    requires '\n' !in header
    ensures SelectDevices(SkipHeader(Lines(header + "\n" + rest))) == SelectDevices(Lines(rest))
  {
    LinesCons(header, rest);
  }

  // ---------------------------------------------------------------------
  // get_mdns_devices
  // ---------------------------------------------------------------------

  datatype Service = Service(name: string, service: string, address: string)

  /** A line with at least three tab-separated fields gives a service; others are ignored. */
  function ServiceOf(line: string): (r: Option<Service>)
    ensures r.Some? <==> |SplitOn(line, '\t')| >= 3
  {
    var parts := SplitOn(line, '\t');
    if |parts| >= 3 then Some(Service(Trim(parts[0]), Trim(parts[1]), Trim(parts[2]))) else None
  }

  /** The services of the lines, in line order, before de-duplication. */
  function ServicesOf(lines: seq<string>): (r: seq<Service>)
    ensures |r| <= |lines|
    decreases |lines|
  {
    if lines == [] then []
    else
      var o := ServiceOf(lines[|lines| - 1]);
      ServicesOf(lines[..|lines| - 1]) + (if o.Some? then [o.value] else [])
  }

  /** The de-duplication key `format!("{}|{}|{}", name, service, address)`. */
  function Key(s: Service): string {
    s.name + "|" + s.service + "|" + s.address
  }

  function KeysOf(ss: seq<Service>): set<string> {
    set x | x in ss :: Key(x)
  }

  /**
   * The de-duplication as written: a service is dropped when its key string
   * was seen before.
   */
  function KeyDedup(ss: seq<Service>): (r: seq<Service>)
    ensures forall i, j :: 0 <= i < j < |r| ==> Key(r[i]) != Key(r[j])
    ensures forall x :: x in r ==> x in ss
    ensures KeysOf(r) == KeysOf(ss)
    decreases |ss|
  {
    if ss == [] then []
    else
      var p := ss[..|ss| - 1];
      var x := ss[|ss| - 1];
      assert forall y :: y in ss <==> y in p || y == x;
      assert KeysOf(ss) == KeysOf(p) + {Key(x)};
      if Key(x) in KeysOf(p) then KeyDedup(p) else KeyDedup(p) + [x]
  }

  /**
   * Two different services whose fields contain '|' share a key, and the
   * second one is lost; de-duplicating the triples themselves keeps both.
   */
  lemma KeyCollisionDropsService()
    ensures var a := Service("tv|adb", "tls", "10.0.0.2:37000");
      var b := Service("tv", "adb|tls", "10.0.0.2:37000");
      a != b && KeyDedup([a, b]) == [a] && Seqs.Dedup([a, b]) == [a, b]
  {
    var a := Service("tv|adb", "tls", "10.0.0.2:37000");
    var b := Service("tv", "adb|tls", "10.0.0.2:37000");
    assert a.name != b.name;
    assert a.name == "tv" + "|" + "adb" && b.service == "adb" + "|" + "tls";
    PipeMoves("tv", "adb", "tls", "10.0.0.2:37000");
    CollidingKeysMerge(a, b);
  }

  /** A '|' may move between the name and the service without changing the key. */
  lemma PipeMoves(name: string, middle: string, service: string, address: string)
    ensures Key(Service(name + "|" + middle, service, address)) == Key(Service(name, middle + "|" + service, address))
  {
    assert name + "|" + middle + "|" + service == name + "|" + (middle + "|" + service);
  }

  /** Of two different services with one key, the key de-duplication keeps only the first. */
  lemma CollidingKeysMerge(a: Service, b: Service)
    requires a != b && Key(a) == Key(b)
    ensures KeyDedup([a, b]) == [a] && Seqs.Dedup([a, b]) == [a, b]
  {
    assert [a, b][..1] == [a];
    assert [a][..0] == [];
    assert KeyDedup([a]) == [a];
    assert KeysOf([a]) == {Key(a)};
    Seqs.DedupSnoc([a], b);
    assert [a] + [b] == [a, b];
  }

  predicate PipeFree(x: Service) {
    '|' !in x.name && '|' !in x.service
  }

  /** Without '|' in the name and service fields the key determines the service. */
  lemma KeyInjective(a: Service, b: Service)
    requires PipeFree(a) && PipeFree(b) && Key(a) == Key(b)
    ensures a == b
  {
    var ra := a.service + "|" + a.address;
    var rb := b.service + "|" + b.address;
    assert Key(a) == a.name + ['|'] + ra;
    assert Key(b) == b.name + ['|'] + rb;
    SplitFirstUnique(a.name, ra, b.name, rb, '|');
    assert ra == a.service + ['|'] + a.address;
    assert rb == b.service + ['|'] + b.address;
    SplitFirstUnique(a.service, a.address, b.service, b.address, '|');
  }

  /** On ordinary output, de-duplicating by key is de-duplicating the triples. */
  lemma {:induction false} KeyDedupIsDedup(ss: seq<Service>)
    requires forall k :: 0 <= k < |ss| ==> PipeFree(ss[k])
    ensures KeyDedup(ss) == Seqs.Dedup(ss)
    decreases |ss|
  {
    if ss != [] {
      var p := ss[..|ss| - 1];
      var x := ss[|ss| - 1];
      assert forall k :: 0 <= k < |p| ==> p[k] == ss[k];
      KeyDedupIsDedup(p);
      if Key(x) in KeysOf(p) {
        var y :| y in p && Key(y) == Key(x);
        KeyInjective(y, x);
      }
    }
  }

  /** The reply of `get_mdns_devices`. */
  datatype ServiceList = Services(services: seq<Service>) | ServiceError(message: string)

  /**
   * `get_mdns_devices`: each service of the lines after the header, at the
   * position of its first occurrence. The `seen` set holds the services
   * themselves (see `KeyCollisionDropsService` for the string key).
   */
  method GetMdnsDevices(o: Result<Output, string>) returns (r: ServiceList)
    ensures r.Services? <==> o.Ok? && o.value.statusOk
    ensures o.Ok? && !o.value.statusOk ==> r == ServiceError("ADB mdns returned error")
    ensures o.Err? ==> r == ServiceError(o.error)
    ensures r.Services? ==> r.services == Seqs.Dedup(ServicesOf(SkipHeader(Lines(o.value.stdout))))
    ensures r.Services? ==> Seqs.NoDup(r.services)
  {
    if o.Err? {
      return ServiceError(o.error);
    }
    if !o.value.statusOk {
      return ServiceError("ADB mdns returned error");
    }
    var services := CollectServices(SkipHeader(Lines(o.value.stdout)));
    return Services(services);
  }

  /** The loop over the lines after the header, with its `seen` set. */
  method CollectServices(lines: seq<string>) returns (services: seq<Service>)
    ensures services == Seqs.Dedup(ServicesOf(lines))
  {
    services := [];
    var seen: set<Service> := {};
    var i := 0;
    while i < |lines|
      invariant 0 <= i <= |lines|
      invariant services == Seqs.Dedup(ServicesOf(lines[..i]))
      invariant forall x :: x in seen <==> x in ServicesOf(lines[..i])
    {
      ServicesOfSnoc(lines, i);
      var found := ServiceOf(lines[i]);
      if found.Some? {
        var s := found.value;
        Seqs.DedupStep(ServicesOf(lines[..i]), s);
        if s !in seen {
          services := services + [s];
          seen := seen + {s};
        }
      }
      i := i + 1;
    }
    ServicesOfAll(lines);
  }

  /** One more line adds the service it holds, if any. */
  lemma ServicesOfSnoc(lines: seq<string>, i: nat)
    requires i < |lines|
    ensures ServiceOf(lines[i]).None? ==> ServicesOf(lines[..i + 1]) == ServicesOf(lines[..i])
    ensures ServiceOf(lines[i]).Some? ==> ServicesOf(lines[..i + 1]) == ServicesOf(lines[..i]) + [ServiceOf(lines[i]).value]
  {
    assert lines[..i + 1][..i] == lines[..i];
  }

  /** Reading every line is reading the whole listing. */
  lemma ServicesOfAll(lines: seq<string>)
    ensures ServicesOf(lines[..|lines|]) == ServicesOf(lines)
  {
    assert lines[..|lines|] == lines;
  }

  // ---------------------------------------------------------------------
  // run_terminal_command
  // ---------------------------------------------------------------------

  datatype Binary = Adb | Scrcpy

  /** The executable and the argument vector handed to it. */
  datatype Invocation = Invocation(binary: Binary, args: seq<string>)

  /** The tokens of a typed command: `split_args`, or plain whitespace splitting when quotes are unbalanced. */
  function CommandTokens(cmd: string): seq<string> {
    match SplitArgsSpec(cmd)
    case Ok(ts) => ts
    case Err(_) => SplitWhitespace(cmd)
  }

  predicate NamesBinary(first: string) {
    ToLower(first) == "adb" || ToLower(first) == "scrcpy"
  }

  /** `scrcpy` (in any case) selects scrcpy; everything else runs adb. */
  function BinaryFor(first: string): Binary {
    if ToLower(first) == "scrcpy" then Scrcpy else Adb
  }

  /** The tokens after a leading `adb`/`scrcpy`, which is dropped. */
  function RestOf(ts: seq<string>): (r: seq<string>)
    requires ts != []
    ensures |r| <= |ts| <= |r| + 1 && r == ts[|ts| - |r|..]
  {
    if NamesBinary(ts[0]) then ts[1..] else ts
  }

  predicate HasSerialFlag(parts: seq<string>) {
    "-s" in parts || "--serial" in parts
  }

  /** The adb subcommands that act on no particular device. */
  predicate IsGlobalAdb(b: Binary, parts: seq<string>) {
    b == Adb && parts != [] && (parts[0] == "devices" || parts[0] == "connect" || parts[0] == "pair")
  }

  predicate InjectsSerial(device: Option<string>, b: Binary, parts: seq<string>) {
    !HasSerialFlag(parts) && device.Some? && device.value != "" && !IsGlobalAdb(b, parts)
  }

  /**
   * The argument assembly of `run_terminal_command`: the binary is chosen
   * by the first token, `-s <device>` is put in front only when the command
   * names no serial itself and targets a device, and the typed arguments
   * follow in their order.
   */
  method AssembleTerminalCommand(device: Option<string>, cmd: string) returns (r: Result<Invocation, string>)
    ensures r.Err? <==> CommandTokens(cmd) == []
    ensures r.Err? ==> r.error == "No command provided"
    ensures r.Ok? ==> var ts := CommandTokens(cmd);
      r.value.binary == BinaryFor(ts[0]) &&
      r.value.args == (if InjectsSerial(device, r.value.binary, RestOf(ts)) then ["-s", device.value] else []) + RestOf(ts)
    ensures r.Ok? ==> var rest := RestOf(CommandTokens(cmd));
      |rest| <= |r.value.args| && r.value.args[|r.value.args| - |rest|..] == rest
    ensures r.Ok? && HasSerialFlag(RestOf(CommandTokens(cmd))) ==> r.value.args == RestOf(CommandTokens(cmd))
  {
    var split := SplitArgs(cmd);
    var parts := if split.Ok? then split.value else SplitWhitespace(cmd);
    assert parts == CommandTokens(cmd);
    if |parts| == 0 {
      return Err("No command provided");
    }
    var inv := AssembleArgs(device, parts);
    return Ok(inv);
  }

  /** The part of `run_terminal_command` after tokenizing, for a non-empty token list. */
  method AssembleArgs(device: Option<string>, parts0: seq<string>) returns (inv: Invocation)
    requires parts0 != []
    ensures inv.binary == BinaryFor(parts0[0])
    ensures inv.args == (if InjectsSerial(device, inv.binary, RestOf(parts0)) then ["-s", device.value] else []) + RestOf(parts0)
  {
    var parts := parts0;
    var first := ToLower(parts[0]);
    var isScrcpy := first == "scrcpy";
    var isAdb := first == "adb";
    var binary := if isScrcpy then Scrcpy else Adb;
    if isAdb || isScrcpy {
      parts := parts[1..];
    }
    var args: seq<string> := [];
    var hasSerial := "-s" in parts || "--serial" in parts;
    if !hasSerial && device.Some? && device.value != "" {
      var isGlobal := binary == Adb && |parts| > 0 && (parts[0] == "devices" || parts[0] == "connect" || parts[0] == "pair");
      if !isGlobal {
        args := args + ["-s", device.value];
      }
    }
    args := PushAll(args, parts);
    return Invocation(binary, args);
  }

  /** `for part in parts { args.push(part) }`. */
  method PushAll(args: seq<string>, parts: seq<string>) returns (r: seq<string>)
    ensures r == args + parts
  {
    r := args;
    for k := 0 to |parts|
      invariant r == args + parts[..k]
    {
      assert parts[..k + 1] == parts[..k] + [parts[k]];
      r := r + [parts[k]];
    }
    assert parts[..|parts|] == parts;
  }

  /** The leading binary name is matched without regard to case. */
  lemma LeadingBinaryIgnoresCase()
    ensures BinaryFor("ScRcPy") == Scrcpy && BinaryFor("ADB") == Adb && BinaryFor("shell") == Adb
    ensures RestOf(["ADB", "devices"]) == ["devices"] && RestOf(["shell", "ls"]) == ["shell", "ls"]
  {
    assert ToLower("ScRcPy") == "scrcpy";
    assert ToLower("ADB") == "adb";
  }

  // ---------------------------------------------------------------------
  // adb_connect and adb_pair
  // ---------------------------------------------------------------------

  /** The JSON reply `{ success, message }`. */
  datatype Reply = Reply(success: bool, message: string)

  /** The message of a reply: stdout when it is non-empty, else stderr. */
  function MessageOf(out: string, err: string): (m: string)
    ensures m == out || m == err
    ensures m == "" <==> out == "" && err == ""
  {
    if out == "" then err else out
  }

  /** How the `adb connect` child ended within the 5 s limit. */
  datatype ConnectOutcome =
    | Finished(output: Output)
    | TimedOut
    | SpawnFailed(reason: string)
    | WaitFailed(reason: string)

  /**
   * `adb_connect`: success needs a good exit status and a stdout that says
   * neither "cannot connect" nor "failed"; a timeout is an ordinary failed
   * reply, a process that cannot be started or awaited an error.
   */
  function AdbConnect(o: ConnectOutcome): (r: Result<Reply, string>)
    ensures r.Ok? <==> o.Finished? || o.TimedOut?
    ensures r.Ok? && r.value.success <==>
      o.Finished? && o.output.statusOk &&
      !Contains(Trim(o.output.stdout), "cannot connect") && !Contains(Trim(o.output.stdout), "failed")
    ensures o.Finished? ==> r.value.message == MessageOf(Trim(o.output.stdout), Trim(o.output.stderr))
    ensures o.TimedOut? ==> r == Ok(Reply(false, "connection timed out"))
    ensures o.SpawnFailed? ==> r == Err("Failed to start adb connect: " + o.reason)
    ensures o.WaitFailed? ==> r == Err(o.reason)
  {
    match o
    case Finished(out) =>
      var so := Trim(out.stdout);
      var se := Trim(out.stderr);
      Ok(Reply(out.statusOk && !Contains(so, "cannot connect") && !Contains(so, "failed"), MessageOf(so, se)))
    case TimedOut => Ok(Reply(false, "connection timed out"))
    case SpawnFailed(e) => Err("Failed to start adb connect: " + e)
    case WaitFailed(e) => Err(e)
  }

  /** The two messages after which a connection is worth retrying. */
  predicate IsTransient(message: string) {
    Contains(message, "failed to connect") || Contains(message, "cannot connect")
  }

  /** A reply whose (stdout) message reads as a transient error is never a success. */
  lemma TransientReplyIsFailure(o: ConnectOutcome)
    requires AdbConnect(o).Ok?
    requires IsTransient(AdbConnect(o).value.message)
    requires o.Finished? ==> Trim(o.output.stdout) != ""
    ensures !AdbConnect(o).value.success
  {
    match o
    case TimedOut =>
      TimeoutIsNotTransient();
      assert false;
    case Finished(out) =>
      var so := Trim(out.stdout);
      assert AdbConnect(o).value.message == so;
      if Contains(so, "failed to connect") {
        ContainsPrefix(so, "failed to connect", "failed");
      }
  }

  /** A timed-out connection does not read as transient, so it is never retried. */
  lemma TimeoutIsNotTransient()
    ensures !IsTransient("connection timed out")
  {
    NotTransientWithoutF("connection timed out");
  }

  /** A message without 'f' and 'a' can hold neither transient phrase. */
  lemma NotTransientWithoutF(m: string)
    requires 'f' !in m && 'a' !in m
    ensures !IsTransient(m)
  {
    NotContainsMissingChar(m, "failed to connect", 0);
    NotContainsMissingChar(m, "cannot connect", 1);
  }

  /**
   * `adb_pair`: success needs a good exit status and "Successfully paired"
   * on stdout or stderr; a process that cannot run is an error.
   */
  function AdbPair(o: Result<Output, string>): (r: Result<Reply, string>)
    ensures r.Ok? <==> o.Ok?
    ensures o.Err? ==> r.error == o.error
    ensures o.Ok? ==> (r.value.success <==> (o.value.statusOk &&
      (Contains(Trim(o.value.stdout), "Successfully paired") || Contains(Trim(o.value.stderr), "Successfully paired"))))
    ensures o.Ok? ==> r.value.message == MessageOf(Trim(o.value.stdout), Trim(o.value.stderr))
  {
    match o
    case Ok(out) =>
      var so := Trim(out.stdout);
      var se := Trim(out.stderr);
      Ok(Reply(out.statusOk && (Contains(so, "Successfully paired") || Contains(se, "Successfully paired")), MessageOf(so, se)))
    case Err(e) => Err(e)
  }

  /** A successful pairing always carries a non-empty message. */
  lemma PairSuccessHasMessage(o: Result<Output, string>)
    requires AdbPair(o).Ok? && AdbPair(o).value.success
    ensures AdbPair(o).value.message != ""
  {
    var so := Trim(o.value.stdout);
    var se := Trim(o.value.stderr);
    if Contains(so, "Successfully paired") {
      ContainsChar(so, "Successfully paired", 0);
    } else {
      ContainsChar(se, "Successfully paired", 0);
    }
  }
}
