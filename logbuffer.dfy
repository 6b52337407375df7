/**
 * The log buffer. Every append in the hook is written
 * `[...prev.slice(-100), ...entries]`: keep the last 100 entries, then add.
 * That bounds the buffer at 100 + |entries|, not at 100.
 * `KeepLastThenAppend` (one line) and `KeepLastThenAppendAll` (a batch) are
 * that expression as written; `Append` keeps exactly the most recent
 * `Window` entries and is what the rest of the model uses.
 */
module LogBuffer {

  const Window: nat := 100

  function Min(a: nat, b: nat): nat { if a <= b then a else b }

  /** `prev.slice(-100)`: the last (at most) 100 entries. */
  function LastHundred(prev: seq<string>): (r: seq<string>)
    ensures |r| == Min(Window, |prev|) && r == prev[|prev| - |r|..]
  {
    prev[|prev| - Min(Window, |prev|)..]
  }

  /** `[...prev.slice(-100), x]` as the source writes it. */
  function KeepLastThenAppend(prev: seq<string>, x: string): (r: seq<string>)
    ensures r != [] && r[|r| - 1] == x
    ensures |r| <= Window + 1 && |r| - 1 <= |prev|
    ensures r[..|r| - 1] == prev[|prev| - (|r| - 1)..]
  {
    LastHundred(prev) + [x]
  }

  /** A buffer that is already full grows to 101 entries. */
  lemma AsWrittenWindowOverflow(prev: seq<string>, x: string)
    requires |prev| == Window
    ensures |KeepLastThenAppend(prev, x)| == Window + 1
  {
  }

  /** `[...prev.slice(-100), ...entries]`, the batch append as the source writes it. */
  function KeepLastThenAppendAll(prev: seq<string>, entries: seq<string>): (r: seq<string>)
    ensures |r| == Min(Window, |prev|) + |entries|
    ensures r[|r| - |entries|..] == entries
    ensures r[..|r| - |entries|] == prev[|prev| - (|r| - |entries|)..]
  {
    LastHundred(prev) + entries
  }

  /**
   * A full buffer plus a batch holds 100 entries more than the batch: the
   * window is applied before the batch is added, never after.
   */
  lemma AsWrittenBatchOverflow(prev: seq<string>, entries: seq<string>)
    requires |prev| == Window
    ensures |KeepLastThenAppendAll(prev, entries)| == Window + |entries|
    ensures |entries| > 0 ==> |KeepLastThenAppendAll(prev, entries)| > Window
  {
  }

  /** The single-line append is the batch append of one line. */
  lemma KeepLastThenAppendIsBatch(prev: seq<string>, x: string)
    ensures KeepLastThenAppend(prev, x) == KeepLastThenAppendAll(prev, [x])
  {
  }

  /** `[...prev, x]`, the unbounded append at useScrcpy.ts:271 and :394. */
  function AppendUnbounded(prev: seq<string>, x: string): seq<string> {
    prev + [x]
  }

  lemma UnboundedAppendExceedsWindow(prev: seq<string>, x: string)
    requires |prev| == Window + 1
    ensures |AppendUnbounded(prev, x)| == Window + 2
  {
  }

  /**
   * The intended append: the entries are added at the tail and only the
   * most recent `Window` entries are kept.
   */
  function Append(prev: seq<string>, entries: seq<string>): (r: seq<string>)
    ensures |r| == Min(Window, |prev| + |entries|)
    ensures r == (prev + entries)[|prev| + |entries| - |r|..]
  {
    var all := prev + entries;
    all[|all| - Min(Window, |all|)..]
  }

  /** The buffer never exceeds the window, and a short batch lands at the tail intact. */
  lemma {:induction false} AppendKeepsWindow(prev: seq<string>, entries: seq<string>)
    ensures |Append(prev, entries)| <= Window
    ensures |entries| <= Window ==> Append(prev, entries)[|Append(prev, entries)| - |entries|..] == entries
    ensures |prev| + |entries| <= Window ==> Append(prev, entries) == prev + entries
  {
    var all := prev + entries;
    var r := Append(prev, entries);
    if |entries| <= Window {
      assert r[|r| - |entries|..] == all[|all| - |entries|..];
      assert all[|all| - |entries|..] == entries;
    }
    if |prev| + |entries| <= Window {
      assert r == all[0..];
    }
  }

  /** The last n elements of a suffix of `all` are the last n elements of `all`. */
  lemma SuffixOfSuffix(all: seq<string>, j: nat, n: nat)
    requires j <= |all| && n <= |all| - j
    ensures all[j..][|all| - j - n..] == all[|all| - n..]
  {
  }

  /** Appending two batches one after the other is appending them together. */
  lemma {:induction false} AppendTwice(prev: seq<string>, xs: seq<string>, ys: seq<string>)
    ensures Append(Append(prev, xs), ys) == Append(prev, xs + ys)
  {
    var a := prev + xs;
    var ra := Append(prev, xs);
    var all := a + ys;
    assert prev + (xs + ys) == all;
    var j := |a| - |ra|;
    assert ra == a[j..];
    assert ra + ys == all[j..];
    var n := Min(Window, |ra| + |ys|);
    assert n == Min(Window, |all|);
    SuffixOfSuffix(all, j, n);
  }
}
