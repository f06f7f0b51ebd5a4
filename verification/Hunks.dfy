/** The one-hunk line difference of `diff_sample_for_file` in `docs.rs`. */
module Hunks {
  import opened Common
  import opened Truncation

  type Line = Text

  const RETURN: Byte := 13

  // ------------------------------------------------------------------ lines

  function FirstNewline(text: Text): (k: nat)
    ensures k <= |text| && NEWLINE !in text[..k] && (k < |text| ==> text[k] == NEWLINE)
  {
    if text == [] || text[0] == NEWLINE then 0
    else
      var k := FirstNewline(text[1..]);
      assert text[..k + 1] == [text[0]] + text[1..][..k];
      k + 1
  }

  function StripReturn(line: Text): Text {
    if line != [] && line[|line| - 1] == RETURN then line[..|line| - 1] else line
  }

  /** `str::lines`: a line ends at a newline, with a return before it dropped. */
  function Lines(text: Text): seq<Line>
    decreases |text|
  {
    var k := FirstNewline(text);
    if text == [] then []
    else if k == |text| then [text]
    else [StripReturn(text[..k])] + Lines(text[k + 1..])
  }

  function Terminated(lines: seq<Line>): Text {
    if lines == [] then [] else lines[0] + [NEWLINE] + Terminated(lines[1..])
  }

  /** Text without returns is its lines, up to a newline at the very end. */
  lemma {:induction false} LinesRoundTrip(text: Text)
    requires RETURN !in text
    ensures Terminated(Lines(text)) == if text == [] || text[|text| - 1] == NEWLINE then text else text + [NEWLINE]
    decreases |text|
  {
    var k := FirstNewline(text);
    if text != [] && k < |text| {
      var rest := text[k + 1..];
      LinesRoundTrip(rest);
      assert k > 0 ==> text[..k][k - 1] in text;
      assert text == text[..k] + [NEWLINE] + rest;
      assert ([StripReturn(text[..k])] + Lines(rest))[1..] == Lines(rest);
    }
  }

  // ------------------------------------------------------------------ hunks

  /** How many leading lines agree. */
  function CommonPrefix(a: seq<Line>, b: seq<Line>): nat {
    if a == [] || b == [] || a[0] != b[0] then 0 else 1 + CommonPrefix(a[1..], b[1..])
  }

  /** How many trailing lines agree. */
  function CommonSuffix(a: seq<Line>, b: seq<Line>): nat {
    if a == [] || b == [] || a[|a| - 1] != b[|b| - 1] then 0
    else 1 + CommonSuffix(a[..|a| - 1], b[..|b| - 1])
  }

  /** `removed` at line `at` of the old file gives way to `added`. */
  datatype Hunk = Hunk(at: nat, removed: seq<Line>, added: seq<Line>)

  datatype ExcerptLine =
    | Header(oldStart: nat, oldCount: nat, newStart: nat, newCount: nat)
    | Minus(line: Line)
    | Plus(line: Line)

  datatype Sample = Sample(adds: nat, dels: nat, excerpt: seq<ExcerptLine>)

  datatype Change = Change(sample: Sample, isNew: bool, isBinary: bool)

  predicate IsBinary(bytes: Text) {
    0 in bytes || !Valid(bytes)
  }

  /** The lines of a file as text; none if it is missing or not UTF-8. */
  function LinesOf(file: Option<Text>): seq<Line> {
    if file.Some? && Valid(file.value) then Lines(file.value) else []
  }

  /** `diff_sample_for_file`, on the bytes of the two files that exist. */
  method DiffFiles(previous: Option<Text>, current: Option<Text>) returns (change: Change)
    ensures change.isBinary <==>
      current.Some? && ((exists i :: 0 <= i < |current.value| && current.value[i] == 0) || !Valid(current.value))
    ensures change.isBinary ==> change.sample == Sample(0, 0, [])
    ensures change.isNew <==> previous.None? && current.Some?
    ensures !change.isBinary ==> Shows(change.sample, HunkOf(LinesOf(previous), LinesOf(current)))
  {
    hide HunkOf, Shows, Valid;
    if current.Some? && IsBinary(current.value) {
      return Change(Sample(0, 0, []), previous.None?, true);
    }
    var sample := DiffSample(LinesOf(previous), LinesOf(current));
    return Change(sample, previous.None? && current.Some?, false);
  }

  const U32: nat := 0x1_0000_0000
  const BODY: nat := 5

  /** Applied at its place in `before`, the hunk gives `after`. */
  ghost predicate Rewrites(hunk: Hunk, before: seq<Line>, after: seq<Line>) {
    && hunk.at + |hunk.removed| <= |before|
    && hunk.removed == before[hunk.at..hunk.at + |hunk.removed|]
    && after == before[..hunk.at] + hunk.added + before[hunk.at + |hunk.removed|..]
  }

  function HunkOf(before: seq<Line>, after: seq<Line>): (hunk: Hunk)
    ensures hunk.at + |hunk.removed| <= |before| && hunk.at + |hunk.added| <= |after|
  {
    var prefix := CommonPrefix(before, after);
    PrefixFits(before, after);
    var suffix := CommonSuffix(before[prefix..], after[prefix..]);
    SuffixFits(before[prefix..], after[prefix..]);
    Hunk(prefix, before[prefix..|before| - suffix], after[prefix..|after| - suffix])
  }

  /** The part of it that works on lines; the counts are cast to 32 bits. */
  method DiffSample(before: seq<Line>, after: seq<Line>) returns (sample: Sample)
    ensures Shows(sample, HunkOf(before, after))
  {
    hide HunkOf;
    var hunk := HunkOf(before, after);
    var removed, added := hunk.removed, hunk.added;
    var header := Header(hunk.at + 1, |removed|, hunk.at + 1, |added|);
    var excerpt := [header];
    var shown := if |removed| < BODY then |removed| else BODY;
    for i := 0 to shown
      invariant excerpt == [header] + Marked(hunk)[..i]
    {
      excerpt := excerpt + [Minus(removed[i])];
      assert Marked(hunk)[..i + 1] == Marked(hunk)[..i] + [Minus(removed[i])];
    }
    var room := BODY - (|excerpt| - 1);
    var more := if |added| < room then |added| else room;
    for i := 0 to more
      invariant excerpt == [header] + Marked(hunk)[..shown + i]
    {
      excerpt := excerpt + [Plus(added[i])];
      assert Marked(hunk)[..shown + i + 1] == Marked(hunk)[..shown + i] + [Plus(added[i])];
    }
    var adds, dels := |added| % U32, |removed| % U32;
    sample := Sample(adds, dels, if adds == 0 && dels == 0 then [] else excerpt);
  }

  /** What a sample says of a hunk: both counts, and unless they are 0 a header
      and the first lines. */
  ghost predicate Shows(sample: Sample, hunk: Hunk) {
    && sample.adds == |hunk.added| % U32 && sample.dels == |hunk.removed| % U32
    && (sample.excerpt == [] <==> sample.adds == 0 && sample.dels == 0)
    && (sample.excerpt != [] ==>
      && sample.excerpt[0] == Header(hunk.at + 1, |hunk.removed|, hunk.at + 1, |hunk.added|)
      && Body(hunk, sample.excerpt[1..]))
  }

  /** The first lines of the hunk, removed before added: five, or all of them. */
  ghost predicate Body(hunk: Hunk, body: seq<ExcerptLine>) {
    var all := Marked(hunk);
    body == if |all| < BODY then all else all[..BODY]
  }

  function Marked(hunk: Hunk): (r: seq<ExcerptLine>)
    ensures |r| == |hunk.removed| + |hunk.added|
  {
    seq(|hunk.removed|, i requires 0 <= i < |hunk.removed| => Minus(hunk.removed[i]))
    + seq(|hunk.added|, i requires 0 <= i < |hunk.added| => Plus(hunk.added[i]))
  }

  function Last(s: seq<Line>, k: nat): seq<Line>
    requires k <= |s|
  {
    s[|s| - k..]
  }

  // --------------------------------------------------------------- theorems

  lemma {:induction false} PrefixFits(a: seq<Line>, b: seq<Line>)
    ensures CommonPrefix(a, b) <= |a| && CommonPrefix(a, b) <= |b|
  {
    if a != [] && b != [] {
      PrefixFits(a[1..], b[1..]);
    }
  }

  lemma {:induction false} SuffixFits(a: seq<Line>, b: seq<Line>)
    ensures CommonSuffix(a, b) <= |a| && CommonSuffix(a, b) <= |b|
  {
    if a != [] && b != [] {
      SuffixFits(a[..|a| - 1], b[..|b| - 1]);
    }
  }

  /** The first `k` lines agree exactly up to the common prefix. */
  lemma {:induction false} PrefixIsMaximal(a: seq<Line>, b: seq<Line>, k: nat)
    requires k <= |a| && k <= |b|
    ensures a[..k] == b[..k] <==> k <= CommonPrefix(a, b)
  {
    if k > 0 {
      PrefixIsMaximal(a[1..], b[1..], k - 1);
      assert a[..k] == [a[0]] + a[1..][..k - 1];
      assert b[..k] == [b[0]] + b[1..][..k - 1];
      if a[..k] == b[..k] {
        assert a[..k][0] == b[..k][0];
        assert a[..k][1..] == b[..k][1..];
      }
    }
  }

  /** The last `k` lines agree exactly up to the common suffix. */
  lemma {:induction false} SuffixIsMaximal(a: seq<Line>, b: seq<Line>, k: nat)
    requires k <= |a| && k <= |b|
    ensures Last(a, k) == Last(b, k) <==> k <= CommonSuffix(a, b)
  {
    if k > 0 {
      var a', b' := a[..|a| - 1], b[..|b| - 1];
      SuffixIsMaximal(a', b', k - 1);
      assert Last(a, k) == Last(a', k - 1) + [a[|a| - 1]];
      assert Last(b, k) == Last(b', k - 1) + [b[|b| - 1]];
      if Last(a, k) == Last(b, k) {
        assert Last(a, k)[k - 1] == Last(b, k)[k - 1];
        assert Last(a, k)[..k - 1] == Last(b, k)[..k - 1];
      }
    }
  }

  /** Replacing the removed lines by the added ones turns the old file into the
      new one. */
  lemma HunkRewrites(before: seq<Line>, after: seq<Line>)
    ensures Rewrites(HunkOf(before, after), before, after)
  {
    hide CommonPrefix, CommonSuffix;
    var p := CommonPrefix(before, after);
    PrefixFits(before, after);
    PrefixIsMaximal(before, after, p);
    var s := CommonSuffix(before[p..], after[p..]);
    SuffixFits(before[p..], after[p..]);
    SuffixIsMaximal(before[p..], after[p..], s);
    assert Last(before[p..], s) == before[|before| - s..];
    assert Last(after[p..], s) == after[|after| - s..];
    assert after == after[..p] + after[p..|after| - s] + after[|after| - s..];
  }

  /** A replacement keeps the lines before it and the lines after it. */
  lemma RewritesKeepsEnds(other: Hunk, before: seq<Line>, after: seq<Line>)
    requires Rewrites(other, before, after)
    ensures var q, t := other.at, |before| - other.at - |other.removed|;
      && 0 <= t && |after| == q + |other.added| + t
      && before[..q] == after[..q]
      && Last(before, t) == Last(after, t)
  {
  }

  lemma LastOfRest(s: seq<Line>, p: nat, t: nat, k: nat)
    requires p <= |s| && k <= t <= |s| && k <= |s| - p
    ensures Last(s[p..], k) == Last(s, t)[t - k..]
  {
  }

  lemma HunkSizes(before: seq<Line>, after: seq<Line>)
    ensures var p, hunk := CommonPrefix(before, after), HunkOf(before, after);
      && p <= |before| && p <= |after|
      && |hunk.removed| == |before| - p - CommonSuffix(before[p..], after[p..])
      && |hunk.added| == |after| - p - CommonSuffix(before[p..], after[p..])
  {
    hide CommonPrefix, CommonSuffix;
    PrefixFits(before, after);
    var p := CommonPrefix(before, after);
    SuffixFits(before[p..], after[p..]);
  }

  /** No other single replacement removes fewer lines or adds fewer. */
  lemma HunkIsLeast(before: seq<Line>, after: seq<Line>, other: Hunk)
    requires Rewrites(other, before, after)
    ensures |HunkOf(before, after).removed| <= |other.removed|
    ensures |HunkOf(before, after).added| <= |other.added|
  {
    hide CommonPrefix, CommonSuffix, Rewrites, Last, HunkOf;
    HunkSizes(before, after);
    var q, t := other.at, |before| - other.at - |other.removed|;
    var p := CommonPrefix(before, after);
    RewritesKeepsEnds(other, before, after);
    PrefixFits(before, after);
    PrefixIsMaximal(before, after, q);
    SuffixFits(before[p..], after[p..]);
    // The lines the other hunk keeps at the end, less those in our prefix.
    var shorter := if |before| < |after| then |before| else |after|;
    var k := if t < shorter - p then t else shorter - p;
    LastOfRest(before, p, t, k);
    LastOfRest(after, p, t, k);
    SuffixIsMaximal(before[p..], after[p..], k);
  }

  /** There is nothing to show exactly when the lines agree. */
  lemma EmptyHunkIff(before: seq<Line>, after: seq<Line>)
    ensures HunkOf(before, after).removed == [] && HunkOf(before, after).added == [] <==> before == after
  {
    hide HunkOf;
    HunkRewrites(before, after);
    if before == after {
      HunkIsLeast(before, after, Hunk(0, [], []));
    }
  }
}
