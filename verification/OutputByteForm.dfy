/** Byte-only truncation of a whole input as two cuts, and its agreement with line-wise selection. */
module OutputByteForm {
  import opened Bytes
  import opened OutputCuts
  import opened OutputPolicy
  import opened OutputLimits
  import opened OutputBytes
  import opened Sequences

  // ---------------------------------------------------------------------------------------------
  // Splitting into lines loses nothing.
  // ---------------------------------------------------------------------------------------------

  function Raw(line: SourceLine): bytes { line.body + line.term }

  function Joined(lines: seq<SourceLine>): bytes {
    if lines == [] then [] else Raw(lines[0]) + Joined(lines[1..])
  }

  lemma {:induction false} NextLFIs(s: bytes, i: nat)
    requires i <= |s|
    ensures var j := NextLF(s, i); (j < |s| ==> s[j] == LF) && forall k :: i <= k < j ==> s[k] != LF
    decreases |s| - i
  {
    if i < |s| && s[i] != LF { NextLFIs(s, i + 1); }
  }

  /** A line as it stands in the source: not empty, a line break only at its end. */
  predicate RawLine(r: bytes) { r != [] && forall k :: 0 <= k < |r| - 1 ==> r[k] != LF }

  predicate RawLines(lines: seq<SourceLine>, first: bool) {
    && (forall i :: 0 <= i < |lines| ==> RawLine(Raw(lines[i])))
    && (forall i :: 0 <= i < |lines| - 1 ==> Raw(lines[i])[|Raw(lines[i])| - 1] == LF)
    && (forall i :: 0 <= i < |lines| && (i > 0 || !first) ==> !IsContinuation(Raw(lines[i])[0]))
  }

  lemma {:induction false} LineRaw(s: bytes, start: nat, lf: nat)
    requires start <= lf < |s|
    ensures Raw(LineAt(s, start, lf)) == s[start..lf + 1]
  {}

  lemma {:induction false} SliceThenRest(s: bytes, start: nat, mid: nat)
    requires start <= mid <= |s|
    ensures s[start..mid] + s[mid..] == s[start..]
  {}

  lemma {:induction false} LinesFromRaw(s: bytes, start: nat)
    requires start <= |s| && CleanLines(s) && (start == 0 || s[start - 1] == LF)
    ensures Joined(LinesFrom(s, start)) == s[start..]
    ensures RawLines(LinesFrom(s, start), start == 0)
    decreases |s| - start
  {
    hide NextLF, LineAt, Raw;
    assert 0 < start < |s| ==> !IsContinuation(s[start]);
    hide CleanLines;
    if start < |s| {
      var lf := NextLF(s, start);
      NextLFIs(s, start);
      if lf < |s| {
        LineRaw(s, start, lf);
        LinesFromRaw(s, lf + 1);
        var rest := LinesFrom(s, lf + 1);
        assert ([LineAt(s, start, lf)] + rest)[1..] == rest;
        SliceThenRest(s, start, lf + 1);
        RawCons(LineAt(s, start, lf), rest, start == 0);
      } else {
        RawTail(s, start);
      }
    }
  }

  lemma {:induction false} RawTail(s: bytes, start: nat)
    requires start < |s| && forall k :: start <= k < |s| ==> s[k] != LF
    requires start == 0 || !IsContinuation(s[start])
    ensures Joined([SourceLine(s[start..], [])]) == s[start..]
    ensures RawLines([SourceLine(s[start..], [])], start == 0)
  {
    assert Raw(SourceLine(s[start..], [])) == s[start..];
    assert [SourceLine(s[start..], [])][1..] == [];
  }

  lemma {:induction false} RawCons(line: SourceLine, rest: seq<SourceLine>, first: bool)
    requires RawLines(rest, false) && RawLine(Raw(line)) && Raw(line)[|Raw(line)| - 1] == LF
    requires first || !IsContinuation(Raw(line)[0])
    ensures RawLines([line] + rest, first)
  {
    hide Raw;
    var all := [line] + rest;
    forall i | 0 < i < |all| ensures all[i] == rest[i - 1] {}
  }

  lemma {:induction false} JoinedSnoc(lines: seq<SourceLine>, last: SourceLine)
    ensures Joined(lines + [last]) == Joined(lines) + Raw(last)
  {
    hide Raw;
    if lines == [] {
      assert lines + [last] == [last] && [last][1..] == [];
    } else {
      assert (lines + [last])[0] == lines[0] && (lines + [last])[1..] == lines[1..] + [last];
      JoinedSnoc(lines[1..], last);
      Assoc(Raw(lines[0]), Joined(lines[1..]), Raw(last));
    }
  }

  lemma {:induction false} PreparedSources(p: Policy, lines: seq<SourceLine>)
    requires p.maxLineBytes <= 0
    ensures var r := PrepareAll(p, lines);
      forall i :: 0 <= i < |lines| ==> r[i].source == Raw(lines[i]) && r[i].marker == []
  {
    if lines != [] {
      hide Prepare;
      PreparedSources(p, lines[..|lines| - 1]);
    }
  }

  lemma {:induction false} PreparedFlat(p: Policy, lines: seq<SourceLine>)
    requires p.maxLineBytes <= 0
    ensures Flat(PrepareAll(p, lines)) == Joined(lines)
  {
    if lines != [] {
      hide Prepare;
      var init, last := lines[..|lines| - 1], lines[|lines| - 1];
      PreparedFlat(p, init);
      SplitLast(lines);
      FlatSnoc(PrepareAll(p, init), Prepare(p, |lines| - 1, last));
      hide Flat;
      JoinedSnoc(init, last);
    }
  }

  lemma {:induction false} PreparedAre(p: Policy, lines: seq<SourceLine>)
    requires p.maxLineBytes <= 0
    ensures var r := PrepareAll(p, lines);
      && Numbered(r) && Flat(r) == Joined(lines)
      && forall i :: 0 <= i < |lines| ==> r[i].source == Raw(lines[i]) && r[i].marker == []
  {
    PrepareAllNumbered(p, lines);
    PreparedSources(p, lines);
    PreparedFlat(p, lines);
    hide PrepareAll, Flat, Joined;
  }

  /** The prepared lines of a clean input, without any elision. */
  lemma {:induction false} PreparedPlain(p: Policy, s: bytes)
    requires ByteOnly(p) && CleanLines(s)
    ensures var lines := PrepareAll(p, LinesFrom(s, 0));
      PlainLines(lines) && Numbered(lines) && Flat(lines) == s && |lines| == LineCount(s) && Sizes(lines) == |s|
  {
    hide Flat, PrepareAll, LinesFrom, Raw, LineCount, Sizes, Joined;
    var raw := LinesFrom(s, 0);
    LinesFromRaw(s, 0);
    PreparedAre(p, raw);
    var lines := PrepareAll(p, raw);
    forall i | 0 <= i < |lines| ensures PlainLine(lines[i]) { assert RawLine(Raw(raw[i])); }
    assert PlainLines(lines);
    PlainFlat(lines);
    assert s[0..] == s;
  }

  // ---------------------------------------------------------------------------------------------
  // Two cuts of the whole input.
  // ---------------------------------------------------------------------------------------------

  function HeadText(s: bytes, limit: int): bytes {
    CutBounds(s, limit);
    s[..HeadCut(s, limit)]
  }

  function TailText(s: bytes, limit: int): bytes {
    CutBounds(s, limit);
    s[TailCut(s, limit)..]
  }

  /** Distinct lines touched by the two texts, read off their line breaks. */
  function SelectedLines(prefix: bytes, suffix: bytes, newlines: nat): int {
    var count := LineCount(prefix) + LineCount(suffix);
    var omitted := newlines - Newlines(prefix) - Newlines(suffix);
    if prefix != [] && prefix[|prefix| - 1] != LF && suffix != [] && omitted == 0 then count - 1 else count
  }

  lemma {:induction false} SelectedLinesNat(prefix: bytes, suffix: bytes, newlines: nat)
    ensures SelectedLines(prefix, suffix, newlines) >= 0
  {}

  datatype Cut = Cut(prefix: bytes, suffix: bytes)

  /** First the tail's share, then as much head as that leaves, then as much tail as the head left over. */
  function TwoCuts(p: Policy, s: bytes): Cut {
    var first := TailText(s, LimitSplit(p, p.maxBytes).1);
    var prefix := HeadText(s, p.maxBytes - |first|);
    Cut(prefix, TailText(s, p.maxBytes - |prefix|))
  }

  function Rendered(p: Policy, s: bytes, cut: Cut): (bytes, Report) {
    var keptBytes := |cut.prefix| + |cut.suffix|;
    SelectedLinesNat(cut.prefix, cut.suffix, Newlines(s));
    var keptLines := SelectedLines(cut.prefix, cut.suffix, Newlines(s));
    (Assemble(cut.prefix, Marker(ByBytes, keptBytes, |s|, keptLines, LineCount(s)), cut.suffix, s),
     Report(true, ByBytes, |s|, LineCount(s), keptBytes, keptLines))
  }

  /** What a byte limit alone makes of a stream. */
  function Streamed(p: Policy, s: bytes): (bytes, Report) {
    if p.maxBytes <= 0 || |s| <= p.maxBytes then (s, Report(false, NoReason, |s|, LineCount(s), |s|, LineCount(s)))
    else Rendered(p, s, TwoCuts(p, s))
  }

  lemma {:induction false} TextBounds(s: bytes, limit: int)
    ensures limit >= 0 ==> |HeadText(s, limit)| <= limit && |TailText(s, limit)| <= limit
  {
    CutBounds(s, limit);
  }

  lemma {:induction false} TwoCutsFit(p: Policy, s: bytes)
    requires 0 <= p.maxBytes
    ensures var cut := TwoCuts(p, s); |cut.prefix| + |cut.suffix| <= p.maxBytes
    ensures |TailText(s, LimitSplit(p, p.maxBytes).1)| <= p.maxBytes
  {
    hide HeadText, TailText;
    var limit := LimitSplit(p, p.maxBytes).1;
    TextBounds(s, limit);
    var first := TailText(s, limit);
    TextBounds(s, p.maxBytes - |first|);
    TextBounds(s, p.maxBytes - |HeadText(s, p.maxBytes - |first|)|);
  }

  // ---------------------------------------------------------------------------------------------
  // Line-wise selection of the outer edges is the two cuts.
  // ---------------------------------------------------------------------------------------------

  lemma {:induction false} EdgesAreCuts(p: Policy, lines: seq<Prepared>)
    requires PlainLines(lines) && p.maxLines == 0 && p.maxBytes > 0
    ensures var e, cut := OuterEdges(p, lines), TwoCuts(p, Flat(lines));
      && AllValid(e.head) && AllValid(e.tail)
      && Render(e.head) == cut.prefix && Render(e.tail) == cut.suffix
      && SelectionBytes(e.head) == |cut.prefix| && SelectionBytes(e.tail) == |cut.suffix|
      && |e.head| == LineCount(cut.prefix) && |e.tail| == LineCount(cut.suffix)
  {
    hide SelectHead, SelectTail, Flat, Render, SelectionBytes, LineCount, HeadCut, TailCut, PlainLines, Ids;
    var s, share := Flat(lines), LimitSplit(p, p.maxBytes).1;
    var a := NewAllowance(share, LimitSplit(p, 0).1, true, false, []);
    SelectTailIsCut(a, lines);
    var first := SelectTail(a, lines);
    CutBounds(s, share);
    var b := NewAllowance(p.maxBytes - SelectionBytes(first), 0, true, false, first);
    SelectHeadIsCut(b, lines);
    var head := SelectHead(b, lines);
    CutBounds(s, b.bytes);
    SelectTailIsCut(NewAllowance(p.maxBytes - SelectionBytes(head), 0, true, false, head), lines);
  }

  /** Distinct ids of a head of h lines and a tail of t lines that share at most one line. */
  lemma {:induction false} EdgeIds(lines: seq<Prepared>, e: Edges)
    requires Numbered(lines) && IsHead(lines, e.head) && IsTail(lines, e.tail) && Apart(e)
    ensures |e.head| + |e.tail| <= |lines| + 1
    ensures |Ids(e.head) + Ids(e.tail)| == |e.head| + |e.tail| - (if |e.head| + |e.tail| > |lines| then 1 else 0)
  {
    hide IsHead, IsTail, Apart, Ids, Numbered, Below;
    ShareAtMostOne(lines, e);
    HeadIds(lines, e.head);
    TailIds(lines, e.tail);
    UnionCount(|lines|, |e.head|, |e.tail|);
  }

  lemma {:induction false} ShareAtMostOne(lines: seq<Prepared>, e: Edges)
    requires Numbered(lines) && IsHead(lines, e.head) && IsTail(lines, e.tail) && Apart(e)
    ensures |e.head| <= |lines| && |e.tail| <= |lines| && |e.head| + |e.tail| <= |lines| + 1
  {
    var n, h, t := |lines|, |e.head|, |e.tail|;
    if h > 0 && t > 0 {
      assert e.head[h - 1].line.id == h - 1 && e.tail[0].line.id == n - t;
    }
  }

  lemma {:induction false} HeadIds(lines: seq<Prepared>, head: seq<Selection>)
    requires Numbered(lines) && IsHead(lines, head)
    ensures Ids(head) == Below(|head|)
  {
    CountBelow(|head|);
    forall k | k in Below(|head|) ensures k in Ids(head) { assert head[k].line.id == k; }
  }

  lemma {:induction false} TailIds(lines: seq<Prepared>, tail: seq<Selection>)
    requires Numbered(lines) && IsTail(lines, tail)
    ensures Ids(tail) == Below(|lines|) - Below(|lines| - |tail|)
  {
    var n, t := |lines|, |tail|;
    CountBelow(n);
    CountBelow(n - t);
    forall k | k in Below(n) - Below(n - t) ensures k in Ids(tail) { assert tail[k - (n - t)].line.id == k; }
  }

  lemma {:induction false} UnionCount(n: nat, h: nat, t: nat)
    requires h <= n && t <= n && h + t <= n + 1
    ensures |Below(h) + (Below(n) - Below(n - t))| == h + t - (if h + t > n then 1 else 0)
  {
    hide Below;
    CountBelow(h);
    CountBelow(n);
    CountBelow(n - t);
    if h + t > n {
      assert Below(h) + (Below(n) - Below(n - t)) == Below(n);
    } else {
      var tail := Below(n) - Below(n - t);
      assert Below(n) == Below(n - t) + tail;
      assert |Below(h) + tail| == |Below(h)| + |tail|;
    }
  }

  lemma {:induction false} LastNewline(s: bytes)
    ensures s == [] ==> Newlines(s) == 0
    ensures s != [] && s[|s| - 1] == LF ==> Newlines(s) > 0
  {}

  /** The line breaks tell whether head and tail share a line. */
  lemma {:induction false} SharedLine(s: bytes, prefix: bytes, suffix: bytes)
    requires |prefix| + |suffix| <= |s| && s[..|prefix|] == prefix && s[|s| - |suffix|..] == suffix
    ensures LineCount(prefix) + LineCount(suffix) > LineCount(s) <==>
      prefix != [] && prefix[|prefix| - 1] != LF && suffix != [] && Newlines(s) - Newlines(prefix) - Newlines(suffix) == 0
  {
    hide Newlines;
    var mid := s[|prefix|..|s| - |suffix|];
    assert s == prefix + mid + suffix;
    NewlinesAppend(prefix + mid, suffix);
    NewlinesAppend(prefix, mid);
    LastNewline(prefix);
    LastNewline(mid);
    LastNewline(suffix);
    if suffix != [] { assert suffix[|suffix| - 1] == s[|s| - 1]; }
    else if mid != [] { assert mid[|mid| - 1] == s[|s| - 1]; }
    else { assert s == prefix; }
  }

  lemma {:induction false} RenderFullPlain(lines: seq<Prepared>)
    requires PlainLines(lines) && Numbered(lines)
    ensures RenderFull(lines) == Flat(lines) && !AnyMarker(lines)
  {
    if lines != [] { RenderFullPlain(lines[..|lines| - 1]); }
  }

  lemma {:induction false} CutsOfStream(p: Policy, s: bytes)
    requires 0 < p.maxBytes < |s|
    ensures var cut := TwoCuts(p, s);
      |cut.prefix| + |cut.suffix| < |s| && s[..|cut.prefix|] == cut.prefix && s[|s| - |cut.suffix|..] == cut.suffix
  {
    TwoCutsFit(p, s);
    var first := TailText(s, LimitSplit(p, p.maxBytes).1);
    CutBounds(s, p.maxBytes - |first|);
    CutBounds(s, p.maxBytes - |HeadText(s, p.maxBytes - |first|)|);
  }

  /**
   With only the byte limit set, line-wise application equals the two cuts of the whole input: same text, same
   report, for every input in which no line starts with a continuation byte.
   */
  lemma {:induction false} AppliedIsStreamed(p: Policy, s: bytes)
    requires ByteOnly(p) && CleanLines(s)
    ensures Applied(p, s) == Streamed(p, s)
  {
    hide PrepareAll, LinesFrom, Flat, Render, SelectionBytes, LineCount, OuterEdges, TwoCuts, Marker, Assemble, Ids, RenderFull, Sizes, PlainLines, AnyMarker;
    var lines := PrepareAll(p, LinesFrom(s, 0));
    PrepareAllNumbered(p, LinesFrom(s, 0));
    PreparedPlain(p, s);
    if p.maxBytes <= 0 || |s| <= p.maxBytes {
      RenderFullPlain(lines);
    } else {
      EdgesAreCuts(p, lines);
      EdgesWithin(p, lines);
      OuterEdgesValid(p, lines);
      var e, cut := OuterEdges(p, lines), TwoCuts(p, s);
      ByteGap(lines, e);
      EdgeIds(lines, e);
      CutsOfStream(p, s);
      SharedLine(s, cut.prefix, cut.suffix);
    }
  }

  /**
   Valid UTF-8 loses at most three bytes of the limit, and no sequence and no CRLF pair is cut: prefix, gap and
   suffix are valid, and both cuts are safe.
   */
  lemma {:induction false} TwoCutsOfValid(p: Policy, s: bytes)
    requires ValidUtf8(s) && 0 < p.maxBytes < |s|
    ensures var cut := TwoCuts(p, s);
      && p.maxBytes - 3 <= |cut.prefix| + |cut.suffix| <= p.maxBytes
      && Safe(s, |cut.prefix|) && Safe(s, |s| - |cut.suffix|)
      && ValidUtf8(cut.prefix) && ValidUtf8(cut.suffix)
      && |cut.prefix| + |cut.suffix| < |s| && s[..|cut.prefix|] == cut.prefix && s[|s| - |cut.suffix|..] == cut.suffix
  {
    hide HeadCut, TailCut, ValidUtf8, Safe;
    ValidIsClean(s);
    TwoCutsFit(p, s);
    CutsOfStream(p, s);
    var first := TailText(s, LimitSplit(p, p.maxBytes).1);
    var headLimit := p.maxBytes - |first|;
    CutsOfValid(s, headLimit);
    HeadCutGreatest(s, headLimit);
    var prefix := HeadText(s, headLimit);
    CutsOfValid(s, p.maxBytes - |prefix|);
    TailCutLeast(s, p.maxBytes - |prefix|);
  }

  /** The same bounds for the whole application. */
  lemma {:induction false} KeptBytesOfValid(p: Policy, s: bytes)
    requires ByteOnly(p) && ValidUtf8(s) && 0 < p.maxBytes < |s|
    ensures p.maxBytes - 3 <= Applied(p, s).1.keptBytes <= p.maxBytes
  {
    hide Applied, TwoCuts, LineCount, Marker, Assemble, SelectedLines;
    ValidIsClean(s);
    AppliedIsStreamed(p, s);
    TwoCutsOfValid(p, s);
  }
}
