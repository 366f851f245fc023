/**
 * Which part of the input is kept. Without line elision the two edges are its start and its end; with only a line
 * limit they are whole lines, as many as allowed; and under every policy neither edge could take more.
 */
module OutputEdges {
  import opened Bytes
  import opened Numbers
  import opened OutputBytes
  import opened OutputByteForm
  import opened OutputCuts
  import opened OutputLimits
  import opened OutputPolicy
  import opened Sequences

  // The lines of any input.

  lemma {:induction false} JoinedIs(s: bytes, start: nat)
    requires start <= |s|
    ensures Joined(LinesFrom(s, start)) == s[start..]
    decreases |s| - start
  {
    hide NextLF, LineAt, Raw;
    if start < |s| {
      var lf := NextLF(s, start);
      NextLFIs(s, start);
      if lf < |s| {
        LineRaw(s, start, lf);
        JoinedIs(s, lf + 1);
        var rest := LinesFrom(s, lf + 1);
        assert ([LineAt(s, start, lf)] + rest)[1..] == rest;
        SliceThenRest(s, start, lf + 1);
      } else {
        WholeRest(s, start);
      }
    }
  }

  lemma {:induction false} WholeRest(s: bytes, start: nat)
    requires start <= |s|
    ensures Joined([SourceLine(s[start..], [])]) == s[start..]
  {
    assert Raw(SourceLine(s[start..], [])) == s[start..];
    assert [SourceLine(s[start..], [])][1..] == [];
  }

  /** There are as many lines as line breaks, and one more when the input does not end with one. */
  lemma {:induction false} LinesCounted(s: bytes, start: nat)
    requires start <= |s|
    ensures |LinesFrom(s, start)| == LineCount(s[start..])
    decreases |s| - start
  {
    hide NextLF, LineAt, LineCount, Newlines;
    if start == |s| {
      assert s[start..] == [];
      NoLines();
    } else {
      var lf := NextLF(s, start);
      NextLFIs(s, start);
      if lf < |s| {
        LinesCounted(s, lf + 1);
        SliceThenRest(s, start, lf + 1);
        OneLineCount(s[start..lf + 1]);
        LineCountAppend(s[start..lf + 1], s[lf + 1..]);
      } else {
        LastLineCount(s[start..]);
      }
    }
  }

  lemma {:induction false} NoLines()
    ensures LineCount([]) == 0
  {}

  lemma {:induction false} OneLineCount(line: bytes)
    requires line != [] && line[|line| - 1] == LF && forall i :: 0 <= i < |line| - 1 ==> line[i] != LF
    ensures LineCount(line) == 1
  {
    NoNewlines(line[..|line| - 1]);
  }

  lemma {:induction false} LastLineCount(line: bytes)
    requires line != [] && forall i :: 0 <= i < |line| ==> line[i] != LF
    ensures LineCount(line) == 1
  {
    NoNewlines(line);
  }

  lemma {:induction false} FlatSize(lines: seq<Prepared>)
    ensures |Flat(lines)| == Sizes(lines)
  {
    if lines != [] { FlatSize(lines[..|lines| - 1]); }
  }

  predicate Unmarked(lines: seq<Prepared>) { forall i :: 0 <= i < |lines| ==> lines[i].marker == [] }

  /** Without line elision the prepared lines are the input. */
  lemma {:induction false} PreparedWhole(p: Policy, s: bytes)
    requires p.maxLineBytes <= 0
    ensures var lines := PrepareAll(p, LinesFrom(s, 0));
      Numbered(lines) && Unmarked(lines) && Flat(lines) == s && Sizes(lines) == |s| && |lines| == LineCount(s)
  {
    hide Flat, PrepareAll, LinesFrom, Raw, LineCount, Sizes, Joined;
    var raw := LinesFrom(s, 0);
    PreparedAre(p, raw);
    JoinedIs(s, 0);
    LinesCounted(s, 0);
    FlatSize(PrepareAll(p, raw));
    assert s[0..] == s;
  }

  // The texts of the edges.

  lemma {:induction false} RenderSnoc(r: seq<Selection>, x: Selection)
    requires AllValid(r) && x.Valid()
    ensures AllValid(r + [x]) && Render(r + [x]) == Render(r) + RenderRange(x)
  {
    assert (r + [x])[..|r|] == r;
  }

  lemma {:induction false} PlainRange(x: Selection)
    requires x.Valid() && x.line.marker == []
    ensures RenderRange(x) == x.line.source[x.start..x.end]
  {
    assert x.line.source[0..|x.line.source|] == x.line.source;
  }

  lemma {:induction false} FlatSplit(lines: seq<Prepared>, i: nat)
    requires i < |lines|
    ensures Flat(lines) == Flat(lines[..i]) + lines[i].source + Flat(lines[i + 1..])
    decreases |lines|
  {
    hide Flat;
    var last := |lines| - 1;
    SplitLast(lines);
    FlatSnoc(lines[..last], lines[last]);
    if i < last {
      FlatSplit(lines[..last], i);
      assert lines[..last][..i] == lines[..i];
      var rest := lines[..last][i + 1..];
      assert lines[i + 1..] == rest + [lines[last]];
      FlatSnoc(rest, lines[last]);
      Assoc(Flat(lines[..i]) + lines[i].source, Flat(rest), lines[last].source);
    } else {
      FlatNothing(lines);
    }
  }

  lemma {:induction false} FlatNothing(lines: seq<Prepared>)
    requires lines != []
    ensures Flat(lines[|lines|..]) == [] && Flat(lines[..|lines| - 1]) + lines[|lines| - 1].source + [] == Flat(lines[..|lines| - 1]) + lines[|lines| - 1].source
  {}

  /** The head's text is the start of the lines. */
  lemma {:induction false} HeadIsStart(lines: seq<Prepared>, r: seq<Selection>)
    requires IsHead(lines, r) && AllValid(r) && Unmarked(lines)
    ensures |Render(r)| == SelectionBytes(r) <= |Flat(lines)| && Render(r) == Flat(lines)[..SelectionBytes(r)]
    ensures r != [] ==> Render(r) == Flat(lines[..|r| - 1]) + lines[|r| - 1].source[..r[|r| - 1].end]
    decreases |r|
  {
    hide Flat, Render, RenderRange, SelectionBytes, Sizes;
    FlatSize(lines);
    if r == [] {
      NothingSelected(lines);
    } else {
      var k := |r| - 1;
      SplitLast(r);
      assert IsHead(lines, r[..k]);
      HeadIsStart(lines, r[..k]);
      RenderSnoc(r[..k], r[k]);
      PlainRange(r[k]);
      SelectionBytesSnoc(r[..k], r[k]);
      FlatSplit(lines, k);
      if k > 0 {
        SplitLast(lines[..k]);
        assert lines[..k][..k - 1] == lines[..k - 1];
        FlatSnoc(lines[..k - 1], lines[k - 1]);
      } else {
        NothingSelected(lines);
      }
      StartOf(Flat(lines[..k]), lines[k].source, Flat(lines[k + 1..]), r[k].end);
    }
  }

  lemma {:induction false} NothingSelected(lines: seq<Prepared>)
    ensures Render([]) == [] && SelectionBytes([]) == 0 && Flat(lines[..0]) == [] && Flat([]) == []
  {}

  lemma {:induction false} StartOf(a: bytes, b: bytes, c: bytes, e: nat)
    requires e <= |b|
    ensures a + b[..e] == (a + b + c)[..|a| + e]
  {}

  lemma {:induction false} EndOf(a: bytes, b: bytes, c: bytes, e: nat)
    requires e <= |b|
    ensures b[e..] + c == (a + b + c)[|a| + e..]
  {}

  lemma {:induction false} LastOfTail(lines: seq<Prepared>, r: seq<Selection>)
    requires IsTail(lines, r) && AllValid(r) && Unmarked(lines) && r != []
    ensures lines != [] && IsTail(lines[..|lines| - 1], r[..|r| - 1]) && AllValid(r[..|r| - 1]) && Unmarked(lines[..|lines| - 1])
    ensures var x := r[|r| - 1];
      && x.Valid() && x.line == lines[|lines| - 1] && x.line.marker == [] && x.end == |x.line.source|
      && (|r| > 1 ==> x.start == 0)
  {}

  lemma {:induction false} NoEnd(s: bytes)
    ensures s[|s|..] == []
  {}

  /** The tail's text is their end. */
  lemma {:induction false} TailIsEnd(lines: seq<Prepared>, r: seq<Selection>)
    requires IsTail(lines, r) && AllValid(r) && Unmarked(lines)
    ensures |Render(r)| == SelectionBytes(r) <= |Flat(lines)| && Render(r) == Flat(lines)[|Flat(lines)| - SelectionBytes(r)..]
    decreases |r|
  {
    hide Flat, Render, RenderRange, SelectionBytes, IsTail, AllValid, Unmarked;
    NothingSelected(lines);
    if r == [] {
      NoEnd(Flat(lines));
    } else {
      LastOfTail(lines, r);
      var init, front, x := lines[..|lines| - 1], r[..|r| - 1], r[|r| - 1];
      SplitLast(r);
      SplitLast(lines);
      TailIsEnd(init, front);
      RenderSnoc(front, x);
      PlainRange(x);
      SelectionBytesSnoc(front, x);
      FlatSnoc(init, x.line);
      assert |r| == 1 ==> front == [];
      EndAppend(Flat(init), x.line.source, SelectionBytes(front), x.start);
    }
  }

  lemma {:induction false} EndAppend(a: bytes, b: bytes, kept: nat, e: nat)
    requires kept <= |a| && e <= |b| && (kept > 0 ==> e == 0)
    ensures a[|a| - kept..] + b[e..] == (a + b)[|a + b| - (kept + |b| - e)..]
  {}

  // Only a line limit.

  function Whole(lines: seq<Prepared>): seq<Selection> { seq(|lines|, i requires 0 <= i < |lines| => Selection(lines[i], 0, lines[i].Size())) }

  lemma {:induction false} HeadTakes(a: Allowance, lines: seq<Prepared>, h: nat)
    requires !a.useBytes && a.useLines && a.lines == h <= |lines|
    requires forall i :: 0 <= i <= h && i < |lines| ==> lines[i].id !in a.occupied
    ensures SelectHead(a, lines) == Whole(lines[..h])
    decreases h
  {
    if h > 0 {
      var line, rest := lines[0], lines[1..];
      HeadTakes(a.Consume(line, line.Size()), rest, h - 1);
      assert lines[..h] == [line] + rest[..h - 1];
      assert Whole(lines[..h]) == [Selection(line, 0, line.Size())] + Whole(rest[..h - 1]);
    }
  }

  lemma {:induction false} TailTakes(a: Allowance, lines: seq<Prepared>, t: nat)
    requires !a.useBytes && a.useLines && a.lines == t <= |lines|
    requires forall i :: |lines| - t - 1 <= i < |lines| && 0 <= i ==> lines[i].id !in a.occupied
    ensures SelectTail(a, lines) == Whole(lines[|lines| - t..])
    decreases t
  {
    HeadOfNothing(a);
    hide SelectTail, Whole;
    var n := |lines|;
    if n > 0 {
      TailStep(a, lines, n);
      assert lines[..n] == lines;
    }
    if t > 0 {
      var line, init := lines[n - 1], lines[..n - 1];
      TailTakes(a.Consume(line, line.Size()), init, t - 1);
      WholeSnoc(init, t - 1, line);
      assert lines == init + [line];
    }
    NoneWhole(lines);
  }

  lemma {:induction false} WholeSnoc(init: seq<Prepared>, t: nat, line: Prepared)
    requires t <= |init|
    ensures Whole((init + [line])[|init| - t..]) == Whole(init[|init| - t..]) + [Selection(line, 0, line.Size())]
  {
    assert (init + [line])[|init| - t..] == init[|init| - t..] + [line];
  }

  lemma {:induction false} NoneWhole(lines: seq<Prepared>)
    ensures Whole(lines[|lines|..]) == []
  {}

  lemma {:induction false} WholeShapes(lines: seq<Prepared>, h: nat, t: nat)
    requires h <= |lines| && t <= |lines|
    ensures IsHead(lines, Whole(lines[..h])) && IsTail(lines, Whole(lines[|lines| - t..]))
    ensures |Whole(lines[..h])| == h && |Whole(lines[|lines| - t..])| == t
  {}

  /** With only a line limit, its head share of whole lines is kept at the start, the rest of it at the end. */
  lemma {:induction false} LinesOnly(p: Policy, lines: seq<Prepared>)
    requires Numbered(lines) && p.maxBytes <= 0 && 0 < p.maxLines < |lines|
    ensures var h := Max(0, Min(p.headShare(p.maxLines), p.maxLines));
      var e := OuterEdges(p, lines);
      && e.head == Whole(lines[..h]) && e.tail == Whole(lines[|lines| - (p.maxLines - h)..])
      && |Ids(e.head) + Ids(e.tail)| == p.maxLines
  {
    hide SelectHead, SelectTail, Ids, Whole, Numbered, Below, IsHead, IsTail, SelectionBytes;
    var n := |lines|;
    var h, t := LimitSplit(p, p.maxLines).0, LimitSplit(p, p.maxLines).1;
    WholeShapes(lines, h, t);
    NumberedIds(lines);
    NoIds();
    HeadIds(lines, Whole(lines[..h]));
    TailIds(lines, Whole(lines[n - t..]));
    CountBelow(h);
    CountBelow(n);
    CountBelow(n - t);
    UnionCount(n, 0, t);
    UnionCount(n, h, t);
    assert Below(0) == {} && Below(0) + (Below(n) - Below(n - t)) == Below(n) - Below(n - t) by { CountBelow(0); }
    TailTakes(NewAllowance(LimitSplit(p, p.maxBytes).1, t, false, true, []), lines, t);
    var first := Whole(lines[n - t..]);
    HeadTakes(NewAllowance(p.maxBytes, p.maxLines, false, true, first), lines, h);
    var head := Whole(lines[..h]);
    TailTakes(NewAllowance(p.maxBytes, p.maxLines, false, true, head), lines, t);
  }

  lemma {:induction false} NumberedIds(lines: seq<Prepared>)
    requires Numbered(lines)
    ensures forall i :: 0 <= i < |lines| ==> lines[i].id == i
  {}

  /** A line of the input ends at its first line break; only the last may have none. */
  predicate Broken(sources: seq<bytes>) {
    && (forall i :: 0 <= i < |sources| ==> RawLine(sources[i]))
    && (forall i :: 0 <= i < |sources| - 1 ==> sources[i][|sources[i]| - 1] == LF)
  }

  function RawAll(lines: seq<SourceLine>): seq<bytes> { seq(|lines|, i requires 0 <= i < |lines| => Raw(lines[i])) }

  lemma {:induction false} LinesAreBroken(s: bytes, start: nat)
    requires start <= |s|
    ensures Broken(RawAll(LinesFrom(s, start)))
    decreases |s| - start
  {
    hide NextLF, LineAt, Raw, RawLine;
    if start < |s| {
      var lf := NextLF(s, start);
      NextLFIs(s, start);
      if lf < |s| {
        var line, rest := LineAt(s, start, lf), LinesFrom(s, lf + 1);
        LineRaw(s, start, lf);
        LinesAreBroken(s, lf + 1);
        assert RawAll([line] + rest) == [Raw(line)] + RawAll(rest);
        BrokenCons(Raw(line), RawAll(rest));
      } else {
        LastRaw(s, start);
      }
    }
  }

  lemma {:induction false} BrokenCons(line: bytes, rest: seq<bytes>)
    requires Broken(rest) && line != [] && line[|line| - 1] == LF && forall k :: 0 <= k < |line| - 1 ==> line[k] != LF
    ensures Broken([line] + rest)
  {}

  lemma {:induction false} LastRaw(s: bytes, start: nat)
    requires start < |s| && forall k :: start <= k < |s| ==> s[k] != LF
    ensures Broken(RawAll([SourceLine(s[start..], [])]))
  {
    assert Raw(SourceLine(s[start..], [])) == s[start..];
  }

  predicate Lined(lines: seq<Prepared>) {
    && (forall i :: 0 <= i < |lines| ==> RawLine(lines[i].source))
    && (forall i :: 0 <= i < |lines| - 1 ==> lines[i].source[|lines[i].source| - 1] == LF)
  }

  lemma {:induction false} PreparedLined(p: Policy, s: bytes)
    requires p.maxLineBytes <= 0
    ensures Lined(PrepareAll(p, LinesFrom(s, 0)))
  {
    hide Raw, RawLine, PrepareAll, LinesFrom;
    var raw := LinesFrom(s, 0);
    LinesAreBroken(s, 0);
    PreparedAre(p, raw);
    var lines := PrepareAll(p, raw);
    forall i | 0 <= i < |lines| ensures lines[i].source == RawAll(raw)[i] {}
  }

  lemma {:induction false} FlatLineCount(lines: seq<Prepared>)
    requires Lined(lines)
    ensures LineCount(Flat(lines)) == |lines|
    ensures lines != [] ==> Flat(lines) != [] && Flat(lines)[|Flat(lines)| - 1] == lines[|lines| - 1].source[|lines[|lines| - 1].source| - 1]
  {
    hide LineCount;
    NoLines();
    if lines != [] {
      var init, last := lines[..|lines| - 1], lines[|lines| - 1];
      FlatLineCount(init);
      LineCountAppend(Flat(init), last.source);
      RawLineCount(last.source);
    }
  }

  lemma {:induction false} RawLineCount(line: bytes)
    requires RawLine(line)
    ensures LineCount(line) == 1
  {
    if line[|line| - 1] == LF { OneLineCount(line); } else { LastLineCount(line); }
  }

  lemma {:induction false} WholeHeadBytes(lines: seq<Prepared>, h: nat)
    requires h <= |lines|
    ensures SelectionBytes(Whole(lines[..h])) == Sizes(lines[..h])
  {
    if h > 0 {
      WholeHeadBytes(lines, h - 1);
      var front := Whole(lines[..h - 1]);
      assert Whole(lines[..h]) == front + [Selection(lines[h - 1], 0, lines[h - 1].Size())];
      SelectionBytesSnoc(front, Selection(lines[h - 1], 0, lines[h - 1].Size()));
      assert lines[..h][..h - 1] == lines[..h - 1];
    }
  }

  lemma {:induction false} FlatAppend(a: seq<Prepared>, b: seq<Prepared>)
    ensures Flat(a + b) == Flat(a) + Flat(b)
  {
    if b == [] {
      assert a + b == a;
    } else {
      assert (a + b)[..|a + b| - 1] == a + b[..|b| - 1];
      FlatAppend(a, b[..|b| - 1]);
      Assoc(Flat(a), Flat(b[..|b| - 1]), b[|b| - 1].source);
    }
  }

  /** The start is cut behind the line break of line `h`, the end before line `t` from the back. */
  lemma {:induction false} FlatCutAtLine(lines: seq<Prepared>, k: nat)
    requires Lined(lines) && k <= |lines|
    ensures Flat(lines) == Flat(lines[..k]) + Flat(lines[k..])
    ensures LineCount(Flat(lines[..k])) == k && LineCount(Flat(lines[k..])) == |lines| - k
    ensures 0 < k < |lines| ==> Flat(lines[..k]) != [] && Flat(lines[..k])[|Flat(lines[..k])| - 1] == LF
  {
    hide Flat, LineCount, RawLine;
    assert lines == lines[..k] + lines[k..];
    FlatAppend(lines[..k], lines[k..]);
    FlatLineCount(lines[..k]);
    FlatLineCount(lines[k..]);
  }

  /** `text` is the first `count` lines of `s`, with their line breaks. */
  predicate FirstLines(s: bytes, text: bytes, count: nat) {
    text <= s && LineCount(text) == count && (count > 0 ==> text[|text| - 1] == LF)
  }

  /** `text` is the last `count` lines of `s`. */
  predicate LastLines(s: bytes, text: bytes, count: nat) {
    |text| <= |s| && text == s[|s| - |text|..] && LineCount(text) == count && (0 < |text| < |s| ==> s[|s| - |text| - 1] == LF)
  }

  lemma {:induction false} WholeAreValid(lines: seq<Prepared>)
    requires Numbered(lines)
    ensures AllValid(Whole(lines))
  {}

  lemma {:induction false} HeadLines(lines: seq<Prepared>, h: nat)
    requires Numbered(lines) && Unmarked(lines) && Lined(lines) && h < |lines|
    ensures AllValid(Whole(lines[..h])) && FirstLines(Flat(lines), Render(Whole(lines[..h])), h)
  {
    WholeShapes(lines, h, 0);
    WholeAreValid(lines[..h]);
    hide Flat, LineCount, Render, SelectionBytes, Sizes, Whole, Lined, IsHead, IsTail, Unmarked, AllValid;
    HeadIsStart(lines, Whole(lines[..h]));
    WholeHeadBytes(lines, h);
    FlatSize(lines[..h]);
    FlatCutAtLine(lines, h);
    StartIs(Flat(lines[..h]), Flat(lines[h..]));
  }

  lemma {:induction false} TailLines(lines: seq<Prepared>, t: nat)
    requires Numbered(lines) && Unmarked(lines) && Lined(lines) && t <= |lines|
    ensures AllValid(Whole(lines[|lines| - t..])) && LastLines(Flat(lines), Render(Whole(lines[|lines| - t..])), t)
  {
    var k := |lines| - t;
    WholeShapes(lines, 0, t);
    WholeFromIsValid(lines, k);
    hide Flat, LineCount, Render, SelectionBytes, Sizes, Whole, Lined, IsHead, IsTail, Unmarked, AllValid;
    TailIsEnd(lines, Whole(lines[k..]));
    WholeTailBytes(lines, k);
    FlatSize(lines[k..]);
    FlatCutAtLine(lines, k);
    EndIs(Flat(lines[..k]), Flat(lines[k..]));
    NoLines();
    if t == 0 { WholeNothing(lines); }
  }

  lemma {:induction false} WholeFromIsValid(lines: seq<Prepared>, k: nat)
    requires Numbered(lines) && k <= |lines|
    ensures AllValid(Whole(lines[k..]))
  {}

  lemma {:induction false} WholeNothing(lines: seq<Prepared>)
    ensures Whole(lines[|lines|..]) == [] && Render([]) == []
  {}

  /** The two edges of a line limit alone, as texts of the input. */
  lemma {:induction false} LinesOnlyText(p: Policy, s: bytes)
    requires p.maxLineBytes <= 0 && p.maxBytes <= 0 && 0 < p.maxLines < LineCount(s)
    ensures var h := Max(0, Min(p.headShare(p.maxLines), p.maxLines));
      var lines := PrepareAll(p, LinesFrom(s, 0));
      var e := OuterEdges(p, lines);
      && AllValid(e.head) && AllValid(e.tail)
      && FirstLines(s, Render(e.head), h) && LastLines(s, Render(e.tail), p.maxLines - h)
      && Applied(p, s).1.keptLines == p.maxLines && Applied(p, s).1.reason == ByLines
  {
    hide Flat, LineCount, Render, SelectionBytes, Sizes, PrepareAll, LinesFrom, OuterEdges, Whole, Ids, Marker, Assemble, Lined, FirstLines, LastLines, AllValid;
    var lines := PrepareAll(p, LinesFrom(s, 0));
    var h := Max(0, Min(p.headShare(p.maxLines), p.maxLines));
    PreparedWhole(p, s);
    PreparedLined(p, s);
    LinesOnly(p, lines);
    HeadLines(lines, h);
    TailLines(lines, p.maxLines - h);
  }

  lemma {:induction false} StartIs(a: bytes, b: bytes)
    ensures (a + b)[..|a|] == a && a <= a + b
  {}

  lemma {:induction false} EndIs(a: bytes, b: bytes)
    ensures (a + b)[|a + b| - |b|..] == b && (a != [] ==> (a + b)[|a + b| - |b| - 1] == a[|a| - 1])
  {}

  lemma {:induction false} WholeTailBytes(lines: seq<Prepared>, k: nat)
    requires k <= |lines|
    ensures SelectionBytes(Whole(lines[k..])) == Sizes(lines[k..])
  {
    assert lines[k..][..|lines[k..]|] == lines[k..];
    WholeHeadBytes(lines[k..], |lines[k..]|);
  }
}
