/**
 Byte-only truncation. Selecting line by line comes to the same as cutting the whole input twice, provided no line
 starts with a continuation byte; valid UTF-8 always qualifies.
 */
module OutputBytes {
  import opened Bytes
  import opened OutputCuts
  import opened OutputPolicy
  import opened OutputLimits
  import opened Sequences

  /** Only the byte limit and the head share are set. */
  predicate ByteOnly(p: Policy) { p.maxLines == 0 && p.maxLineBytes == 0 }

  function Newlines(s: bytes): nat {
    if s == [] then 0 else Newlines(s[..|s| - 1]) + (if s[|s| - 1] == LF then 1 else 0)
  }

  /** Logical lines: line breaks, and a last line without one. */
  function LineCount(s: bytes): nat {
    Newlines(s) + (if s != [] && s[|s| - 1] != LF then 1 else 0)
  }

  lemma {:induction false} NewlinesAppend(a: bytes, b: bytes)
    ensures Newlines(a + b) == Newlines(a) + Newlines(b)
  {
    if b == [] {
      assert a + b == a;
    } else {
      assert (a + b)[..|a + b| - 1] == a + b[..|b| - 1];
      NewlinesAppend(a, b[..|b| - 1]);
    }
  }

  lemma {:induction false} NoNewlines(s: bytes)
    requires forall i :: 0 <= i < |s| ==> s[i] != LF
    ensures Newlines(s) == 0
  {
    if s != [] { NoNewlines(s[..|s| - 1]); }
  }

  lemma {:induction false} LineCountAppend(a: bytes, b: bytes)
    requires b == [] || a == [] || a[|a| - 1] == LF
    ensures LineCount(a + b) == LineCount(a) + LineCount(b)
  {
    NewlinesAppend(a, b);
    if b == [] { assert a + b == a; } else { assert (a + b)[|a + b| - 1] == b[|b| - 1]; }
  }

  // ---------------------------------------------------------------------------------------------
  // Lines without elision.
  // ---------------------------------------------------------------------------------------------

  function Flat(lines: seq<Prepared>): bytes {
    if lines == [] then [] else Flat(lines[..|lines| - 1]) + lines[|lines| - 1].source
  }

  lemma {:induction false} FlatSnoc(lines: seq<Prepared>, last: Prepared)
    ensures Flat(lines + [last]) == Flat(lines) + last.source
  {
    assert (lines + [last])[..|lines|] == lines;
  }

  lemma {:induction false} FlatCons(first: Prepared, lines: seq<Prepared>)
    ensures Flat([first] + lines) == first.source + Flat(lines)
  {
    if lines == [] {
      assert [first] + lines == [first] && [first][..0] == [];
    } else {
      var init, last := lines[..|lines| - 1], lines[|lines| - 1];
      SplitLast(lines);
      Assoc([first], init, [last]);
      FlatSnoc([first] + init, last);
      FlatCons(first, init);
      FlatSnoc(init, last);
      Assoc(first.source, Flat(init), last.source);
    }
  }

  /** One line: not empty, no marker, a line break only at its end. */
  predicate PlainLine(line: Prepared) {
    && line.source != [] && line.marker == [] && line.Valid()
    && forall k :: 0 <= k < |line.source| - 1 ==> line.source[k] != LF
  }

  predicate EndsInLF(line: Prepared) { line.source != [] && line.source[|line.source| - 1] == LF }

  /** All lines plain, all but the last broken, none but the first starting with a continuation byte. */
  predicate PlainLines(lines: seq<Prepared>) {
    && (forall i :: 0 <= i < |lines| ==> PlainLine(lines[i]))
    && (forall i :: 0 <= i < |lines| - 1 ==> EndsInLF(lines[i]))
    && (forall i :: 0 < i < |lines| ==> !IsContinuation(lines[i].source[0]))
  }

  lemma {:induction false} PlainCount(line: Prepared)
    requires PlainLine(line)
    ensures LineCount(line.source) == 1
    ensures forall e :: 0 < e < |line.source| ==> LineCount(line.source[..e]) == 1
    ensures forall b :: 0 <= b < |line.source| ==> LineCount(line.source[b..]) == 1
  {
    var s := line.source;
    var k := |s| - 1;
    NoNewlines(s[..k]);
    forall e | 0 < e < |s| ensures LineCount(s[..e]) == 1 { NoNewlines(s[..e]); }
    forall b | 0 <= b < |s| ensures LineCount(s[b..]) == 1 {
      assert s[b..][..k - b] == s[b..k];
      NoNewlines(s[b..k]);
    }
  }

  // ---------------------------------------------------------------------------------------------
  // Cuts of a concatenation at a line break.
  // ---------------------------------------------------------------------------------------------

  /** `a` ends where a line ends and `b` starts cleanly. */
  predicate Seam(a: bytes, b: bytes) {
    a == [] || b == [] || (a[|a| - 1] == LF && !IsContinuation(b[0]))
  }

  lemma {:induction false} SafeAcross(a: bytes, b: bytes, k: nat)
    requires Seam(a, b) && k <= |a + b|
    ensures k <= |a| ==> (Safe(a + b, k) <==> Safe(a, k))
    ensures k >= |a| ==> (Safe(a + b, k) <==> Safe(b, k - |a|))
  {
    var s := a + b;
    if a == [] { assert s == b; } else if b == [] { assert s == a; }
    else if k < |a| { assert s[k] == a[k]; }
    else if k < |s| { assert s[k] == b[k - |a|]; if k > |a| { assert s[k - 1] == b[k - 1 - |a|]; } }
  }

  lemma {:induction false} HeadCutAcross(a: bytes, b: bytes, limit: nat)
    requires Seam(a, b)
    ensures HeadCut(a + b, limit) == if limit < |a| then HeadCut(a, limit) else |a| + HeadCut(b, limit - |a|)
  {
    hide HeadCut, Safe;
    var s := a + b;
    forall k: nat | k <= |s|
      ensures k <= |a| ==> (Safe(s, k) <==> Safe(a, k))
      ensures k >= |a| ==> (Safe(s, k) <==> Safe(b, k - |a|))
    {
      SafeAcross(a, b, k);
    }
    if limit < |a| {
      HeadCutIs(a, limit, HeadCut(a, limit));
      HeadCutIs(s, limit, HeadCut(a, limit));
    } else {
      var c := HeadCut(b, limit - |a|);
      HeadCutIs(b, limit - |a|, c);
      HeadCutIs(s, limit, |a| + c);
    }
  }

  lemma {:induction false} TailCutAcross(a: bytes, b: bytes, limit: nat)
    requires Seam(a, b) && CleanLines(a) && CleanLines(b) && CleanLines(a + b)
    ensures TailCut(a + b, limit) == if limit < |b| then |a| + TailCut(b, limit) else TailCut(a, limit - |b|)
  {
    hide TailCut, Safe, CleanLines;
    var s := a + b;
    forall k: nat | k <= |s|
      ensures k <= |a| ==> (Safe(s, k) <==> Safe(a, k))
      ensures k >= |a| ==> (Safe(s, k) <==> Safe(b, k - |a|))
    {
      SafeAcross(a, b, k);
    }
    if limit < |b| {
      var c := TailCut(b, limit);
      TailCutIs(b, limit, c);
      TailCutIs(s, limit, |a| + c);
    } else {
      var c := TailCut(a, limit - |b|);
      TailCutIs(a, limit - |b|, c);
      TailCutIs(s, limit, c);
    }
  }

  // ---------------------------------------------------------------------------------------------
  // Selecting by lines is cutting the text.
  // ---------------------------------------------------------------------------------------------

  lemma {:induction false} RenderSnoc(r: seq<Selection>, x: Selection)
    requires AllValid(r) && x.Valid()
    ensures AllValid(r + [x]) && Render(r + [x]) == Render(r) + RenderRange(x)
  {
    assert (r + [x])[..|r|] == r;
  }

  lemma {:induction false} RenderCons(x: Selection, r: seq<Selection>)
    requires AllValid(r) && x.Valid()
    ensures AllValid([x] + r) && Render([x] + r) == RenderRange(x) + Render(r)
  {
    hide RenderRange;
    if r == [] {
      assert [x] + r == [] + [x];
      RenderSnoc([], x);
    } else {
      hide Render;
      var init, last := r[..|r| - 1], r[|r| - 1];
      SplitLast(r);
      Assoc([x], init, [last]);
      RenderCons(x, init);
      RenderSnoc([x] + init, last);
      RenderSnoc(init, last);
      Assoc(RenderRange(x), Render(init), RenderRange(last));
    }
  }

  /** Allowances of the byte-only form. */
  predicate BytesLeft(a: Allowance) { a.useBytes && !a.useLines && a.bytes >= 0 }

  ghost predicate HeadIsCut(a: Allowance, lines: seq<Prepared>) {
    var r, s := SelectHead(a, lines), Flat(lines);
    var c := HeadCut(s, a.bytes);
    c <= |s| && AllValid(r) && Render(r) == s[..c] && SelectionBytes(r) == c && |r| == LineCount(s[..c])
  }

  lemma {:induction false} SelectHeadIsCut(a: Allowance, lines: seq<Prepared>)
    requires PlainLines(lines) && BytesLeft(a)
    ensures HeadIsCut(a, lines)
    decreases |lines|
  {
    hide HeadIsCut, PlainLine, HeadCut;
    if lines == [] || a.bytes == 0 {
      NothingHead(a, lines);
    } else {
      var line, rest := lines[0], lines[1..];
      if a.bytes < |line.source| {
        PartialHead(a, lines);
      } else {
        SelectHeadIsCut(a.Consume(line, line.Size()), rest);
        PlainNotEmpty(line);
        WholeHead(a, line, rest);
        assert lines == [line] + rest;
      }
    }
  }

  lemma {:induction false} NothingHead(a: Allowance, lines: seq<Prepared>)
    requires PlainLines(lines) && BytesLeft(a) && (lines == [] || a.bytes == 0)
    ensures HeadIsCut(a, lines)
  {
    assert Flat(lines)[..0] == [];
  }

  lemma {:induction false} FlatFirst(line: Prepared, rest: seq<Prepared>)
    requires PlainLines([line] + rest)
    ensures Flat([line] + rest) == line.source + Flat(rest)
    ensures PlainLine(line) && PlainLines(rest) && Seam(line.source, Flat(rest))
  {
    hide PlainLine, Flat;
    var lines := [line] + rest;
    FlatCons(line, rest);
    assert lines[0] == line;
    forall i | 0 <= i < |rest| ensures rest[i] == lines[i + 1] {}
    if rest == [] {
      FlatNothing();
    } else {
      PlainNotEmpty(rest[0]);
      assert EndsInLF(lines[0]) && !IsContinuation(lines[1].source[0]);
      FlatStart(rest);
    }
  }

  lemma {:induction false} FlatNothing()
    ensures Flat([]) == []
  {}

  lemma {:induction false} FlatStart(lines: seq<Prepared>)
    requires lines != [] && lines[0].source != []
    ensures Flat(lines) != [] && Flat(lines)[0] == lines[0].source[0]
  {
    hide Flat;
    assert lines == [lines[0]] + lines[1..];
    FlatCons(lines[0], lines[1..]);
  }

  lemma {:induction false} PlainNotEmpty(line: Prepared)
    requires PlainLine(line)
    ensures line.source != [] && line.marker == [] && line.Valid()
  {}

  lemma {:induction false} PartialHead(a: Allowance, lines: seq<Prepared>)
    requires PlainLines(lines) && BytesLeft(a) && lines != [] && 0 < a.bytes < |lines[0].source|
    ensures HeadIsCut(a, lines)
  {
    hide Flat, HeadCut, Safe, Newlines, LineCount, Render;
    var line, rest := lines[0], lines[1..];
    assert lines == [line] + rest;
    FlatFirst(line, rest);
    HeadCutAcross(line.source, Flat(rest), a.bytes);
    CutBounds(line.source, a.bytes);
    PlainCount(line);
    var end := HeadCut(line.source, a.bytes);
    assert HeadPart(a, line) == end;
    assert Flat(lines)[..end] == line.source[..end];
    if end == 0 {
      assert SelectHead(a, lines) == [];
      NothingRendered();
    } else {
      var x := Selection(line, 0, end);
      assert SelectHead(a, lines) == [x];
      RenderOne(x);
      assert RenderRange(x) == line.source[..end];
    }
  }

  lemma {:induction false} NothingRendered()
    ensures Render([]) == [] && SelectionBytes([]) == 0 && LineCount([]) == 0
  {}

  lemma {:induction false} RenderOne(x: Selection)
    requires x.Valid()
    ensures AllValid([x]) && Render([x]) == RenderRange(x) && SelectionBytes([x]) == x.Size()
  {
    assert [x][..0] == [];
  }

  lemma {:induction false} PrefixAcross(a: bytes, b: bytes, c: nat)
    requires c <= |b|
    ensures (a + b)[..|a| + c] == a + b[..c]
  {}

  lemma {:induction false} SuffixAcross(a: bytes, b: bytes, c: nat)
    requires c <= |a|
    ensures (a + b)[c..] == a[c..] + b
  {}

  lemma {:induction false} HeadWhole(a: Allowance, line: Prepared, rest: seq<Prepared>)
    requires BytesLeft(a) && 0 < |line.source| <= a.bytes
    ensures SelectHead(a, [line] + rest) == [Selection(line, 0, line.Size())] + SelectHead(a.Consume(line, line.Size()), rest)
  {
    assert ([line] + rest)[0] == line && ([line] + rest)[1..] == rest;
  }

  lemma {:induction false} WholeHead(a: Allowance, line: Prepared, rest: seq<Prepared>)
    requires PlainLines([line] + rest) && BytesLeft(a) && 0 < |line.source| <= a.bytes
    requires HeadIsCut(a.Consume(line, line.Size()), rest)
    ensures HeadIsCut(a, [line] + rest)
  {
    hide Flat, HeadCut, Safe, Newlines, LineCount, Render, SelectHead, PlainLine, PlainLines;
    var b, x := a.Consume(line, line.Size()), Selection(line, 0, line.Size());
    var r, c := SelectHead(b, rest), HeadCut(Flat(rest), b.bytes);
    FlatFirst(line, rest);
    HeadCutAcross(line.source, Flat(rest), a.bytes);
    HeadWhole(a, line, rest);
    PlainNotEmpty(line);
    RenderCons(x, r);
    SelectionBytesCons(x, r);
    PrefixAcross(line.source, Flat(rest), c);
    PlainCount(line);
    LineCountAppend(line.source, Flat(rest)[..c]);
  }

  ghost predicate TailIsCut(a: Allowance, lines: seq<Prepared>) {
    var r, s := SelectTail(a, lines), Flat(lines);
    var c := TailCut(s, a.bytes);
    c <= |s| && AllValid(r) && Render(r) == s[c..] && SelectionBytes(r) == |s| - c && |r| == LineCount(s[c..])
  }

  lemma {:induction false} PlainFlat(lines: seq<Prepared>)
    requires PlainLines(lines)
    ensures CleanLines(Flat(lines)) && |lines| == LineCount(Flat(lines)) && |Flat(lines)| == Sizes(lines)
    ensures lines != [] ==> Flat(lines) != [] && Flat(lines)[|Flat(lines)| - 1] == lines[|lines| - 1].source[|lines[|lines| - 1].source| - 1]
  {
    if lines != [] {
      hide Newlines, LineCount;
      var init, last := lines[..|lines| - 1], lines[|lines| - 1];
      PlainFlat(init);
      PlainCount(last);
      if init != [] { assert EndsInLF(lines[|lines| - 2]); }
      LineCountAppend(Flat(init), last.source);
      CleanAcross(Flat(init), last.source);
    }
  }

  lemma {:induction false} CleanAcross(a: bytes, b: bytes)
    requires CleanLines(a) && (forall k :: 0 <= k < |b| - 1 ==> b[k] != LF) && Seam(a, b)
    ensures CleanLines(a + b)
  {
    var s := a + b;
    forall i | 0 < i < |s| && IsContinuation(s[i]) ensures s[i - 1] != LF {
      if i < |a| { assert s[i] == a[i]; } else if i > |a| { assert s[i - 1] == b[i - 1 - |a|]; }
    }
  }

  lemma {:induction false} SelectTailIsCut(a: Allowance, lines: seq<Prepared>)
    requires PlainLines(lines) && BytesLeft(a)
    ensures TailIsCut(a, lines)
    decreases |lines|
  {
    hide TailIsCut, PlainLine, TailCut;
    if lines == [] || a.bytes == 0 {
      NothingTail(a, lines);
    } else {
      var init, line := lines[..|lines| - 1], lines[|lines| - 1];
      SplitLast(lines);
      if a.bytes < |line.source| {
        PartialTail(a, init, line);
      } else {
        SelectTailIsCut(a.Consume(line, line.Size()), init);
        PlainNotEmpty(line);
        WholeTail(a, init, line);
      }
    }
  }

  lemma {:induction false} NothingTail(a: Allowance, lines: seq<Prepared>)
    requires PlainLines(lines) && BytesLeft(a) && (lines == [] || a.bytes == 0)
    ensures TailIsCut(a, lines)
  {
    assert Flat(lines)[|Flat(lines)|..] == [];
  }

  lemma {:induction false} FlatLast(init: seq<Prepared>, line: Prepared)
    requires PlainLines(init + [line])
    ensures Flat(init + [line]) == Flat(init) + line.source
    ensures PlainLine(line) && PlainLines(init) && Seam(Flat(init), line.source)
    ensures CleanLines(Flat(init)) && CleanLines(line.source) && CleanLines(Flat(init) + line.source)
  {
    hide PlainLine, CleanLines;
    var lines := init + [line];
    FlatSnoc(init, line);
    assert lines[|init|] == line;
    forall i | 0 <= i < |init| ensures init[i] == lines[i] {}
    PlainFlat(lines);
    PlainFlat(init);
    if init != [] { assert EndsInLF(lines[|init| - 1]); }
    OneLineClean(line);
  }

  lemma {:induction false} OneLineClean(line: Prepared)
    requires PlainLine(line)
    ensures CleanLines(line.source)
  {}

  lemma {:induction false} PartialTail(a: Allowance, init: seq<Prepared>, line: Prepared)
    requires PlainLines(init + [line]) && BytesLeft(a) && 0 < a.bytes < |line.source|
    ensures TailIsCut(a, init + [line])
  {
    hide Flat, TailCut, Safe, Newlines, LineCount, Render, CleanLines, PlainLines, PlainLine, SelectTail;
    var lines := init + [line];
    FlatLast(init, line);
    TailCutAcross(Flat(init), line.source, a.bytes);
    CutBounds(line.source, a.bytes);
    PlainCount(line);
    PlainNotEmpty(line);
    var start := TailCut(line.source, a.bytes);
    assert TailPart(a, line) == start && 0 < start;
    assert Flat(lines)[|Flat(init)| + start..] == line.source[start..];
    TailPartial(a, init, line);
    if start == line.Size() {
      assert line.source[start..] == [];
      NothingRendered();
    } else {
      var x := Selection(line, start, line.Size());
      RenderOne(x);
      assert RenderRange(x) == line.source[start..];
    }
  }

  lemma {:induction false} TailPartial(a: Allowance, init: seq<Prepared>, line: Prepared)
    requires BytesLeft(a) && 0 < a.bytes < |line.source| && TailPart(a, line) > 0
    ensures SelectTail(a, init + [line]) ==
      if TailPart(a, line) == line.Size() then [] else [Selection(line, TailPart(a, line), line.Size())]
  {
    hide TailPart;
  }

  lemma {:induction false} TailWhole(a: Allowance, init: seq<Prepared>, line: Prepared)
    requires BytesLeft(a) && 0 < |line.source| <= a.bytes
    ensures SelectTail(a, init + [line]) == SelectTail(a.Consume(line, line.Size()), init) + [Selection(line, 0, line.Size())]
  {
    assert (init + [line])[..|init|] == init;
  }

  lemma {:induction false} WholeTail(a: Allowance, init: seq<Prepared>, line: Prepared)
    requires PlainLines(init + [line]) && BytesLeft(a) && 0 < |line.source| <= a.bytes
    requires TailIsCut(a.Consume(line, line.Size()), init)
    ensures TailIsCut(a, init + [line])
  {
    hide Flat, TailCut, Safe, Newlines, LineCount, Render, SelectTail, PlainLine, PlainLines, CleanLines;
    var b, x := a.Consume(line, line.Size()), Selection(line, 0, line.Size());
    var r, c := SelectTail(b, init), TailCut(Flat(init), b.bytes);
    FlatLast(init, line);
    TailCutAcross(Flat(init), line.source, a.bytes);
    TailWhole(a, init, line);
    PlainNotEmpty(line);
    RenderSnoc(r, x);
    SelectionBytesSnoc(r, x);
    SuffixAcross(Flat(init), line.source, c);
    PlainCount(line);
    TailLineCount(init, line, c);
  }

  lemma {:induction false} TailLineCount(init: seq<Prepared>, line: Prepared, c: nat)
    requires c <= |Flat(init)| && PlainLine(line) && Seam(Flat(init), line.source)
    ensures LineCount(Flat(init)[c..] + line.source) == LineCount(Flat(init)[c..]) + LineCount(line.source)
  {
    LineCountAppend(Flat(init)[c..], line.source);
  }
}
