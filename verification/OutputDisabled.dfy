/**
 * Limits that are not positive are described as disabled. For the byte limit and the line-length limit they are; for
 * the line limit exactly the inputs are stated here on which a negative value acts like zero.
 */
module OutputDisabled {
  import opened Bytes
  import opened OutputByteForm
  import opened OutputBytes
  import opened OutputCuts
  import opened OutputLimits
  import opened OutputPolicy

  // Bytes and line length.

  ghost predicate SamePreparation(p: Policy, q: Policy) {
    p.headShare == q.headShare && (p.maxLineBytes == q.maxLineBytes || (p.maxLineBytes <= 0 && q.maxLineBytes <= 0))
  }

  lemma {:induction false} LineAlike(p: Policy, q: Policy, id: nat, line: SourceLine)
    requires SamePreparation(p, q)
    ensures Prepare(p, id, line) == Prepare(q, id, line)
  {
    hide HeadCut, TailCut, Marker;
  }

  lemma {:induction false} PreparedAlike(p: Policy, q: Policy, lines: seq<SourceLine>)
    requires SamePreparation(p, q)
    ensures PrepareAll(p, lines) == PrepareAll(q, lines)
  {
    if lines != [] {
      hide Prepare;
      LineAlike(p, q, |lines| - 1, lines[|lines| - 1]);
      PreparedAlike(p, q, lines[..|lines| - 1]);
    }
  }

  /** The line-length limit: every negative value acts like zero. */
  lemma {:induction false} NegativeLineLengthIsDisabled(p: Policy, input: bytes)
    requires p.maxLineBytes < 0
    ensures Applied(p, input) == Applied(p.(maxLineBytes := 0), input)
  {
    hide PrepareAll, LinesFrom, SuffixWithin, PrefixWithin, SelectionBytes, Complete, Truncated, Sizes;
    PreparedAlike(p, p.(maxLineBytes := 0), LinesFrom(input, 0));
  }

  lemma {:induction false} UnusedBytesTail(lines: seq<Prepared>, byteLimit: int, lineLimit: int, useLines: bool, occupied: seq<Selection>)
    ensures SuffixWithin(lines, byteLimit, lineLimit, false, useLines, occupied) == SuffixWithin(lines, 0, lineLimit, false, useLines, occupied)
  {
    hide SelectTail, Ids;
    TailWithinNoBytes(NewAllowance(byteLimit, lineLimit, false, useLines, occupied), lines);
  }

  lemma {:induction false} UnusedBytesHead(lines: seq<Prepared>, byteLimit: int, lineLimit: int, useLines: bool, occupied: seq<Selection>)
    ensures PrefixWithin(lines, byteLimit, lineLimit, false, useLines, occupied) == PrefixWithin(lines, 0, lineLimit, false, useLines, occupied)
  {
    hide SelectHead, Ids;
    HeadWithinNoBytes(NewAllowance(byteLimit, lineLimit, false, useLines, occupied), lines);
  }

  lemma {:induction false} UnusedByteEdges(p: Policy, lines: seq<Prepared>)
    requires p.maxBytes < 0
    ensures OuterEdges(p, lines) == OuterEdges(p.(maxBytes := 0), lines)
  {
    hide SuffixWithin, PrefixWithin;
    var useLines := p.maxLines > 0;
    var first := SuffixWithin(lines, 0, LimitSplit(p, p.maxLines).1, false, useLines, []);
    UnusedBytesHead(lines, p.maxBytes, p.maxLines, useLines, first);
    var head := PrefixWithin(lines, 0, p.maxLines, false, useLines, first);
    UnusedBytesTail(lines, p.maxBytes, p.maxLines, useLines, head);
  }

  /** The byte limit: every negative value acts like zero. */
  lemma {:induction false} NegativeByteLimitIsDisabled(p: Policy, input: bytes)
    requires p.maxBytes < 0
    ensures Applied(p, input) == Applied(p.(maxBytes := 0), input)
  {
    hide PrepareAll, LinesFrom, OuterEdges, Complete, Truncated, Sizes;
    PreparedAlike(p, p.(maxBytes := 0), LinesFrom(input, 0));
    UnusedByteEdges(p, PrepareAll(p, LinesFrom(input, 0)));
  }

  // Lines.

  /** A byte limit so small that neither the first line's head nor the last line's tail has a safe cut within it. */
  predicate NothingFits(lines: seq<Prepared>, maxBytes: int) {
    && lines != []
    && lines[0].Size() > maxBytes && HeadCut(lines[0].source, maxBytes) == 0
    && lines[|lines| - 1].Size() > maxBytes && TailCut(lines[|lines| - 1].source, maxBytes) == lines[|lines| - 1].Size()
  }

  /** A tail that does not fit a limit does not fit a smaller one. */
  lemma {:induction false} NoTailFitsLess(s: bytes, less: int, limit: int)
    requires 0 <= less <= limit < |s| && TailCut(s, limit) == |s|
    ensures TailCut(s, less) == |s|
  {
    if 0 < less {
      SkipAheadIs(s, |s| - less);
      SkipAheadIs(s, |s| - limit);
    }
  }

  lemma {:induction false} NoTail(a: Allowance, lines: seq<Prepared>)
    requires a.useBytes && !a.useLines && 0 < a.bytes && lines != []
    ensures var last := lines[|lines| - 1];
      SelectTail(a, lines) == [] <==> last.Size() > a.bytes && TailCut(last.source, a.bytes) == last.Size()
  {}

  lemma {:induction false} NoHead(a: Allowance, lines: seq<Prepared>)
    requires a.useBytes && !a.useLines && 0 < a.bytes && lines != []
    ensures SelectHead(a, lines) == [] <==> lines[0].Size() > a.bytes && HeadCut(lines[0].source, a.bytes) == 0
  {}

  lemma {:induction false} NoShareFits(a: Allowance, b: Allowance, lines: seq<Prepared>)
    requires a.useBytes && !a.useLines && b.useBytes && !b.useLines && 0 <= b.bytes <= a.bytes && 0 < a.bytes && lines != []
    requires SelectTail(a, lines) == []
    ensures SelectTail(b, lines) == []
  {
    hide SelectTail, TailCut;
    NoTail(a, lines);
    var last := lines[|lines| - 1];
    if b.bytes == 0 {
      NothingFromNothing(b, lines);
    } else {
      NoTailFitsLess(last.source, b.bytes, a.bytes);
      NoTail(b, lines);
    }
  }

  lemma {:induction false} NothingFromNothing(b: Allowance, lines: seq<Prepared>)
    requires b.useBytes && b.bytes == 0 && lines != [] && lines[|lines| - 1].Size() > 0
    ensures SelectTail(b, lines) == []
  {}

  lemma {:induction false} NothingKept()
    ensures SelectionBytes([]) == 0 && Ids([]) == {}
  {}

  /** With the line limit off, both edges are empty exactly when nothing fits. */
  lemma {:induction false} EdgesEmptyIff(p: Policy, lines: seq<Prepared>)
    requires p.maxLines == 0 && 0 < p.maxBytes && lines != []
    ensures OuterEdges(p, lines) == Edges([], []) <==> NothingFits(lines, p.maxBytes)
  {
    hide SelectTail, SelectHead, TailCut, HeadCut, SelectionBytes, Ids, LimitSplit;
    NothingKept();
    var a := NewAllowance(p.maxBytes, 0, true, false, []);
    NoTail(a, lines);
    NoHead(a, lines);
    var share := LimitSplit(p, p.maxBytes).1;
    if SelectTail(a, lines) == [] { NoShareFits(a, NewAllowance(share, LimitSplit(p, 0).1, true, false, []), lines); }
  }

  lemma {:induction false} KeptEdgesCount(edges: Edges)
    requires edges != Edges([], [])
    ensures |Ids(edges.head) + Ids(edges.tail)| > 0
  {
    var ids := Ids(edges.head) + Ids(edges.tail);
    if edges.head != [] { assert edges.head[0].line.id in ids; } else { assert edges.tail[0].line.id in ids; }
  }

  /**
   A negative line limit acts like zero exactly when the byte limit truncates nothing, or is so small that nothing
   fits it anyway.
   */
  lemma {:induction false} NegativeLineLimitIff(p: Policy, input: bytes)
    requires p.maxLines < 0
    ensures var lines := PrepareAll(p, LinesFrom(input, 0));
      (Applied(p, input) == Applied(p.(maxLines := 0), input)) <==>
      (p.maxBytes <= 0 || Sizes(lines) <= p.maxBytes || NothingFits(lines, p.maxBytes))
  {
    hide PrepareAll, LinesFrom, OuterEdges, Sizes, SelectionBytes, Ids, Render, Marker, Assemble, NothingFits;
    var q := p.(maxLines := 0);
    var lines := PrepareAll(p, LinesFrom(input, 0));
    PreparedAlike(p, q, LinesFrom(input, 0));
    PrepareAllNumbered(p, LinesFrom(input, 0));
    NegativeLineLimitKeepsNothing(p, input);
    NothingKept();
    if p.maxBytes > 0 && Sizes(lines) > p.maxBytes {
      SizesOfNothing();
      EdgesEmptyIff(q, lines);
      OuterEdgesValid(q, lines);
      if OuterEdges(q, lines) != Edges([], []) { KeptEdgesCount(OuterEdges(q, lines)); }
    }
  }

  lemma {:induction false} SizesOfNothing()
    ensures Sizes([]) == 0
  {}

  /** Whatever the line-length limit: either the byte limit truncates nothing, or nothing at all is kept. */
  lemma {:induction false} NegativeLineLimitKeepsAllOrNothing(p: Policy, input: bytes)
    requires p.maxLines < 0 && 0 < p.maxBytes
    ensures var size := Sizes(PrepareAll(p, LinesFrom(input, 0)));
      var report := Applied(p, input).1;
      && (size <= p.maxBytes ==> Applied(p, input) == Applied(p.(maxLines := 0), input) && report.keptBytes == size)
      && (size > p.maxBytes ==> report.keptBytes == 0 && report.keptLines == 0)
  {
    hide PrepareAll, LinesFrom, OuterEdges, Sizes, SelectionBytes, Ids, Render, Marker, Assemble, RenderFull;
    NegativeLineLimitKeepsNothing(p, input);
    NegativeLineLimitIff(p, input);
    NothingKept();
  }

  /** On valid UTF-8 with room for one code point, a negative line limit acts like zero exactly when the input fits. */
  lemma {:induction false} NegativeLineLimitOnText(p: Policy, s: bytes)
    requires p.maxLines < 0 && p.maxLineBytes <= 0 && ValidUtf8(s) && p.maxBytes >= 4
    ensures Applied(p, s) == Applied(p.(maxLines := 0), s) <==> |s| <= p.maxBytes
  {
    hide PrepareAll, LinesFrom, Sizes, Applied, ValidUtf8, Flat;
    var q := p.(maxLines := 0, maxLineBytes := 0);
    ValidIsClean(s);
    PreparedAlike(p, q, LinesFrom(s, 0));
    PreparedPlain(q, s);
    NegativeLineLimitKeepsAllOrNothing(p, s);
    if |s| > p.maxBytes {
      KeptBytesOfValid(q, s);
      if p.maxLineBytes < 0 { NegativeLineLengthIsDisabled(p.(maxLines := 0), s); }
    }
  }

  /** Five letters, four allowed: with the line limit at zero at least one is kept, with minus one none. */
  lemma {:induction false} NegativeLineLimitWitness(share: int -> int)
    ensures var letters: bytes := [97, 98, 99, 100, 101];
      && Applied(Policy(4, -1, 0, share), letters).1.keptBytes == 0
      && 1 <= Applied(Policy(4, 0, 0, share), letters).1.keptBytes <= 4
  {
    var letters: bytes := [97, 98, 99, 100, 101];
    var p, q := Policy(4, -1, 0, share), Policy(4, 0, 0, share);
    LettersAreValid();
    hide Applied, PrepareAll, LinesFrom, Sizes, ValidUtf8, Flat;
    ValidIsClean(letters);
    PreparedAlike(p, q, LinesFrom(letters, 0));
    PreparedPlain(q, letters);
    NegativeLineLimitKeepsAllOrNothing(p, letters);
    KeptBytesOfValid(q, letters);
  }

  lemma {:induction false} LettersAreValid()
    ensures ValidUtf8([97, 98, 99, 100, 101])
  {
    var s: bytes := [97, 98, 99, 100, 101];
    assert ValidFrom(s, 5);
    assert ValidFrom(s, 4);
    assert ValidFrom(s, 3);
    assert ValidFrom(s, 2);
    assert ValidFrom(s, 1);
  }
}
