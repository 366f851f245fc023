/** Neither edge could keep more: what comes next at it, or the rest of a cut line, breaks an enabled limit. */
module OutputMaximal {
  import opened Bytes
  import opened OutputByteForm
  import opened OutputCuts
  import opened OutputLimits
  import opened OutputPolicy
  import opened Sequences

  // A greedy selection takes all it can.

  predicate DistinctLines(lines: seq<Prepared>) { forall i, j :: 0 <= i < j < |lines| ==> lines[i].id != lines[j].id }

  /** The line at which a head selection stopped, and how much of it is selected. */
  function HeadStop(r: seq<Selection>): (nat, nat) {
    if r != [] && r[|r| - 1].end < r[|r| - 1].line.Size() then (|r| - 1, r[|r| - 1].end) else (|r|, 0)
  }

  /** `x` is a later safe cut of the line: more of its start. */
  predicate LongerStart(line: Prepared, from: nat, x: nat) {
    && (from < x || (x == 0 && line.Size() == 0)) && x <= line.Size() && (x == line.Size() || Safe(line.source, x))
  }

  /** Taking `more` bytes of line `id` as well breaks a limit. */
  ghost predicate Breaks(a: Allowance, kept: seq<Selection>, id: nat, more: nat) {
    || (a.useBytes && SelectionBytes(kept) + more > a.bytes)
    || (a.useLines && id !in Ids(kept) && id !in a.occupied && |Ids(kept) - a.occupied| >= a.lines)
  }

  lemma {:induction false} BreaksAfterOne(a: Allowance, line: Prepared, rest: seq<Selection>, id: nat, more: nat)
    requires Breaks(a.Consume(line, line.Size()), rest, id, more) && line.id != id && line.id !in Ids(rest)
    ensures Breaks(a, [Selection(line, 0, line.Size())] + rest, id, more)
    ensures Breaks(a, rest + [Selection(line, 0, line.Size())], id, more)
  {
    hide Ids, SelectionBytes;
    var x := Selection(line, 0, line.Size());
    SelectionBytesCons(x, rest);
    IdsCons(x, rest);
    SelectionBytesSnoc(rest, x);
    IdsSnoc(rest, x);
    assert {line.id} + Ids(rest) == Ids(rest) + {line.id};
    if line.id in a.occupied {
      assert (Ids(rest) + {line.id}) - a.occupied == Ids(rest) - a.occupied;
    } else {
      assert (Ids(rest) + {line.id}) - a.occupied == (Ids(rest) - a.occupied) + {line.id};
    }
  }

  lemma {:induction false} HeadIdsAre(a: Allowance, lines: seq<Prepared>, id: nat)
    requires id in Ids(SelectHead(a, lines))
    ensures exists i :: 0 <= i < |lines| && lines[i].id == id
  {
    HeadShape(a, lines);
    var r := SelectHead(a, lines);
    var i :| 0 <= i < |r| && r[i].line.id == id;
    assert lines[i].id == id;
  }

  lemma {:induction false} HeadBlocked(a: Allowance, line: Prepared, x: nat)
    requires (a.useBytes ==> a.bytes >= 0) && a.lines >= 0 && LongerStart(line, 0, x)
    requires !a.CanSelect(line) || (HeadPart(a, line) == 0 && line.Size() != 0)
    ensures Breaks(a, [], line.id, x)
  {
    NothingCounts(a);
    if a.useBytes { HeadCutGreatest(line.source, a.bytes); }
  }

  lemma {:induction false} NothingCounts(a: Allowance)
    ensures SelectionBytes([]) == 0 && Ids([]) == {} && Ids([]) - a.occupied == {}
  {}

  lemma {:induction false} HeadCutShort(a: Allowance, line: Prepared, x: nat)
    requires (a.useBytes ==> a.bytes >= 0) && a.CanSelect(line) && HeadPart(a, line) != line.Size()
    requires LongerStart(line, HeadPart(a, line), x)
    ensures HeadPart(a, line) <= x && Breaks(a, [Selection(line, 0, HeadPart(a, line))], line.id, x - HeadPart(a, line))
  {
    NothingCounts(a);
    var end := HeadPart(a, line);
    SelectionBytesSnoc([], Selection(line, 0, end));
    assert [] + [Selection(line, 0, end)] == [Selection(line, 0, end)];
    if a.useBytes { HeadCutGreatest(line.source, a.bytes); }
  }

  lemma {:induction false} HeadCases(a: Allowance, lines: seq<Prepared>)
    requires lines != []
    ensures var line, end, r := lines[0], HeadPart(a, lines[0]), SelectHead(a, lines);
      if !a.CanSelect(line) || (end == 0 && line.Size() != 0) then r == [] && HeadStop(r) == (0, 0)
      else if end != line.Size() then r == [Selection(line, 0, end)] && HeadStop(r) == (0, end)
      else
        var rest := SelectHead(a.Consume(line, end), lines[1..]);
        r == [Selection(line, 0, end)] + rest && HeadStop(r) == (HeadStop(rest).0 + 1, HeadStop(rest).1)
  {
    HeadStep(a, lines, 0);
    assert lines[0..] == lines;
    PartBounds(a, lines[0]);
    hide SelectHead, HeadPart;
    StopAfterOne(Selection(lines[0], 0, lines[0].Size()), SelectHead(a.Consume(lines[0], lines[0].Size()), lines[1..]));
  }

  lemma {:induction false} FirstIsNew(a: Allowance, lines: seq<Prepared>, i: nat)
    requires DistinctLines(lines) && lines != []
    ensures DistinctLines(lines[1..]) && lines[0].id !in Ids(SelectHead(a, lines[1..]))
    ensures i < |lines[1..]| ==> lines[1..][i].id != lines[0].id
  {
    hide SelectHead, Ids;
    if lines[0].id in Ids(SelectHead(a, lines[1..])) {
      HeadIdsAre(a, lines[1..], lines[0].id);
    }
  }

  /** A head selection stops only where more would break its allowance. */
  lemma {:induction false} HeadIsFull(a: Allowance, lines: seq<Prepared>, i: nat, from: nat, x: nat)
    requires (a.useBytes ==> a.bytes >= 0) && a.lines >= 0 && DistinctLines(lines)
    requires HeadStop(SelectHead(a, lines)) == (i, from) && i < |lines| && LongerStart(lines[i], from, x)
    ensures from <= x && Breaks(a, SelectHead(a, lines), lines[i].id, x - from)
    decreases |lines|
  {
    HeadCases(a, lines);
    var line, end, r := lines[0], HeadPart(a, lines[0]), SelectHead(a, lines);
    hide SelectHead, HeadPart, Breaks, LongerStart, HeadStop, Ids, SelectionBytes, DistinctLines;
    if !a.CanSelect(line) || (end == 0 && line.Size() != 0) {
      HeadBlocked(a, line, x);
    } else if end != line.Size() {
      HeadCutShort(a, line, x);
    } else {
      var less, others := a.Consume(line, end), lines[1..];
      StillSolvent(a, line);
      FirstIsNew(less, lines, i - 1);
      assert others[i - 1] == lines[i];
      HeadIsFull(less, others, i - 1, from, x);
      BreaksAfterOne(a, line, SelectHead(less, others), lines[i].id, x - from);
    }
  }

  lemma {:induction false} StillSolvent(a: Allowance, line: Prepared)
    requires (a.useBytes ==> a.bytes >= 0) && a.lines >= 0 && a.CanSelect(line) && HeadPart(a, line) == line.Size()
    ensures var less := a.Consume(line, line.Size()); (less.useBytes ==> less.bytes >= 0) && less.lines >= 0
  {
    if a.useBytes { HeadCutGreatest(line.source, a.bytes); }
  }

  lemma {:induction false} StopAfterOne(x: Selection, rest: seq<Selection>)
    requires x.end == x.line.Size()
    ensures HeadStop([x] + rest) == (HeadStop(rest).0 + 1, HeadStop(rest).1)
  {
    var all := [x] + rest;
    if rest != [] { assert all[|all| - 1] == rest[|rest| - 1]; }
  }

  // The tail.

  /** The line at which a tail selection stopped, and where what is selected of it starts. */
  function TailStop(lines: seq<Prepared>, r: seq<Selection>): (int, nat) {
    if r != [] && r[0].start > 0 then (|lines| - |r|, r[0].start)
    else
      var i := |lines| - |r| - 1;
      (i, if 0 <= i < |lines| then lines[i].Size() else 0)
  }

  /** `x` is an earlier safe cut of the line: more of its end. */
  predicate LongerEnd(line: Prepared, from: nat, x: nat) {
    && (x < from || (x == 0 && line.Size() == 0)) && from <= line.Size() && (x == 0 || Safe(line.source, x))
  }

  /** No line break but at the very end, so that no cut falls before a stray continuation byte. */
  predicate Breakless(line: Prepared) { forall k :: 0 <= k < |line.source| - 1 ==> line.source[k] != LF }

  lemma {:induction false} TailIdsAre(a: Allowance, lines: seq<Prepared>, id: nat)
    requires id in Ids(SelectTail(a, lines))
    ensures exists i :: 0 <= i < |lines| && lines[i].id == id
  {
    TailShape(a, lines);
    var r := SelectTail(a, lines);
    var j :| 0 <= j < |r| && r[j].line.id == id;
    assert lines[|lines| - |r| + j].id == id;
  }

  lemma {:induction false} LastIsNew(a: Allowance, lines: seq<Prepared>, i: nat)
    requires DistinctLines(lines) && lines != []
    ensures var n := |lines| - 1; DistinctLines(lines[..n]) && lines[n].id !in Ids(SelectTail(a, lines[..n]))
    ensures i < |lines| - 1 ==> lines[i].id != lines[|lines| - 1].id
  {
    hide SelectTail, Ids;
    var n := |lines| - 1;
    if lines[n].id in Ids(SelectTail(a, lines[..n])) {
      TailIdsAre(a, lines[..n], lines[n].id);
    }
  }

  lemma {:induction false} TailBlocked(a: Allowance, line: Prepared, x: nat)
    requires (a.useBytes ==> a.bytes >= 0) && a.lines >= 0 && Breakless(line) && LongerEnd(line, line.Size(), x)
    requires !a.CanSelect(line) || (TailPart(a, line) == line.Size() && line.Size() != 0)
    ensures Breaks(a, [], line.id, line.Size() - x)
  {
    NothingCounts(a);
    if a.useBytes { TailCutLeast(line.source, a.bytes); }
  }

  lemma {:induction false} TailCutShort(a: Allowance, line: Prepared, x: nat)
    requires (a.useBytes ==> a.bytes >= 0) && Breakless(line) && TailPart(a, line) != 0 && LongerEnd(line, TailPart(a, line), x)
    ensures x <= TailPart(a, line) <= line.Size()
    ensures Breaks(a, [Selection(line, TailPart(a, line), line.Size())], line.id, TailPart(a, line) - x)
  {
    NothingCounts(a);
    PartBounds(a, line);
    var start := TailPart(a, line);
    SelectionBytesSnoc([], Selection(line, start, line.Size()));
    assert [] + [Selection(line, start, line.Size())] == [Selection(line, start, line.Size())];
    if a.useBytes { TailCutLeast(line.source, a.bytes); }
  }

  lemma {:induction false} TailCases(a: Allowance, lines: seq<Prepared>)
    requires lines != []
    ensures var n := |lines| - 1;
      var line, start, r := lines[n], TailPart(a, lines[n]), SelectTail(a, lines);
      && start <= line.Size()
      && if !a.CanSelect(line) || (start == line.Size() && line.Size() != 0) then r == [] && TailStop(lines, r) == (n, line.Size())
         else if start != 0 then r == [Selection(line, start, line.Size())] && TailStop(lines, r) == (n, start)
         else
           var rest := SelectTail(a.Consume(line, line.Size()), lines[..n]);
           r == rest + [Selection(line, 0, line.Size())] && TailStop(lines, r) == TailStop(lines[..n], rest)
  {
    TailStep(a, lines, |lines|);
    assert lines[..|lines|] == lines;
    hide SelectTail, TailPart;
    var n := |lines| - 1;
    StopBeforeOne(lines, SelectTail(a.Consume(lines[n], lines[n].Size()), lines[..n]));
    var none: seq<Selection> := [];
    assert forall x: Selection :: none + [x] == [x];
  }

  lemma {:induction false} StopBeforeOne(lines: seq<Prepared>, rest: seq<Selection>)
    requires lines != []
    ensures var n := |lines| - 1; TailStop(lines, rest + [Selection(lines[n], 0, lines[n].Size())]) == TailStop(lines[..n], rest)
  {
    var all := rest + [Selection(lines[|lines| - 1], 0, lines[|lines| - 1].Size())];
    if rest != [] { assert all[0] == rest[0]; }
  }

  lemma {:induction false} TailStillSolvent(a: Allowance, line: Prepared)
    requires (a.useBytes ==> a.bytes >= 0) && a.lines >= 0 && a.CanSelect(line) && TailPart(a, line) == 0
    ensures var less := a.Consume(line, line.Size()); (less.useBytes ==> less.bytes >= 0) && less.lines >= 0
  {
    PartBounds(a, line);
  }

  /** A tail selection stops only where more would break its allowance. */
  lemma {:induction false} TailIsFull(a: Allowance, lines: seq<Prepared>, i: nat, from: nat, x: nat)
    requires (a.useBytes ==> a.bytes >= 0) && a.lines >= 0 && DistinctLines(lines) && forall j :: 0 <= j < |lines| ==> Breakless(lines[j])
    requires TailStop(lines, SelectTail(a, lines)) == (i, from) && i < |lines| && LongerEnd(lines[i], from, x)
    ensures x <= from && Breaks(a, SelectTail(a, lines), lines[i].id, from - x)
    decreases |lines|
  {
    TailCases(a, lines);
    var n := |lines| - 1;
    var line, start, r := lines[n], TailPart(a, lines[n]), SelectTail(a, lines);
    hide SelectTail, TailPart, Breaks, LongerEnd, TailStop, Ids, SelectionBytes, DistinctLines, Breakless;
    if !a.CanSelect(line) || (start == line.Size() && line.Size() != 0) {
      TailBlocked(a, line, x);
      EndIsAtMost(line, from, x);
    } else if start != 0 {
      TailCutShort(a, line, x);
    } else {
      var less, others := a.Consume(line, line.Size()), lines[..n];
      TailStillSolvent(a, line);
      LastIsNew(less, lines, i);
      StopIsBefore(others, SelectTail(less, others), i, from);
      assert others[i] == lines[i];
      TailIsFull(less, others, i, from, x);
      BreaksAfterOne(a, line, SelectTail(less, others), lines[i].id, from - x);
    }
  }

  lemma {:induction false} EndIsAtMost(line: Prepared, from: nat, x: nat)
    requires LongerEnd(line, from, x)
    ensures x <= from
  {}

  lemma {:induction false} StopIsBefore(lines: seq<Prepared>, r: seq<Selection>, i: nat, from: nat)
    requires TailStop(lines, r) == (i, from)
    ensures i < |lines|
  {}

  /** A tail selection begins at a safe cut, and takes something of its first line. */
  ghost predicate CutSafely(lines: seq<Prepared>, r: seq<Selection>) {
    r != [] ==> LongerEnd(r[0].line, r[0].line.Size(), r[0].start)
  }

  lemma {:induction false} TailCutIsSafe(a: Allowance, lines: seq<Prepared>)
    requires (a.useBytes ==> a.bytes >= 0) && forall j :: 0 <= j < |lines| ==> Breakless(lines[j])
    ensures CutSafely(lines, SelectTail(a, lines))
    decreases |lines|
  {
    if lines != [] {
      TailCases(a, lines);
      var n := |lines| - 1;
      var line, start := lines[n], TailPart(a, lines[n]);
      PartIsSafe(a, line);
      hide SelectTail, TailPart, LongerEnd, Breakless;
      if a.CanSelect(line) && start == 0 {
        PartBounds(a, line);
        TailCutIsSafe(a.Consume(line, line.Size()), lines[..n]);
        WholeIsSafe(line);
      }
    }
  }

  lemma {:induction false} PartIsSafe(a: Allowance, line: Prepared)
    requires (a.useBytes ==> a.bytes >= 0) && Breakless(line)
    ensures TailPart(a, line) <= line.Size()
    ensures TailPart(a, line) < line.Size() || line.Size() == 0 ==> LongerEnd(line, line.Size(), TailPart(a, line))
  {
    PartBounds(a, line);
    if a.useBytes { TailCutLeast(line.source, a.bytes); }
  }

  lemma {:induction false} WholeIsSafe(line: Prepared)
    ensures LongerEnd(line, line.Size(), 0)
  {}

  /** What lies within an allowance does not break it. */
  lemma {:induction false} FitsNotBreaks(a: Allowance, kept: seq<Selection>, more: seq<Selection>, id: nat, bytes: nat)
    requires Within(a, more) && SelectionBytes(kept) + bytes <= SelectionBytes(more) && Ids(kept) <= Ids(more) && id in Ids(more)
    ensures !Breaks(a, kept, id, bytes)
  {
    hide Ids, SelectionBytes;
    if id !in Ids(kept) && id !in a.occupied {
      assert (Ids(kept) - a.occupied) + {id} <= Ids(more) - a.occupied;
      SubsetSize((Ids(kept) - a.occupied) + {id}, Ids(more) - a.occupied);
    }
  }

  lemma {:induction false} TailIdsGrow(lines: seq<Prepared>, short: seq<Selection>, long: seq<Selection>)
    requires IsTail(lines, short) && IsTail(lines, long) && |short| <= |long|
    ensures Ids(short) <= Ids(long)
    ensures forall i :: |lines| - |long| <= i < |lines| ==> lines[i].id in Ids(long)
  {
    forall j | 0 <= j < |short| ensures short[j].line.id in Ids(long) { assert long[|long| - |short| + j].line == short[j].line; }
    forall i | |lines| - |long| <= i < |lines| ensures lines[i].id in Ids(long) { assert long[i - (|lines| - |long|)].line == lines[i]; }
  }

  lemma {:induction false} TailBytesFrom(lines: seq<Prepared>, r: seq<Selection>)
    requires IsTail(lines, r)
    ensures r != [] ==> SelectionBytes(r) == Sizes(lines[|lines| - |r|..]) - r[0].start
    ensures r == [] ==> SelectionBytes(r) == Sizes(lines[|lines| - |r|..])
  {
    if r == [] { assert lines[|lines|..] == []; NoBytes(); } else { TailBytes(lines, r); }
  }

  lemma {:induction false} SizesFrom(lines: seq<Prepared>, i: nat, j: nat)
    requires i <= j <= |lines|
    ensures Sizes(lines[j..]) <= Sizes(lines[i..])
    ensures i < j ==> lines[i].Size() + Sizes(lines[j..]) <= Sizes(lines[i..])
    ensures i + 1 == j ==> lines[i].Size() + Sizes(lines[j..]) == Sizes(lines[i..])
  {
    hide Sizes;
    SizesSplit(lines[i..], j - i);
    assert lines[i..][j - i..] == lines[j..];
    if i < j {
      SizesMonotone(lines[i..], 1, j - i);
      SizesUpTo(lines[i..], 0);
      assert lines[i..][..0] == [];
      NoBytes();
    }
  }

  /** A tail selection covers every safe tail that fits its allowance. */
  lemma {:induction false} TailCovers(a: Allowance, lines: seq<Prepared>, first: seq<Selection>)
    requires (a.useBytes ==> a.bytes >= 0) && a.lines >= 0 && DistinctLines(lines) && forall j :: 0 <= j < |lines| ==> Breakless(lines[j])
    requires IsTail(lines, first) && Within(a, first) && CutSafely(lines, first)
    ensures var tail := SelectTail(a, lines);
      |first| <= |tail| && (|first| == |tail| && first != [] ==> tail[0].start <= first[0].start)
  {
    var tail := SelectTail(a, lines);
    TailShape(a, lines);
    if |first| > |tail| || (|first| == |tail| && first != [] && first[0].start < tail[0].start) {
      var (i, from) := TailStop(lines, tail);
      var x := if i == |lines| - |first| then first[0].start else 0;
      LongerPart(lines, tail, first, i, from, x);
      TailIsFull(a, lines, i, from, x);
      TailGains(lines, tail, first, i, from, x);
      FitsNotBreaks(a, tail, first, lines[i].id, from - x);
      assert false;
    }
  }

  /** Where `tail` stops short of `first`, `first` shows how it could go on. */
  lemma {:induction false} LongerPart(lines: seq<Prepared>, tail: seq<Selection>, first: seq<Selection>, i: int, from: nat, x: nat)
    requires IsTail(lines, tail) && IsTail(lines, first) && CutSafely(lines, first) && TailStop(lines, tail) == (i, from)
    requires |first| > |tail| || (|first| == |tail| && first != [] && first[0].start < tail[0].start)
    requires x == if i == |lines| - |first| then first[0].start else 0
    ensures |lines| - |first| <= i < |lines| && LongerEnd(lines[i], from, x)
  {}

  lemma {:induction false} TailGains(lines: seq<Prepared>, tail: seq<Selection>, first: seq<Selection>, i: nat, from: nat, x: nat)
    requires IsTail(lines, tail) && IsTail(lines, first) && TailStop(lines, tail) == (i, from) && |lines| - |first| <= i < |lines|
    requires |first| >= |tail| && x <= from && x == if i == |lines| - |first| then first[0].start else 0
    ensures SelectionBytes(tail) + (from - x) <= SelectionBytes(first) && Ids(tail) <= Ids(first) && lines[i].id in Ids(first)
  {
    hide SelectionBytes, Sizes, Ids;
    TailIdsGrow(lines, tail, first);
    TailBytesFrom(lines, tail);
    TailBytesFrom(lines, first);
    SizesFrom(lines, i, i + 1);
    SizesFrom(lines, |lines| - |first|, i);
  }

  // Both edges.

  /** Keeping `more` bytes of line `id` besides the edges breaks a limit that is enabled. */
  ghost predicate OverLimit(p: Policy, e: Edges, id: nat, more: nat) {
    || (p.maxBytes > 0 && SelectionBytes(e.head) + SelectionBytes(e.tail) + more > p.maxBytes)
    || (p.maxLines > 0 && id !in Ids(e.head) + Ids(e.tail) && |Ids(e.head) + Ids(e.tail)| + 1 > p.maxLines)
  }

  /** The three selections of the edges, and what the first of them leaves behind in the last. */
  lemma {:induction false} ThreeSelections(p: Policy, lines: seq<Prepared>) returns (first: seq<Selection>, b: Allowance, c: Allowance)
    requires p.maxLines >= 0 && Numbered(lines) && forall j :: 0 <= j < |lines| ==> Breakless(lines[j])
    ensures var e := OuterEdges(p, lines);
      && e.head == SelectHead(b, lines) && e.tail == SelectTail(c, lines)
      && b == NewAllowance(if p.maxBytes > 0 then p.maxBytes - SelectionBytes(first) else p.maxBytes, p.maxLines, p.maxBytes > 0, p.maxLines > 0, first)
      && c == NewAllowance(if p.maxBytes > 0 then p.maxBytes - SelectionBytes(e.head) else p.maxBytes, p.maxLines, p.maxBytes > 0, p.maxLines > 0, e.head)
      && (b.useBytes ==> b.bytes >= 0) && b.lines >= 0 && (c.useBytes ==> c.bytes >= 0) && c.lines >= 0
      && SelectionBytes(first) <= SelectionBytes(e.tail) && Ids(first) <= Ids(e.tail)
  {
    hide SelectHead, SelectTail, Ids, SelectionBytes, LimitSplit, IsHead, IsTail, Numbered, Breakless;
    var useBytes, useLines := p.maxBytes > 0, p.maxLines > 0;
    NumberedAreDistinct(lines);
    NoIds();
    var a := NewAllowance(LimitSplit(p, p.maxBytes).1, LimitSplit(p, p.maxLines).1, useBytes, useLines, []);
    TailSolvent(a, lines);
    TailCutIsSafe(a, lines);
    first := SelectTail(a, lines);
    assert Ids(first) - {} == Ids(first);
    b := NewAllowance(if useBytes then p.maxBytes - SelectionBytes(first) else p.maxBytes, p.maxLines, useBytes, useLines, first);
    HeadSolvent(b, lines);
    var head := SelectHead(b, lines);
    Union(Ids(head), Ids(first));
    Union(Ids(first), Ids(head));
    assert Ids(first) + Ids(head) == Ids(head) + Ids(first);
    c := NewAllowance(if useBytes then p.maxBytes - SelectionBytes(head) else p.maxBytes, p.maxLines, useBytes, useLines, head);
    TailSolvent(c, lines);
    TailCovers(c, lines, first);
    CoveredIsLess(lines, first, SelectTail(c, lines));
  }

  lemma {:induction false} NumberedAreDistinct(lines: seq<Prepared>)
    requires Numbered(lines)
    ensures DistinctLines(lines)
  {}

  lemma {:induction false} CoveredIsLess(lines: seq<Prepared>, first: seq<Selection>, tail: seq<Selection>)
    requires IsTail(lines, first) && IsTail(lines, tail)
    requires |first| <= |tail| && (|first| == |tail| && first != [] ==> tail[0].start <= first[0].start)
    ensures SelectionBytes(first) <= SelectionBytes(tail) && Ids(first) <= Ids(tail)
  {
    hide SelectionBytes, Sizes, Ids;
    TailIdsGrow(lines, first, tail);
    TailBytesFrom(lines, first);
    TailBytesFrom(lines, tail);
    if |first| < |tail| {
      SizesFrom(lines, |lines| - |tail|, |lines| - |first|);
      assert tail[0].start <= lines[|lines| - |tail|].Size();
    }
  }

  /** At the head: no later safe cut of the line it stopped at keeps the enabled limits. */
  lemma {:induction false} HeadIsMaximal(p: Policy, lines: seq<Prepared>, i: nat, from: nat, x: nat)
    requires p.maxLines >= 0 && Numbered(lines) && forall j :: 0 <= j < |lines| ==> Breakless(lines[j])
    requires HeadStop(OuterEdges(p, lines).head) == (i, from) && i < |lines| && LongerStart(lines[i], from, x)
    ensures from <= x && OverLimit(p, OuterEdges(p, lines), i, x - from)
  {
    hide SelectHead, SelectTail, Ids, SelectionBytes, OuterEdges, IsHead, IsTail, Breakless, HeadStop, LongerStart;
    var e := OuterEdges(p, lines);
    var first, b, c := ThreeSelections(p, lines);
    NumberedAreDistinct(lines);
    HeadIsFull(b, lines, i, from, x);
    EdgesWithin(p, lines);
    if p.maxLines > 0 {
      Union(Ids(e.head), Ids(first));
      assert Ids(first) + Ids(e.head) == Ids(e.head) + Ids(first) <= Ids(e.head) + Ids(e.tail);
      SubsetSize(Ids(e.head) + Ids(first), Ids(e.head) + Ids(e.tail));
      if |Ids(e.head) + Ids(first)| == p.maxLines { SameSize(Ids(e.head) + Ids(first), Ids(e.head) + Ids(e.tail)); }
    }
  }

  lemma {:induction false} SameSize<T>(a: set<T>, b: set<T>)
    requires a <= b && |b| <= |a|
    ensures a == b
  {
    assert b == a + (b - a);
    assert |b| == |a| + |b - a|;
  }

  /** At the tail: no earlier safe cut of the line it stopped at keeps the enabled limits. */
  lemma {:induction false} TailIsMaximal(p: Policy, lines: seq<Prepared>, i: nat, from: nat, x: nat)
    requires p.maxLines >= 0 && Numbered(lines) && forall j :: 0 <= j < |lines| ==> Breakless(lines[j])
    requires TailStop(lines, OuterEdges(p, lines).tail) == (i, from) && i < |lines| && LongerEnd(lines[i], from, x)
    ensures x <= from && OverLimit(p, OuterEdges(p, lines), i, from - x)
  {
    hide SelectHead, SelectTail, Ids, SelectionBytes, OuterEdges, IsHead, IsTail, Breakless, TailStop, LongerEnd;
    var e := OuterEdges(p, lines);
    var first, b, c := ThreeSelections(p, lines);
    NumberedAreDistinct(lines);
    TailIsFull(c, lines, i, from, x);
    Union(Ids(e.tail), Ids(e.head));
  }

  lemma {:induction false} NumberedId(lines: seq<Prepared>, i: nat)
    requires Numbered(lines) && i < |lines|
    ensures lines[i].id == i
  {}

  /** The lines of an input are as the two lemmas need them. */
  lemma {:induction false} LinesAreBreakless(p: Policy, s: bytes)
    ensures var lines := PrepareAll(p, LinesFrom(s, 0)); Numbered(lines) && forall j :: 0 <= j < |lines| ==> Breakless(lines[j])
  {
    PrepareAllNumbered(p, LinesFrom(s, 0));
    BodiesUnbroken(s, 0);
    PreparedBreakless(p, LinesFrom(s, 0));
  }

  predicate Unbroken(line: SourceLine) { LF !in line.body && (line.term == [] || line.term == [LF] || line.term == [CR, LF]) }

  lemma {:induction false} BodiesUnbroken(s: bytes, start: nat)
    requires start <= |s|
    ensures forall i :: 0 <= i < |LinesFrom(s, start)| ==> Unbroken(LinesFrom(s, start)[i])
    decreases |s| - start
  {
    if start < |s| {
      var lf := NextLF(s, start);
      NextLFIs(s, start);
      if lf < |s| { BodiesUnbroken(s, lf + 1); }
    }
  }

  lemma {:induction false} PreparedBreakless(p: Policy, lines: seq<SourceLine>)
    requires forall i :: 0 <= i < |lines| ==> Unbroken(lines[i])
    ensures forall j :: 0 <= j < |lines| ==> Breakless(PrepareAll(p, lines)[j])
  {
    if lines != [] {
      var n := |lines| - 1;
      PreparedBreakless(p, lines[..n]);
      assert Unbroken(lines[n]);
      PreparedRespectsLimit(p, n, lines[n]);
      hide Prepare;
    }
  }
}
