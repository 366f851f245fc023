/** For every policy: the kept edges respect the enabled limits, never overlap, and always leave something out. */
module OutputLimits {
  import opened Bytes
  import opened Numbers
  import opened OutputCuts
  import opened OutputPolicy
  import opened Sequences

  lemma {:induction false} SelectionBytesCons(x: Selection, r: seq<Selection>)
    ensures SelectionBytes([x] + r) == x.Size() + SelectionBytes(r)
  {
    if r == [] {
      assert [x] + r == [x];
    } else {
      assert ([x] + r)[..|r|] == [x] + r[..|r| - 1];
      SelectionBytesCons(x, r[..|r| - 1]);
    }
  }

  lemma {:induction false} SizesAppend(a: seq<Prepared>, b: seq<Prepared>)
    ensures Sizes(a + b) == Sizes(a) + Sizes(b)
  {
    if b == [] {
      assert a + b == a;
    } else {
      assert (a + b)[..|a + b| - 1] == a + b[..|b| - 1];
      SizesAppend(a, b[..|b| - 1]);
    }
  }

  lemma {:induction false} IdsCons(x: Selection, r: seq<Selection>)
    ensures Ids([x] + r) == {x.line.id} + Ids(r)
  {
    var all := [x] + r;
    assert all[0] == x;
    forall i | 0 <= i < |r| ensures r[i].line.id in Ids(all) { assert all[i + 1] == r[i]; }
    forall i | 0 <= i < |all| ensures all[i].line.id in {x.line.id} + Ids(r) {
      if i > 0 { assert all[i] == r[i - 1]; }
    }
  }

  lemma {:induction false} IdsSnoc(r: seq<Selection>, x: Selection)
    ensures Ids(r + [x]) == Ids(r) + {x.line.id}
  {
    var all := r + [x];
    assert all[|r|] == x;
    forall i | 0 <= i < |r| ensures r[i].line.id in Ids(all) { assert all[i] == r[i]; }
    forall i | 0 <= i < |all| ensures all[i].line.id in Ids(r) + {x.line.id} {
      if i < |r| { assert all[i] == r[i]; }
    }
  }

  lemma {:induction false} SubsetSize<T>(a: set<T>, b: set<T>)
    requires a <= b
    ensures |a| <= |b|
  {
    assert b == a + (b - a);
  }

  /** Adding one line takes at most one unoccupied line from the allowance. */
  lemma {:induction false} FreshAfterOne(one: nat, rest: set<nat>, all: set<nat>, occupied: set<nat>)
    requires all == rest + {one}
    ensures |all - occupied| <= |rest - occupied| + (if one in occupied then 0 else 1)
  {
    if one in occupied {
      assert all - occupied == rest - occupied;
    } else {
      assert all - occupied == (rest - occupied) + {one};
      assert |(rest - occupied) + {one}| <= |rest - occupied| + 1;
    }
  }

  /** An allowance that has not been overdrawn. */
  predicate Solvent(a: Allowance) { a.bytes >= 0 && a.lines >= 0 }

  /** `kept` stays within the allowance. */
  ghost predicate Within(a: Allowance, kept: seq<Selection>) {
    && (a.useBytes ==> SelectionBytes(kept) <= a.bytes)
    && (a.useLines ==> |Ids(kept) - a.occupied| <= a.lines)
  }

  lemma {:induction false} HeadWithin(a: Allowance, lines: seq<Prepared>)
    requires Solvent(a)
    ensures Within(a, SelectHead(a, lines))
    decreases |lines|
  {
    hide HeadPart, Ids, SelectionBytes;
    EmptyWithin(a);
    if lines != [] && a.CanSelect(lines[0]) {
      var line := lines[0];
      var end := HeadPart(a, line);
      PartBounds(a, line);
      if !(end == 0 && line.Size() != 0) {
        var rest := if end != line.Size() then [] else SelectHead(a.Consume(line, end), lines[1..]);
        EmptyWithin(a.Consume(line, end));
        if end == line.Size() {
          HeadPartFits(a, line);
          HeadWithin(a.Consume(line, end), lines[1..]);
        }
        SelectionBytesCons(Selection(line, 0, end), rest);
        IdsCons(Selection(line, 0, end), rest);
        FreshAfterOne(line.id, Ids(rest), Ids([Selection(line, 0, end)] + rest), a.occupied);
      }
    }
  }

  lemma {:induction false} HeadPartFits(a: Allowance, line: Prepared)
    requires Solvent(a)
    ensures a.useBytes ==> HeadPart(a, line) <= a.bytes && line.Size() - TailPart(a, line) <= a.bytes
  {
    PartBounds(a, line);
  }

  lemma {:induction false} EmptyWithin(a: Allowance)
    ensures SelectionBytes([]) == 0 && Ids([]) - a.occupied == {}
  {}

  lemma {:induction false} TailWithin(a: Allowance, lines: seq<Prepared>)
    requires Solvent(a)
    ensures Within(a, SelectTail(a, lines))
    decreases |lines|
  {
    hide TailPart, Ids, SelectionBytes;
    EmptyWithin(a);
    if lines != [] && a.CanSelect(lines[|lines| - 1]) {
      var line := lines[|lines| - 1];
      var start := TailPart(a, line);
      PartBounds(a, line);
      HeadPartFits(a, line);
      if !(start == line.Size() && line.Size() != 0) {
        var less := a.Consume(line, line.Size() - start);
        var rest := if start != 0 then [] else SelectTail(less, lines[..|lines| - 1]);
        EmptyWithin(less);
        if start == 0 { TailWithin(less, lines[..|lines| - 1]); }
        var x := Selection(line, start, line.Size());
        SelectionBytesSnoc(rest, x);
        IdsSnoc(rest, x);
        FreshAfterOne(line.id, Ids(rest), Ids(rest + [x]), a.occupied);
      }
    }
  }

  lemma {:induction false} SelectionBytesSnoc(r: seq<Selection>, x: Selection)
    ensures SelectionBytes(r + [x]) == SelectionBytes(r) + x.Size()
  {
    assert (r + [x])[..|r|] == r;
  }

  // ---------------------------------------------------------------------------------------------
  // The shape of a selection: whole lines from one end, at most the last of them cut.
  // ---------------------------------------------------------------------------------------------

  ghost predicate IsHead(lines: seq<Prepared>, r: seq<Selection>) {
    && |r| <= |lines|
    && (forall i :: 0 <= i < |r| ==> r[i].line == lines[i] && r[i].start == 0 && r[i].end <= lines[i].Size())
    && (forall i :: 0 <= i < |r| - 1 ==> r[i].end == lines[i].Size())
  }

  ghost predicate IsTail(lines: seq<Prepared>, r: seq<Selection>) {
    && |r| <= |lines|
    && (forall j :: 0 <= j < |r| ==>
          var line := lines[|lines| - |r| + j];
          r[j].line == line && r[j].end == line.Size() && r[j].start <= line.Size())
    && (forall j :: 0 < j < |r| ==> r[j].start == 0)
  }

  lemma {:induction false} HeadShape(a: Allowance, lines: seq<Prepared>)
    ensures IsHead(lines, SelectHead(a, lines))
    decreases |lines|
  {
    hide HeadPart;
    if lines != [] && a.CanSelect(lines[0]) {
      var line := lines[0];
      var end := HeadPart(a, line);
      PartBounds(a, line);
      if end == line.Size() {
        HeadShape(a.Consume(line, end), lines[1..]);
      }
    }
  }

  lemma {:induction false} TailShape(a: Allowance, lines: seq<Prepared>)
    ensures IsTail(lines, SelectTail(a, lines))
    decreases |lines|
  {
    if lines != [] && a.CanSelect(lines[|lines| - 1]) {
      var init, line := lines[..|lines| - 1], lines[|lines| - 1];
      var start := TailPart(a, line);
      PartBounds(a, line);
      hide TailPart, IsTail;
      NoTail(init);
      var rest := if start != 0 then [] else SelectTail(a.Consume(line, line.Size() - start), init);
      if start == 0 {
        TailShape(a.Consume(line, line.Size() - start), init);
      }
      if !(start == line.Size() && line.Size() != 0) {
        TailShapeSnoc(lines, rest, start);
      } else {
        NoTail(lines);
      }
    } else {
      NoTail(lines);
    }
  }

  lemma {:induction false} NoTail(lines: seq<Prepared>)
    ensures IsTail(lines, [])
  {}

  lemma {:induction false} TailShapeSnoc(lines: seq<Prepared>, rest: seq<Selection>, start: nat)
    requires lines != [] && IsTail(lines[..|lines| - 1], rest) && start <= lines[|lines| - 1].Size()
    requires start != 0 ==> rest == []
    ensures IsTail(lines, rest + [Selection(lines[|lines| - 1], start, lines[|lines| - 1].Size())])
  {}

  /** Everything before a kept head part is kept as well. */
  lemma {:induction false} HeadPosition(lines: seq<Prepared>, r: seq<Selection>, i: nat)
    requires IsHead(lines, r) && i < |r|
    ensures Sizes(lines[..i]) + r[i].end <= SelectionBytes(r)
    decreases |r|
  {
    var k := |r| - 1;
    HeadBytes(lines, r);
    if i < k {
      SizesMonotone(lines, i + 1, k);
      assert lines[..i + 1][..i] == lines[..i];
    }
  }

  lemma {:induction false} HeadBytes(lines: seq<Prepared>, r: seq<Selection>)
    requires IsHead(lines, r) && r != []
    ensures SelectionBytes(r) == Sizes(lines[..|r| - 1]) + r[|r| - 1].end
    decreases |r|
  {
    var k := |r| - 1;
    if k > 0 {
      HeadBytes(lines, r[..k]);
      assert lines[..k][..k - 1] == lines[..k - 1];
    } else {
      assert r[..0] == [] && lines[..0] == [];
    }
  }

  lemma {:induction false} SizesMonotone(lines: seq<Prepared>, i: nat, k: nat)
    requires i <= k <= |lines|
    ensures Sizes(lines[..i]) <= Sizes(lines[..k])
    ensures Sizes(lines) == Sizes(lines[..i]) + Sizes(lines[i..])
  {
    hide Sizes;
    SizesSplit(lines, i);
    assert lines[..k][..i] == lines[..i];
    SizesSplit(lines[..k], i);
  }

  lemma {:induction false} SizesSplit(lines: seq<Prepared>, i: nat)
    requires i <= |lines|
    ensures Sizes(lines) == Sizes(lines[..i]) + Sizes(lines[i..])
  {
    hide Sizes;
    assert lines == lines[..i] + lines[i..];
    SizesAppend(lines[..i], lines[i..]);
  }

  lemma {:induction false} SizesSnoc(lines: seq<Prepared>, last: Prepared)
    ensures Sizes(lines + [last]) == Sizes(lines) + last.Size()
  {
    assert (lines + [last])[..|lines|] == lines;
  }

  lemma {:induction false} TailBytes(lines: seq<Prepared>, r: seq<Selection>)
    requires IsTail(lines, r) && r != []
    ensures SelectionBytes(r) + r[0].start == Sizes(lines[|lines| - |r|..])
    decreases |r|
  {
    hide Sizes, SelectionBytes;
    var k, last := |r| - 1, |lines| - 1;
    var less, init := r[..k], lines[..last];
    SplitLast(r);
    SelectionBytesSnoc(less, r[k]);
    assert lines[last - k..] == init[last - k..] + [lines[last]];
    SizesSnoc(init[last - k..], lines[last]);
    if k > 0 {
      assert IsTail(init, less);
      TailBytes(init, less);
    } else {
      NoBytes();
      assert init[last..] == [];
    }
  }

  lemma {:induction false} NoBytes()
    ensures SelectionBytes([]) == 0 && Sizes([]) == 0
  {}

  /** Where a kept tail part starts, measured from the front: no earlier than the first kept tail byte. */
  lemma {:induction false} TailPosition(lines: seq<Prepared>, r: seq<Selection>, j: nat)
    requires IsTail(lines, r) && j < |r|
    ensures Sizes(lines) - SelectionBytes(r) <= Sizes(lines[..|lines| - |r| + j]) + r[j].start
  {
    hide Sizes, SelectionBytes;
    var from: nat := |lines| - |r|;
    TailBytes(lines, r);
    SizesMonotone(lines, from, from + j);
    if j > 0 {
      SizesMonotone(lines, from + 1, from + j);
      SizesUpTo(lines, from);
    }
  }

  // ---------------------------------------------------------------------------------------------
  // Main results.
  // ---------------------------------------------------------------------------------------------

  /** The three selections, with what each was allowed. */
  lemma {:induction false} EdgesWithin(p: Policy, lines: seq<Prepared>)
    requires p.maxLines >= 0
    ensures var e := OuterEdges(p, lines);
      && IsHead(lines, e.head) && IsTail(lines, e.tail)
      && (p.maxBytes > 0 ==> SelectionBytes(e.head) + SelectionBytes(e.tail) <= p.maxBytes)
      && (p.maxLines > 0 ==> |Ids(e.head) + Ids(e.tail)| <= p.maxLines)
  {
    hide SelectHead, SelectTail, Ids, SelectionBytes, LimitSplit, IsHead, IsTail;
    var useBytes, useLines := p.maxBytes > 0, p.maxLines > 0;
    var (_, tailBytes) := LimitSplit(p, p.maxBytes);
    var (_, tailLines) := LimitSplit(p, p.maxLines);
    NoIds();
    var a := NewAllowance(tailBytes, tailLines, useBytes, useLines, []);
    TailWithin(a, lines);
    var first := SelectTail(a, lines);
    assert Ids(first) - {} == Ids(first);
    var b := NewAllowance(if useBytes then p.maxBytes - SelectionBytes(first) else p.maxBytes, p.maxLines, useBytes, useLines, first);
    HeadSolvent(b, lines);
    var head := SelectHead(b, lines);
    Union(Ids(head), Ids(first));
    var c := NewAllowance(if useBytes then p.maxBytes - SelectionBytes(head) else p.maxBytes, p.maxLines, useBytes, useLines, head);
    TailSolvent(c, lines);
    Union(Ids(SelectTail(c, lines)), Ids(head));
  }

  lemma {:induction false} NoIds()
    ensures Ids([]) == {}
  {}

  lemma {:induction false} Union(a: set<nat>, b: set<nat>)
    ensures |a| <= |a - b| + |b| && |b + a| == |b| + |a - b|
  {
    assert b + a == b + (a - b);
    SubsetSize(a, b + a);
  }

  /** The limits hold with the disabled one taken as unlimited. */
  lemma {:induction false} HeadSolvent(a: Allowance, lines: seq<Prepared>)
    requires (a.useBytes ==> a.bytes >= 0) && a.lines >= 0
    ensures Within(a, SelectHead(a, lines)) && IsHead(lines, SelectHead(a, lines))
  {
    hide SelectHead;
    HeadShape(a, lines);
    if a.bytes >= 0 { HeadWithin(a, lines); } else { HeadWithinNoBytes(a, lines); }
  }

  lemma {:induction false} HeadWithinNoBytes(a: Allowance, lines: seq<Prepared>)
    requires !a.useBytes
    ensures SelectHead(a, lines) == SelectHead(a.(bytes := 0), lines)
    ensures a.lines >= 0 ==> Within(a, SelectHead(a, lines))
    decreases |lines|
  {
    if lines != [] && a.CanSelect(lines[0]) {
      HeadWithinNoBytes(a.Consume(lines[0], lines[0].Size()), lines[1..]);
    }
    if a.lines >= 0 { HeadWithin(a.(bytes := 0), lines); }
  }

  lemma {:induction false} TailSolvent(a: Allowance, lines: seq<Prepared>)
    requires (a.useBytes ==> a.bytes >= 0) && a.lines >= 0
    ensures Within(a, SelectTail(a, lines)) && IsTail(lines, SelectTail(a, lines))
  {
    hide SelectTail;
    TailShape(a, lines);
    if a.bytes >= 0 { TailWithin(a, lines); } else { TailWithinNoBytes(a, lines); }
  }

  lemma {:induction false} TailWithinNoBytes(a: Allowance, lines: seq<Prepared>)
    requires !a.useBytes
    ensures SelectTail(a, lines) == SelectTail(a.(bytes := 0), lines)
    ensures a.lines >= 0 ==> Within(a, SelectTail(a, lines))
    decreases |lines|
  {
    if lines != [] && a.CanSelect(lines[|lines| - 1]) {
      TailWithinNoBytes(a.Consume(lines[|lines| - 1], lines[|lines| - 1].Size()), lines[..|lines| - 1]);
    }
    if a.lines >= 0 { TailWithin(a.(bytes := 0), lines); }
  }

  /** Head parts lie strictly before tail parts: on an earlier line, or on the same line with a gap in between. */
  ghost predicate Apart(e: Edges) {
    forall i, j :: 0 <= i < |e.head| && 0 <= j < |e.tail| ==>
      e.head[i].line.id < e.tail[j].line.id
      || (e.head[i].line.id == e.tail[j].line.id && e.head[i].end < e.tail[j].start)
  }

  lemma {:induction false} ByteGap(lines: seq<Prepared>, e: Edges)
    requires Numbered(lines) && IsHead(lines, e.head) && IsTail(lines, e.tail)
    requires SelectionBytes(e.head) + SelectionBytes(e.tail) < Sizes(lines)
    ensures Apart(e)
  {
    hide SelectionBytes, Sizes;
    var n, t := |lines|, |e.tail|;
    forall i, j | 0 <= i < |e.head| && 0 <= j < t
      ensures i < n - t + j || (i == n - t + j && e.head[i].end < e.tail[j].start)
    {
      HeadPosition(lines, e.head, i);
      TailPosition(lines, e.tail, j);
      var k := n - t + j;
      if k < i {
        SizesMonotone(lines, k + 1, i);
        SizesUpTo(lines, k);
      }
    }
  }

  lemma {:induction false} SizesUpTo(lines: seq<Prepared>, k: nat)
    requires k < |lines|
    ensures Sizes(lines[..k + 1]) == Sizes(lines[..k]) + lines[k].Size()
  {
    assert lines[..k + 1][..k] == lines[..k];
  }

  lemma {:induction false} LineGap(lines: seq<Prepared>, e: Edges)
    requires Numbered(lines) && IsHead(lines, e.head) && IsTail(lines, e.tail)
    requires |Ids(e.head) + Ids(e.tail)| < |lines|
    ensures Apart(e)
  {
    var n, h, t := |lines|, |e.head|, |e.tail|;
    if h > n - t {
      CountBelow(n);
      forall k | k in Below(n) ensures k in Ids(e.head) + Ids(e.tail) {
        if k < h { assert e.head[k].line.id == k; } else { assert e.tail[k - (n - t)].line.id == k; }
      }
      SubsetSize(Below(n), Ids(e.head) + Ids(e.tail));
    }
  }

  function Below(n: nat): set<nat> { if n == 0 then {} else Below(n - 1) + {n - 1} }

  lemma {:induction false} CountBelow(n: nat)
    ensures |Below(n)| == n && forall k: nat :: k in Below(n) <==> k < n
  {
    if n > 0 { CountBelow(n - 1); }
  }

  /** Line elision keeps the line limit and cuts the body only: what is left starts and ends as the body does. */
  lemma {:induction false} PreparedRespectsLimit(p: Policy, id: nat, line: SourceLine)
    ensures var r := Prepare(p, id, line);
      && (p.maxLineBytes > 0 ==> |r.source| <= p.maxLineBytes + |line.term|)
      && exists h: nat, t: nat :: h <= t <= |line.body| && r.source == line.body[..h] + line.body[t..] + line.term
                                  && (r.marker != [] ==> h == r.markerPos)
  {
    var body := line.body;
    if p.maxLineBytes > 0 && |body| > p.maxLineBytes {
      var (headLimit, tailLimit) := LimitSplit(p, p.maxLineBytes);
      CutBounds(body, headLimit);
      CutBounds(body, tailLimit);
      var h := HeadCut(body, headLimit);
      var t := Max(TailCut(body, tailLimit), h);
      assert Prepare(p, id, line).source == body[..h] + body[t..] + line.term;
    } else {
      assert body[..|body|] + body[|body|..] + line.term == body + line.term;
    }
  }

  /**
   Whatever the policy and the input, a truncated rendering keeps at most the byte limit and at most the line
   limit, and its two edges never overlap or meet.
   */
  lemma {:induction false} TruncationRespectsLimits(p: Policy, input: bytes)
    ensures var lines := PrepareAll(p, LinesFrom(input, 0)); var e := OuterEdges(p, lines); var report := Applied(p, input).1;
      !TruncationReason(p, Sizes(lines), |lines|).NoReason? ==>
        && Apart(e) && AllValid(e.head) && AllValid(e.tail)
        && (p.maxBytes > 0 ==> report.keptBytes <= p.maxBytes)
        && (p.maxLines > 0 ==> report.keptLines <= p.maxLines)
        && report.keptBytes == SelectionBytes(e.head) + SelectionBytes(e.tail)
        && report.keptLines == |Ids(e.head) + Ids(e.tail)|
  {
    hide PrepareAll, LinesFrom, OuterEdges, SelectionBytes, Ids, Sizes, Render, Marker, Assemble, AllValid, Apart, RenderFull;
    var lines := PrepareAll(p, LinesFrom(input, 0));
    PrepareAllNumbered(p, LinesFrom(input, 0));
    OuterEdgesValid(p, lines);
    var e := OuterEdges(p, lines);
    var reason := TruncationReason(p, Sizes(lines), |lines|);
    if p.maxLines < 0 {
      NegativeLineLimitKeepsNothing(p, input);
      NothingIsApart();
      return;
    }
    EdgesWithin(p, lines);
    if reason.ByBytes? { ByteGap(lines, e); }
    if reason.ByLines? { LineGap(lines, e); }
  }

  lemma {:induction false} NothingIsApart()
    ensures Apart(Edges([], [])) && SelectionBytes([]) == 0
  {}

  /** With a negative line limit, which is documented as disabled, a byte truncation keeps nothing at all. */
  lemma {:induction false} NegativeLineLimitKeepsNothing(p: Policy, input: bytes)
    requires p.maxLines < 0
    ensures var lines := PrepareAll(p, LinesFrom(input, 0));
      !TruncationReason(p, Sizes(lines), |lines|).NoReason? ==> OuterEdges(p, lines) == Edges([], [])
  {}
}
