/** The whole-input form of output elision: lines, selections at both outer edges, rendering and report. */
module OutputPolicy {
  import opened Bytes
  import opened Numbers
  import opened OutputCuts
  import opened Sequences

  datatype Reason = NoReason | ByBytes | ByLines | ByLineLength | ByBudget | ByFile

  /** `headShare` stands for the floating-point split: how much of a limit goes to the head. */
  datatype Policy = Policy(maxBytes: int, maxLines: int, maxLineBytes: int, headShare: int -> int)

  datatype Report = Report(truncated: bool, reason: Reason, originalBytes: nat, originalLines: nat, keptBytes: nat, keptLines: nat)

  function LimitSplit(p: Policy, limit: int): (split: (nat, nat))
    ensures split.0 + split.1 == if limit <= 0 then 0 else limit
    ensures limit > 0 ==> split.0 == Max(0, Min(p.headShare(limit), limit))
  {
    if limit <= 0 then (0, 0) else
      var head := p.headShare(limit);
      if head < 0 then (0, limit) else if head > limit then (limit, 0) else (head, limit - head)
  }

  // ---------------------------------------------------------------------------------------------
  // The marker.
  // ---------------------------------------------------------------------------------------------

  function Ascii(s: string): bytes {
    seq(|s|, i requires 0 <= i < |s| => ((s[i] as int) % 128) as byte)
  }

  function Decimal(n: nat): bytes {
    (if n < 10 then [] else Decimal(n / 10)) + [(48 + n % 10) as byte]
  }

  function ReasonText(r: Reason): string {
    match r
    case NoReason => ""
    case ByBytes => "bytes"
    case ByLines => "lines"
    case ByLineLength => "line_length"
    case ByBudget => "budget"
    case ByFile => "file"
  }

  function Marker(reason: Reason, keptBytes: nat, originalBytes: nat, keptLines: nat, originalLines: nat): bytes {
    if reason.NoReason? then [] else
    Ascii("[plasmid:truncated reason=" + ReasonText(reason))
    + Ascii(" bytes=") + Decimal(keptBytes) + Ascii("/") + Decimal(originalBytes)
    + Ascii(" lines=") + Decimal(keptLines) + Ascii("/") + Decimal(originalLines) + Ascii("]")
  }

  // ---------------------------------------------------------------------------------------------
  // Lines.
  // ---------------------------------------------------------------------------------------------

  datatype SourceLine = SourceLine(body: bytes, term: bytes)

  /** Index of the first LF from `i` on. */
  function NextLF(s: bytes, i: nat): (j: nat)
    requires i <= |s|
    ensures i <= j <= |s|
    decreases |s| - i
  {
    if i == |s| || s[i] == LF then i else NextLF(s, i + 1)
  }

  /** The line of `s` in [start, lf], its terminator split off. */
  function LineAt(s: bytes, start: nat, lf: nat): SourceLine
    requires start <= lf < |s|
  {
    if lf > start && s[lf - 1] == CR then SourceLine(s[start..lf - 1], s[lf - 1..lf + 1])
    else SourceLine(s[start..lf], s[lf..lf + 1])
  }

  function LinesFrom(s: bytes, start: nat): seq<SourceLine>
    requires start <= |s|
    decreases |s| - start
  {
    if start == |s| then [] else
      var lf := NextLF(s, start);
      if lf == |s| then [SourceLine(s[start..], [])] else [LineAt(s, start, lf)] + LinesFrom(s, lf + 1)
  }

  method SplitLines(s: bytes) returns (lines: seq<SourceLine>)
    ensures lines == LinesFrom(s, 0)
  {
    hide LinesFrom, NextLF, LineAt;
    lines := [];
    var start := 0;
    var i := 0;
    while i < |s|
      invariant 0 <= start <= i <= |s|
      invariant lines + LinesFrom(s, start) == LinesFrom(s, 0)
      invariant NextLF(s, start) == NextLF(s, i)
    {
      NextLFStep(s, i);
      if s[i] == LF {
        var bodyEnd, termStart := i, i;
        if i > start && s[i - 1] == CR {
          bodyEnd, termStart := i - 1, i - 1;
        }
        var line := SourceLine(s[start..bodyEnd], s[termStart..i + 1]);
        LineEndsAt(s, start, i);
        assert line == LineAt(s, start, i) by { LineIs(s, start, i); }
        Assoc(lines, [line], LinesFrom(s, i + 1));
        lines := lines + [line];
        start := i + 1;
      }
      i := i + 1;
    }
    LastLine(s, start);
    if start < |s| {
      lines := lines + [SourceLine(s[start..], [])];
    }
  }

  lemma {:induction false} NextLFStep(s: bytes, i: nat)
    requires i < |s|
    ensures NextLF(s, i) == if s[i] == LF then i else NextLF(s, i + 1)
  {}

  lemma {:induction false} LineIs(s: bytes, start: nat, lf: nat)
    requires start <= lf < |s|
    ensures LineAt(s, start, lf) ==
      if lf > start && s[lf - 1] == CR then SourceLine(s[start..lf - 1], s[lf - 1..lf + 1]) else SourceLine(s[start..lf], s[lf..lf + 1])
  {}

  lemma {:induction false} LineEndsAt(s: bytes, start: nat, lf: nat)
    requires start <= lf < |s| && NextLF(s, start) == lf
    ensures LinesFrom(s, start) == [LineAt(s, start, lf)] + LinesFrom(s, lf + 1)
  {}

  lemma {:induction false} LastLine(s: bytes, start: nat)
    requires start <= |s| && NextLF(s, start) == NextLF(s, |s|)
    ensures LinesFrom(s, start) == if start < |s| then [SourceLine(s[start..], [])] else []
  {}

  /** A line after line-length elision: what is left of its source, and the marker with its place in it. */
  datatype Prepared = Prepared(id: nat, source: bytes, marker: bytes, markerPos: nat) {
    predicate Valid() { markerPos <= |source| }
    function Size(): nat { |source| }
    function Full(): bytes
      requires Valid()
    {
      if marker == [] then source else source[..markerPos] + marker + source[markerPos..]
    }
  }

  function Prepare(p: Policy, id: nat, line: SourceLine): (r: Prepared)
    ensures r.Valid() && r.id == id
    ensures p.maxLineBytes <= 0 || |line.body| <= p.maxLineBytes ==> r.source == line.body + line.term && r.marker == []
  {
    var body := line.body;
    if p.maxLineBytes <= 0 || |body| <= p.maxLineBytes then Prepared(id, body + line.term, [], 0) else
      var (headLimit, tailLimit) := LimitSplit(p, p.maxLineBytes);
      CutBounds(body, headLimit);
      CutBounds(body, tailLimit);
      var headEnd := HeadCut(body, headLimit);
      var tailStart := Max(TailCut(body, tailLimit), headEnd);
      var head, tail := body[..headEnd], body[tailStart..];
      Prepared(id, head + tail + line.term, Marker(ByLineLength, |head| + |tail|, |body|, 1, 1), |head|)
  }

  lemma {:induction false} CutBounds(s: bytes, limit: int)
    ensures HeadCut(s, limit) <= |s| && TailCut(s, limit) <= |s|
    ensures limit >= 0 ==> HeadCut(s, limit) <= limit && |s| - TailCut(s, limit) <= limit
  {
    if limit >= 0 { HeadCutGreatest(s, limit); }
    if 0 < limit < |s| { SkipAheadIs(s, |s| - limit); }
  }

  function PrepareAll(p: Policy, lines: seq<SourceLine>): (r: seq<Prepared>)
    ensures |r| == |lines|
  {
    if lines == [] then [] else PrepareAll(p, lines[..|lines| - 1]) + [Prepare(p, |lines| - 1, lines[|lines| - 1])]
  }

  method PrepareCompleteLine(p: Policy, id: nat, line: SourceLine) returns (r: Prepared)
    ensures r == Prepare(p, id, line)
  {
    hide HeadCut, TailCut, Marker, LimitSplit;
    var body := line.body;
    if p.maxLineBytes <= 0 || |body| <= p.maxLineBytes {
      return Prepared(id, body + line.term, [], 0);
    }
    var split := LimitSplit(p, p.maxLineBytes);
    CutBounds(body, split.0);
    CutBounds(body, split.1);
    var headEnd := InwardHead(body, split.0);
    var tailStart := InwardTail(body, split.1);
    if tailStart < headEnd { tailStart := headEnd; }
    var head, tail := body[..headEnd], body[tailStart..];
    return Prepared(id, head + tail + line.term, Marker(ByLineLength, |head| + |tail|, |body|, 1, 1), |head|);
  }

  /** Prepared lines are numbered by position. */
  predicate Numbered(lines: seq<Prepared>) {
    forall i :: 0 <= i < |lines| ==> lines[i].Valid() && lines[i].id == i
  }

  lemma {:induction false} PrepareAllNumbered(p: Policy, lines: seq<SourceLine>)
    ensures Numbered(PrepareAll(p, lines))
  {
    if lines != [] { PrepareAllNumbered(p, lines[..|lines| - 1]); }
  }

  function Sizes(lines: seq<Prepared>): nat {
    if lines == [] then 0 else Sizes(lines[..|lines| - 1]) + lines[|lines| - 1].Size()
  }

  // ---------------------------------------------------------------------------------------------
  // Selections within an allowance.
  // ---------------------------------------------------------------------------------------------

  datatype Selection = Selection(line: Prepared, start: nat, end: nat) {
    /** A selection touches an edge of its line; rendering a range relies on nothing else. */
    predicate Valid() { line.Valid() && start <= end <= line.Size() && (start == 0 || end == line.Size()) }
    function Size(): nat { if start <= end then end - start else 0 }
  }

  datatype Allowance = Allowance(bytes: int, lines: int, useBytes: bool, useLines: bool, occupied: set<nat>) {
    predicate CanSelect(line: Prepared) {
      && !(useLines && lines == 0 && line.id !in occupied)
      && (!useBytes || bytes != 0 || line.Size() == 0)
    }

    function Consume(line: Prepared, kept: nat): Allowance {
      this.(bytes := if useBytes then bytes - kept else bytes,
            lines := if useLines && line.id !in occupied then lines - 1 else lines)
    }
  }

  function SafePrefix(line: Prepared, limit: int): nat {
    if limit <= 0 then 0 else if limit >= line.Size() then line.Size() else HeadCut(line.source, limit)
  }

  function SafeSuffixStart(line: Prepared, limit: int): nat {
    if limit <= 0 then line.Size() else if limit >= line.Size() then 0 else TailCut(line.source, limit)
  }

  /** How much of a line's head fits. */
  function HeadPart(a: Allowance, line: Prepared): nat {
    if a.useBytes && line.Size() > a.bytes then SafePrefix(line, a.bytes) else line.Size()
  }

  /** Where the part of a line's tail that fits starts. */
  function TailPart(a: Allowance, line: Prepared): nat {
    if a.useBytes && line.Size() > a.bytes then SafeSuffixStart(line, a.bytes) else 0
  }

  lemma {:induction false} PartBounds(a: Allowance, line: Prepared)
    ensures HeadPart(a, line) <= line.Size() && TailPart(a, line) <= line.Size()
    ensures a.useBytes && a.bytes >= 0 ==> HeadPart(a, line) <= a.bytes && line.Size() - TailPart(a, line) <= a.bytes
  {
    CutBounds(line.source, a.bytes);
  }

  function SelectHead(a: Allowance, lines: seq<Prepared>): seq<Selection>
    decreases |lines|
  {
    if lines == [] || !a.CanSelect(lines[0]) then [] else
      var line := lines[0];
      var end := HeadPart(a, line);
      if end == 0 && line.Size() != 0 then []
      else [Selection(line, 0, end)] + (if end != line.Size() then [] else SelectHead(a.Consume(line, end), lines[1..]))
  }

  function SelectTail(a: Allowance, lines: seq<Prepared>): seq<Selection>
    decreases |lines|
  {
    if lines == [] || !a.CanSelect(lines[|lines| - 1]) then [] else
      var line := lines[|lines| - 1];
      var start := TailPart(a, line);
      PartBounds(a, line);
      if start == line.Size() && line.Size() != 0 then []
      else (if start != 0 then [] else SelectTail(a.Consume(line, line.Size() - start), lines[..|lines| - 1]))
           + [Selection(line, start, line.Size())]
  }

  function Ids(selections: seq<Selection>): set<nat> {
    set i | 0 <= i < |selections| :: selections[i].line.id
  }

  function NewAllowance(byteLimit: int, lineLimit: int, useBytes: bool, useLines: bool, occupied: seq<Selection>): Allowance {
    Allowance(byteLimit, if useLines then lineLimit - |Ids(occupied)| else lineLimit, useBytes, useLines, Ids(occupied))
  }

  function PrefixWithin(lines: seq<Prepared>, byteLimit: int, lineLimit: int, useBytes: bool, useLines: bool, occupied: seq<Selection>): seq<Selection> {
    var a := NewAllowance(byteLimit, lineLimit, useBytes, useLines, occupied);
    if a.lines < 0 then [] else SelectHead(a, lines)
  }

  function SuffixWithin(lines: seq<Prepared>, byteLimit: int, lineLimit: int, useBytes: bool, useLines: bool, occupied: seq<Selection>): seq<Selection> {
    var a := NewAllowance(byteLimit, lineLimit, useBytes, useLines, occupied);
    if a.lines < 0 then [] else SelectTail(a, lines)
  }

  /** The running budget of one selection loop. */
  class SelectionBudget {
    var remainingBytes: int
    var remainingLines: int
    const useBytes: bool
    const useLines: bool
    const occupied: set<nat>

    function Value(): Allowance reads this {
      Allowance(remainingBytes, remainingLines, useBytes, useLines, occupied)
    }

    constructor (byteLimit: int, lineLimit: int, useBytes: bool, useLines: bool, occupied: seq<Selection>)
      ensures Value() == NewAllowance(byteLimit, lineLimit, useBytes, useLines, occupied)
    {
      this.remainingBytes := byteLimit;
      this.remainingLines := if useLines then lineLimit - |Ids(occupied)| else lineLimit;
      this.useBytes, this.useLines := useBytes, useLines;
      this.occupied := Ids(occupied);
    }

    method CanSelect(line: Prepared) returns (ok: bool)
      ensures ok == Value().CanSelect(line)
    {
      if useLines && remainingLines == 0 && line.id !in occupied { return false; }
      return !useBytes || remainingBytes != 0 || line.Size() == 0;
    }

    method Consume(line: Prepared, kept: nat)
      modifies this
      ensures Value() == old(Value()).Consume(line, kept)
    {
      if useBytes { remainingBytes := remainingBytes - kept; }
      if useLines && line.id !in occupied { remainingLines := remainingLines - 1; }
    }
  }

  method SelectPrefixWithin(lines: seq<Prepared>, byteLimit: int, lineLimit: int, useBytes: bool, useLines: bool, occupied: seq<Selection>)
    returns (selected: seq<Selection>)
    ensures selected == PrefixWithin(lines, byteLimit, lineLimit, useBytes, useLines, occupied)
  {
    hide Ids, SelectHead, SafePrefix;
    var budget := new SelectionBudget(byteLimit, lineLimit, useBytes, useLines, occupied);
    if budget.remainingLines < 0 { return []; }
    selected := [];
    ghost var all := SelectHead(budget.Value(), lines);
    var i := 0;
    assert lines[0..] == lines;
    while i < |lines|
      invariant 0 <= i <= |lines| && budget.useBytes == useBytes
      invariant selected + SelectHead(budget.Value(), lines[i..]) == all
    {
      var line := lines[i];
      HeadStep(budget.Value(), lines, i);
      var ok := budget.CanSelect(line);
      if !ok { return; }
      var end := line.Size();
      if useBytes && end > budget.remainingBytes {
        end := SafePrefixOf(line, budget.remainingBytes);
      }
      if end == 0 && line.Size() != 0 { return; }
      budget.Consume(line, end);
      Assoc(selected, [Selection(line, 0, end)], SelectHead(budget.Value(), lines[i + 1..]));
      selected := selected + [Selection(line, 0, end)];
      i := i + 1;
      if end != line.Size() { return; }
    }
    assert lines[i..] == [];
    HeadOfNothing(budget.Value());
  }

  lemma {:induction false} HeadOfNothing(a: Allowance)
    ensures SelectHead(a, []) == [] && SelectTail(a, []) == []
  {}

  lemma {:induction false} HeadStep(a: Allowance, lines: seq<Prepared>, i: nat)
    requires i < |lines|
    ensures var line, end := lines[i], HeadPart(a, lines[i]);
      SelectHead(a, lines[i..]) ==
        if !a.CanSelect(line) || (end == 0 && line.Size() != 0) then []
        else [Selection(line, 0, end)] + (if end != line.Size() then [] else SelectHead(a.Consume(line, end), lines[i + 1..]))
  {
    assert lines[i..][1..] == lines[i + 1..];
  }

  lemma {:induction false} TailStep(a: Allowance, lines: seq<Prepared>, i: nat)
    requires 0 < i <= |lines|
    ensures TailPart(a, lines[i - 1]) <= lines[i - 1].Size()
    ensures var line, start := lines[i - 1], TailPart(a, lines[i - 1]);
      SelectTail(a, lines[..i]) ==
        if !a.CanSelect(line) || (start == line.Size() && line.Size() != 0) then []
        else (if start != 0 then [] else SelectTail(a.Consume(line, line.Size() - start), lines[..i - 1])) + [Selection(line, start, line.Size())]
  {
    PartBounds(a, lines[i - 1]);
    assert lines[..i][..i - 1] == lines[..i - 1];
  }

  method SafePrefixOf(line: Prepared, limit: int) returns (end: nat)
    ensures end == SafePrefix(line, limit)
  {
    if limit <= 0 { return 0; }
    if limit >= line.Size() { return line.Size(); }
    end := InwardHead(line.source, limit);
  }

  method SafeSuffixStartOf(line: Prepared, limit: int) returns (start: nat)
    ensures start == SafeSuffixStart(line, limit)
  {
    if limit <= 0 { return line.Size(); }
    if limit >= line.Size() { return 0; }
    var local := InwardTail(line.source, limit);
    CutBounds(line.source, limit);
    start := line.Size() - (|line.source| - local);
  }

  function Reversed<T>(s: seq<T>): seq<T> {
    if s == [] then [] else Reversed(s[1..]) + [s[0]]
  }

  lemma {:induction false} ReversedSnoc<T>(s: seq<T>, x: T)
    ensures Reversed(s + [x]) == [x] + Reversed(s)
  {
    if s != [] {
      assert (s + [x])[1..] == s[1..] + [x];
      ReversedSnoc(s[1..], x);
    } else {
      assert s + [x] == [x];
    }
  }

  lemma {:induction false} ReversedAt<T>(s: seq<T>, k: nat)
    requires k < |s|
    ensures |Reversed(s)| == |s| && Reversed(s)[k] == s[|s| - 1 - k]
  {
    if |s| > 1 { ReversedAt(s[1..], if k < |s| - 1 then k else 0); }
  }

  /** The in-place swap loop at the end of a suffix selection. */
  method ReverseSelections(s: seq<Selection>) returns (r: seq<Selection>)
    ensures r == Reversed(s)
  {
    r := s;
    var left, right := 0, |s| - 1;
    while left < right
      invariant |r| == |s| && 0 <= left && left + right == |s| - 1 && left <= right + 1
      invariant forall k :: 0 <= k < left ==> r[k] == s[|s| - 1 - k] && r[|s| - 1 - k] == s[k]
      invariant forall k :: left <= k <= right ==> r[k] == s[k]
    {
      r := r[left := r[right]][right := r[left]];
      left, right := left + 1, right - 1;
    }
    ReversedLength(s);
    forall k | 0 <= k < |s| ensures r[k] == Reversed(s)[k] { ReversedAt(s, k); }
  }

  lemma {:induction false} ReversedLength<T>(s: seq<T>)
    ensures |Reversed(s)| == |s|
  {
    if s != [] { ReversedAt(s, 0); }
  }

  method SelectSuffixWithin(lines: seq<Prepared>, byteLimit: int, lineLimit: int, useBytes: bool, useLines: bool, occupied: seq<Selection>)
    returns (selected: seq<Selection>)
    ensures selected == SuffixWithin(lines, byteLimit, lineLimit, useBytes, useLines, occupied)
  {
    hide Ids, SelectTail, SafeSuffixStart, Reversed;
    var budget := new SelectionBudget(byteLimit, lineLimit, useBytes, useLines, occupied);
    if budget.remainingLines < 0 { return []; }
    var reversed: seq<Selection> := [];
    ghost var all := SelectTail(budget.Value(), lines);
    var i := |lines|;
    assert lines[..i] == lines;
    ReversedNothing<Selection>();
    while i > 0
      invariant 0 <= i <= |lines| && budget.useBytes == useBytes
      invariant SelectTail(budget.Value(), lines[..i]) + Reversed(reversed) == all
    {
      var line := lines[i - 1];
      TailStep(budget.Value(), lines, i);
      var ok := budget.CanSelect(line);
      if !ok { break; }
      var start := 0;
      if useBytes && line.Size() > budget.remainingBytes {
        start := SafeSuffixStartOf(line, budget.remainingBytes);
      }
      var kept := line.Size() - start;
      if kept == 0 && line.Size() != 0 { break; }
      budget.Consume(line, kept);
      var selection := Selection(line, start, line.Size());
      ReversedSnoc(reversed, selection);
      Assoc(SelectTail(budget.Value(), lines[..i - 1]), [selection], Reversed(reversed));
      reversed := reversed + [selection];
      i := i - 1;
      if start != 0 {
        selected := ReverseSelections(reversed);
        return;
      }
    }
    if i == 0 { HeadOfNothing(budget.Value()); }
    selected := ReverseSelections(reversed);
  }

  lemma {:induction false} ReversedNothing<T>()
    ensures Reversed<T>([]) == []
  {}

  // ---------------------------------------------------------------------------------------------
  // Rendering.
  // ---------------------------------------------------------------------------------------------

  /** Rendering part of a line; the code panics on a range that touches no edge. */
  function RenderRange(s: Selection): bytes
    requires s.Valid()
  {
    var line := s.line;
    if s.start == 0 && s.end == line.Size() then line.Full() else
      var source := line.source[s.start..s.end];
      if line.marker == [] || line.markerPos <= s.start || line.markerPos >= s.end then source
      else source[..line.markerPos - s.start] + line.marker + source[line.markerPos - s.start..]
  }

  predicate AllValid(selections: seq<Selection>) {
    forall i :: 0 <= i < |selections| ==> selections[i].Valid()
  }

  function Render(selections: seq<Selection>): bytes
    requires AllValid(selections)
  {
    if selections == [] then [] else
      Render(selections[..|selections| - 1]) + RenderRange(selections[|selections| - 1])
  }

  function RenderFull(lines: seq<Prepared>): bytes
    requires forall i :: 0 <= i < |lines| ==> lines[i].Valid()
  {
    if lines == [] then [] else RenderFull(lines[..|lines| - 1]) + lines[|lines| - 1].Full()
  }

  function SelectionBytes(selections: seq<Selection>): nat {
    if selections == [] then 0 else SelectionBytes(selections[..|selections| - 1]) + selections[|selections| - 1].Size()
  }

  function EndsWith(s: bytes, suffix: bytes): bool { |suffix| <= |s| && s[|s| - |suffix|..] == suffix }

  /** Head text, marker and tail text put together; without tail text the input's final line break is kept. */
  function Assemble(prefix: bytes, marker: bytes, suffix: bytes, input: bytes): bytes {
    prefix + (if prefix != [] && !EndsWith(prefix, [LF]) then [LF] else [])
    + marker
    + (if suffix != [] then [LF] + suffix
       else if EndsWith(input, [CR, LF]) then [CR, LF]
       else if EndsWith(input, [LF]) then [LF] else [])
  }

  // ---------------------------------------------------------------------------------------------
  // The selections of the two outer edges are valid, whatever the policy.
  // ---------------------------------------------------------------------------------------------

  lemma {:induction false} SelectHeadValid(a: Allowance, lines: seq<Prepared>)
    requires forall i :: 0 <= i < |lines| ==> lines[i].Valid()
    ensures AllValid(SelectHead(a, lines))
    decreases |lines|
  {
    if lines != [] && a.CanSelect(lines[0]) {
      PartBounds(a, lines[0]);
      SelectHeadValid(a.Consume(lines[0], HeadPart(a, lines[0])), lines[1..]);
    }
  }

  lemma {:induction false} SelectTailValid(a: Allowance, lines: seq<Prepared>)
    requires forall i :: 0 <= i < |lines| ==> lines[i].Valid()
    ensures AllValid(SelectTail(a, lines))
    decreases |lines|
  {
    if lines != [] && a.CanSelect(lines[|lines| - 1]) {
      var line := lines[|lines| - 1];
      PartBounds(a, line);
      SelectTailValid(a.Consume(line, line.Size() - TailPart(a, line)), lines[..|lines| - 1]);
    }
  }

  // ---------------------------------------------------------------------------------------------
  // Apply.
  // ---------------------------------------------------------------------------------------------

  datatype Edges = Edges(head: seq<Selection>, tail: seq<Selection>)

  /** The tail is selected twice: first within its share, then within whatever the head left over. */
  function OuterEdges(p: Policy, lines: seq<Prepared>): Edges {
    var useBytes, useLines := p.maxBytes > 0, p.maxLines > 0;
    var first := SuffixWithin(lines, LimitSplit(p, p.maxBytes).1, LimitSplit(p, p.maxLines).1, useBytes, useLines, []);
    var head := PrefixWithin(lines, if useBytes then p.maxBytes - SelectionBytes(first) else p.maxBytes, p.maxLines, useBytes, useLines, first);
    var tail := SuffixWithin(lines, if useBytes then p.maxBytes - SelectionBytes(head) else p.maxBytes, p.maxLines, useBytes, useLines, head);
    Edges(head, tail)
  }

  lemma {:induction false} NothingIsValid()
    ensures AllValid([])
  {}

  lemma {:induction false} OuterEdgesValid(p: Policy, lines: seq<Prepared>)
    requires forall i :: 0 <= i < |lines| ==> lines[i].Valid()
    ensures AllValid(OuterEdges(p, lines).head) && AllValid(OuterEdges(p, lines).tail)
  {
    hide SelectHead, SelectTail, AllValid, SelectionBytes, Ids, LimitSplit;
    assert AllValid([]) by { NothingIsValid(); }
    var useBytes, useLines := p.maxBytes > 0, p.maxLines > 0;
    var first := SuffixWithin(lines, LimitSplit(p, p.maxBytes).1, LimitSplit(p, p.maxLines).1, useBytes, useLines, []);
    var headBytes := if useBytes then p.maxBytes - SelectionBytes(first) else p.maxBytes;
    var head := PrefixWithin(lines, headBytes, p.maxLines, useBytes, useLines, first);
    SelectHeadValid(NewAllowance(headBytes, p.maxLines, useBytes, useLines, first), lines);
    SelectTailValid(NewAllowance(if useBytes then p.maxBytes - SelectionBytes(head) else p.maxBytes, p.maxLines, useBytes, useLines, head), lines);
  }

  function TruncationReason(p: Policy, processedBytes: nat, originalLines: nat): Reason {
    if p.maxBytes > 0 && processedBytes > p.maxBytes then ByBytes
    else if p.maxLines > 0 && originalLines > p.maxLines then ByLines
    else NoReason
  }

  /** Some line lost part of its body. */
  predicate AnyMarker(lines: seq<Prepared>) { exists i :: 0 <= i < |lines| && lines[i].marker != [] }

  function Complete(lines: seq<Prepared>, input: bytes): (bytes, Report)
    requires Numbered(lines)
  {
    var elided := AnyMarker(lines);
    (RenderFull(lines), Report(elided, if elided then ByLineLength else NoReason, |input|, |lines|, Sizes(lines), |lines|))
  }

  function Truncated(lines: seq<Prepared>, input: bytes, reason: Reason, edges: Edges): (bytes, Report)
    requires AllValid(edges.head) && AllValid(edges.tail)
  {
    var keptBytes := SelectionBytes(edges.head) + SelectionBytes(edges.tail);
    var keptLines := |Ids(edges.head) + Ids(edges.tail)|;
    (Assemble(Render(edges.head), Marker(reason, keptBytes, |input|, keptLines, |lines|), Render(edges.tail), input),
     Report(true, reason, |input|, |lines|, keptBytes, keptLines))
  }

  function Applied(p: Policy, input: bytes): (bytes, Report) {
    var lines := PrepareAll(p, LinesFrom(input, 0));
    PrepareAllNumbered(p, LinesFrom(input, 0));
    var reason := TruncationReason(p, Sizes(lines), |lines|);
    if reason.NoReason? then Complete(lines, input) else
      OuterEdgesValid(p, lines);
      Truncated(lines, input, reason, OuterEdges(p, lines))
  }

  method SelectOuterEdges(p: Policy, lines: seq<Prepared>) returns (head: seq<Selection>, tail: seq<Selection>)
    ensures Edges(head, tail) == OuterEdges(p, lines)
  {
    hide SuffixWithin, PrefixWithin, LimitSplit, SelectionBytes;
    var useBytes, useLines := p.maxBytes > 0, p.maxLines > 0;
    tail := SelectSuffixWithin(lines, LimitSplit(p, p.maxBytes).1, LimitSplit(p, p.maxLines).1, useBytes, useLines, []);
    var headByteLimit := p.maxBytes;
    if useBytes { headByteLimit := headByteLimit - SelectionBytes(tail); }
    head := SelectPrefixWithin(lines, headByteLimit, p.maxLines, useBytes, useLines, tail);
    var tailByteLimit := p.maxBytes;
    if useBytes { tailByteLimit := tailByteLimit - SelectionBytes(head); }
    tail := SelectSuffixWithin(lines, tailByteLimit, p.maxLines, useBytes, useLines, head);
  }

  /** Prepare every line, adding up what is left of it. */
  method PrepareLines(p: Policy, lines: seq<SourceLine>) returns (prepared: seq<Prepared>, processedBytes: nat, lineElided: bool)
    ensures prepared == PrepareAll(p, lines) && processedBytes == Sizes(prepared)
    ensures lineElided <==> AnyMarker(prepared)
  {
    hide Prepare, PrepareAll, Sizes, AnyMarker;
    prepared, processedBytes, lineElided := [], 0, false;
    PrepareNothing(p);
    for i := 0 to |lines|
      invariant prepared == PrepareAll(p, lines[..i])
      invariant processedBytes == Sizes(prepared)
      invariant lineElided <==> AnyMarker(prepared)
    {
      var line := PrepareCompleteLine(p, i, lines[i]);
      PrepareSnoc(p, lines, i);
      SizesSnoc(prepared, line);
      prepared := prepared + [line];
      processedBytes := processedBytes + line.Size();
      lineElided := lineElided || line.marker != [];
    }
    assert lines[..|lines|] == lines;
  }

  lemma {:induction false} PrepareNothing(p: Policy)
    ensures PrepareAll(p, []) == [] && Sizes([]) == 0 && !AnyMarker([])
  {}

  lemma {:induction false} PrepareSnoc(p: Policy, lines: seq<SourceLine>, i: nat)
    requires i < |lines|
    ensures PrepareAll(p, lines[..i + 1]) == PrepareAll(p, lines[..i]) + [Prepare(p, i, lines[i])]
  {
    hide Prepare;
    assert lines[..i + 1][..i] == lines[..i];
  }

  lemma {:induction false} SizesSnoc(lines: seq<Prepared>, line: Prepared)
    ensures Sizes(lines + [line]) == Sizes(lines) + line.Size()
    ensures AnyMarker(lines + [line]) <==> AnyMarker(lines) || line.marker != []
  {
    var all := lines + [line];
    assert all[..|lines|] == lines;
    assert all[|lines|] == line;
    if AnyMarker(lines) {
      var k :| 0 <= k < |lines| && lines[k].marker != [];
      assert all[k].marker != [];
    }
  }

  method Apply(p: Policy, input: bytes) returns (text: bytes, report: Report)
    ensures (text, report) == Applied(p, input)
  {
    hide RenderFull, Render, OuterEdges, SelectionBytes, Marker, Assemble, PrepareAll, Sizes, LinesFrom, Ids, AnyMarker;
    var lines := SplitLines(input);
    var prepared, processedBytes, lineElided := PrepareLines(p, lines);
    PrepareAllNumbered(p, lines);
    var reason := TruncationReason(p, processedBytes, |lines|);
    if reason.NoReason? {
      text := RenderFull(prepared);
      report := Report(lineElided, if lineElided then ByLineLength else NoReason, |input|, |lines|, processedBytes, |lines|);
      return;
    }
    var head, tail := SelectOuterEdges(p, prepared);
    OuterEdgesValid(p, prepared);
    var keptBytes := SelectionBytes(head) + SelectionBytes(tail);
    var keptLines := |Ids(head) + Ids(tail)|;
    text := Assemble(Render(head), Marker(reason, keptBytes, |input|, keptLines, |lines|), Render(tail), input);
    report := Report(true, reason, |input|, |lines|, keptBytes, keptLines);
  }
}
