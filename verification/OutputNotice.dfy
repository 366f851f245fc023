/**
 * What a truncated text says. The notice in it is read back by a reader of its own: reason, kept and original bytes,
 * kept and original lines; before it stands the start of the input, behind it its end.
 */
module OutputNotice {
  import opened Bytes
  import opened OutputBytes
  import opened OutputByteForm
  import opened OutputCuts
  import opened OutputEdges
  import opened OutputLimits
  import opened OutputPolicy
  import opened OutputWriter
  import opened Sequences
  import opened Wrappers

  // The reader.

  datatype Notice = Notice(reason: Reason, keptBytes: nat, originalBytes: nat, keptLines: nat, originalLines: nat)

  function Chars(s: bytes): string { seq(|s|, i requires 0 <= i < |s| => (s[i] as int) as char) }

  function Expect(t: string, literal: string): Option<string> {
    if literal <= t then Some(t[|literal|..]) else None
  }

  predicate IsDigit(c: char) { '0' <= c <= '9' }

  function DigitCount(t: string): (n: nat)
    ensures n <= |t| && (forall i :: 0 <= i < n ==> IsDigit(t[i])) && (n < |t| ==> !IsDigit(t[n]))
  {
    if t == "" || !IsDigit(t[0]) then 0 else 1 + DigitCount(t[1..])
  }

  function DigitValue(c: char): nat
    requires IsDigit(c)
  {
    (c as int) - ('0' as int)
  }

  function Value(digits: string): nat
    requires forall c :: c in digits ==> IsDigit(c)
  {
    if digits == "" then 0 else
      assert digits[|digits| - 1] in digits;
      Value(digits[..|digits| - 1]) * 10 + DigitValue(digits[|digits| - 1])
  }

  datatype Number = Number(value: nat, rest: string)

  function ReadNumber(t: string): Option<Number> {
    var n := DigitCount(t);
    if n == 0 then None else Some(Number(Value(t[..n]), t[n..]))
  }

  /** Two numbers with a slash between them. */
  datatype Pair = Pair(first: nat, second: nat, rest: string)

  function ReadPair(t: string): Option<Pair> {
    match ReadNumber(t)
    case None => None
    case Some(a) =>
      match Expect(a.rest, "/")
      case None => None
      case Some(u) =>
        match ReadNumber(u)
        case None => None
        case Some(b) => Some(Pair(a.value, b.value, b.rest))
  }

  function ReasonOf(word: string): Reason {
    if word == "bytes" then ByBytes
    else if word == "lines" then ByLines
    else if word == "line_length" then ByLineLength
    else if word == "budget" then ByBudget
    else if word == "file" then ByFile
    else NoReason
  }

  function FirstSpace(t: string): (n: nat)
    ensures n <= |t| && (forall i :: 0 <= i < n ==> t[i] != ' ') && (n < |t| ==> t[n] == ' ')
  {
    if t == "" || t[0] == ' ' then 0 else 1 + FirstSpace(t[1..])
  }

  function ReadCounts(t: string, reason: Reason): Option<Notice> {
    match Expect(t, " bytes=")
    case None => None
    case Some(t1) =>
      match ReadPair(t1)
      case None => None
      case Some(b) =>
        match Expect(b.rest, " lines=")
        case None => None
        case Some(t2) =>
          match ReadPair(t2)
          case None => None
          case Some(l) => if l.rest == "]" then Some(Notice(reason, b.first, b.second, l.first, l.second)) else None
  }

  /** Reads one whole line "[plasmid:truncated reason=... bytes=.../... lines=.../...]". */
  function ReadNotice(t: string): Option<Notice> {
    match Expect(t, "[plasmid:truncated reason=")
    case None => None
    case Some(t1) =>
      var n := FirstSpace(t1);
      var reason := ReasonOf(t1[..n]);
      if reason.NoReason? then None else ReadCounts(t1[n..], reason)
  }

  // What the writer of the notice puts there.

  lemma {:induction false} CharsAppend(a: bytes, b: bytes)
    ensures Chars(a + b) == Chars(a) + Chars(b)
  {}

  predicate Plain(t: string) { forall c :: c in t ==> ' ' <= c < 128 as char }

  lemma {:induction false} CharsOfAscii(t: string)
    requires Plain(t)
    ensures Chars(Ascii(t)) == t
  {
    forall i | 0 <= i < |t| ensures Chars(Ascii(t))[i] == t[i] { assert t[i] in t; }
  }

  lemma {:induction false} DigitsOf(n: nat)
    ensures var t := Chars(Decimal(n)); t != "" && (forall c :: c in t ==> IsDigit(c)) && Value(t) == n
  {
    var digit: bytes := [(48 + n % 10) as byte];
    if n < 10 {
      assert Decimal(n) == digit && Chars(digit)[..0] == "";
      assert Value("") == 0;
    } else {
      DigitsOf(n / 10);
      CharsAppend(Decimal(n / 10), digit);
      var t := Chars(Decimal(n));
      assert t[..|t| - 1] == Chars(Decimal(n / 10)) && t[|t| - 1] == Chars(digit)[0];
    }
  }

  lemma {:induction false} DigitCountIs(t: string, k: nat)
    requires k <= |t| && (forall i :: 0 <= i < k ==> IsDigit(t[i])) && (k < |t| ==> !IsDigit(t[k]))
    ensures DigitCount(t) == k
  {
    var n := DigitCount(t);
    assert !(n < k) && !(k < n);
  }

  lemma {:induction false} ReadsNumber(digits: string, rest: string)
    requires digits != "" && (forall c :: c in digits ==> IsDigit(c)) && (rest == "" || !IsDigit(rest[0]))
    ensures ReadNumber(digits + rest) == Some(Number(Value(digits), rest))
  {
    var t := digits + rest;
    forall i | 0 <= i < |digits| ensures IsDigit(t[i]) { assert digits[i] in digits; }
    DigitCountIs(t, |digits|);
    assert t[..|digits|] == digits && t[|digits|..] == rest;
  }

  lemma {:induction false} ReadsPair(a: nat, b: nat, rest: string)
    requires rest == "" || !IsDigit(rest[0])
    ensures ReadPair(Chars(Decimal(a)) + "/" + Chars(Decimal(b)) + rest) == Some(Pair(a, b, rest))
  {
    hide Chars, Decimal, Value, ReadNumber, Expect;
    DigitsOf(a);
    DigitsOf(b);
    var first, second := Chars(Decimal(a)), Chars(Decimal(b)) + rest;
    ReadsNumber(first, "/" + second);
    Expected("/", second);
    ReadsNumber(Chars(Decimal(b)), rest);
    Assoc(first + "/", Chars(Decimal(b)), rest);
    Assoc(first, "/", second);
  }

  lemma {:induction false} Expected(literal: string, rest: string)
    ensures Expect(literal + rest, literal) == Some(rest)
  {
    assert (literal + rest)[|literal|..] == rest;
  }

  lemma {:induction false} FirstSpaceIs(t: string, k: nat)
    requires k <= |t| && (forall i :: 0 <= i < k ==> t[i] != ' ') && (k < |t| ==> t[k] == ' ')
    ensures FirstSpace(t) == k
  {
    var n := FirstSpace(t);
    assert !(n < k) && !(k < n);
  }

  lemma {:induction false} ReasonReads(r: Reason, rest: string)
    requires !r.NoReason? && rest != "" && rest[0] == ' '
    ensures Plain(ReasonText(r)) && ReasonOf(ReasonText(r)) == r && FirstSpace(ReasonText(r) + rest) == |ReasonText(r)|
  {
    FirstSpaceIs(ReasonText(r) + rest, |ReasonText(r)|);
  }

  /** The text of a notice, as characters. */
  function NoticeText(r: Reason, a: nat, b: nat, c: nat, d: nat): string {
    "[plasmid:truncated reason=" + ReasonText(r) + " bytes=" + Chars(Decimal(a)) + "/" + Chars(Decimal(b))
    + " lines=" + Chars(Decimal(c)) + "/" + Chars(Decimal(d)) + "]"
  }

  lemma {:induction false} CharsOfNine(x1: bytes, x2: bytes, x3: bytes, x4: bytes, x5: bytes, x6: bytes, x7: bytes, x8: bytes, x9: bytes)
    ensures Chars(x1 + x2 + x3 + x4 + x5 + x6 + x7 + x8 + x9)
         == Chars(x1) + Chars(x2) + Chars(x3) + Chars(x4) + Chars(x5) + Chars(x6) + Chars(x7) + Chars(x8) + Chars(x9)
  {
    hide Chars;
    var y3 := x1 + x2;
    CharsAppend(x1, x2);
    CharsAppend(y3, x3);
    CharsAppend(y3 + x3, x4);
    var y5 := y3 + x3 + x4;
    CharsAppend(y5, x5);
    CharsAppend(y5 + x5, x6);
    var y7 := y5 + x5 + x6;
    CharsAppend(y7, x7);
    CharsAppend(y7 + x7, x8);
    CharsAppend(y7 + x7 + x8, x9);
  }

  lemma {:induction false} MarkerText(r: Reason, a: nat, b: nat, c: nat, d: nat)
    requires !r.NoReason?
    ensures Chars(Marker(r, a, b, c, d)) == NoticeText(r, a, b, c, d)
  {
    ReasonReads(r, " ");
    LiteralsArePlain();
    PlainAppend("[plasmid:truncated reason=", ReasonText(r));
    hide Decimal, Ascii, Chars, Plain, ReasonText;
    var open := "[plasmid:truncated reason=" + ReasonText(r);
    CharsOfAscii(open);
    CharsOfAscii(" bytes=");
    CharsOfAscii("/");
    CharsOfAscii(" lines=");
    CharsOfAscii("]");
    CharsOfNine(Ascii(open), Ascii(" bytes="), Decimal(a), Ascii("/"), Decimal(b), Ascii(" lines="), Decimal(c), Ascii("/"), Decimal(d));
    CharsAppend(Ascii(open) + Ascii(" bytes=") + Decimal(a) + Ascii("/") + Decimal(b) + Ascii(" lines=") + Decimal(c) + Ascii("/") + Decimal(d), Ascii("]"));
  }

  lemma {:induction false} Nested(o: string, w: string, l1: string, a: string, s: string, b: string, l2: string, c: string, d: string, e: string)
    ensures o + w + l1 + a + s + b + l2 + c + s + d + e == o + (w + (l1 + (a + s + b + (l2 + (c + s + d + e)))))
  {
    var end := c + s + d + e;
    var x2 := o + w + l1 + a + s + b;
    assert x2 + l2 + c + s + d + e == x2 + (l2 + end);
    var counts := a + s + b + (l2 + end);
    assert x2 + (l2 + end) == o + w + l1 + counts;
    assert o + w + l1 + counts == o + (w + (l1 + counts));
  }

  lemma {:induction false} NoticeNested(r: Reason, a: nat, b: nat, c: nat, d: nat)
    ensures NoticeText(r, a, b, c, d) ==
      "[plasmid:truncated reason=" + (ReasonText(r) + (" bytes=" + (Chars(Decimal(a)) + "/" + Chars(Decimal(b)) + (" lines=" + (Chars(Decimal(c)) + "/" + Chars(Decimal(d)) + "]")))))
  {
    hide Chars, Decimal, ReasonText;
    Nested("[plasmid:truncated reason=", ReasonText(r), " bytes=", Chars(Decimal(a)), "/", Chars(Decimal(b)), " lines=", Chars(Decimal(c)), Chars(Decimal(d)), "]");
  }

  lemma {:induction false} LiteralsArePlain()
    ensures Plain("[plasmid:truncated reason=") && Plain(" bytes=") && Plain("/") && Plain(" lines=") && Plain("]")
  {}

  lemma {:induction false} CountsRead(r: Reason, a: nat, b: nat, c: nat, d: nat)
    ensures ReadCounts(" bytes=" + (Chars(Decimal(a)) + "/" + Chars(Decimal(b)) + (" lines=" + (Chars(Decimal(c)) + "/" + Chars(Decimal(d)) + "]"))), r)
      == Some(Notice(r, a, b, c, d))
  {
    hide Chars, Decimal, Expect, ReadPair;
    var lines := Chars(Decimal(c)) + "/" + Chars(Decimal(d)) + "]";
    ReadsPair(c, d, "]");
    Expected(" lines=", lines);
    ReadsPair(a, b, " lines=" + lines);
    Expected(" bytes=", Chars(Decimal(a)) + "/" + Chars(Decimal(b)) + (" lines=" + lines));
  }

  /** The notice reads back as what it was made from. */
  lemma {:induction false} MarkerReads(r: Reason, a: nat, b: nat, c: nat, d: nat)
    requires !r.NoReason?
    ensures ReadNotice(Chars(Marker(r, a, b, c, d))) == Some(Notice(r, a, b, c, d))
  {
    hide Chars, Decimal, Expect, ReadCounts, Marker, ReasonText, ReasonOf, NoticeText;
    var counts := " bytes=" + (Chars(Decimal(a)) + "/" + Chars(Decimal(b)) + (" lines=" + (Chars(Decimal(c)) + "/" + Chars(Decimal(d)) + "]")));
    MarkerText(r, a, b, c, d);
    NoticeNested(r, a, b, c, d);
    ReasonReads(r, counts);
    Expected("[plasmid:truncated reason=", ReasonText(r) + counts);
    var t1 := ReasonText(r) + counts;
    assert t1[..|ReasonText(r)|] == ReasonText(r) && t1[|ReasonText(r)|..] == counts;
    CountsRead(r, a, b, c, d);
  }

  lemma {:induction false} DigitsArePlain(n: nat)
    ensures Plain(Chars(Decimal(n)))
  {
    DigitsOf(n);
  }

  lemma {:induction false} PlainAppend(a: string, b: string)
    requires Plain(a) && Plain(b)
    ensures Plain(a + b)
  {}

  lemma {:induction false} NoticeIsPlain(r: Reason, a: nat, b: nat, c: nat, d: nat)
    requires !r.NoReason?
    ensures Plain(NoticeText(r, a, b, c, d))
  {
    LiteralsArePlain();
    ReasonReads(r, " ");
    DigitsArePlain(a);
    DigitsArePlain(b);
    DigitsArePlain(c);
    DigitsArePlain(d);
    hide Plain, Chars, Decimal, ReasonText;
    var x1 := "[plasmid:truncated reason=" + ReasonText(r);
    PlainAppend("[plasmid:truncated reason=", ReasonText(r));
    PlainAppend(x1, " bytes=");
    PlainAppend(x1 + " bytes=", Chars(Decimal(a)));
    var x2 := x1 + " bytes=" + Chars(Decimal(a));
    PlainAppend(x2, "/");
    PlainAppend(x2 + "/", Chars(Decimal(b)));
    var x3 := x2 + "/" + Chars(Decimal(b));
    PlainAppend(x3, " lines=");
    PlainAppend(x3 + " lines=", Chars(Decimal(c)));
    var x4 := x3 + " lines=" + Chars(Decimal(c));
    PlainAppend(x4, "/");
    PlainAppend(x4 + "/", Chars(Decimal(d)));
    PlainAppend(x4 + "/" + Chars(Decimal(d)), "]");
  }

  // The text.

  /** One line "[plasmid:truncated reason=...]" that reads back as the report. */
  predicate IsNotice(m: bytes, report: Report) {
    && LF !in m && "[plasmid:truncated reason=" <= Chars(m) && m != [] && m[|m| - 1] == 0x5D
    && ReadNotice(Chars(m)) == Some(Notice(report.reason, report.keptBytes, report.originalBytes, report.keptLines, report.originalLines))
  }

  lemma {:induction false} MarkerIsNotice(r: Reason, a: nat, b: nat, c: nat, d: nat, report: Report)
    requires !r.NoReason? && report.reason == r && report.keptBytes == a && report.originalBytes == b && report.keptLines == c && report.originalLines == d
    ensures IsNotice(Marker(r, a, b, c, d), report)
  {
    MarkerReads(r, a, b, c, d);
    MarkerText(r, a, b, c, d);
    NoticeIsPlain(r, a, b, c, d);
    NoticeNested(r, a, b, c, d);
    hide ReadNotice, Marker, Decimal, ReasonText;
    var m, t := Marker(r, a, b, c, d), NoticeText(r, a, b, c, d);
    var counts := " bytes=" + (Chars(Decimal(a)) + "/" + Chars(Decimal(b)) + (" lines=" + (Chars(Decimal(c)) + "/" + Chars(Decimal(d)) + "]")));
    Begins("[plasmid:truncated reason=", ReasonText(r) + counts);
    EndsInBracket(r, a, b, c, d);
    hide NoticeText;
    OneLineOfText(m, t);
  }

  lemma {:induction false} Begins(a: string, b: string)
    ensures a <= a + b
  {}

  lemma {:induction false} EndsInBracket(r: Reason, a: nat, b: nat, c: nat, d: nat)
    ensures var t := NoticeText(r, a, b, c, d); t != "" && t[|t| - 1] == ']'
  {}

  lemma {:induction false} OneLineOfText(m: bytes, t: string)
    requires Chars(m) == t && Plain(t) && t != "" && t[|t| - 1] == ']'
    ensures LF !in m && m != [] && m[|m| - 1] == 0x5D
  {
    assert |m| == |t| && Chars(m)[|m| - 1] == ']';
    forall i | 0 <= i < |m| ensures m[i] != LF { assert Chars(m)[i] in t; }
  }

  /** A text brought to the end of its line. */
  function Closed(text: bytes): bytes { if text == [] || text[|text| - 1] == 10 then text else text + [10] }

  /** What follows the notice: the kept end on a line of its own, or else the input's own last line break. */
  function Ending(suffix: bytes, input: bytes): bytes {
    if suffix != [] then [10] + suffix
    else if input == [] || input[|input| - 1] != 10 then []
    else if |input| > 1 && input[|input| - 2] == 13 then [13, 10]
    else [10]
  }

  /** The kept start of the input, closed, one notice with the report's numbers, and the kept end. */
  ghost predicate Tells(text: bytes, prefix: bytes, suffix: bytes, input: bytes, report: Report) {
    exists m: bytes :: IsNotice(m, report) && text == Closed(prefix) + m + Ending(suffix, input)
  }

  lemma {:induction false} EndsWithLF(s: bytes)
    ensures EndsWith(s, [LF]) <==> s != [] && s[|s| - 1] == 10
    ensures EndsWith(s, [CR, LF]) <==> |s| > 1 && s[|s| - 1] == 10 && s[|s| - 2] == 13
  {
    if s != [] { assert s[|s| - 1..] == [s[|s| - 1]]; }
    if |s| > 1 { assert s[|s| - 2..] == [s[|s| - 2], s[|s| - 1]]; }
  }

  lemma {:induction false} AssembleIs(prefix: bytes, m: bytes, suffix: bytes, input: bytes)
    ensures Assemble(prefix, m, suffix, input) == Closed(prefix) + m + Ending(suffix, input)
  {
    EndsWithLF(prefix);
    EndsWithLF(input);
    hide EndsWith;
    var none: bytes := [];
    assert prefix + none == prefix;
    var head := prefix + (if prefix != [] && !EndsWith(prefix, [LF]) then [LF] else []);
    assert head == Closed(prefix);
    assert Ending(suffix, input) ==
      if suffix != [] then [LF] + suffix else if EndsWith(input, [CR, LF]) then [CR, LF] else if EndsWith(input, [LF]) then [LF] else [];
  }

  lemma {:induction false} AssembledTells(prefix: bytes, suffix: bytes, input: bytes, report: Report)
    requires !report.reason.NoReason?
    ensures var m := Marker(report.reason, report.keptBytes, report.originalBytes, report.keptLines, report.originalLines);
      Tells(Assemble(prefix, m, suffix, input), prefix, suffix, input, report)
  {
    hide Marker, IsNotice, Assemble, Closed, Ending;
    var m := Marker(report.reason, report.keptBytes, report.originalBytes, report.keptLines, report.originalLines);
    MarkerIsNotice(report.reason, report.keptBytes, report.originalBytes, report.keptLines, report.originalLines, report);
    AssembleIs(prefix, m, suffix, input);
  }

  /** The streaming form, for every stream over the limit: start and end of the stream, and as many bytes as reported. */
  lemma {:induction false} SampledTextTells(p: Policy, s: bytes) returns (prefix: bytes, suffix: bytes)
    requires 0 < p.maxBytes < |s|
    ensures var (text, report) := FromSamples(p, s);
      && Tells(text, prefix, suffix, s, report)
      && report.truncated && report.reason == ByBytes && report.originalBytes == |s| && report.originalLines == LineCount(s)
      && report.keptBytes == |prefix| + |suffix| <= p.maxBytes
      && |prefix| + |suffix| < |s| && prefix == s[..|prefix|] && suffix == s[|s| - |suffix|..]
  {
    hide Assemble, Marker, LineCount, SelectedLines, Tells, SampleCuts;
    var cut := SampleCuts(p, s);
    prefix, suffix := cut.prefix, cut.suffix;
    SampledCutsFit(p, s);
    AssembledTells(prefix, suffix, s, FromSamples(p, s).1);
  }

  lemma {:induction false} SampledCutsFit(p: Policy, s: bytes)
    requires 0 < p.maxBytes < |s|
    ensures var cut := SampleCuts(p, s);
      && |cut.prefix| + |cut.suffix| <= p.maxBytes && cut.prefix == s[..|cut.prefix|] && cut.suffix == s[|s| - |cut.suffix|..]
  {
    hide HeadCut, SampleCut;
    var limit := LimitSplit(p, p.maxBytes).1;
    SampleTailFits(s, p.maxBytes, limit);
    var first := SampleTail(s, p.maxBytes, limit);
    CutBounds(s, p.maxBytes - |first|);
    var prefix := HeadText(s, p.maxBytes - |first|);
    SampleTailFits(s, p.maxBytes, p.maxBytes - |prefix|);
  }

  lemma {:induction false} SampleTailFits(s: bytes, max: nat, limit: nat)
    requires limit <= max <= |s|
    ensures var t := SampleTail(s, max, limit); |t| <= limit && t == s[|s| - |t|..]
  {
    var o := Sample(s, max);
    CutBounds(o, limit);
    SampleCutBound(o, Before(s, max), limit);
    SkipAheadBounds(o, TailCut(o, limit));
    hide TailCut, SkipAhead;
    var c := SampleCut(o, Before(s, max), limit);
    assert o[c..] == s[|s| - max + c..];
  }

  // The whole-input form.

  /** Head and tail together are no longer than the lines. */
  lemma {:induction false} EdgesApartFit(lines: seq<Prepared>, e: Edges)
    requires Numbered(lines) && IsHead(lines, e.head) && IsTail(lines, e.tail) && Apart(e)
    ensures SelectionBytes(e.head) + SelectionBytes(e.tail) <= Sizes(lines)
  {
    hide SelectionBytes, Sizes;
    NoBytes();
    var n, h, t := |lines|, |e.head|, |e.tail|;
    SizesSplit(lines, n - t);
    if t > 0 { TailBytes(lines, e.tail); }
    if h > 0 {
      HeadBytes(lines, e.head);
      if t > 0 {
        assert e.head[h - 1].line.id == h - 1 && e.tail[0].line.id == n - t;
        if h - 1 < n - t {
          SizesUpTo(lines, h - 1);
          SizesMonotone(lines, h, n - t);
        }
      } else {
        SizesUpTo(lines, h - 1);
        SizesMonotone(lines, h, n);
        assert lines[..n] == lines;
      }
    } else {
      SizesMonotone(lines, 0, n - t);
    }
  }

  /** The whole-input form, for every policy and input: where it truncates, the text tells what is missing. */
  lemma {:induction false} AppliedTextTells(p: Policy, s: bytes) returns (prefix: bytes, suffix: bytes)
    requires Applied(p, s).1.reason.ByBytes? || Applied(p, s).1.reason.ByLines?
    ensures var (text, report) := Applied(p, s);
      && Tells(text, prefix, suffix, s, report) && report.truncated && report.originalBytes == |s| && report.originalLines == LineCount(s)
      && (p.maxLineBytes <= 0 ==>
          report.keptBytes == |prefix| + |suffix| <= |s| && prefix == s[..|prefix|] && suffix == s[|s| - |suffix|..])
  {
    hide Assemble, Marker, LineCount, Tells, PrepareAll, LinesFrom, Render, SelectionBytes, Sizes, OuterEdges, Flat, Ids, IsHead, IsTail, Apart, RenderFull, AnyMarker;
    var lines := PrepareAll(p, LinesFrom(s, 0));
    PrepareAllNumbered(p, LinesFrom(s, 0));
    LinesCounted(s, 0);
    assert s[0..] == s;
    var e := OuterEdges(p, lines);
    OuterEdgesValid(p, lines);
    prefix, suffix := Render(e.head), Render(e.tail);
    AssembledTells(prefix, suffix, s, Applied(p, s).1);
    if p.maxLineBytes <= 0 {
      PreparedWhole(p, s);
      EdgesShaped(p, lines);
      TruncationRespectsLimits(p, s);
      EdgesApartFit(lines, e);
      HeadIsStart(lines, e.head);
      TailIsEnd(lines, e.tail);
    }
  }

  lemma {:induction false} EdgesShaped(p: Policy, lines: seq<Prepared>)
    ensures IsHead(lines, OuterEdges(p, lines).head) && IsTail(lines, OuterEdges(p, lines).tail)
  {
    hide SelectHead, SelectTail;
    NoneShaped(lines);
    forall a: Allowance ensures IsHead(lines, SelectHead(a, lines)) && IsTail(lines, SelectTail(a, lines)) {
      HeadShape(a, lines);
      TailShape(a, lines);
    }
  }

  lemma {:induction false} NoneShaped(lines: seq<Prepared>)
    ensures IsHead(lines, []) && IsTail(lines, [])
  {}

  /** Which inputs are truncated when no line is too long, and why; all others are returned as they are. */
  lemma {:induction false} TruncatedWhen(p: Policy, s: bytes)
    requires p.maxLineBytes <= 0
    ensures var (text, report) := Applied(p, s);
      && report.reason == (if 0 < p.maxBytes < |s| then ByBytes else if 0 < p.maxLines < LineCount(s) then ByLines else NoReason)
      && (report.truncated <==> !report.reason.NoReason?)
      && (report.reason.NoReason? ==> text == s && report == Report(false, NoReason, |s|, LineCount(s), |s|, LineCount(s)))
  {
    hide Assemble, Marker, LineCount, PrepareAll, LinesFrom, Render, SelectionBytes, Sizes, OuterEdges, Flat, Ids, RenderFull;
    var lines := PrepareAll(p, LinesFrom(s, 0));
    PrepareAllNumbered(p, LinesFrom(s, 0));
    PreparedWhole(p, s);
    FullIsFlat(lines);
  }

  lemma {:induction false} FullIsFlat(lines: seq<Prepared>)
    requires Numbered(lines) && Unmarked(lines)
    ensures RenderFull(lines) == Flat(lines)
  {
    if lines != [] {
      FullIsFlat(lines[..|lines| - 1]);
      assert lines[|lines| - 1].Full() == lines[|lines| - 1].source;
    }
  }

  /** A line that is too long: the start and the end of its body around one notice, and its own line break. */
  lemma {:induction false} LongLineTells(p: Policy, id: nat, line: SourceLine) returns (h: nat, t: nat)
    requires 0 < p.maxLineBytes < |line.body|
    ensures h <= t <= |line.body| && h + (|line.body| - t) <= p.maxLineBytes
    ensures var r := Prepare(p, id, line);
      && r.Full() == line.body[..h] + r.marker + line.body[t..] + line.term
      && IsNotice(r.marker, Report(true, ByLineLength, |line.body|, 1, h + |line.body| - t, 1))
  {
    hide Marker, IsNotice, HeadCut, TailCut;
    var body := line.body;
    var (headLimit, tailLimit) := LimitSplit(p, p.maxLineBytes);
    CutBounds(body, headLimit);
    CutBounds(body, tailLimit);
    h := HeadCut(body, headLimit);
    t := TailCut(body, tailLimit);
    var r := Prepare(p, id, line);
    MarkerIsNotice(ByLineLength, h + |body| - t, |body|, 1, 1, Report(true, ByLineLength, |body|, 1, h + |body| - t, 1));
    AroundMarker(body[..h], body[t..] + line.term, r.source);
  }

  lemma {:induction false} AroundMarker(a: bytes, b: bytes, all: bytes)
    requires all == a + b
    ensures all[..|a|] == a && all[|a|..] == b
  {}
}
