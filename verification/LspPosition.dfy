/**
 * Byte offsets and Language Server Protocol positions (version 3.17, section "Position"). Lines end at LF only; a CR
 * just before that LF, or at the very end of the document, is not part of the line. Columns count UTF-8 or UTF-16
 * units; a code point above U+FFFF, four bytes in UTF-8, takes two UTF-16 units (section 2.1 of RFC 2781).
 */
module LspPosition {
  import opened Wrappers
  import opened Bytes

  datatype Position = Position(line: nat, character: nat)

  datatype Encoding = Unset | Utf8 | Utf16 | Other

  predicate Supported(enc: Encoding) { !enc.Other? }

  function RuneUnits(width: nat, enc: Encoding): nat {
    if enc.Utf8? then width else if width == 4 then 2 else 1
  }

  /** Units of the code points from byte `i` to byte `j`. */
  function Units(s: bytes, i: nat, j: nat, enc: Encoding): nat
    requires i <= j <= |s|
    decreases j - i
  {
    if i == j then 0
    else
      var w := RuneWidth(s, i);
      if w == 0 || i + w > j then 0 else RuneUnits(w, enc) + Units(s, i + w, j, enc)
  }

  /** The line break at or after `p`, or the end. */
  function NextBreak(s: bytes, p: nat): (e: nat)
    requires p <= |s|
    ensures p <= e <= |s| && (forall k :: p <= k < e ==> s[k] != LF) && (e < |s| ==> s[e] == LF)
    decreases |s| - p
  {
    if p == |s| || s[p] == LF then p else NextBreak(s, p + 1)
  }

  /** Line number and line start of a byte offset. */
  function LineOf(s: bytes, o: nat): (r: (nat, nat))
    requires o <= |s|
    ensures r.1 <= o && (forall k :: r.1 <= k < o ==> s[k] != LF) && (r.1 == 0 || s[r.1 - 1] == LF)
  {
    if o == 0 then (0, 0)
    else if s[o - 1] == LF then (LineOf(s, o - 1).0 + 1, o)
    else LineOf(s, o - 1)
  }

  /** Start of line `n`, if there is such a line. */
  function NthLine(s: bytes, n: nat): (r: Option<nat>)
    ensures r.Some? ==> r.value <= |s|
  {
    if n == 0 then Some(0)
    else
      match NthLine(s, n - 1)
      case None => None
      case Some(p) => if NextBreak(s, p) == |s| then None else Some(NextBreak(s, p) + 1)
  }

  /** Where the text of the line starting at `p` ends. */
  function LineEnd(s: bytes, p: nat): (e: nat)
    requires p <= |s|
    ensures p <= e <= NextBreak(s, p)
  {
    var e := NextBreak(s, p);
    if e > p && s[e - 1] == CR then e - 1 else e
  }

  /** Offsets a position can name: between code points, and not between CR and LF. */
  predicate Accepted(s: bytes, o: int) {
    && 0 <= o <= |s| && Boundary(s, o)
    && !(0 < o < |s| && s[o - 1] == CR && s[o] == LF)
  }

  function PositionOf(s: bytes, o: int, enc: Encoding): Option<Position> {
    if !ValidUtf8(s) || !Accepted(s, o) || !Supported(enc) then None
    else Some(Position(LineOf(s, o).0, Units(s, LineOf(s, o).1, o, enc)))
  }

  function Walk(s: bytes, i: nat, end: nat, used: nat, wanted: nat, enc: Encoding): (r: Option<nat>)
    requires i <= end <= |s|
    decreases end - i
  {
    if i == end then (if used == wanted then Some(end) else None)
    else if used == wanted then Some(i)
    else
      var w := RuneWidth(s, i);
      if !Supported(enc) || w == 0 || i + w > end || used + RuneUnits(w, enc) > wanted then None
      else Walk(s, i + w, end, used + RuneUnits(w, enc), wanted, enc)
  }

  function OffsetOf(s: bytes, pos: Position, enc: Encoding): Option<nat> {
    if !ValidUtf8(s) then None
    else
      match NthLine(s, pos.line)
      case None => None
      case Some(p) => Walk(s, p, LineEnd(s, p), 0, pos.character, enc)
  }

  // The loops.

  method EncodedLength(s: bytes, from: nat, to: nat, enc: Encoding) returns (units: Option<nat>)
    requires from <= to <= |s| && ValidFrom(s, from) && Boundary(s, to)
    ensures units == if Supported(enc) then Some(Units(s, from, to, enc)) else None
  {
    match enc {
      case Other => return None;
      case Utf8 =>
        BytesAreUnits(s, from, to);
        return Some(to - from);
      case _ =>
    }
    var i, length := from, 0;
    while i < to
      invariant from <= i <= to && ValidFrom(s, i)
      invariant length + Units(s, i, to, enc) == Units(s, from, to, enc)
    {
      RuneStays(s, i, to);
      var w := RuneWidth(s, i);
      length := length + if w == 4 then 2 else 1;
      i := i + w;
    }
    units := Some(length);
  }

  method PositionForOffset(s: bytes, offset: int, enc: Encoding) returns (r: Option<Position>)
    ensures r == PositionOf(s, offset, enc)
  {
    if offset < 0 || offset > |s| || !ValidUtf8(s) || (offset < |s| && IsContinuation(s[offset])) { return None; }
    var lineStart, line := 0, 0;
    for index := 0 to offset
      invariant LineOf(s, index) == (line, lineStart)
    {
      if s[index] == LF { line, lineStart := line + 1, index + 1; }
    }
    if offset > 0 && offset < |s| && s[offset - 1] == CR && s[offset] == LF { return None; }
    LineStartsAreBoundaries(s, lineStart);
    var character := EncodedLength(s, lineStart, offset, enc);
    if character.None? { return None; }
    r := Some(Position(line, character.value));
  }

  /** The first two loops of `OffsetForPosition`: where the line starts, and where its text ends. */
  method FindLine(s: bytes, line: nat) returns (found: bool, lineStart: nat, lineEnd: nat)
    ensures found == NthLine(s, line).Some?
    ensures found ==> NthLine(s, line) == Some(lineStart) && lineEnd == LineEnd(s, lineStart)
  {
    lineStart, lineEnd := 0, 0;
    for n := 0 to line
      invariant NthLine(s, n) == Some(lineStart)
    {
      var newline := NextBreak(s, lineStart);
      if newline == |s| {
        NoLaterLine(s, n + 1, line);
        return false, 0, 0;
      }
      lineStart := newline + 1;
    }
    lineEnd := lineStart;
    while lineEnd < |s| && s[lineEnd] != LF
      invariant lineStart <= lineEnd <= |s| && NextBreak(s, lineEnd) == NextBreak(s, lineStart)
    {
      lineEnd := lineEnd + 1;
    }
    if lineEnd > lineStart && s[lineEnd - 1] == CR { lineEnd := lineEnd - 1; }
    found := true;
  }

  /** The last loop of `OffsetForPosition`: along the line's text until the wanted column. */
  method FindColumn(s: bytes, lineStart: nat, lineEnd: nat, wanted: nat, enc: Encoding) returns (r: Option<nat>)
    requires lineStart <= lineEnd <= |s| && ValidFrom(s, lineStart) && Boundary(s, lineEnd)
    ensures r == Walk(s, lineStart, lineEnd, 0, wanted, enc)
  {
    hide RuneWidth, ValidFrom, Walk, Boundary;
    var offset: nat, used: nat := lineStart, 0;
    while offset < lineEnd
      invariant lineStart <= offset <= lineEnd && ValidFrom(s, offset)
      invariant Walk(s, offset, lineEnd, used, wanted, enc) == Walk(s, lineStart, lineEnd, 0, wanted, enc)
      decreases lineEnd - offset
    {
      WalkStep(s, offset, lineEnd, used, wanted, enc);
      if used == wanted { return Some(offset); }
      RuneStays(s, offset, lineEnd);
      var w := RuneWidth(s, offset);
      if enc.Other? || used + RuneUnits(w, enc) > wanted { return None; }
      used := used + RuneUnits(w, enc);
      offset := offset + w;
    }
    WalkEnds(s, lineEnd, used, wanted, enc);
    if used == wanted { return Some(lineEnd); }
    r := None;
  }

  method OffsetForPosition(s: bytes, pos: Position, enc: Encoding) returns (r: Option<nat>)
    ensures r == OffsetOf(s, pos, enc)
  {
    if !ValidUtf8(s) { return None; }
    var found, lineStart, lineEnd := FindLine(s, pos.line);
    if !found { return None; }
    LineIsWhole(s, pos.line, lineStart);
    r := FindColumn(s, lineStart, lineEnd, pos.character, enc);
  }

  lemma {:induction false} WalkStep(s: bytes, i: nat, end: nat, used: nat, wanted: nat, enc: Encoding)
    requires i < end <= |s| && ValidFrom(s, i) && Boundary(s, end)
    ensures Walk(s, i, end, used, wanted, enc) ==
      if used == wanted then Some(i)
      else if enc.Other? || used + RuneUnits(RuneWidth(s, i), enc) > wanted then None
      else if i + RuneWidth(s, i) <= end then Walk(s, i + RuneWidth(s, i), end, used + RuneUnits(RuneWidth(s, i), enc), wanted, enc)
      else None
  {
    RuneStays(s, i, end);
  }

  lemma {:induction false} WalkEnds(s: bytes, end: nat, used: nat, wanted: nat, enc: Encoding)
    requires end <= |s|
    ensures Walk(s, end, end, used, wanted, enc) == if used == wanted then Some(end) else None
  {}

  lemma {:induction false} NoLaterLine(s: bytes, m: nat, n: nat)
    requires m <= n && NthLine(s, m).None?
    ensures NthLine(s, n).None?
  {
    if m < n { NoLaterLine(s, m, n - 1); }
  }

  /** Between two boundaries no code point is cut. */
  lemma {:induction false} RuneStays(s: bytes, i: nat, to: nat)
    requires i < to <= |s| && ValidFrom(s, i) && Boundary(s, to)
    ensures 0 < RuneWidth(s, i) && i + RuneWidth(s, i) <= to && ValidFrom(s, i + RuneWidth(s, i))
  {
    RuneShape(s, i);
  }

  lemma {:induction false} BytesAreUnits(s: bytes, i: nat, j: nat)
    requires i <= j <= |s| && ValidFrom(s, i) && Boundary(s, j)
    ensures Units(s, i, j, Utf8) == j - i
    decreases j - i
  {
    if i < j {
      RuneStays(s, i, j);
      BytesAreUnits(s, i + RuneWidth(s, i), j);
    }
  }

  lemma {:induction false} LineStartsAreBoundaries(s: bytes, p: nat)
    requires ValidUtf8(s) && p <= |s| && (p == 0 || s[p - 1] == LF)
    ensures ValidFrom(s, p) && Boundary(s, p)
  {
    if p < |s| && IsContinuation(s[p]) { ValidRuns(s, 0, p); }
    ValidSuffix(s, 0, p);
  }

  /** A line starts and ends between code points. */
  lemma {:induction false} LineIsWhole(s: bytes, n: nat, p: nat)
    requires ValidUtf8(s) && NthLine(s, n) == Some(p)
    ensures p == 0 || s[p - 1] == LF
    ensures ValidFrom(s, p) && Boundary(s, LineEnd(s, p))
  {
    LineStartsAreBoundaries(s, p);
  }

  // Lines.

  lemma {:induction false} LineOfIsNth(s: bytes, o: nat)
    requires o <= |s|
    ensures NthLine(s, LineOf(s, o).0) == Some(LineOf(s, o).1)
  {
    if o > 0 {
      LineOfIsNth(s, o - 1);
      if s[o - 1] == LF { BreakIsNext(s, LineOf(s, o - 1).1, o - 1); }
    }
  }

  lemma {:induction false} BreakIsNext(s: bytes, p: nat, e: nat)
    requires p <= e < |s| && s[e] == LF && forall k :: p <= k < e ==> s[k] != LF
    ensures NextBreak(s, p) == e
  {
    var b := NextBreak(s, p);
  }

  lemma {:induction false} SameLine(s: bytes, p: nat, o: nat)
    requires p <= o <= |s| && forall k :: p <= k < o ==> s[k] != LF
    ensures LineOf(s, o) == LineOf(s, p)
  {
    if p < o { SameLine(s, p, o - 1); }
  }

  lemma {:induction false} NthStartsLine(s: bytes, n: nat, p: nat)
    requires NthLine(s, n) == Some(p)
    ensures LineOf(s, p) == (n, p)
  {
    hide NextBreak;
    if n > 0 {
      var q := NthLine(s, n - 1).value;
      NthStartsLine(s, n - 1, q);
      SameLine(s, q, NextBreak(s, q));
      AfterBreak(s, NextBreak(s, q));
    }
    hide LineOf;
  }

  lemma {:induction false} AfterBreak(s: bytes, e: nat)
    requires e < |s| && s[e] == LF
    ensures LineOf(s, e + 1) == (LineOf(s, e).0 + 1, e + 1)
  {}

  lemma {:induction false} NthIsLineOf(s: bytes, n: nat, p: nat, o: nat)
    requires NthLine(s, n) == Some(p) && p <= o <= NextBreak(s, p)
    ensures LineOf(s, o) == (n, p)
  {
    NthStartsLine(s, n, p);
    SameLine(s, p, o);
  }

  // Columns.

  lemma {:induction false} WalkFinds(s: bytes, i: nat, end: nat, used: nat, wanted: nat, enc: Encoding)
    requires i <= end <= |s| && ValidFrom(s, i) && Boundary(s, end) && Boundary(s, i)
    requires Walk(s, i, end, used, wanted, enc).Some?
    ensures var o := Walk(s, i, end, used, wanted, enc).value;
      i <= o <= end && Boundary(s, o) && used + Units(s, i, o, enc) == wanted
    decreases end - i
  {
    if i < end && used != wanted {
      RuneStays(s, i, end);
      var w := RuneWidth(s, i);
      if i + w < |s| { RuneShape(s, i + w); }
      WalkFinds(s, i + w, end, used + RuneUnits(w, enc), wanted, enc);
    }
  }

  lemma {:induction false} WalkReaches(s: bytes, i: nat, end: nat, used: nat, o: nat, enc: Encoding)
    requires i <= o <= end <= |s| && ValidFrom(s, i) && Boundary(s, o) && Boundary(s, end) && Supported(enc)
    ensures Walk(s, i, end, used, used + Units(s, i, o, enc), enc) == Some(o)
    decreases end - i
  {
    if i < o {
      RuneStays(s, i, o);
      var w := RuneWidth(s, i);
      WalkReaches(s, i + w, end, used + RuneUnits(w, enc), o, enc);
    }
  }

  lemma {:induction false} WalkStopsAt(s: bytes, i: nat, end: nat, used: nat, o: nat, enc: Encoding)
    requires i <= end < o <= |s| && ValidFrom(s, i) && Boundary(s, o) && Boundary(s, end) && Supported(enc)
    ensures Walk(s, i, end, used, used + Units(s, i, o, enc), enc).None?
    decreases end - i
  {
    RuneStays(s, i, o);
    if i < end {
      RuneStays(s, i, end);
      var w := RuneWidth(s, i);
      WalkStopsAt(s, i + w, end, used + RuneUnits(w, enc), o, enc);
    }
  }

  // Round trips.

  /** A position that names an offset is the position of that offset. */
  lemma {:induction false} PositionRoundTrip(s: bytes, pos: Position, enc: Encoding)
    requires Supported(enc) && OffsetOf(s, pos, enc).Some?
    ensures PositionOf(s, OffsetOf(s, pos, enc).value, enc) == Some(pos)
  {
    hide Walk, RuneWidth, ValidFrom, Units, NextBreak, LineOf, NthLine;
    var p := NthLine(s, pos.line).value;
    var o := OffsetOf(s, pos, enc).value;
    LineIsWhole(s, pos.line, p);
    LineStartsAreBoundaries(s, p);
    WalkFinds(s, p, LineEnd(s, p), 0, pos.character, enc);
    NthIsLineOf(s, pos.line, p, o);
    assert p < o ==> s[o - 1] != LF;
  }

  /** The end of a document that ends in CR has a position, but the position names nothing. */
  predicate EndsInCR(s: bytes, o: int) { o == |s| && o > 0 && s[o - 1] == CR }

  /** An accepted offset comes back from its position, with exactly one exception. */
  lemma {:induction false} OffsetRoundTrip(s: bytes, o: int, enc: Encoding)
    requires PositionOf(s, o, enc).Some?
    ensures OffsetOf(s, PositionOf(s, o, enc).value, enc) == if EndsInCR(s, o) then None else Some(o)
  {
    hide Walk, RuneWidth, ValidFrom, Units, NextBreak, LineOf, NthLine;
    var (n, p) := LineOf(s, o);
    LineOfIsNth(s, o);
    LineIsWhole(s, n, p);
    BeforeBreak(s, p, o);
    if o <= LineEnd(s, p) {
      WalkReaches(s, p, LineEnd(s, p), 0, o, enc);
    } else {
      WalkStopsAt(s, p, LineEnd(s, p), 0, o, enc);
    }
  }

  const LONE_CR: bytes := [0x61, CR]

  /** The exception is real: one letter and a CR. The end is column 2 of line 0, and that position is refused. */
  lemma {:induction false} LoneCrAtEnd(enc: Encoding)
    requires Supported(enc)
    ensures PositionOf(LONE_CR, 2, enc) == Some(Position(0, 2)) && OffsetOf(LONE_CR, Position(0, 2), enc) == None
  {
    assert RuneWidth(LONE_CR, 0) == 1 && RuneWidth(LONE_CR, 1) == 1;
    assert ValidFrom(LONE_CR, 2) && ValidFrom(LONE_CR, 1);
    assert LineOf(LONE_CR, 1) == (0, 0) && LineOf(LONE_CR, 2) == (0, 0);
    assert Units(LONE_CR, 1, 2, enc) == 1;
    OffsetRoundTrip(LONE_CR, 2, enc);
  }

  lemma {:induction false} BeforeBreak(s: bytes, p: nat, o: nat)
    requires p <= o <= |s| && (forall k :: p <= k < o ==> s[k] != LF) && Accepted(s, o) && (p == 0 || s[p - 1] == LF)
    ensures o <= NextBreak(s, p)
    ensures o <= LineEnd(s, p) <==> !EndsInCR(s, o)
  {
    var e := NextBreak(s, p);
  }

  /** An unsupported encoding names no column, except that the code reads column 0 without looking at the encoding. */
  lemma {:induction false} UnsupportedEncoding(s: bytes, pos: Position)
    requires ValidUtf8(s)
    ensures OffsetOf(s, pos, Other).Some? <==> NthLine(s, pos.line).Some? && pos.character == 0
  {}

  // What lines and columns count.

  function Low(b: byte): nat { b as int % 0x40 }

  /** The character number of the well-formed sequence at `i` (section 3 of RFC 3629). */
  function CharacterNumber(s: bytes, i: nat): nat
    requires i < |s| && RuneWidth(s, i) > 0
  {
    var b := s[i] as int;
    match RuneWidth(s, i)
    case 1 => b
    case 2 => b % 0x20 * 0x40 + Low(s[i + 1])
    case 3 => b % 0x10 * 0x1000 + Low(s[i + 1]) * 0x40 + Low(s[i + 2])
    case _ => b % 8 * 0x40000 + Low(s[i + 1]) * 0x1000 + Low(s[i + 2]) * 0x40 + Low(s[i + 3])
  }

  /** The UTF-16 code units of one character (section 2.1 of RFC 2781). */
  function CodeUnits(u: nat): seq<nat> {
    if u < 0x10000 then [u] else [0xD800 + (u - 0x10000) / 0x400, 0xDC00 + (u - 0x10000) % 0x400]
  }

  /** Bytes [i, j) in UTF-16. */
  function InUtf16(s: bytes, i: nat, j: nat): seq<nat>
    requires i <= j <= |s| && ValidFrom(s, i)
    decreases j - i
  {
    if i == j || i + RuneWidth(s, i) > j then [] else CodeUnits(CharacterNumber(s, i)) + InUtf16(s, i + RuneWidth(s, i), j)
  }

  /** Four bytes in UTF-8 spell exactly the characters above U+FFFF, and none beyond U+10FFFF. */
  lemma {:induction false} FourBytesIff(s: bytes, i: nat)
    requires i < |s| && RuneWidth(s, i) > 0
    ensures RuneWidth(s, i) == 4 <==> CharacterNumber(s, i) >= 0x10000
    ensures CharacterNumber(s, i) <= 0x10FFFF
  {}

  lemma {:induction false} UnitsInUtf16(s: bytes, i: nat, j: nat, enc: Encoding)
    requires i <= j <= |s| && ValidFrom(s, i) && Boundary(s, j) && enc != Utf8
    ensures Units(s, i, j, enc) == |InUtf16(s, i, j)|
    decreases j - i
  {
    hide RuneWidth, CharacterNumber;
    if i < j {
      RuneStays(s, i, j);
      FourBytesIff(s, i);
      UnitsInUtf16(s, i + RuneWidth(s, i), j, enc);
    }
  }

  lemma {:induction false} LinesBefore(s: bytes, o: nat)
    requires o <= |s|
    ensures LineOf(s, o).0 == multiset(s[..o])[LF]
  {
    if o > 0 {
      LinesBefore(s, o - 1);
      assert s[..o] == s[..o - 1] + [s[o - 1]];
    }
  }

  /** The line of an offset is the number of LFs before it; its column counts bytes or UTF-16 code units since the last one. */
  lemma {:induction false} PositionCounts(s: bytes, o: int, enc: Encoding) returns (start: nat)
    requires PositionOf(s, o, enc).Some?
    ensures start <= o <= |s| && ValidFrom(s, start)
    ensures (start == 0 || s[start - 1] == LF) && forall k :: start <= k < o ==> s[k] != LF
    ensures PositionOf(s, o, enc).value ==
      Position(multiset(s[..o])[LF], if enc.Utf8? then o - start else |InUtf16(s, start, o)|)
  {
    hide RuneWidth, CharacterNumber, ValidFrom, Units, InUtf16, LineOf;
    start := LineOf(s, o).1;
    LineStartsAreBoundaries(s, start);
    LinesBefore(s, o);
    if enc.Utf8? { BytesAreUnits(s, start, o); } else { UnitsInUtf16(s, start, o, enc); }
  }
}
