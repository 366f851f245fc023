/**
 * Path segments for identifiers: percent-encoding as in section 2.1 of RFC 3986 with upper-case digits, where "~" is
 * escaped too and the whole names "." and ".." are escaped. Only the canonical spelling of a name is accepted back.
 */
module StoreSegments {
  import opened Sequences
  import opened Wrappers
  import opened Bytes

  const MAX_SEGMENT := 200
  const DOT: byte := 0x2E
  const PERCENT: byte := 0x25

  predicate Unreserved(b: byte) {
    0x41 <= b <= 0x5A || 0x61 <= b <= 0x7A || 0x30 <= b <= 0x39 || b == DOT || b == 0x5F || b == 0x2D
  }

  function HexUpper(v: byte): byte
    requires v < 16
  {
    if v < 10 then 0x30 + v else 0x37 + v
  }

  function FromUpperHex(b: byte): Option<byte> {
    if 0x30 <= b <= 0x39 then Some(b - 0x30) else if 0x41 <= b <= 0x46 then Some(b - 0x37) else None
  }

  /** How one byte is spelled in a name that is not "." or "..". */
  function Spell(b: byte): bytes {
    if Unreserved(b) then [b] else Escape(b)
  }

  function Escape(b: byte): bytes { [PERCENT, HexUpper(b / 16), HexUpper(b % 16)] }

  predicate Dots(value: bytes) { value == [DOT] || value == [DOT, DOT] }

  function SpellAll(value: bytes): bytes {
    if value == [] then [] else SpellAll(value[..|value| - 1]) + Spell(value[|value| - 1])
  }

  function EscapeAll(value: bytes): bytes {
    if value == [] then [] else EscapeAll(value[..|value| - 1]) + Escape(value[|value| - 1])
  }

  function Encoded(value: bytes): bytes { if Dots(value) then EscapeAll(value) else SpellAll(value) }

  method EncodePathSegment(value: bytes) returns (encoded: bytes)
    ensures encoded == Encoded(value)
  {
    encoded := [];
    for i := 0 to |value|
      invariant encoded == if Dots(value) then EscapeAll(value[..i]) else SpellAll(value[..i])
    {
      var b := value[i];
      assert value[..i + 1][..i] == value[..i];
      if Unreserved(b) && (|value| != 1 || b != DOT) && (|value| != 2 || value != [DOT, DOT]) {
        encoded := encoded + [b];
      } else {
        encoded := encoded + [PERCENT, HexUpper(b / 16), HexUpper(b % 16)];
      }
    }
    assert value[..|value|] == value;
  }

  method EncodeSegment(value: bytes) returns (r: Option<bytes>)
    ensures r == if value == [] || |Encoded(value)| > MAX_SEGMENT then None else Some(Encoded(value))
  {
    if value == [] { return None; }
    var encoded := EncodePathSegment(value);
    if |encoded| > MAX_SEGMENT { return None; }
    r := Some(encoded);
  }

  /** The decoding loop from byte `i` on. */
  function Unspell(e: bytes, i: nat): Option<bytes>
    requires i <= |e|
    decreases |e| - i
  {
    if i == |e| then Some([])
    else if Unreserved(e[i]) then Prepend(e[i], Unspell(e, i + 1))
    else if e[i] == PERCENT && i + 2 < |e| && FromUpperHex(e[i + 1]).Some? && FromUpperHex(e[i + 2]).Some? then
      Prepend(FromUpperHex(e[i + 1]).value * 16 + FromUpperHex(e[i + 2]).value, Unspell(e, i + 3))
    else None
  }

  function Prepend(b: byte, rest: Option<bytes>): Option<bytes> {
    match rest
    case None => None
    case Some(r) => Some([b] + r)
  }

  function Join(done: bytes, rest: Option<bytes>): Option<bytes> {
    match rest
    case None => None
    case Some(r) => Some(done + r)
  }

  function Decoded(e: bytes): Option<bytes> {
    if e == [] || |e| > MAX_SEGMENT then None
    else
      match Unspell(e, 0)
      case None => None
      case Some(v) => if v != [] && Encoded(v) == e then Some(v) else None
  }

  method DecodeSegment(e: bytes) returns (r: Option<bytes>)
    ensures r == Decoded(e)
  {
    if e == [] || |e| > MAX_SEGMENT { return None; }
    var decoded: bytes := [];
    JoinNothing(Unspell(e, 0));
    var i := 0;
    while i < |e|
      invariant i <= |e|
      invariant Unspell(e, 0) == Join(decoded, Unspell(e, i))
      decreases |e| - i
    {
      var b := e[i];
      if Unreserved(b) {
        ConsAssoc(decoded, b, Unspell(e, i + 1));
        decoded := decoded + [b];
        i := i + 1;
      } else if b == PERCENT && i + 2 < |e| {
        var hi, lo := FromUpperHex(e[i + 1]), FromUpperHex(e[i + 2]);
        if hi.None? || lo.None? { return None; }
        ConsAssoc(decoded, hi.value * 16 + lo.value, Unspell(e, i + 3));
        decoded := decoded + [hi.value * 16 + lo.value];
        i := i + 3;
      } else {
        return None;
      }
    }
    assert decoded + [] == decoded;
    var canonical := EncodeSegment(decoded);
    if canonical.None? || canonical.value != e { return None; }
    r := Some(decoded);
  }

  lemma {:induction false} ConsAssoc(done: bytes, b: byte, rest: Option<bytes>)
    ensures Join(done, Prepend(b, rest)) == Join(done + [b], rest)
  {
    if rest.Some? { Assoc(done, [b], rest.value); }
  }

  lemma {:induction false} JoinNothing(rest: Option<bytes>)
    ensures Join([], rest) == rest
  {
    if rest.Some? { assert [] + rest.value == rest.value; }
  }

  // Reading back what was spelled.

  lemma {:induction false} HexBack(v: byte)
    requires v < 16
    ensures FromUpperHex(HexUpper(v)) == Some(v)
  {}

  lemma {:induction false} UnspellShift(head: bytes, e: bytes, i: nat)
    requires i <= |e|
    ensures Unspell(head + e, |head| + i) == Unspell(e, i)
    decreases |e| - i
  {
    if i < |e| {
      assert (head + e)[|head| + i] == e[i];
      if Unreserved(e[i]) { UnspellShift(head, e, i + 1); }
      else if e[i] == PERCENT && i + 2 < |e| { UnspellShift(head, e, i + 3); }
    }
  }

  lemma {:induction false} UnspellOne(b: byte, spelled: bytes, rest: bytes)
    requires spelled == Escape(b) || (Unreserved(b) && spelled == [b])
    ensures Unspell(spelled + rest, 0) == Prepend(b, Unspell(rest, 0))
  {
    HexBack(b / 16);
    HexBack(b % 16);
    UnspellShift(spelled, rest, 0);
  }

  lemma {:induction false} SpellCons(value: bytes)
    requires value != []
    ensures SpellAll(value) == Spell(value[0]) + SpellAll(value[1..])
  {
    if |value| == 1 {
      assert value[..0] == [] && value[1..] == [];
      assert SpellAll([]) == [] && [] + Spell(value[0]) == Spell(value[0]) + [];
    } else {
      var front, last := value[..|value| - 1], value[|value| - 1];
      SpellCons(front);
      assert front[1..] == value[1..][..|value| - 2] && value[1..][|value| - 2] == last;
      Assoc(Spell(value[0]), SpellAll(front[1..]), Spell(last));
    }
  }

  lemma {:induction false} UnspellSpelled(value: bytes)
    ensures Unspell(SpellAll(value), 0) == Some(value)
  {
    if value != [] {
      SpellCons(value);
      UnspellOne(value[0], Spell(value[0]), SpellAll(value[1..]));
      UnspellSpelled(value[1..]);
      assert value == [value[0]] + value[1..];
    }
  }

  lemma {:induction false} UnspellDots(value: bytes)
    requires Dots(value)
    ensures Unspell(EscapeAll(value), 0) == Some(value)
  {
    var none: bytes := [];
    UnspellOne(DOT, Escape(DOT), none);
    assert Escape(DOT) + none == Escape(DOT) && [DOT] + none == [DOT];
    assert [DOT][..0] == none && EscapeAll([DOT]) == none + Escape(DOT) == Escape(DOT);
    if value == [DOT, DOT] {
      assert value[..1] == [DOT];
      UnspellOne(DOT, Escape(DOT), Escape(DOT));
      assert [DOT] + [DOT] == value;
    }
  }

  // The bijection.

  /** Decoding the encoding of an identifier gives it back, whenever its encoding fits. */
  lemma {:induction false} DecodeAfterEncode(value: bytes)
    requires value != []
    ensures Decoded(Encoded(value)) == if |Encoded(value)| <= MAX_SEGMENT then Some(value) else None
  {
    if Dots(value) { UnspellDots(value); } else { UnspellSpelled(value); }
    SpelledDot(value);
    if Dots(value) { EscapedDots(value); }
  }

  /** Every accepted name is the encoding of what it decodes to. */
  lemma {:induction false} EncodeAfterDecode(e: bytes)
    requires Decoded(e).Some?
    ensures Decoded(e).value != [] && Encoded(Decoded(e).value) == e && |e| <= MAX_SEGMENT
  {}

  /** So a name is accepted exactly when some identifier is spelled that way, and only one identifier is. */
  lemma {:induction false} AcceptedIffEncoding(e: bytes)
    ensures Decoded(e).Some? <==> |e| <= MAX_SEGMENT && exists v: bytes :: v != [] && Encoded(v) == e
    ensures forall v: bytes, w: bytes :: v != [] && w != [] && |e| <= MAX_SEGMENT && Encoded(v) == e && Encoded(w) == e ==> v == w
  {
    forall v: bytes | v != [] && Encoded(v) == e && |e| <= MAX_SEGMENT ensures Decoded(e) == Some(v) { DecodeAfterEncode(v); }
    if Decoded(e).Some? { EncodeAfterDecode(e); }
  }

  lemma {:induction false} SpelledBytes(value: bytes)
    ensures forall b :: b in SpellAll(value) ==> Unreserved(b) || b == PERCENT
    ensures forall b :: b in EscapeAll(value) ==> Unreserved(b) || b == PERCENT
  {
    if value != [] { SpelledBytes(value[..|value| - 1]); }
  }

  lemma {:induction false} SpellSize(b: byte)
    ensures |Spell(b)| == 1 || |Spell(b)| == 3
    ensures |Spell(b)| == 1 ==> Spell(b) == [b]
  {}

  lemma {:induction false} DotsSplit(a: bytes, b: bytes)
    requires Dots(a + b) && |b| > 0
    ensures |b| <= 2 && (|b| == 1 ==> b == [DOT] && (a == [] || a == [DOT]))
  {
    if |b| == 1 {
      assert b[0] == (a + b)[|a|];
      if a != [] { assert a[0] == (a + b)[0]; }
    }
  }

  lemma {:induction false} SpelledDot(value: bytes)
    ensures |value| <= |SpellAll(value)|
    ensures Dots(SpellAll(value)) ==> SpellAll(value) == value
  {
    hide Spell;
    if value != [] {
      var front, last := value[..|value| - 1], value[|value| - 1];
      SpelledDot(front);
      SpellSize(last);
      SplitLast(value);
      if Dots(SpellAll(value)) { DotsSplit(SpellAll(front), Spell(last)); }
    }
  }

  /** No encoded name is "." or "..", and none contains a separator or any other byte that is not plain. */
  lemma {:induction false} EncodedIsPlain(value: bytes)
    ensures !Dots(Encoded(value))
    ensures forall b :: b in Encoded(value) ==> Unreserved(b) || b == PERCENT
  {
    SpelledBytes(value);
    SpelledDot(value);
    if Dots(value) { EscapedDots(value); }
  }

  lemma {:induction false} EscapedDots(value: bytes)
    requires Dots(value)
    ensures |EscapeAll(value)| >= 3
  {
    assert value[|value| - 1] == DOT;
  }

  // Which bytes are escaped.

  const DIGITS := "0123456789ABCDEF"

  /** Letters, digits, full stop, low line and hyphen. */
  predicate Plain(c: char) {
    'A' <= c <= 'Z' || 'a' <= c <= 'z' || '0' <= c <= '9' || c == '.' || c == '_' || c == '-'
  }

  function Text(e: bytes): string { seq(|e|, i requires 0 <= i < |e| => e[i] as char) }

  /** A byte as a name spells it: itself, or "%" and two upper-case hexadecimal digits. */
  function Spelling(b: byte, dots: bool): string {
    if Plain(b as char) && !dots then [b as char] else ['%', DIGITS[b / 16], DIGITS[b % 16]]
  }

  /** The spellings of all bytes, one after the other. */
  function Spellings(value: bytes, dots: bool): string {
    if value == [] then "" else Spelling(value[0], dots) + Spellings(value[1..], dots)
  }

  lemma {:induction false} TextNothing()
    ensures Text([]) == ""
  {}

  lemma {:induction false} TextAppend(a: bytes, b: bytes)
    ensures Text(a + b) == Text(a) + Text(b)
  {}

  lemma {:induction false} DigitIs(v: byte)
    requires v < 16
    ensures HexUpper(v) as char == DIGITS[v]
  {}

  lemma {:induction false} SpellsOne(b: byte)
    ensures Text(Spell(b)) == Spelling(b, false) && Text(Escape(b)) == Spelling(b, true)
  {
    DigitIs(b / 16);
    DigitIs(b % 16);
  }

  lemma {:induction false} EscapeCons(value: bytes)
    requires value != []
    ensures EscapeAll(value) == Escape(value[0]) + EscapeAll(value[1..])
  {
    if |value| == 1 {
      assert value[..0] == [] && value[1..] == [];
      assert EscapeAll([]) == [] && [] + Escape(value[0]) == Escape(value[0]) + [];
    } else {
      var front, last := value[..|value| - 1], value[|value| - 1];
      EscapeCons(front);
      assert front[1..] == value[1..][..|value| - 2] && value[1..][|value| - 2] == last;
      Assoc(Escape(value[0]), EscapeAll(front[1..]), Escape(last));
    }
  }

  lemma {:induction false} SpellsAll(value: bytes)
    ensures Text(SpellAll(value)) == Spellings(value, false) && Text(EscapeAll(value)) == Spellings(value, true)
  {
    hide Spell, Escape, Spelling, Text;
    if value == [] {
      TextNothing();
    } else {
      SpellCons(value);
      EscapeCons(value);
      SpellsOne(value[0]);
      TextAppend(Spell(value[0]), SpellAll(value[1..]));
      TextAppend(Escape(value[0]), EscapeAll(value[1..]));
      SpellsAll(value[1..]);
    }
  }

  /** An encoded name spells its bytes in order; the plain ones stand for themselves, except in "." and "..". */
  lemma {:induction false} EncodedSpells(value: bytes)
    ensures Text(Encoded(value)) == Spellings(value, Text(value) == "." || Text(value) == "..")
  {
    hide SpellAll, EscapeAll;
    SpellsAll(value);
    assert Dots(value) <==> Text(value) == "." || Text(value) == ".." by {
      if Text(value) == "." { assert value[0] as char == Text(value)[0]; }
      if Text(value) == ".." { assert value[0] as char == Text(value)[0] && value[1] as char == Text(value)[1]; }
    }
  }
}
