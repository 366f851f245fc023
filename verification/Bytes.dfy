/** Byte strings and UTF-8 well-formedness as defined in section 4 of RFC 3629. */
module Bytes {
  newtype byte = x: int | 0 <= x < 256
  type bytes = seq<byte>

  const LF: byte := 10
  const CR: byte := 13

  /** b & 0xC0 == 0x80 */
  predicate IsContinuation(b: byte) { 0x80 <= b < 0xC0 }

  predicate In(s: bytes, i: nat, lo: byte, hi: byte) { i < |s| && lo <= s[i] <= hi }

  predicate Tail(s: bytes, i: nat) { In(s, i, 0x80, 0xBF) }

  /** Width of the well-formed sequence starting at `i`; 0 when there is none. */
  function RuneWidth(s: bytes, i: nat): (w: nat)
    requires i < |s|
    ensures w <= 4 && i + w <= |s|
  {
    var b := s[i];
    if b <= 0x7F then 1
    else if 0xC2 <= b <= 0xDF then (if Tail(s, i + 1) then 2 else 0)
    else if b == 0xE0 then (if In(s, i + 1, 0xA0, 0xBF) && Tail(s, i + 2) then 3 else 0)
    else if 0xE1 <= b <= 0xEC || 0xEE <= b <= 0xEF then (if Tail(s, i + 1) && Tail(s, i + 2) then 3 else 0)
    else if b == 0xED then (if In(s, i + 1, 0x80, 0x9F) && Tail(s, i + 2) then 3 else 0)
    else if b == 0xF0 then (if In(s, i + 1, 0x90, 0xBF) && Tail(s, i + 2) && Tail(s, i + 3) then 4 else 0)
    else if 0xF1 <= b <= 0xF3 then (if Tail(s, i + 1) && Tail(s, i + 2) && Tail(s, i + 3) then 4 else 0)
    else if b == 0xF4 then (if In(s, i + 1, 0x80, 0x8F) && Tail(s, i + 2) && Tail(s, i + 3) then 4 else 0)
    else 0
  }

  /** From `i` on, `s` is a series of well-formed sequences. */
  predicate ValidFrom(s: bytes, i: nat)
    requires i <= |s|
    decreases |s| - i
  {
    i == |s| || (RuneWidth(s, i) > 0 && ValidFrom(s, i + RuneWidth(s, i)))
  }

  predicate ValidUtf8(s: bytes) { ValidFrom(s, 0) }

  /** The first byte of a well-formed sequence is no continuation byte, all others are. */
  lemma {:induction false} RuneShape(s: bytes, i: nat)
    requires i < |s| && RuneWidth(s, i) > 0
    ensures !IsContinuation(s[i])
    ensures forall k :: i < k < i + RuneWidth(s, i) ==> IsContinuation(s[k])
  {
    var w := RuneWidth(s, i);
    forall k | i < k < i + w ensures IsContinuation(s[k]) {
      assert k == i + 1 || k == i + 2 || k == i + 3;
    }
  }

  /** Where `p` is a boundary, decoding from any earlier boundary passes through `p`. */
  lemma {:induction false} ValidSuffix(s: bytes, i: nat, p: nat)
    requires i <= p <= |s| && ValidFrom(s, i)
    requires p == |s| || !IsContinuation(s[p])
    ensures ValidFrom(s, p)
    decreases |s| - i
  {
    if i < p {
      RuneShape(s, i);
      ValidSuffix(s, i + RuneWidth(s, i), p);
    }
  }

  lemma {:induction false} ValidDrop(s: bytes, p: nat, i: nat)
    requires p <= i <= |s|
    ensures ValidFrom(s, i) <==> ValidFrom(s[p..], i - p)
    decreases |s| - i
  {
    if i < |s| {
      assert RuneWidth(s, i) == RuneWidth(s[p..], i - p);
      if RuneWidth(s, i) > 0 { ValidDrop(s, p, i + RuneWidth(s, i)); }
    }
  }

  lemma {:induction false} ValidPrefix(s: bytes, i: nat, p: nat)
    requires i <= p <= |s| && ValidFrom(s, i)
    requires p == |s| || !IsContinuation(s[p])
    ensures ValidFrom(s[..p], i)
    decreases |s| - i
  {
    if i < p {
      RuneShape(s, i);
      var w := RuneWidth(s, i);
      assert i + w <= p;
      assert RuneWidth(s[..p], i) == w;
      ValidPrefix(s, i + w, p);
    }
  }

  /** Cutting a valid string where no sequence is split leaves two valid strings. */
  lemma {:induction false} ValidCut(s: bytes, p: nat)
    requires ValidUtf8(s) && p <= |s| && (p == |s| || !IsContinuation(s[p]))
    ensures ValidUtf8(s[..p]) && ValidUtf8(s[p..])
  {
    ValidPrefix(s, 0, p);
    ValidSuffix(s, 0, p);
    ValidDrop(s, p, p);
  }

  /** In a valid string every continuation byte follows a continuation byte or a lead byte above 0xBF, at most three deep. */
  lemma {:induction false} ValidRuns(s: bytes, i: nat, p: nat)
    requires i <= p < |s| && ValidFrom(s, i) && IsContinuation(s[p])
    ensures p > i && s[p - 1] >= 0x80
    ensures exists q :: p - 3 <= q < p && i <= q && !IsContinuation(s[q])
    decreases |s| - i
  {
    RuneShape(s, i);
    var w := RuneWidth(s, i);
    if i + w <= p {
      ValidRuns(s, i + w, p);
    }
  }

  predicate Boundary(s: bytes, p: nat) { p == |s| || (p < |s| && !IsContinuation(s[p])) }

  /** And the next boundary is at most three bytes ahead. */
  lemma {:induction false} ValidRunsAhead(s: bytes, i: nat, p: nat)
    requires i <= p < |s| && ValidFrom(s, i) && IsContinuation(s[p])
    ensures exists q :: p < q <= p + 3 && Boundary(s, q)
    decreases |s| - i
  {
    RuneShape(s, i);
    var w := RuneWidth(s, i);
    if i + w <= p {
      ValidRunsAhead(s, i + w, p);
    } else {
      if i + w < |s| { RuneShape(s, i + w); }
      assert p < i + w <= p + 3 && Boundary(s, i + w);
    }
  }

  /** No line starts with a continuation byte; weaker than validity, and all that line-wise cutting needs. */
  predicate CleanLines(s: bytes) {
    forall i :: 0 < i < |s| && IsContinuation(s[i]) ==> s[i - 1] != LF
  }

  lemma {:induction false} ValidIsClean(s: bytes)
    requires ValidUtf8(s)
    ensures CleanLines(s)
  {
    forall i | 0 < i < |s| && IsContinuation(s[i]) ensures s[i - 1] != LF { ValidRuns(s, 0, i); }
  }
}
