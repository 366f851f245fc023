/** Cutting a byte string inwards to a boundary that splits neither a UTF-8 sequence nor a CRLF pair. */
module OutputCuts {
  import opened Bytes

  /** A cut at `p` separates no continuation byte from its sequence and no LF from its CR. */
  predicate Safe(s: bytes, p: nat) {
    p == 0 || p == |s| || (p < |s| && !IsContinuation(s[p]) && !(s[p - 1] == CR && s[p] == LF))
  }

  function BackUp(s: bytes, e: nat): (r: nat)
    requires e < |s|
  {
    if e > 0 && IsContinuation(s[e]) then BackUp(s, e - 1) else e
  }

  /** The longest safe prefix within `limit` bytes. */
  function HeadCut(s: bytes, limit: int): nat {
    if limit <= 0 then 0
    else if limit >= |s| then |s|
    else
      var e := BackUp(s, limit);
      if e > 0 && e < |s| && s[e - 1] == CR && s[e] == LF then e - 1 else e
  }

  function SkipAhead(s: bytes, p: nat): (r: nat)
    requires p <= |s|
    decreases |s| - p
  {
    if p < |s| && IsContinuation(s[p]) then SkipAhead(s, p + 1) else p
  }

  /** Where the longest safe suffix within `limit` bytes starts. */
  function TailCut(s: bytes, limit: int): nat {
    if limit <= 0 then |s|
    else if limit >= |s| then 0
    else
      var p := SkipAhead(s, |s| - limit);
      if p > 0 && p < |s| && s[p - 1] == CR && s[p] == LF then p + 1 else p
  }

  lemma {:induction false} BackUpIs(s: bytes, e: nat)
    requires e < |s|
    ensures BackUp(s, e) <= e && (BackUp(s, e) == 0 || !IsContinuation(s[BackUp(s, e)]))
    ensures forall k :: BackUp(s, e) < k <= e ==> IsContinuation(s[k])
  {
    if e > 0 && IsContinuation(s[e]) { BackUpIs(s, e - 1); }
  }

  lemma {:induction false} SkipAheadIs(s: bytes, p: nat)
    requires p <= |s|
    ensures p <= SkipAhead(s, p) <= |s| && (SkipAhead(s, p) == |s| || !IsContinuation(s[SkipAhead(s, p)]))
    ensures forall k :: p <= k < SkipAhead(s, p) ==> IsContinuation(s[k])
    decreases |s| - p
  {
    if p < |s| && IsContinuation(s[p]) { SkipAheadIs(s, p + 1); }
  }

  /** The head cut is the greatest safe cut within the limit. */
  lemma {:induction false} HeadCutIs(s: bytes, limit: int, c: nat)
    requires 0 <= limit
    ensures HeadCut(s, limit) == c <==>
      c <= |s| && c <= limit && Safe(s, c) && forall k :: c < k <= limit && k <= |s| ==> !Safe(s, k)
  {
    HeadCutGreatest(s, limit);
    var h := HeadCut(s, limit);
    if c <= |s| && c <= limit && Safe(s, c) && forall k :: c < k <= limit && k <= |s| ==> !Safe(s, k) {
      assert !(c < h) && !(h < c);
    }
  }

  lemma {:induction false} HeadCutGreatest(s: bytes, limit: int)
    requires 0 <= limit
    ensures var h := HeadCut(s, limit);
      h <= |s| && h <= limit && Safe(s, h) && forall k :: h < k <= limit && k <= |s| ==> !Safe(s, k)
  {
    if 0 < limit < |s| { BackUpIs(s, limit); }
  }

  /** The tail cut is the least safe cut that leaves at most the limit. */
  lemma {:induction false} TailCutIs(s: bytes, limit: int, c: nat)
    requires 0 <= limit && CleanLines(s)
    ensures TailCut(s, limit) == c <==>
      |s| - limit <= c <= |s| && Safe(s, c) && forall k :: |s| - limit <= k < c && 0 <= k ==> !Safe(s, k)
  {
    TailCutLeast(s, limit);
    var h := TailCut(s, limit);
    if |s| - limit <= c <= |s| && Safe(s, c) && forall k :: |s| - limit <= k < c && 0 <= k ==> !Safe(s, k) {
      assert !(c < h) && !(h < c);
    }
  }

  lemma {:induction false} TailCutLeast(s: bytes, limit: int)
    requires 0 <= limit && CleanLines(s)
    ensures var h := TailCut(s, limit);
      |s| - limit <= h <= |s| && Safe(s, h) && forall k :: |s| - limit <= k < h && 0 <= k ==> !Safe(s, k)
  {
    if 0 < limit < |s| {
      SkipAheadIs(s, |s| - limit);
    }
  }

  method InwardHead(s: bytes, limit: int) returns (end: nat)
    ensures end == HeadCut(s, limit)
  {
    if limit <= 0 { return 0; }
    if limit >= |s| { return |s|; }
    end := limit;
    while end > 0 && IsContinuation(s[end])
      invariant 0 <= end < |s| && BackUp(s, end) == BackUp(s, limit)
    {
      end := end - 1;
    }
    if end > 0 && end < |s| && s[end - 1] == CR && s[end] == LF {
      end := end - 1;
    }
  }

  method InwardTail(s: bytes, limit: int) returns (start: nat)
    ensures start == TailCut(s, limit)
  {
    if limit <= 0 { return |s|; }
    if limit >= |s| { return 0; }
    start := |s| - limit;
    while start < |s| && IsContinuation(s[start])
      invariant 0 <= start <= |s| && SkipAhead(s, start) == SkipAhead(s, |s| - limit)
    {
      start := start + 1;
    }
    if start > 0 && start < |s| && s[start - 1] == CR && s[start] == LF {
      start := start + 1;
    }
  }

  /** On valid UTF-8 a cut costs at most three bytes and leaves valid pieces. */
  lemma {:induction false} CutsOfValid(s: bytes, limit: int)
    requires ValidUtf8(s) && 0 <= limit
    ensures var h := HeadCut(s, limit);
      h <= |s| && (limit <= |s| ==> limit - 3 <= h) && ValidUtf8(s[..h]) && ValidUtf8(s[h..])
    ensures var t := TailCut(s, limit);
      t <= |s| && (limit <= |s| ==> limit - 3 <= |s| - t) && ValidUtf8(s[..t]) && ValidUtf8(s[t..])
  {
    var h, t := HeadCut(s, limit), TailCut(s, limit);
    assert h <= |s| && t <= |s| && Safe(s, h) && Safe(s, t) by {
      ValidIsClean(s);
      HeadCutGreatest(s, limit);
      TailCutLeast(s, limit);
    }
    SafeIsBoundary(s, h);
    SafeIsBoundary(s, t);
    ValidCut(s, h);
    ValidCut(s, t);
    if limit <= |s| { CutLoss(s, limit); }
  }

  lemma {:induction false} CutLoss(s: bytes, limit: int)
    requires ValidUtf8(s) && 0 <= limit <= |s|
    ensures limit - 3 <= HeadCut(s, limit) && limit - 3 <= |s| - TailCut(s, limit)
  {
    if 0 < limit < |s| {
      var e := BackUp(s, limit);
      BackUpIs(s, limit);
      if IsContinuation(s[limit]) {
        ValidRuns(s, 0, limit);
        RuneShape(s, 0);
        ValidRuns(s, 0, e + 1);
      }
      SkipAheadIs(s, |s| - limit);
      if IsContinuation(s[|s| - limit]) { ValidRunsAhead(s, 0, |s| - limit); }
    }
  }

  lemma {:induction false} SafeIsBoundary(s: bytes, p: nat)
    requires ValidUtf8(s) && p <= |s| && Safe(s, p)
    ensures p == |s| || !IsContinuation(s[p])
  {
    if p == 0 && s != [] { RuneShape(s, 0); }
  }
}
