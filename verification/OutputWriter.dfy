/**
 The streaming form: bounded head and tail samples kept while bytes arrive in any chunks. What it renders depends
 on the stream alone, and equals the whole-input form.
 */
module OutputWriter {
  import opened Bytes
  import opened Numbers
  import opened OutputCuts
  import opened OutputPolicy
  import opened OutputBytes
  import opened OutputByteForm
  import opened Sequences
  import opened Wrappers

  const MAX_INT := 0x7FFF_FFFF_FFFF_FFFF
  const UTF_MAX := 4

  datatype WriterError = NoError | CounterOverflow | InvalidLimit

  // ---------------------------------------------------------------------------------------------
  // Rendering from samples.
  // ---------------------------------------------------------------------------------------------

  /** Start of the suffix of an ordered tail sample; `before` holds the byte in front of the sample, if any. */
  function SampleCut(ordered: bytes, before: bytes, limit: int): nat {
    CutBounds(ordered, limit);
    SkipAheadBounds(ordered, TailCut(ordered, limit));
    var start := SkipAhead(ordered, TailCut(ordered, limit));
    if start == 0 && before == [CR] && ordered != [] && ordered[0] == LF then 1 else start
  }

  lemma {:induction false} SkipAheadBounds(s: bytes, p: nat)
    requires p <= |s|
    ensures p <= SkipAhead(s, p) <= |s|
  {
    SkipAheadIs(s, p);
  }

  lemma {:induction false} SampleCutBound(ordered: bytes, before: bytes, limit: int)
    ensures SampleCut(ordered, before, limit) <= |ordered|
  {
    CutBounds(ordered, limit);
    SkipAheadBounds(ordered, TailCut(ordered, limit));
  }

  /** The last `max` bytes, and the byte in front of them. */
  function Sample(s: bytes, max: nat): bytes
    requires max <= |s|
  {
    s[|s| - max..]
  }

  function Before(s: bytes, max: nat): bytes
    requires max <= |s|
  {
    if |s| > max then [s[|s| - max - 1]] else []
  }

  function SampleTail(s: bytes, max: nat, limit: int): bytes
    requires max <= |s|
  {
    SampleCutBound(Sample(s, max), Before(s, max), limit);
    Sample(s, max)[SampleCut(Sample(s, max), Before(s, max), limit)..]
  }

  /** What the samples of a stream longer than the limit are cut to. */
  function SampleCuts(p: Policy, s: bytes): Cut
    requires 0 < p.maxBytes < |s|
  {
    var first := SampleTail(s, p.maxBytes, LimitSplit(p, p.maxBytes).1);
    var prefix := HeadText(s, p.maxBytes - |first|);
    Cut(prefix, SampleTail(s, p.maxBytes, p.maxBytes - |prefix|))
  }

  function FromSamples(p: Policy, s: bytes): (bytes, Report) {
    if p.maxBytes <= 0 || |s| <= p.maxBytes then (s, Report(false, NoReason, |s|, LineCount(s), |s|, LineCount(s)))
    else Rendered(p, s, SampleCuts(p, s))
  }

  // ---------------------------------------------------------------------------------------------
  // Samples know enough.
  // ---------------------------------------------------------------------------------------------

  lemma {:induction false} SkipAheadShift(s: bytes, d: nat, p: nat)
    requires d <= p <= |s|
    ensures SkipAhead(s, p) == d + SkipAhead(s[d..], p - d)
    decreases |s| - p
  {
    if p < |s| && IsContinuation(s[p]) { SkipAheadShift(s, d, p + 1); }
  }

  lemma {:induction false} AlreadyThere(s: bytes, p: nat)
    requires p <= |s| && (p == |s| || !IsContinuation(s[p]))
    ensures SkipAhead(s, p) == p
  {}

  /** On a clean stream the sample's cut is the stream's own cut. */
  lemma {:induction false} SampleTailIsTailText(s: bytes, max: nat, limit: nat)
    requires CleanLines(s) && 0 < max < |s| && limit <= max
    ensures SampleTail(s, max, limit) == TailText(s, limit)
  {
    hide SkipAhead, CleanLines, TailCut, SampleCut;
    CutBounds(s, limit);
    SampleCutBound(Sample(s, max), Before(s, max), limit);
    if limit < max { SampleCutInside(s, max, limit); } else { SampleCutWhole(s, max); }
  }

  /** A cut inside the sample sees the same bytes as the stream. */
  lemma {:induction false} SampleCutInside(s: bytes, max: nat, limit: nat)
    requires CleanLines(s) && limit < max < |s|
    ensures SampleCut(Sample(s, max), Before(s, max), limit) == TailCut(s, limit) - (|s| - max)
  {
    hide SkipAhead, CleanLines;
    var d, o := |s| - max, Sample(s, max);
    CutBounds(o, limit);
    if limit == 0 {
      AlreadyThere(o, |o|);
    } else {
      var p: nat := |s| - limit;
      var q := SkipAhead(s, p);
      SkipAheadShift(s, d, p);
      SkipAheadIs(s, p);
      assert q < |s| ==> o[q - d] == s[q];
      assert o[q - 1 - d] == s[q - 1];
      CleanSample(s, max);
      AfterCut(o, TailCut(o, limit), q - d);
    }
  }

  /** A cut that may take the whole sample looks at the byte in front of it. */
  lemma {:induction false} SampleCutWhole(s: bytes, max: nat)
    requires 0 < max < |s|
    ensures SampleCut(Sample(s, max), Before(s, max), max) == TailCut(s, max) - (|s| - max)
  {
    hide SkipAhead;
    var d: nat := |s| - max;
    var o, q := Sample(s, max), SkipAhead(s, d);
    SkipAheadShift(s, d, d);
    SkipAheadIs(s, d);
    assert q < |s| ==> o[q - d] == s[q];
    if q > d { assert IsContinuation(s[q - 1]); }
  }

  lemma {:induction false} CleanSample(s: bytes, max: nat)
    requires CleanLines(s) && max <= |s|
    ensures CleanLines(Sample(s, max))
  {}

  /** The extra skip of the sample form finds nothing left to skip. */
  lemma {:induction false} AfterCut(o: bytes, cut: nat, q: nat)
    requires q <= |o| && (q == |o| || !IsContinuation(o[q])) && CleanLines(o)
    requires cut == q || (cut == q + 1 && q < |o| && o[q] == LF)
    ensures SkipAhead(o, cut) == cut
  {
    AlreadyThere(o, cut);
  }

  /** So the streaming form agrees with the whole-input form on every clean stream, in particular on valid UTF-8. */
  lemma {:induction false} FromSamplesIsApplied(p: Policy, s: bytes)
    requires ByteOnly(p) && CleanLines(s)
    ensures FromSamples(p, s) == Applied(p, s)
  {
    hide Applied, Rendered, SampleTail, TailText, HeadText;
    AppliedIsStreamed(p, s);
    if 0 < p.maxBytes < |s| {
      var share := LimitSplit(p, p.maxBytes).1;
      SampleTailIsTailText(s, p.maxBytes, share);
      var first := TailText(s, share);
      TextBounds(s, share);
      var prefix := HeadText(s, p.maxBytes - |first|);
      TextBounds(s, p.maxBytes - |first|);
      SampleTailIsTailText(s, p.maxBytes, p.maxBytes - |prefix|);
    }
  }

  lemma {:induction false} WriterMatchesApply(p: Policy, s: bytes)
    requires ByteOnly(p) && ValidUtf8(s)
    ensures FromSamples(p, s) == Applied(p, s)
  {
    hide Applied, FromSamples;
    ValidIsClean(s);
    FromSamplesIsApplied(p, s);
  }

  /** A look-ahead of four bytes behind the head sample decides the head cut. */
  lemma {:induction false} HeadCutLocal(s: bytes, n: nat, limit: int)
    requires n <= |s| && limit < n
    ensures HeadCut(s[..n], limit) == HeadCut(s, limit)
  {
    if limit > 0 {
      BackUpLocal(s, n, limit);
      BackUpIs(s, limit);
    }
  }

  lemma {:induction false} BackUpLocal(s: bytes, n: nat, e: nat)
    requires e < n <= |s|
    ensures BackUp(s[..n], e) == BackUp(s, e)
  {
    if e > 0 && IsContinuation(s[e]) { BackUpLocal(s, n, e - 1); }
  }

  // ---------------------------------------------------------------------------------------------
  // The writer.
  // ---------------------------------------------------------------------------------------------

  function Ordered(tail: bytes, at: nat): bytes
    requires at <= |tail|
  {
    tail[at..] + tail[..at]
  }

  function LineCountOf(newlines: nat, total: nat, last: byte): nat {
    if total == 0 then 0 else if last == LF then newlines else newlines + 1
  }

  // What each group of fields says about the stream seen so far.

  predicate HeadHolds(head: bytes, boundary: bytes, s: bytes, max: nat) {
    head == s[..Min(max, |s|)] && boundary == s[Min(max, |s|)..Min(max + UTF_MAX, |s|)]
  }

  ghost predicate CountersHold(newlines: nat, hasLast: bool, prevByte: byte, lastByte: byte, s: bytes) {
    && newlines == Newlines(s) && hasLast == (s != [])
    && (s != [] ==> lastByte == s[|s| - 1])
    && (|s| > 1 ==> prevByte == s[|s| - 2])
  }

  /** The ring holds the last bytes of the stream; `before` is the byte that fell out of it last. */
  predicate RingHolds(tail: bytes, at: nat, before: bytes, s: bytes, max: nat) {
    && |tail| == Min(max, |s|) && (if |tail| < max then at == 0 else at < |tail|)
    && Ordered(tail, at) == s[|s| - |tail|..]
    && before == (if |s| > max then [s[|s| - max - 1]] else [])
  }

  lemma {:induction false} HeadPush(head: bytes, boundary: bytes, s: bytes, max: nat, value: byte)
    requires HeadHolds(head, boundary, s, max)
    ensures |head| < max ==> HeadHolds(head + [value], boundary, s + [value], max)
    ensures |head| >= max && |boundary| < UTF_MAX ==> HeadHolds(head, boundary + [value], s + [value], max)
    ensures |head| >= max && |boundary| >= UTF_MAX ==> HeadHolds(head, boundary, s + [value], max)
  {
    var t := s + [value];
    if |head| < max {
      assert t[..|t|] == t && s[..|s|] == s && t[|t|..|t|] == [] && s[|s|..|s|] == [];
    } else {
      assert t[..max] == s[..max];
      if |boundary| < UTF_MAX { assert t[max..|t|] == s[max..|s|] + [value]; }
      else { assert t[max..max + UTF_MAX] == s[max..max + UTF_MAX]; }
    }
  }

  lemma {:induction false} CountersPush(newlines: nat, hasLast: bool, prevByte: byte, lastByte: byte, s: bytes, value: byte)
    requires CountersHold(newlines, hasLast, prevByte, lastByte, s)
    ensures CountersHold(if value == LF then newlines + 1 else newlines, true, if hasLast then lastByte else prevByte, value, s + [value])
  {
    assert (s + [value])[..|s|] == s;
  }

  lemma {:induction false} RingFill(tail: bytes, before: bytes, s: bytes, max: nat, value: byte)
    requires RingHolds(tail, 0, before, s, max) && |tail| < max
    ensures RingHolds(tail + [value], 0, before, s + [value], max)
  {
    assert Ordered(tail, 0) == tail && Ordered(tail + [value], 0) == tail + [value];
    assert tail == s;
    assert (s + [value])[0..] == s + [value];
  }

  lemma {:induction false} RingTurn(tail: bytes, at: nat, before: bytes, s: bytes, max: nat, value: byte)
    requires RingHolds(tail, at, before, s, max) && |tail| == max > 0 && at < max
    ensures RingHolds(tail[at := value], if at + 1 == max then 0 else at + 1, [tail[at]], s + [value], max)
  {
    hide RingHolds;
    var fresh_, next := tail[at := value], if at + 1 == max then 0 else at + 1;
    var o, t := Ordered(tail, at), s + [value];
    assert |s| >= max && o == s[|s| - max..] by { assert RingHolds(tail, at, before, s, max); RingLength(tail, at, before, s, max); }
    assert o[0] == tail[at];
    RingPush(tail, at, value);
    assert Ordered(fresh_, next) == o[1..] + [value];
    assert t[|t| - max..] == s[|s| - max..][1..] + [value];
    assert t[|t| - max - 1] == s[|s| - max] == o[0];
    RingIntro(fresh_, next, t, max);
  }

  lemma {:induction false} RingBounds(tail: bytes, at: nat, before: bytes, s: bytes, max: nat)
    requires RingHolds(tail, at, before, s, max)
    ensures |tail| <= max && (if |tail| < max then at == 0 && |s| < max && before == [] else at < |tail|)
  {}

  lemma {:induction false} RingLength(tail: bytes, at: nat, before: bytes, s: bytes, max: nat)
    requires RingHolds(tail, at, before, s, max) && |tail| == max
    ensures |s| >= max && at <= max && Ordered(tail, at) == s[|s| - max..]
  {}

  lemma {:induction false} RingIntro(tail: bytes, at: nat, s: bytes, max: nat)
    requires |tail| == max < |s| && at < max && Ordered(tail, at) == s[|s| - max..]
    ensures RingHolds(tail, at, [s[|s| - max - 1]], s, max)
  {}

  lemma {:induction false} RingPush(tail: bytes, at: nat, value: byte)
    requires at < |tail|
    ensures Ordered(tail[at := value], if at + 1 == |tail| then 0 else at + 1) == Ordered(tail, at)[1..] + [value]
  {
    var fresh_ := tail[at := value];
    var o := Ordered(tail, at)[1..] + [value];
    if at + 1 == |tail| {
      assert fresh_[0..] + fresh_[..0] == o;
    } else {
      assert fresh_[at + 1..] == tail[at + 1..] && fresh_[..at + 1] == tail[..at] + [value];
      assert Ordered(tail, at)[1..] == tail[at + 1..] + tail[..at];
      Assoc(tail[at + 1..], tail[..at], [value]);
    }
  }

  class Writer {
    const policy: Policy
    const max: nat
    const unlimited: bool
    var head: bytes
    var tail: bytes
    var tailAt: nat
    var total: nat
    var newlines: nat
    var prevByte: byte
    var lastByte: byte
    var hasLast: bool
    var headBoundary: bytes
    var beforeTail: byte
    var hasBeforeTail: bool
    ghost var stream: bytes

    function Fallen(): bytes reads `beforeTail, `hasBeforeTail { if hasBeforeTail then [beforeTail] else [] }

    ghost predicate Configured() {
      && policy.maxBytes >= 0 && max == policy.maxBytes && unlimited == (policy.maxBytes == 0)
    }

    /** Every field is determined by the stream. */
    ghost predicate Consistent()
      reads `head, `tail, `tailAt, `newlines, `prevByte, `lastByte, `hasLast, `headBoundary, `beforeTail, `hasBeforeTail, `stream
    {
      && CountersHold(newlines, hasLast, prevByte, lastByte, stream)
      && (if unlimited then head == stream else HeadHolds(head, headBoundary, stream, max) && RingHolds(tail, tailAt, Fallen(), stream, max))
    }

    ghost predicate Valid() reads this {
      Configured() && Consistent() && total == |stream|
    }

    constructor (policy: Policy)
      requires policy.maxBytes >= 0
      ensures Valid() && stream == [] && this.policy == policy
    {
      this.policy := policy;
      max := policy.maxBytes;
      unlimited := policy.maxBytes == 0;
      head, tail, tailAt, total, newlines := [], [], 0, 0, 0;
      prevByte, lastByte, hasLast := 0, 0, false;
      headBoundary, beforeTail, hasBeforeTail := [], 0, false;
      stream := [];
      new;
      EmptyHolds(max);
    }

    method Reset()
      requires Valid()
      modifies this
      ensures Valid() && stream == []
    {
      hide HeadHolds, RingHolds, CountersHold;
      head, tail, tailAt, total, newlines := [], [], 0, 0, 0;
      prevByte, lastByte, hasLast := 0, 0, false;
      headBoundary, beforeTail, hasBeforeTail := [], 0, false;
      stream := [];
      EmptyHolds(max);
    }

    method AppendTail(value: byte)
      requires max > 0 && RingHolds(tail, tailAt, Fallen(), stream, max)
      modifies `tail, `tailAt, `beforeTail, `hasBeforeTail
      ensures RingHolds(tail, tailAt, Fallen(), stream + [value], max)
    {
      hide RingHolds;
      RingBounds(tail, tailAt, Fallen(), stream, max);
      if |tail| < max {
        RingFill(tail, Fallen(), stream, max, value);
        tail := tail + [value];
        return;
      }
      RingTurn(tail, tailAt, Fallen(), stream, max, value);
      beforeTail := tail[tailAt];
      hasBeforeTail := true;
      tail := tail[tailAt := value];
      tailAt := tailAt + 1;
      if tailAt == |tail| {
        tailAt := 0;
      }
    }

    /** One byte of a chunk; `total` is brought up to date after the chunk. */
    method WriteByte(value: byte)
      requires Configured() && Consistent()
      modifies this
      ensures Consistent() && stream == old(stream) + [value] && total == old(total)
    {
      hide HeadHolds, RingHolds, CountersHold;
      CountersPush(newlines, hasLast, prevByte, lastByte, stream, value);
      if value == LF { newlines := newlines + 1; }
      if hasLast { prevByte := lastByte; }
      lastByte := value;
      hasLast := true;
      if !unlimited { HeadPush(head, headBoundary, stream, max, value); }
      if unlimited || |head| < max {
        head := head + [value];
      } else if |headBoundary| < UTF_MAX {
        headBoundary := headBoundary + [value];
      }
      if !unlimited {
        AppendTail(value);
      }
      stream := stream + [value];
    }

    method Write(p: bytes) returns (n: nat, err: WriterError)
      requires Valid()
      modifies this
      ensures Valid()
      ensures |p| > MAX_INT - old(total) ==> n == 0 && err == CounterOverflow && stream == old(stream)
      ensures |p| <= MAX_INT - old(total) ==> n == |p| && err == NoError && stream == old(stream) + p
    {
      if |p| > MAX_INT - total {
        return 0, CounterOverflow;
      }
      hide Consistent, HeadHolds, RingHolds, CountersHold;
      ghost var before := stream;
      WholeChunk(before, p);
      for i := 0 to |p|
        invariant Configured() && Consistent() && total == old(total)
        invariant stream == before + p[..i]
      {
        WriteByte(p[i]);
        NextOfChunk(before, p, i);
      }
      total := total + |p|;
      return |p|, NoError;
    }

    /** The buffers never hold more than twice the limit, plus the four look-ahead bytes. */
    ghost method BuffersBounded()
      requires Valid() && !unlimited
      ensures |head| + |tail| <= 2 * max && |headBoundary| <= UTF_MAX
    {}

    method OrderedTail() returns (ordered: bytes)
      requires Valid() && !unlimited && total >= max
      ensures ordered == Sample(stream, max)
    {
      if |tail| < max || tailAt == 0 {
        assert tail[0..] + tail[..0] == tail;
        return tail;
      }
      ordered := tail[tailAt..];
      ordered := ordered + tail[..tailAt];
    }

    method TailWithin(ordered: bytes, limit: int) returns (suffix: bytes)
      requires Valid() && !unlimited && total > max && ordered == Sample(stream, max)
      ensures suffix == SampleTail(stream, max, limit)
    {
      hide HeadHolds, CountersHold, TailCut, Ordered;
      var start := InwardTail(ordered, limit);
      CutBounds(ordered, limit);
      ghost var from := start;
      while start < |ordered| && IsContinuation(ordered[start])
        invariant from <= start <= |ordered| && SkipAhead(ordered, start) == SkipAhead(ordered, from)
      {
        start := start + 1;
      }
      assert Fallen() == Before(stream, max);
      if start == 0 && hasBeforeTail && beforeTail == CR && |ordered| > 0 && ordered[0] == LF {
        start := start + 1;
      }
      SampleCutBound(ordered, Before(stream, max), limit);
      suffix := ordered[start..];
    }

    /** The two cuts, made on the samples alone. */
    method Cuts() returns (prefix: bytes, suffix: bytes)
      requires Valid() && !unlimited && total > max
      ensures Cut(prefix, suffix) == SampleCuts(policy, stream)
    {
      hide TailCut, HeadCut, RingHolds, CountersHold, SampleTail;
      var tailLimit := LimitSplit(policy, max).1;
      var headSample := head + headBoundary;
      HeadSample(head, headBoundary, stream, max);
      var ordered := OrderedTail();
      suffix := TailWithin(ordered, tailLimit);
      SampleTailBound(stream, max, tailLimit);
      ghost var n := Min(max + UTF_MAX, total);
      HeadCutLocal(stream, n, max - |suffix|);
      CutBounds(stream, max - |suffix|);
      var cut := InwardHead(headSample, max - |suffix|);
      prefix := head[..cut];
      assert prefix == stream[..cut];
      suffix := TailWithin(ordered, max - |prefix|);
    }

    /** Put the text together, taking the final line break from the last two bytes seen. */
    method Join(prefix: bytes, marker: bytes, suffix: bytes) returns (text: bytes)
      requires Valid() && total > 1
      ensures text == Assemble(prefix, marker, suffix, stream)
    {
      hide HeadHolds, RingHolds;
      EndsWithLast(prefix);
      EndsWithLast(stream);
      hide EndsWith;
      text := prefix;
      if text != [] && text[|text| - 1] != LF {
        text := text + [LF];
      }
      assert text == prefix + (if prefix != [] && !EndsWith(prefix, [LF]) then [LF] else []);
      text := text + marker;
      if suffix != [] {
        text := text + ([LF] + suffix);
      } else if lastByte == LF {
        if prevByte == CR {
          text := text + [CR, LF];
        } else {
          text := text + [LF];
        }
      }
    }

    method String() returns (text: bytes, report: Report)
      requires Valid()
      ensures (text, report) == FromSamples(policy, stream)
    {
      hide SampleCuts, Marker, Assemble, Newlines, RingHolds, LineCount;
      LineCountIs(stream);
      var lines := LineCountOf(newlines, total, lastByte);
      if unlimited || total <= max {
        assert head[..total] == stream;
        text := head[..total];
        report := Report(false, NoReason, total, lines, total, lines);
        return;
      }
      var prefix, suffix := Cuts();
      var keptBytes := |prefix| + |suffix|;
      SelectedLinesNat(prefix, suffix, newlines);
      var keptLines := SelectedLines(prefix, suffix, newlines);
      text := Join(prefix, Marker(ByBytes, keptBytes, total, keptLines, lines), suffix);
      report := Report(true, ByBytes, total, lines, keptBytes, keptLines);
    }
  }

  lemma {:induction false} EmptyHolds(max: nat)
    ensures HeadHolds([], [], [], max) && CountersHold(0, false, 0, 0, [])
    ensures max > 0 ==> RingHolds([], 0, [], [], max)
  {}

  lemma {:induction false} HeadSample(head: bytes, boundary: bytes, s: bytes, max: nat)
    requires HeadHolds(head, boundary, s, max) && |s| > max
    ensures head + boundary == s[..Min(max + UTF_MAX, |s|)] && head == s[..max]
  {}

  lemma {:induction false} LineCountIs(s: bytes)
    ensures LineCount(s) == if s == [] then 0 else LineCountOf(Newlines(s), |s|, s[|s| - 1])
  {}

  lemma {:induction false} EndsWithLast(s: bytes)
    ensures EndsWith(s, [LF]) <==> s != [] && s[|s| - 1] == LF
    ensures |s| > 1 ==> (EndsWith(s, [CR, LF]) <==> s[|s| - 1] == LF && s[|s| - 2] == CR)
  {
    if s != [] { assert s[|s| - 1..] == [s[|s| - 1]]; }
    if |s| > 1 { assert s[|s| - 2..] == [s[|s| - 2], s[|s| - 1]]; }
  }

  lemma {:induction false} WholeChunk(s: bytes, p: bytes)
    ensures s + p[..0] == s && s + p[..|p|] == s + p
  {
    assert p[..|p|] == p;
  }

  lemma {:induction false} NextOfChunk(s: bytes, p: bytes, i: nat)
    requires i < |p|
    ensures s + p[..i] + [p[i]] == s + p[..i + 1]
  {
    Assoc(s, p[..i], [p[i]]);
    assert p[..i + 1] == p[..i] + [p[i]];
  }

  lemma {:induction false} SampleTailBound(s: bytes, max: nat, limit: int)
    requires max <= |s|
    ensures |SampleTail(s, max, limit)| <= max
  {
    SampleCutBound(Sample(s, max), Before(s, max), limit);
  }

  /** A negative byte limit is refused, though `Apply` takes it as disabled. */
  method NewWriter(p: Policy) returns (w: Writer?, err: WriterError)
    ensures err == if p.maxBytes < 0 then InvalidLimit else NoError
    ensures err.NoError? ==> w != null && fresh(w) && w.Valid() && w.stream == [] && w.policy == p
    ensures err.InvalidLimit? ==> w == null
  {
    if p.maxBytes < 0 { return null, InvalidLimit; }
    var made := new Writer(p);
    w, err := made, NoError;
  }

  /** Any way of cutting a stream into chunks renders the same text and report as applying the policy to the whole. */
  method WriteChunks(p: Policy, chunks: seq<bytes>) returns (rendered: Option<(bytes, Report)>)
    requires ByteOnly(p)
    requires ValidUtf8(Concatenated(chunks)) && |Concatenated(chunks)| <= MAX_INT
    ensures rendered == if p.maxBytes < 0 then None else Some(Applied(p, Concatenated(chunks)))
  {
    hide Applied, FromSamples, ValidUtf8, RingHolds, HeadHolds, CountersHold;
    var made, invalid := NewWriter(p);
    if !invalid.NoError? { return None; }
    var w: Writer := made;
    for i := 0 to |chunks|
      invariant fresh(w) && w.Valid() && w.policy == p && w.stream == Concatenated(chunks[..i])
    {
      ConcatenatedPrefix(chunks, i + 1);
      assert chunks[..i + 1][..i] == chunks[..i];
      var n, refused := w.Write(chunks[i]);
    }
    assert chunks[..|chunks|] == chunks;
    var text, report := w.String();
    WriterMatchesApply(p, w.stream);
    rendered := Some((text, report));
  }

  function Concatenated(chunks: seq<bytes>): bytes {
    if chunks == [] then [] else Concatenated(chunks[..|chunks| - 1]) + chunks[|chunks| - 1]
  }

  lemma {:induction false} ConcatenatedPrefix(chunks: seq<bytes>, i: nat)
    requires i <= |chunks|
    ensures |Concatenated(chunks[..i])| <= |Concatenated(chunks)|
  {
    if i == |chunks| {
      assert chunks[..i] == chunks;
    } else {
      ConcatenatedPrefix(chunks[..|chunks| - 1], i);
      assert chunks[..|chunks| - 1][..i] == chunks[..i];
    }
  }
}
