/** What one policy run guarantees, and what every sequence of runs over a growing history guarantees. */
module CompactionRuns {
  import opened Numbers
  import opened Wrappers
  import opened CompactionContents
  import opened CompactionPairs
  import opened CompactionTurns
  import opened CompactionSticky
  import opened CompactionEstimate
  import opened CompactionElision
  import opened CompactionChoice
  import opened CompactionDecisions
  import opened CompactionPolicy

  // ---------------------------------------------------------------------------------------------
  // One run, from any memory.
  // ---------------------------------------------------------------------------------------------

  /** A content whose slots all kept their bodies is unchanged. */
  lemma {:induction false} SameSlotsSameContent(cs: Contents, ds: Contents, i: nat)
    requires SameShape(ds, cs) && i < |cs|
    requires forall k: nat, slot: Slot :: SlotAt(ds, i, k, slot) == SlotAt(cs, i, k, slot)
    ensures i < |ds| && ds[i] == cs[i]
  {
    assert |Strip(ds)| == |Strip(cs)|;
    assert Strip(ds)[i] == Strip(cs)[i];
    SameShapeContent(ds[i], cs[i]);
    if cs[i].Some? {
      var ps, qs := cs[i].value.parts, ds[i].value.parts;
      forall k | 0 <= k < |ps| ensures ps[k] == qs[k] {
        assert StripPart(qs[k]) == StripPart(ps[k]);
        assert SlotAt(ds, i, k, FunctionSlot) == SlotAt(cs, i, k, FunctionSlot);
        assert SlotAt(ds, i, k, ToolSlot) == SlotAt(cs, i, k, ToolSlot);
      }
      assert ps == qs;
    }
  }

  /** Content zero and the recent window are never elided. */
  lemma {:induction false} ElisionSparesEdges(cfg: Config, cs: Contents, ds: Contents, k: nat)
    requires OnlyElided(cs, ds, Min(1, |cs|), EligibleEnd(cs, cfg.keepRecent), cfg.preserve)
    requires k <= |cs| && k <= cfg.keepRecent
    ensures |ds| == |cs| && (cs != [] ==> ds[0] == cs[0]) && Recent(ds, k) == Recent(cs, k)
  {
    assert |Strip(ds)| == |Strip(cs)|;
    forall i | 0 <= i < |cs| && (i == 0 || |cs| - k <= i) ensures ds[i] == cs[i] {
      forall j: nat, slot: Slot ensures SlotAt(ds, i, j, slot) == SlotAt(cs, i, j, slot) {}
      SameSlotsSameContent(cs, ds, i);
    }
  }

  /** The contents a run leaves: some droppable turns fewer, otherwise only response bodies changed. */
  ghost predicate Thinned(cfg: Config, cs: Contents, out: Contents) {
    exists starts, ds :: CutsTo(cfg, cs, starts, ds) && SameShape(out, ds)
  }

  ghost predicate SameEdges(cs: Contents, out: Contents, k: nat) {
    && k <= |cs| && k <= |out| && Recent(out, k) == Recent(cs, k)
    && (cs != [] ==> out != [] && out[0] == cs[0])
  }

  lemma {:induction false} ThinnedByCuts(cfg: Config, cs: Contents, mid: Contents, starts: seq<nat>, out: Contents)
    requires Thinned(cfg, cs, mid) && CutsTo(cfg, mid, starts, out)
    ensures Thinned(cfg, cs, out)
  {
    hide CutsTo, Strip;
    var a, ds :| CutsTo(cfg, cs, a, ds) && SameShape(mid, ds);
    var ds' := CutsShape(cfg, mid, starts, out, ds);
    CutsTrans(cfg, cs, a, ds, starts, ds');
  }

  lemma {:induction false} ThinnedByElision(cfg: Config, cs: Contents, mid: Contents, out: Contents)
    requires Thinned(cfg, cs, mid) && SameShape(out, mid)
    ensures Thinned(cfg, cs, out)
  {
    hide CutsTo, Strip;
    var a, ds :| CutsTo(cfg, cs, a, ds) && SameShape(mid, ds);
  }

  lemma {:induction false} ThinnedRefl(cfg: Config, cs: Contents)
    ensures Thinned(cfg, cs, cs)
  {
    assert CutsTo(cfg, cs, [], cs);
  }

  lemma {:induction false} ReappliedThins(cfg: Config, enc: Encoder, m: Memory, cs: Contents, k: nat)
    requires k <= |cs| && k <= cfg.keepRecent
    ensures var out := Reapplied(cfg, enc, m, cs); Thinned(cfg, cs, out) && SameEdges(cs, out, k)
  {
    hide CutsTo, Strip, Sticky, Tokens, SlotAt, ReElided, EligibleEnd, Thinned;
    ThinnedRefl(cfg, cs);
    if HasSticky(m) {
      var mid := Sticky(cfg, cs, m.dropped);
      StickyCuts(cfg, cs, m.dropped);
      var starts :| CutsTo(cfg, cs, starts, mid);
      CutsSpare(cfg, cs, starts, mid, k);
      ThinnedByCuts(cfg, cs, cs, starts, mid);
      ReElidedSound(cfg, enc, m.elided, mid);
      ElisionSparesEdges(cfg, mid, ReElided(cfg, enc, m.elided, mid).contents, k);
      ThinnedByElision(cfg, cs, mid, ReElided(cfg, enc, m.elided, mid).contents);
    }
  }

  lemma {:induction false} DecidedThins(cfg: Config, enc: Encoder, m: Memory, cs: Contents, k: nat)
    requires k <= |cs| && k <= cfg.keepRecent
    ensures var out := Decided(cfg, enc, m, cs).contents; Thinned(cfg, cs, out) && SameEdges(cs, out, k)
  {
    hide CutsTo, Strip, Tokens, SlotAt, Elided, EligibleEnd, Calibrated, DropFirst, DropCount, Thinned;
    var factor, target := Factor(cfg, m.calibration), Target(cfg);
    var mid := Elided(cfg, enc, factor, target, cs).contents;
    ElidedSound(cfg, enc, factor, target, cs);
    ElisionSparesEdges(cfg, cs, mid, k);
    ThinnedRefl(cfg, cs);
    ThinnedByElision(cfg, cs, cs, mid);
    var n := DropCount(cfg, enc, factor, target, mid);
    DropFirstCuts(cfg, mid, n);
    var starts :| CutsTo(cfg, mid, starts, DropFirst(cfg, mid, n));
    CutsSpare(cfg, mid, starts, DropFirst(cfg, mid, n), k);
    ThinnedByCuts(cfg, cs, mid, starts, DropFirst(cfg, mid, n));
  }

  lemma {:induction false} ThinnedTrans(cfg: Config, cs: Contents, mid: Contents, out: Contents)
    requires Thinned(cfg, cs, mid) && Thinned(cfg, mid, out)
    ensures Thinned(cfg, cs, out)
  {
    hide CutsTo, Strip;
    var b, ds :| CutsTo(cfg, mid, b, ds) && SameShape(out, ds);
    ThinnedByCuts(cfg, cs, mid, b, ds);
    ThinnedByElision(cfg, cs, ds, out);
  }

  /**
   A run from any memory yields the original contents minus whole droppable turns, with only response bodies
   changed; content zero and the recent window are untouched.
   */
  lemma {:induction false} RunThins(cfg: Config, enc: Encoder, m: Memory, cs: Contents, k: nat)
    requires k <= |cs| && k <= cfg.keepRecent
    ensures var out := PolicyStep(cfg, enc, m, cs).contents; Thinned(cfg, cs, out) && SameEdges(cs, out, k)
  {
    hide Thinned, Reapplied, Decided, Tokens, Calibrated, Trigger;
    var m' := m.(calibration := Normalized(m.calibration));
    ReappliedThins(cfg, enc, m', cs, k);
    var mid := Reapplied(cfg, enc, m', cs);
    DecidedThins(cfg, enc, m', mid, k);
    ThinnedTrans(cfg, cs, mid, Decided(cfg, enc, m', mid).contents);
  }

  lemma {:induction false} SameShapeLastStart(cs: Contents, ds: Contents, k: nat)
    requires SameShape(cs, ds) && k <= |cs|
    ensures |cs| == |ds| && LastStart(cs, k) == LastStart(ds, k)
    decreases k
  {
    assert |Strip(cs)| == |Strip(ds)|;
    if k > 0 {
      SameShapeAt(cs, ds, k - 1);
      SameShapeLastStart(cs, ds, k - 1);
    }
  }

  lemma {:induction false} SameShapeSnoc(p: Contents, q: Contents, c: Option<Content>, d: Option<Content>)
    requires SameShape(p, q) && StripContent(c) == StripContent(d)
    ensures SameShape(p + [c], q + [d])
  {
    StripAppend(p, [c]);
    StripAppend(q, [d]);
    assert Strip([c]) == Strip([d]);
  }

  lemma {:induction false} SameShapePreserved(cs: Contents, ds: Contents, preserve: set<string>)
    requires SameShape(cs, ds)
    ensures SameShape(PreservedContents(cs, preserve), PreservedContents(ds, preserve))
  {
    assert |Strip(cs)| == |Strip(ds)|;
    if cs != [] {
      var k := |cs| - 1;
      SameShapeAt(cs, ds, k);
      SameShapeSlice(cs, ds, 0, k);
      assert cs[0..k] == cs[..k] && ds[0..k] == ds[..k];
      SameShapePreserved(cs[..k], ds[..k], preserve);
      assert Strip(cs)[k] == Strip(ds)[k];
      var p, q := PreservedContents(cs[..k], preserve), PreservedContents(ds[..k], preserve);
      SameShapeSnoc(p, q, cs[k], ds[k]);
      assert p + [] == p && q + [] == q;
    }
  }

  /** The active turn stays as a turn, and so does every content holding a preserved tool. */
  lemma {:induction false} ThinnedKeeps(cfg: Config, cs: Contents, out: Contents)
    requires Thinned(cfg, cs, out) && 0 <= cfg.keepRecent
    ensures SameShape(ActiveTurn(out), ActiveTurn(cs))
    ensures SameShape(PreservedContents(out, cfg.preserve), PreservedContents(cs, cfg.preserve))
  {
    hide CutsTo, Strip, PreservedContents, LastStart;
    var starts, ds :| CutsTo(cfg, cs, starts, ds) && SameShape(out, ds);
    CutsSpare(cfg, cs, starts, ds, 0);
    SameShapePreserved(out, ds, cfg.preserve);
    LastStartAtMost(out);
    SameShapeLastStart(out, ds, |out|);
    SameShapeSlice(out, ds, LastStart(out, |out|), |out|);
    assert out[LastStart(out, |out|)..|out|] == ActiveTurn(out) && ds[LastStart(out, |out|)..|out|] == ActiveTurn(ds);
  }

  lemma {:induction false} LastStartAtMost(cs: Contents)
    ensures LastStart(cs, |cs|) <= |cs|
  {}

  /** A triggered run ends at or below the target, or exhausted with no droppable turn left. */
  lemma {:induction false} ExhaustedMeansNothingLeft(cfg: Config, enc: Encoder, m: Memory, cs: Contents)
    ensures var o := PolicyStep(cfg, enc, m, cs);
      && o.result.tokens == Tokens(enc, o.contents)
      && (o.result.exhausted ==> o.result.triggered && First(cfg, o.contents, 0, Any) == |o.contents|)
      && (o.result.triggered && !o.result.exhausted ==>
            Calibrated(Tokens(enc, o.contents), Factor(cfg, Normalized(m.calibration))) <= Target(cfg))
  {
    hide Tokens, Calibrated, First, DropFirst, DropCount, Elided, Reapplied, Trigger, Target;
    var m' := m.(calibration := Normalized(m.calibration));
    var factor, target := Factor(cfg, m'.calibration), Target(cfg);
    var ds := Reapplied(cfg, enc, m', cs);
    DropCountStops(cfg, enc, factor, target, Elided(cfg, enc, factor, target, ds).contents);
  }

  /**
   Above the target for good, every complete turn still there that ends before the recent contents holds a preserved
   tool, or a call and its response stand on different sides of its border.
   */
  lemma {:induction false} ExhaustedLeaves(cfg: Config, enc: Encoder, m: Memory, cs: Contents, s: nat, e: nat)
    requires PolicyStep(cfg, enc, m, cs).result.exhausted
    requires var out := PolicyStep(cfg, enc, m, cs).contents;
      0 < s < e < |out| && e <= |out| - cfg.keepRecent && StartsPrompt(out[s]) && StartsPrompt(out[e])
      && forall k :: s < k < e ==> !StartsPrompt(out[k])
    ensures var out := PolicyStep(cfg, enc, m, cs).contents;
      ContainsPreserved(out[s..e], cfg.preserve) || !Closed(Marks(out[..s]), Marks(out[s..e]), Marks(out[e..]))
  {
    hide PolicyStep, StartsPrompt, Closed, ContainsPreserved, Marks;
    var out := PolicyStep(cfg, enc, m, cs).contents;
    ExhaustedMeansNothingLeft(cfg, enc, m, cs);
    FirstDroppable(cfg, out);
    NextStartIs(out, s + 1, e);
    assert !Droppable(cfg, out, s) && TurnEnd(out, s) == e;
  }

  // ---------------------------------------------------------------------------------------------
  // What one run takes out.
  // ---------------------------------------------------------------------------------------------

  /** Turns go one by one, and only while the estimate is above the target. */
  lemma {:induction false} DropsWhileAbove(cfg: Config, enc: Encoder, factor: real, target: int, cs: Contents, k: nat)
    requires k < DropCount(cfg, enc, factor, target, cs)
    ensures CanDrop(cfg, cs, k) && Calibrated(Tokens(enc, DropFirst(cfg, cs, k)), factor) > target
    decreases k
  {
    hide Calibrated, Tokens, First, Cut;
    if k > 0 {
      DropsWhileAbove(cfg, enc, factor, target, Cut(cs, First(cfg, cs, 0, Any)), k - 1);
    }
  }

  /** One run in stages: recorded turns dropped, recorded bodies elided, new bodies elided, new turns dropped. */
  datatype Stages = Stages(kept: Contents, again: Contents, elided: Contents, places: seq<Place>, drops: nat)

  lemma {:induction false} RunDecides(cfg: Config, enc: Encoder, m: Memory, cs: Contents) returns (s: Stages)
    ensures s.kept == Sticky(cfg, cs, m.dropped) && ElidesAgain(cfg, enc, m.elided, s.kept, s.again)
    ensures
      var factor := if cfg.calibrate && m.calibration > 0.0 then m.calibration else 1.0;
      var trigger := (cfg.contextTokens as real * cfg.triggerFraction).Floor;
      var target := (cfg.contextTokens as real * cfg.targetFraction).Floor;
      var o := PolicyStep(cfg, enc, m, cs);
      if Calibrated(Tokens(enc, s.again), factor) < trigger then
        o.contents == s.again && !o.result.triggered && !o.result.stateChanged && !o.result.exhausted
        && o.memory.elided == m.elided && o.memory.dropped == m.dropped
      else
        && o.result.triggered
        && Elides(cfg, enc, factor, target, s.again, s.elided)
        && Changed(s.again, s.elided, None, s.places)
        && o.memory.elided == m.elided + multiset(KeysOf(s.again, s.places))
        && CanDrop(cfg, s.elided, s.drops) && o.contents == DropFirst(cfg, s.elided, s.drops)
        && o.memory.dropped == m.dropped + multiset(DroppedKeys(cfg, s.elided, s.drops))
        && (forall k :: 0 <= k < s.drops ==> CanDrop(cfg, s.elided, k) && Calibrated(Tokens(enc, DropFirst(cfg, s.elided, k)), factor) > target)
        && (o.result.stateChanged <==> s.places != [] || s.drops > 0)
        && (o.result.exhausted <==> Calibrated(Tokens(enc, o.contents), factor) > target)
  {
    hide Tokens, Calibrated, At, Strip, Elides, ElidesAgain, Changed, KeysOf, DropFirst, DropCount, DroppedKeys, CanDrop, Elided, ReElided, Sticky;
    var m' := m.(calibration := Normalized(m.calibration));
    var factor, target := Factor(cfg, m'.calibration), Target(cfg);
    var again := Reapplied(cfg, enc, m', cs);
    var elision := Elided(cfg, enc, factor, target, again);
    var places := ElidedKeys(cfg, enc, factor, target, again);
    s := Stages(Sticky(cfg, cs, m.dropped), again, elision.contents, places, DropCount(cfg, enc, factor, target, elision.contents));
    if HasSticky(m') {
      ReElidedElidesAgain(cfg, enc, m.elided, s.kept);
    } else {
      StickyNothing(cfg, cs);
      NothingAgain(cfg, enc, cs);
    }
    ElidedElides(cfg, enc, factor, target, again);
    assert target == (cfg.contextTokens as real * cfg.targetFraction).Floor;
    assert Elides(cfg, enc, factor, target, s.again, s.elided);
    forall k | 0 <= k < s.drops ensures CanDrop(cfg, s.elided, k) && Calibrated(Tokens(enc, DropFirst(cfg, s.elided, k)), factor) > target {
      DropsWhileAbove(cfg, enc, factor, target, s.elided, k);
    }
  }

  // ---------------------------------------------------------------------------------------------
  // Every sequence of runs.
  // ---------------------------------------------------------------------------------------------

  /** The memory owes exactly the first |dropped| droppable turns of the history. */
  ghost predicate Owes(cfg: Config, history: Contents, m: Memory) {
    CanDrop(cfg, history, |m.dropped|) && multiset(DroppedKeys(cfg, history, |m.dropped|)) == m.dropped
  }

  lemma {:induction false} KeysLength(cfg: Config, cs: Contents, n: nat)
    requires CanDrop(cfg, cs, n)
    ensures |DroppedKeys(cfg, cs, n)| == n
    decreases n
  {
    hide First, Cut, TurnKey;
    if n > 0 { KeysLength(cfg, Cut(cs, First(cfg, cs, 0, Any)), n - 1); }
  }

  /** Reapplying what is owed leaves the history without exactly the owed turns. */
  lemma {:induction false} ReappliedOwed(cfg: Config, enc: Encoder, m: Memory, history: Contents)
    requires Owes(cfg, history, m)
    ensures SameShape(Reapplied(cfg, enc, m, history), DropFirst(cfg, history, |m.dropped|))
  {
    hide DropFirst, CanDrop, DroppedKeys, DroppedMarks, Sticky, Tokens, SlotAt, ReElided, EligibleEnd, Strip;
    var n := |m.dropped|;
    if HasSticky(m) {
      NothingReused(DroppedMarks(cfg, history, n));
      StickyReplays(cfg, history, [], n);
      assert history + [] == history && DropFirst(cfg, history, n) + [] == DropFirst(cfg, history, n);
      ReElidedSound(cfg, enc, m.elided, DropFirst(cfg, history, n));
    } else {
      NoDrops(cfg, history);
    }
  }

  lemma {:induction false} NothingReused(ms: seq<Mark>)
    ensures !Reuses(ms, Marks([]))
  {}

  lemma {:induction false} NoDrops(cfg: Config, cs: Contents)
    ensures CanDrop(cfg, cs, 0) && DropFirst(cfg, cs, 0) == cs
  {}

  /** After a run the memory owes the first turns of the same history, and the request is that history without them. */
  lemma {:induction false} RunOwes(cfg: Config, enc: Encoder, m: Memory, history: Contents)
    requires Owes(cfg, history, m)
    ensures var o := PolicyStep(cfg, enc, m, history);
      && |m.dropped| <= |o.memory.dropped| && Owes(cfg, history, o.memory)
      && SameShape(o.contents, DropFirst(cfg, history, |o.memory.dropped|))
  {
    hide DropFirst, CanDrop, DroppedKeys, Tokens, SlotAt, Strip, Reapplied, Elided, DropCount, Calibrated, Trigger, Target;
    var m' := m.(calibration := Normalized(m.calibration));
    var n := |m'.dropped|;
    ReappliedOwed(cfg, enc, m', history);
    var ds := Reapplied(cfg, enc, m', history);
    var factor, target := Factor(cfg, m'.calibration), Target(cfg);
    if !(Calibrated(Tokens(enc, ds), factor) < Trigger(cfg)) {
      var es := Elided(cfg, enc, factor, target, ds).contents;
      ElidedSound(cfg, enc, factor, target, ds);
      var more := DropCount(cfg, enc, factor, target, es);
      var base := DropFirst(cfg, history, n);
      SameShapeDrops(cfg, es, base, more);
      DropMore(cfg, history, n, more);
      DropMoreKeys(cfg, history, n, more);
      KeysLength(cfg, es, more);
      assert multiset(DroppedKeys(cfg, history, n) + DroppedKeys(cfg, base, more)) == m'.dropped + multiset(DroppedKeys(cfg, es, more));
      assert |m'.dropped + multiset(DroppedKeys(cfg, es, more))| == n + more;
    }
  }

  /** One request; model, system instruction and tools, and with them all encoded lengths, are its own. */
  datatype Round = Round(enc: Encoder, history: Contents, before: Memory, outcome: Outcome)

  /** The contents appended after a round; they use none of the IDs of the turns dropped so far. */
  ghost predicate Extends(cfg: Config, round: Round, next: Contents) {
    var n := |round.outcome.memory.dropped|;
    exists tail ::
      && next == round.history + tail
      && (CanDrop(cfg, round.history, n) ==> !Reuses(DroppedMarks(cfg, round.history, n), Marks(tail)))
  }

  /** Runs over one growing history: each starts from the lists the previous one left; calibration may have moved. */
  ghost predicate Session(cfg: Config, rounds: seq<Round>) {
    && (forall i :: 0 <= i < |rounds| ==> rounds[i].outcome == PolicyStep(cfg, rounds[i].enc, rounds[i].before, rounds[i].history))
    && (rounds != [] ==> rounds[0].before.dropped == multiset{})
    && (forall i :: 0 < i < |rounds| ==>
          && rounds[i].before.dropped == rounds[i - 1].outcome.memory.dropped
          && Extends(cfg, rounds[i - 1], rounds[i].history))
  }

  /** What round i re-drops is what round i - 1 had dropped: the same turns of the longer history. */
  lemma {:induction false} OwesAfterExtension(cfg: Config, round: Round, next: Contents, before: Memory)
    requires Owes(cfg, round.history, round.outcome.memory) && Extends(cfg, round, next)
    requires before.dropped == round.outcome.memory.dropped
    ensures Owes(cfg, next, before)
    ensures exists tail ::
      && next == round.history + tail
      && DropFirst(cfg, next, |before.dropped|) == DropFirst(cfg, round.history, |before.dropped|) + tail
  {
    hide DropFirst, CanDrop, DroppedKeys, DroppedMarks, Reuses;
    var n := |round.outcome.memory.dropped|;
    var tail :| next == round.history + tail && (CanDrop(cfg, round.history, n) ==> !Reuses(DroppedMarks(cfg, round.history, n), Marks(tail)));
    DropsAppend(cfg, round.history, tail, n);
  }

  /**
   Over every sequence of requests, every round drops exactly the first so many droppable turns of its own history,
   never fewer than the round before, and its request is that history without them, bodies aside.
   */
  lemma {:induction false} SessionStaysSticky(cfg: Config, rounds: seq<Round>, i: nat)
    requires Session(cfg, rounds) && i < |rounds|
    ensures Owes(cfg, rounds[i].history, rounds[i].before)
    ensures var o := rounds[i].outcome;
      && |rounds[i].before.dropped| <= |o.memory.dropped| && Owes(cfg, rounds[i].history, o.memory)
      && SameShape(o.contents, DropFirst(cfg, rounds[i].history, |o.memory.dropped|))
    decreases i
  {
    hide DropFirst, CanDrop, DroppedKeys, DroppedMarks, Reuses, Strip, PolicyStep;
    if i == 0 {
      FreshOwes(cfg, rounds[0].history, rounds[0].before);
    } else {
      SessionStaysSticky(cfg, rounds, i - 1);
      OwesAfterExtension(cfg, rounds[i - 1], rounds[i].history, rounds[i].before);
    }
    RunOwes(cfg, rounds[i].enc, rounds[i].before, rounds[i].history);
  }

  lemma {:induction false} FreshOwes(cfg: Config, history: Contents, m: Memory)
    requires m.dropped == multiset{}
    ensures Owes(cfg, history, m)
  {}
}
