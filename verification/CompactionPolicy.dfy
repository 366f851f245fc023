/**
 One policy run over a request and its durable state. The methods splice contents, replace bodies and append to
 the durable lists; `PolicyStep` says what a run yields.
 */
module CompactionPolicy {
  import opened Numbers
  import opened Wrappers
  import opened Sequences
  import opened CompactionContents
  import opened CompactionPairs
  import opened CompactionTurns
  import opened CompactionSticky
  import opened CompactionEstimate
  import opened CompactionElision
  import opened CompactionChoice
  import opened CompactionDecisions

  // ---------------------------------------------------------------------------------------------
  // Turns as the code lists them.
  // ---------------------------------------------------------------------------------------------

  datatype Turn = Turn(start: nat, end: nat, key: Contents)

  ghost predicate IsTurn(cs: Contents, t: Turn) {
    t.start < |cs| && StartsPrompt(cs[t.start]) && t.end == TurnEnd(cs, t.start) < |cs| && t.key == TurnKey(cs, t.start)
  }

  /** Every complete turn, once and in order. */
  ghost predicate ListsTurns(cs: Contents, turns: seq<Turn>) {
    && (forall j :: 0 <= j < |turns| ==> IsTurn(cs, turns[j]))
    && (forall j, k :: 0 <= j < k < |turns| ==> turns[j].start < turns[k].start)
    && (forall s :: 0 <= s < |cs| && StartsPrompt(cs[s]) && TurnEnd(cs, s) < |cs| ==> exists j :: 0 <= j < |turns| && turns[j].start == s)
  }

  /** `starts` are the prompt starts before `n`, in order. */
  ghost predicate StartsBefore(cs: Contents, starts: seq<nat>, n: nat)
    requires n <= |cs|
  {
    && (forall k :: 0 <= k < |starts| ==> starts[k] < n && StartsPrompt(cs[starts[k]]))
    && (forall j, k :: 0 <= j < k < |starts| ==> starts[j] < starts[k])
    && (forall s :: 0 <= s < n && StartsPrompt(cs[s]) ==> s in starts)
  }

  method CompleteTurns(cs: Contents) returns (turns: seq<Turn>)
    ensures ListsTurns(cs, turns)
  {
    hide StartsPrompt, NextStart, Strip;
    var starts: seq<nat> := [];
    for i := 0 to |cs|
      invariant StartsBefore(cs, starts, i)
    {
      if StartsPrompt(cs[i]) {
        starts := starts + [i];
      }
    }
    turns := [];
    var index := 0;
    while index + 1 < |starts|
      invariant 0 <= index && |turns| == index && (|starts| > 0 ==> index < |starts|)
      invariant forall k :: 0 <= k < index ==> IsTurn(cs, turns[k]) && turns[k].start == starts[k]
    {
      ConsecutiveStarts(cs, starts, index);
      turns := turns + [Turn(starts[index], starts[index + 1], Strip(cs[starts[index]..starts[index + 1]]))];
      index := index + 1;
    }
    forall s | 0 <= s < |cs| && StartsPrompt(cs[s]) && TurnEnd(cs, s) < |cs|
      ensures exists j :: 0 <= j < |turns| && turns[j].start == s
    {
      NotLast(cs, starts, s);
      var k :| 0 <= k < |starts| - 1 && starts[k] == s;
      assert turns[k].start == s;
    }
  }

  lemma {:induction false} ConsecutiveStarts(cs: Contents, starts: seq<nat>, k: nat)
    requires k + 1 < |starts| && StartsBefore(cs, starts, |cs|)
    ensures TurnEnd(cs, starts[k]) == starts[k + 1] < |cs| && StartsPrompt(cs[starts[k]])
  {
    hide StartsPrompt;
    forall s | starts[k] + 1 <= s < starts[k + 1] ensures s !in starts {}
    NextStartIs(cs, starts[k] + 1, starts[k + 1]);
  }

  lemma {:induction false} NotLast(cs: Contents, starts: seq<nat>, s: nat)
    requires s < |cs| && StartsPrompt(cs[s]) && TurnEnd(cs, s) < |cs| && StartsBefore(cs, starts, |cs|)
    ensures exists k :: 0 <= k < |starts| - 1 && starts[k] == s
  {
    hide StartsPrompt;
    var e := TurnEnd(cs, s);
    NextStartIs(cs, s + 1, e);
    var k :| 0 <= k < |starts| && starts[k] == s;
    var j :| 0 <= j < |starts| && starts[j] == e;
    assert j > k;
  }

  lemma {:induction false} TurnDroppable(cfg: Config, cs: Contents, t: Turn)
    requires IsTurn(cs, t)
    ensures t.start <= t.end < |cs|
    ensures Droppable(cfg, cs, t.start) <==>
      && t.start != 0 && !(t.end > |cs| - cfg.keepRecent) && !ContainsPreserved(cs[t.start..t.end], cfg.preserve)
      && Closed(Marks(cs[..t.start]), Marks(cs[t.start..t.end]), Marks(cs[t.end..]))
  {
    hide Closed, ContainsPreserved, NextStart, StartsPrompt, TurnKey, Marks;
  }

  /** The first listed turn from `after` on that may be dropped. */
  method NextDroppableTurn(cfg: Config, cs: Contents, groups: seq<Turn>, after: nat) returns (found: Option<Turn>)
    requires ListsTurns(cs, groups) && after <= |cs|
    ensures found.None? ==> First(cfg, cs, after, Any) == |cs|
    ensures found.Some? ==> IsTurn(cs, found.value) && found.value.start == First(cfg, cs, after, Any)
  {
    hide Closed, ContainsPreserved, NextStart, StartsPrompt, Droppable, TurnKey, First, Marks;
    var cutoff := |cs| - cfg.keepRecent;
    if cutoff < 0 { cutoff := 0; }
    var index := 0;
    while index < |groups|
      invariant 0 <= index <= |groups|
      invariant forall j :: 0 <= j < index && after <= groups[j].start ==> !Droppable(cfg, cs, groups[j].start)
    {
      var group := groups[index];
      TurnDroppable(cfg, cs, group);
      if !(group.start < after || group.start == 0 || group.end > cutoff) && !ContainsPreserved(cs[group.start..group.end], cfg.preserve) {
        var contained := PairsContained(cs, group.start, group.end);
        if contained {
          FirstListed(cfg, cs, groups, after, index);
          return Some(group);
        }
      }
      index := index + 1;
    }
    NoneListed(cfg, cs, groups, after);
    return None;
  }

  lemma {:induction false} Listed(cfg: Config, cs: Contents, groups: seq<Turn>, s: nat)
    requires ListsTurns(cs, groups) && s < |cs| && Droppable(cfg, cs, s)
    ensures exists j :: 0 <= j < |groups| && groups[j].start == s
  {}

  lemma {:induction false} NoneListed(cfg: Config, cs: Contents, groups: seq<Turn>, after: nat)
    requires ListsTurns(cs, groups) && after <= |cs|
    requires forall j :: 0 <= j < |groups| && after <= groups[j].start ==> !Droppable(cfg, cs, groups[j].start)
    ensures First(cfg, cs, after, Any) == |cs|
  {
    hide Droppable, NextStart, StartsPrompt;
    var s := First(cfg, cs, after, Any);
    FirstIs(cfg, cs, after, Any, s);
    if s < |cs| {
      Listed(cfg, cs, groups, s);
    }
  }

  lemma {:induction false} FirstListed(cfg: Config, cs: Contents, groups: seq<Turn>, after: nat, index: nat)
    requires ListsTurns(cs, groups) && index < |groups|
    requires after <= groups[index].start && Droppable(cfg, cs, groups[index].start)
    requires forall j :: 0 <= j < index && after <= groups[j].start ==> !Droppable(cfg, cs, groups[j].start)
    ensures First(cfg, cs, after, Any) == groups[index].start
  {
    hide Droppable, NextStart, StartsPrompt;
    var s := First(cfg, cs, after, Any);
    assert IsTurn(cs, groups[index]);
    FirstIs(cfg, cs, after, Any, s);
    assert Takes(cfg, cs, groups[index].start, Any);
    Listed(cfg, cs, groups, s);
  }

  // ---------------------------------------------------------------------------------------------
  // The request and its durable state.
  // ---------------------------------------------------------------------------------------------

  class Request {
    var contents: Contents

    constructor (contents: Contents)
      ensures this.contents == contents
    {
      this.contents := contents;
    }
  }

  /** What the durable lists amount to: only how often each entry occurs is ever read. */
  datatype Memory = Memory(elided: multiset<ResponseKey>, dropped: multiset<Contents>, calibration: real)

  class DurableState {
    var elidedResponses: seq<ResponseKey>
    var droppedTurns: seq<Contents>
    var calibration: real

    constructor ()
      ensures Value() == Memory(multiset{}, multiset{}, 1.0)
    {
      elidedResponses, droppedTurns, calibration := [], [], 1.0;
    }

    ghost function Value(): Memory reads this {
      Memory(multiset(elidedResponses), multiset(droppedTurns), calibration)
    }
  }

  datatype PolicyResult = PolicyResult(tokens: nat, triggered: bool, exhausted: bool, stateChanged: bool)

  /** Splice out the first owed droppable turn until nothing is owed or nothing fits. */
  method ApplyStickyDrops(cfg: Config, request: Request, values: seq<Contents>) returns (changed: bool)
    modifies request
    ensures request.contents == Sticky(cfg, old(request.contents), multiset(values))
    ensures changed <==> |request.contents| < |old(request.contents)|
  {
    var remaining := multiset(values);
    changed := false;
    while remaining != multiset{}
      invariant Sticky(cfg, request.contents, remaining) == Sticky(cfg, old(request.contents), multiset(values))
      invariant if changed then |request.contents| < |old(request.contents)| else request.contents == old(request.contents)
      decreases |request.contents|
    {
      var cs := request.contents;
      var groups := CompleteTurns(cs);
      var candidate := NextOwedTurn(cfg, cs, groups, remaining);
      if candidate.None? {
        return;
      }
      var t := candidate.value;
      request.contents := cs[..t.start] + cs[t.end..];
      remaining := remaining - multiset{t.key};
      changed := true;
    }
    StickyNothing(cfg, request.contents);
  }

  /** Walk the droppable turns until one is owed. */
  method NextOwedTurn(cfg: Config, cs: Contents, groups: seq<Turn>, remaining: multiset<Contents>) returns (candidate: Option<Turn>)
    requires ListsTurns(cs, groups)
    ensures candidate.None? ==> First(cfg, cs, 0, Only(remaining)) == |cs|
    ensures candidate.Some? ==> IsTurn(cs, candidate.value) && candidate.value.start == First(cfg, cs, 0, Only(remaining))
  {
    hide Droppable, NextStart, StartsPrompt, ListsTurns, First;
    candidate := NextDroppableTurn(cfg, cs, groups, 0);
    ghost var from := 0;
    while candidate.Some?
      invariant 0 <= from <= |cs|
      invariant candidate.None? ==> First(cfg, cs, from, Any) == |cs|
      invariant candidate.Some? ==> IsTurn(cs, candidate.value) && candidate.value.start == First(cfg, cs, from, Any)
      invariant forall k :: 0 <= k < from ==> !Takes(cfg, cs, k, Only(remaining))
      decreases |cs| - from, candidate.Some?
    {
      var t := candidate.value;
      FirstIs(cfg, cs, from, Any, t.start);
      OnlyAfterAny(cfg, cs, from, t.start, remaining);
      if t.key in remaining {
        FirstIs(cfg, cs, 0, Only(remaining), t.start);
        return;
      }
      InsideTurn(cfg, cs, t.start);
      candidate := NextDroppableTurn(cfg, cs, groups, t.end);
      from := t.end;
    }
    FirstIs(cfg, cs, from, Any, |cs|);
    OnlyAfterAny(cfg, cs, from, |cs|, remaining);
    FirstIs(cfg, cs, 0, Only(remaining), |cs|);
  }

  lemma {:induction false} OnlyAfterAny(cfg: Config, cs: Contents, from: nat, to: nat, remaining: multiset<Contents>)
    requires from <= to <= |cs|
    requires forall k :: from <= k < to ==> !Takes(cfg, cs, k, Any)
    requires forall k :: 0 <= k < from ==> !Takes(cfg, cs, k, Only(remaining))
    ensures forall k :: 0 <= k < to ==> !Takes(cfg, cs, k, Only(remaining))
  {
    hide Droppable;
    forall k | 0 <= k < to ensures !Takes(cfg, cs, k, Only(remaining)) {
      if from <= k { assert !Takes(cfg, cs, k, Any); }
    }
  }

  /** No turn starts strictly inside a turn. */
  lemma {:induction false} InsideTurn(cfg: Config, cs: Contents, s: nat)
    requires s < |cs|
    ensures forall k :: s < k < TurnEnd(cs, s) ==> !Droppable(cfg, cs, k)
  {
    NextStartIs(cs, s + 1, TurnEnd(cs, s));
  }

  // ---------------------------------------------------------------------------------------------
  // Dropping to the target.
  // ---------------------------------------------------------------------------------------------

  /** How many turns go before the target is met or nothing droppable is left. */
  ghost function DropCount(cfg: Config, enc: Encoder, factor: real, target: int, cs: Contents): (n: nat)
    ensures CanDrop(cfg, cs, n)
    decreases |cs|
  {
    var s := First(cfg, cs, 0, Any);
    if Calibrated(Tokens(enc, cs), factor) <= target || s == |cs| then 0
    else 1 + DropCount(cfg, enc, factor, target, Cut(cs, s))
  }

  lemma {:induction false} DropCountStops(cfg: Config, enc: Encoder, factor: real, target: int, cs: Contents)
    ensures var out := DropFirst(cfg, cs, DropCount(cfg, enc, factor, target, cs));
      Calibrated(Tokens(enc, out), factor) <= target || First(cfg, out, 0, Any) == |out|
    decreases |cs|
  {
    hide Calibrated, Tokens, First, Cut;
    var s := First(cfg, cs, 0, Any);
    if !(Calibrated(Tokens(enc, cs), factor) <= target || s == |cs|) {
      DropCountStops(cfg, enc, factor, target, Cut(cs, s));
    }
  }

  method DropCompleteTurns(cfg: Config, enc: Encoder, state: DurableState, working: Request, tokens: nat, factor: real, target: int)
    returns (tokens': nat, changed: bool)
    requires tokens == Tokens(enc, working.contents)
    modifies state`droppedTurns, working
    ensures var cs, n := old(working.contents), DropCount(cfg, enc, factor, target, old(working.contents));
      && working.contents == DropFirst(cfg, cs, n)
      && state.droppedTurns == old(state.droppedTurns) + DroppedKeys(cfg, cs, n)
      && tokens' == Tokens(enc, working.contents)
      && (changed <==> n > 0)
  {
    hide Calibrated, Tokens, First, Droppable, NextStart;
    tokens', changed := tokens, false;
    ghost var cs := working.contents;
    ghost var n := 0;
    while Calibrated(tokens', factor) > target
      invariant CanDrop(cfg, cs, n) && working.contents == DropFirst(cfg, cs, n)
      invariant state.droppedTurns == old(state.droppedTurns) + DroppedKeys(cfg, cs, n)
      invariant tokens' == Tokens(enc, working.contents) && (changed <==> n > 0)
      invariant DropCount(cfg, enc, factor, target, cs) == n + DropCount(cfg, enc, factor, target, working.contents)
      decreases |working.contents|
    {
      var groups := CompleteTurns(working.contents);
      var candidate := NextDroppableTurn(cfg, working.contents, groups, 0);
      if candidate.None? {
        break;
      }
      var t := candidate.value;
      OneMoreDrop(cfg, cs, n);
      Assoc(old(state.droppedTurns), DroppedKeys(cfg, cs, n), [t.key]);
      working.contents := working.contents[..t.start] + working.contents[t.end..];
      tokens' := EstimateRequest(enc, working.contents);
      state.droppedTurns := state.droppedTurns + [t.key];
      changed := true;
      n := n + 1;
    }
  }

  lemma {:induction false} OneMoreDrop(cfg: Config, cs: Contents, n: nat)
    requires CanDrop(cfg, cs, n) && First(cfg, DropFirst(cfg, cs, n), 0, Any) < |DropFirst(cfg, cs, n)|
    ensures CanDrop(cfg, cs, n + 1)
    ensures var ds := DropFirst(cfg, cs, n); var s := First(cfg, ds, 0, Any);
      DropFirst(cfg, cs, n + 1) == Cut(ds, s) && DroppedKeys(cfg, cs, n + 1) == DroppedKeys(cfg, cs, n) + [TurnKey(ds, s)]
  {
    hide First, Cut, TurnKey;
    var ds := DropFirst(cfg, cs, n);
    var s := First(cfg, ds, 0, Any);
    assert CanDrop(cfg, Cut(ds, s), 0);
    assert CanDrop(cfg, ds, 1);
    DropMore(cfg, cs, n, 1);
    DropMoreKeys(cfg, cs, n, 1);
    assert DroppedKeys(cfg, Cut(ds, s), 0) == [];
    assert DropFirst(cfg, Cut(ds, s), 0) == Cut(ds, s);
  }

  // ---------------------------------------------------------------------------------------------
  // Eliding.
  // ---------------------------------------------------------------------------------------------

  method ElideResponses(cfg: Config, enc: Encoder, state: DurableState, working: Request, tokens: nat, factor: real, target: int)
    returns (tokens': nat, changed: bool)
    requires tokens == Tokens(enc, working.contents)
    modifies state`elidedResponses, working
    ensures var out := Elided(cfg, enc, factor, target, old(working.contents));
      && working.contents == out.contents
      && tokens' == out.tokens
      && state.elidedResponses == old(state.elidedResponses) + out.keys
      && (changed <==> out.keys != [])
    ensures Elides(cfg, enc, factor, target, old(working.contents), working.contents)
    ensures exists places ::
      && Changed(old(working.contents), working.contents, None, places)
      && state.elidedResponses == old(state.elidedResponses) + KeysOf(old(working.contents), places)
  {
    hide Calibrated, Tokens, SlotAt, ElideOne, EligibleEnd, Elides, Changed, KeysOf;
    var candidates := EligibleResponseCandidates(enc, working.contents, cfg.keepRecent);
    ghost var cs := working.contents;
    ghost var lo, hi := Min(1, |cs|), EligibleEnd(cs, cfg.keepRecent);
    ElidedElides(cfg, enc, factor, target, cs);
    ghost var places := ElidedKeys(cfg, enc, factor, target, cs);
    CandidatesFit(enc, cs, lo, hi);
    tokens', changed := tokens, false;
    ghost var keys := [];
    var i := 0;
    while i < |candidates|
      invariant 0 <= i <= |candidates|
      invariant AllFit(working.contents, lo, hi, candidates[i..])
      invariant ElideFrom(cfg, enc, factor, target, lo, hi, Elision(working.contents, tokens', keys), candidates[i..])
             == Elided(cfg, enc, factor, target, cs)
      invariant state.elidedResponses == old(state.elidedResponses) + keys
      invariant changed <==> keys != []
    {
      if Calibrated(tokens', factor) <= target { break; }
      var candidate := candidates[i];
      assert candidates[i..][0] == candidate && candidates[i..][1..] == candidates[i + 1..];
      assert Fits(working.contents, lo, hi, candidates[i..][0]);
      i := i + 1;
      if !(candidate.name in cfg.preserve || candidate.bodyTokens < cfg.minimumElision) {
        FitAfterElision(working.contents, lo, hi, candidates[i..], candidate);
        var next := ElideOne(working.contents, candidate);
        var nextTokens := EstimateRequest(enc, next);
        if nextTokens < tokens' {
          Assoc(old(state.elidedResponses), keys, [candidate.key]);
          state.elidedResponses := state.elidedResponses + [candidate.key];
          working.contents, tokens', changed := next, nextTokens, true;
          keys := keys + [candidate.key];
        }
      }
    }
  }

  method ApplyStickyElisions(cfg: Config, enc: Encoder, working: Request, values: seq<ResponseKey>) returns (changed: bool)
    modifies working
    ensures var out := ReElided(cfg, enc, multiset(values), old(working.contents));
      working.contents == out.contents && (changed <==> out.keys != [])
    ensures ElidesAgain(cfg, enc, multiset(values), old(working.contents), working.contents)
  {
    hide Tokens, SlotAt, ElideOne, EligibleEnd, ElidesAgain;
    var remaining := multiset(values);
    var candidates := EligibleResponseCandidates(enc, working.contents, cfg.keepRecent);
    var current := EstimateRequest(enc, working.contents);
    ghost var cs := working.contents;
    ghost var lo, hi := Min(1, |cs|), EligibleEnd(cs, cfg.keepRecent);
    ReElidedElidesAgain(cfg, enc, multiset(values), cs);
    CandidatesFit(enc, cs, lo, hi);
    ghost var keys := [];
    changed := false;
    assert candidates[0..] == candidates;
    for i := 0 to |candidates|
      invariant AllFit(working.contents, lo, hi, candidates[i..])
      invariant ReElideFrom(cfg, enc, remaining, lo, hi, Elision(working.contents, current, keys), candidates[i..])
             == ReElided(cfg, enc, multiset(values), cs)
      invariant changed <==> keys != []
    {
      var candidate := candidates[i];
      assert candidates[i..][0] == candidate && candidates[i..][1..] == candidates[i + 1..];
      assert Fits(working.contents, lo, hi, candidates[i..][0]);
      if !(candidate.name in cfg.preserve || candidate.key !in remaining) {
        FitAfterElision(working.contents, lo, hi, candidates[i + 1..], candidate);
        var next := ElideOne(working.contents, candidate);
        var nextTokens := EstimateRequest(enc, next);
        if nextTokens < current {
          working.contents, current, changed := next, nextTokens, true;
          remaining := remaining - multiset{candidate.key};
          keys := keys + [candidate.key];
        }
      }
    }
  }

  // ---------------------------------------------------------------------------------------------
  // One run.
  // ---------------------------------------------------------------------------------------------

  datatype Outcome = Outcome(contents: Contents, memory: Memory, result: PolicyResult)

  function Factor(cfg: Config, stored: real): real { if cfg.calibrate then stored else 1.0 }
  function Trigger(cfg: Config): int { (cfg.contextTokens as real * cfg.triggerFraction).Floor }
  function Target(cfg: Config): int { (cfg.contextTokens as real * cfg.targetFraction).Floor }
  function Normalized(calibration: real): real { if calibration <= 0.0 then 1.0 else calibration }
  ghost predicate HasSticky(m: Memory) { m.dropped != multiset{} || m.elided != multiset{} }

  /** The request after the recorded decisions were applied again. */
  ghost function Reapplied(cfg: Config, enc: Encoder, m: Memory, cs: Contents): Contents {
    if HasSticky(m) then ReElided(cfg, enc, m.elided, Sticky(cfg, cs, m.dropped)).contents else cs
  }

  /** Fresh decisions on top of the reapplied ones. */
  ghost function Decided(cfg: Config, enc: Encoder, m: Memory, cs: Contents): Outcome {
    var factor, target := Factor(cfg, m.calibration), Target(cfg);
    var elision := Elided(cfg, enc, factor, target, cs);
    var n := DropCount(cfg, enc, factor, target, elision.contents);
    var out := DropFirst(cfg, elision.contents, n);
    Outcome(out,
            Memory(m.elided + multiset(elision.keys), m.dropped + multiset(DroppedKeys(cfg, elision.contents, n)), m.calibration),
            PolicyResult(Tokens(enc, out), true, Calibrated(Tokens(enc, out), factor) > target, elision.keys != [] || n > 0))
  }

  ghost function PolicyStep(cfg: Config, enc: Encoder, m0: Memory, cs: Contents): Outcome {
    var m := m0.(calibration := Normalized(m0.calibration));
    var factor := Factor(cfg, m.calibration);
    var ds := Reapplied(cfg, enc, m, cs);
    if Calibrated(Tokens(enc, ds), factor) < Trigger(cfg)
    then Outcome(ds, m, PolicyResult(Tokens(enc, ds), false, false, false))
    else Decided(cfg, enc, m, ds)
  }

  method ApplyPolicy(cfg: Config, enc: Encoder, state: DurableState, request: Request) returns (result: PolicyResult)
    modifies state, request
    ensures Outcome(request.contents, state.Value(), result) == PolicyStep(cfg, enc, old(state.Value()), old(request.contents))
  {
    hide Tokens, Calibrated, Sticky, ReElided, Decided, Trigger, Target;
    state.calibration := Normalized(state.calibration);
    var tokens := EstimateRequest(enc, request.contents);
    var factor := Factor(cfg, state.calibration);
    var trigger := Trigger(cfg);
    var sticky := |state.droppedTurns| > 0 || |state.elidedResponses| > 0;
    EmptyLists(state.droppedTurns);
    EmptyLists(state.elidedResponses);
    if !sticky && Calibrated(tokens, factor) < trigger {
      return PolicyResult(tokens, false, false, false);
    }
    var working := new Request(request.contents);
    if sticky {
      var dropped := ApplyStickyDrops(cfg, working, state.droppedTurns);
      var elided := ApplyStickyElisions(cfg, enc, working, state.elidedResponses);
      tokens := EstimateRequest(enc, working.contents);
    }
    if Calibrated(tokens, factor) < trigger {
      request.contents := working.contents;
      return PolicyResult(tokens, false, false, false);
    }
    result := Decide(cfg, enc, state, working, tokens);
    request.contents := working.contents;
  }

  method Decide(cfg: Config, enc: Encoder, state: DurableState, working: Request, tokens: nat) returns (result: PolicyResult)
    requires tokens == Tokens(enc, working.contents)
    modifies state, working
    ensures Outcome(working.contents, state.Value(), result) == Decided(cfg, enc, old(state.Value()), old(working.contents))
  {
    hide Tokens, Calibrated, Elided, DropCount, Target;
    var factor, target := Factor(cfg, state.calibration), Target(cfg);
    ElidedTokens(cfg, enc, factor, target, working.contents);
    var tokens1, elided := ElideResponses(cfg, enc, state, working, tokens, factor, target);
    var tokens2, dropped := DropCompleteTurns(cfg, enc, state, working, tokens1, factor, target);
    result := PolicyResult(tokens2, true, Calibrated(tokens2, factor) > target, elided || dropped);
  }

  lemma {:induction false} EmptyLists<T>(s: seq<T>)
    ensures |s| > 0 <==> multiset(s) != multiset{}
  {
    if |s| > 0 { assert s[0] in multiset(s); }
  }

  lemma {:induction false} ElidedTokens(cfg: Config, enc: Encoder, factor: real, target: int, cs: Contents)
    ensures Elided(cfg, enc, factor, target, cs).tokens == Tokens(enc, Elided(cfg, enc, factor, target, cs).contents)
  {
    hide Tokens, Calibrated;
    ElidedSound(cfg, enc, factor, target, cs);
  }

  lemma {:induction false} ElidedSound(cfg: Config, enc: Encoder, factor: real, target: int, cs: Contents)
    ensures Sound(enc, Elision(cs, Tokens(enc, cs), []), Elided(cfg, enc, factor, target, cs),
                  Min(1, |cs|), EligibleEnd(cs, cfg.keepRecent), cfg.preserve)
  {
    hide Tokens, Calibrated, Sound;
    CandidatesFit(enc, cs, Min(1, |cs|), EligibleEnd(cs, cfg.keepRecent));
    CandidatesLabelled(enc, cs, Min(1, |cs|), EligibleEnd(cs, cfg.keepRecent));
    ElideFromSound(cfg, enc, factor, target, Min(1, |cs|), EligibleEnd(cs, cfg.keepRecent),
                   Elision(cs, Tokens(enc, cs), []), Eligible(enc, cs, cfg.keepRecent));
  }

  lemma {:induction false} ReElidedSound(cfg: Config, enc: Encoder, owed: multiset<ResponseKey>, cs: Contents)
    ensures Sound(enc, Elision(cs, Tokens(enc, cs), []), ReElided(cfg, enc, owed, cs),
                  Min(1, |cs|), EligibleEnd(cs, cfg.keepRecent), cfg.preserve)
  {
    hide Tokens, Sound;
    CandidatesFit(enc, cs, Min(1, |cs|), EligibleEnd(cs, cfg.keepRecent));
    CandidatesLabelled(enc, cs, Min(1, |cs|), EligibleEnd(cs, cfg.keepRecent));
    ReElideFromSound(cfg, enc, owed, Min(1, |cs|), EligibleEnd(cs, cfg.keepRecent),
                     Elision(cs, Tokens(enc, cs), []), Eligible(enc, cs, cfg.keepRecent));
  }
}
