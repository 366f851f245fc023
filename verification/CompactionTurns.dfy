/**
 Complete turns, which of them may be dropped, and what dropping them one at a time amounts to: although
 pairing is recomputed after every drop, the result is one scan over the original history.
 */
module CompactionTurns {
  import opened Wrappers
  import opened Sequences
  import opened CompactionContents
  import opened CompactionPairs

  datatype Config = Config(
    contextTokens: int,
    triggerFraction: real,
    targetFraction: real,
    keepRecent: int,
    minimumElision: int,
    preserve: set<string>,
    calibrate: bool)

  predicate StartsPrompt(c: Option<Content>) {
    && c.Some? && c.value.role == "user"
    && forall k :: 0 <= k < |c.value.parts| && c.value.parts[k].Some? ==>
         c.value.parts[k].value.response.None? && c.value.parts[k].value.toolResponse.None?
  }

  /** A part counts by the first of its four slots that is filled. */
  predicate PartPreserved(part: Option<Part>, preserve: set<string>) {
    part.Some? &&
      var p := part.value;
      if p.call.Some? then p.call.value.name in preserve
      else if p.response.Some? then p.response.value.name in preserve
      else if p.toolCall.Some? then p.toolCall.value.name in preserve
      else p.toolResponse.Some? && p.toolResponse.value.name in preserve
  }

  predicate ContentPreserved(c: Option<Content>, preserve: set<string>) {
    c.Some? && exists k :: 0 <= k < |c.value.parts| && PartPreserved(c.value.parts[k], preserve)
  }

  predicate ContainsPreserved(cs: Contents, preserve: set<string>) {
    exists k :: 0 <= k < |cs| && ContentPreserved(cs[k], preserve)
  }

  /** The first prompt start at or after `i`. */
  function NextStart(cs: Contents, i: nat): (e: nat)
    requires i <= |cs|
    ensures i <= e <= |cs|
    decreases |cs| - i
  {
    if i == |cs| then i else if StartsPrompt(cs[i]) then i else NextStart(cs, i + 1)
  }

  lemma {:induction false} NextStartIs(cs: Contents, i: nat, e: nat)
    requires i <= e <= |cs|
    ensures NextStart(cs, i) == e <==>
      (e < |cs| ==> StartsPrompt(cs[e])) && forall k :: i <= k < e ==> !StartsPrompt(cs[k])
    decreases |cs| - i
  {
    if i < |cs| && !StartsPrompt(cs[i]) && i < e {
      NextStartIs(cs, i + 1, e);
    }
  }

  function TurnEnd(cs: Contents, s: nat): nat
    requires s < |cs|
  {
    NextStart(cs, s + 1)
  }

  /** Everything a turn's fingerprint covers: the turn with its response bodies erased. */
  function TurnKey(cs: Contents, s: nat): Contents
    requires s < |cs|
  {
    Strip(cs[s..TurnEnd(cs, s)])
  }

  function Cut(cs: Contents, s: nat): (ds: Contents)
    requires s < |cs|
    ensures |ds| < |cs|
  {
    cs[..s] + cs[TurnEnd(cs, s)..]
  }

  /** `turn` may go from between `pre` and `post`. */
  ghost predicate Detachable(cfg: Config, pre: Contents, turn: Contents, post: Contents) {
    && cfg.keepRecent <= |post|
    && !ContainsPreserved(turn, cfg.preserve)
    && Closed(Marks(pre), Marks(turn), Marks(post))
  }

  /** A complete turn starts at `s` and may be dropped. */
  ghost predicate Droppable(cfg: Config, cs: Contents, s: nat) {
    && 0 < s < |cs| && StartsPrompt(cs[s])
    && var e := TurnEnd(cs, s);
       e < |cs| && Detachable(cfg, cs[..s], cs[s..e], cs[e..])
  }

  datatype Wanted = Any | Only(keys: multiset<Contents>) {
    predicate Accepts(key: Contents) { Any? || key in keys }
  }

  ghost predicate Takes(cfg: Config, cs: Contents, s: nat, w: Wanted) {
    Droppable(cfg, cs, s) && w.Accepts(TurnKey(cs, s))
  }

  /** The least droppable and wanted start from `from` on; |cs| when there is none. */
  ghost function First(cfg: Config, cs: Contents, from: nat, w: Wanted): (s: nat)
    requires from <= |cs|
    ensures from <= s <= |cs|
    decreases |cs| - from
  {
    if from == |cs| || Takes(cfg, cs, from, w) then from else First(cfg, cs, from + 1, w)
  }

  lemma {:induction false} FirstIs(cfg: Config, cs: Contents, from: nat, w: Wanted, s: nat)
    requires from <= s <= |cs|
    ensures First(cfg, cs, from, w) == s <==>
      (s < |cs| ==> Takes(cfg, cs, s, w)) && forall k :: from <= k < s ==> !Takes(cfg, cs, k, w)
    decreases |cs| - from
  {
    hide Takes;
    if from < |cs| && !Takes(cfg, cs, from, w) && from < s {
      FirstIs(cfg, cs, from + 1, w, s);
    }
  }

  lemma {:induction false} FirstDroppable(cfg: Config, cs: Contents)
    ensures var s := First(cfg, cs, 0, Any);
      (s < |cs| ==> Droppable(cfg, cs, s)) && forall k :: 0 <= k < s ==> !Droppable(cfg, cs, k)
  {
    hide Droppable;
    var s := First(cfg, cs, 0, Any);
    FirstIs(cfg, cs, 0, Any, s);
    forall k | 0 <= k < s ensures !Droppable(cfg, cs, k) { assert !Takes(cfg, cs, k, Any); }
  }

  // ---------------------------------------------------------------------------------------------
  // Dropping the first n droppable turns, one at a time.
  // ---------------------------------------------------------------------------------------------

  ghost predicate CanDrop(cfg: Config, cs: Contents, n: nat)
    decreases n
  {
    n == 0 ||
      var s := First(cfg, cs, 0, Any);
      s < |cs| && CanDrop(cfg, Cut(cs, s), n - 1)
  }

  ghost function DropFirst(cfg: Config, cs: Contents, n: nat): Contents
    requires CanDrop(cfg, cs, n)
    decreases n
  {
    if n == 0 then cs else DropFirst(cfg, Cut(cs, First(cfg, cs, 0, Any)), n - 1)
  }

  ghost function DroppedKeys(cfg: Config, cs: Contents, n: nat): seq<Contents>
    requires CanDrop(cfg, cs, n)
    decreases n
  {
    if n == 0 then [] else
      var s := First(cfg, cs, 0, Any);
      [TurnKey(cs, s)] + DroppedKeys(cfg, Cut(cs, s), n - 1)
  }

  ghost function DroppedMarks(cfg: Config, cs: Contents, n: nat): seq<Mark>
    requires CanDrop(cfg, cs, n)
    decreases n
  {
    if n == 0 then [] else
      var s := First(cfg, cs, 0, Any);
      Marks(cs[s..TurnEnd(cs, s)]) + DroppedMarks(cfg, Cut(cs, s), n - 1)
  }

  lemma {:induction false} DropMore(cfg: Config, cs: Contents, n: nat, m: nat)
    requires CanDrop(cfg, cs, n)
    ensures CanDrop(cfg, cs, n + m) <==> CanDrop(cfg, DropFirst(cfg, cs, n), m)
    ensures CanDrop(cfg, cs, n + m) ==> DropFirst(cfg, cs, n + m) == DropFirst(cfg, DropFirst(cfg, cs, n), m)
    decreases n
  {
    hide First, Cut;
    if n > 0 {
      var ds := Cut(cs, First(cfg, cs, 0, Any));
      DropMore(cfg, ds, n - 1, m);
      assert CanDrop(cfg, cs, n + m) <==> CanDrop(cfg, ds, n - 1 + m);
    }
  }

  lemma {:induction false} DropMoreKeys(cfg: Config, cs: Contents, n: nat, m: nat)
    requires CanDrop(cfg, cs, n) && CanDrop(cfg, DropFirst(cfg, cs, n), m) && CanDrop(cfg, cs, n + m)
    ensures DroppedKeys(cfg, cs, n + m) == DroppedKeys(cfg, cs, n) + DroppedKeys(cfg, DropFirst(cfg, cs, n), m)
    decreases n
  {
    hide First, Cut, TurnKey;
    if n > 0 {
      var s := First(cfg, cs, 0, Any);
      var ds := Cut(cs, s);
      DropMoreKeys(cfg, ds, n - 1, m);
      Assoc([TurnKey(cs, s)], DroppedKeys(cfg, ds, n - 1), DroppedKeys(cfg, DropFirst(cfg, ds, n - 1), m));
    }
  }

  // ---------------------------------------------------------------------------------------------
  // Shape invariance: everything above ignores response bodies.
  // ---------------------------------------------------------------------------------------------

  lemma {:induction false} SameShapeAt(cs: Contents, ds: Contents, k: nat)
    requires SameShape(cs, ds) && k < |cs|
    ensures |cs| == |ds|
    ensures StartsPrompt(cs[k]) <==> StartsPrompt(ds[k])
    ensures forall preserve: set<string> :: ContentPreserved(cs[k], preserve) <==> ContentPreserved(ds[k], preserve)
  {
    assert |Strip(cs)| == |Strip(ds)|;
    assert Strip(cs)[k] == Strip(ds)[k];
    SameShapeContent(cs[k], ds[k]);
    if cs[k].Some? {
      var ps, qs := cs[k].value.parts, ds[k].value.parts;
      forall i, preserve: set<string> | 0 <= i < |ps|
        ensures PartPreserved(ps[i], preserve) <==> PartPreserved(qs[i], preserve)
        ensures ps[i].Some? <==> qs[i].Some?
        ensures ps[i].Some? ==> (ps[i].value.response.None? <==> qs[i].value.response.None?)
        ensures ps[i].Some? ==> (ps[i].value.toolResponse.None? <==> qs[i].value.toolResponse.None?)
      {
        assert StripPart(ps[i]) == StripPart(qs[i]);
      }
    }
  }

  lemma {:induction false} SameShapeNextStart(cs: Contents, ds: Contents, i: nat)
    requires SameShape(cs, ds) && i <= |cs| == |ds|
    ensures NextStart(cs, i) == NextStart(ds, i)
    decreases |cs| - i
  {
    if i < |cs| {
      SameShapeAt(cs, ds, i);
      SameShapeNextStart(cs, ds, i + 1);
    }
  }

  lemma {:induction false} SameShapeSlice(cs: Contents, ds: Contents, s: nat, e: nat)
    requires SameShape(cs, ds) && s <= e <= |cs|
    ensures |cs| == |ds| && SameShape(cs[s..e], ds[s..e])
  {
    assert |Strip(cs)| == |Strip(ds)|;
    StripSlices(cs, s, e);
    StripSlices(ds, s, e);
  }

  lemma {:induction false} SameShapeDroppable(cfg: Config, cs: Contents, ds: Contents, s: nat)
    requires SameShape(cs, ds)
    ensures Droppable(cfg, cs, s) <==> Droppable(cfg, ds, s)
    ensures s < |cs| ==> s < |ds| && TurnKey(cs, s) == TurnKey(ds, s) && SameShape(Cut(cs, s), Cut(ds, s))
  {
    hide Closed, Marks, NextStart;
    assert |Strip(cs)| == |Strip(ds)|;
    if s < |cs| {
      SameShapeAt(cs, ds, s);
      SameShapeNextStart(cs, ds, s + 1);
      var e := TurnEnd(cs, s);
      SameShapeSlice(cs, ds, 0, s);
      SameShapeSlice(cs, ds, s, e);
      SameShapeSlice(cs, ds, e, |cs|);
      assert cs[0..s] == cs[..s] && ds[0..s] == ds[..s] && cs[e..|cs|] == cs[e..] && ds[e..|ds|] == ds[e..];
      SameShapeMarks(cs[..s], ds[..s]);
      SameShapeMarks(cs[s..e], ds[s..e]);
      SameShapeMarks(cs[e..], ds[e..]);
      StripAppend(cs[..s], cs[e..]);
      StripAppend(ds[..s], ds[e..]);
      forall k | 0 <= k < e - s
        ensures ContentPreserved(cs[s..e][k], cfg.preserve) <==> ContentPreserved(ds[s..e][k], cfg.preserve)
      {
        SameShapeAt(cs[s..e], ds[s..e], k);
      }
    }
  }

  lemma {:induction false} SameShapeFirst(cfg: Config, cs: Contents, ds: Contents, from: nat, w: Wanted)
    requires SameShape(cs, ds) && from <= |cs|
    ensures |cs| == |ds| && First(cfg, cs, from, w) == First(cfg, ds, from, w)
    decreases |cs| - from
  {
    assert |Strip(cs)| == |Strip(ds)|;
    if from < |cs| {
      SameShapeDroppable(cfg, cs, ds, from);
      SameShapeFirst(cfg, cs, ds, from + 1, w);
    }
  }

  lemma {:induction false} SameShapeDrops(cfg: Config, cs: Contents, ds: Contents, n: nat)
    requires SameShape(cs, ds)
    ensures CanDrop(cfg, cs, n) <==> CanDrop(cfg, ds, n)
    ensures CanDrop(cfg, cs, n) ==>
      SameShape(DropFirst(cfg, cs, n), DropFirst(cfg, ds, n)) && DroppedKeys(cfg, cs, n) == DroppedKeys(cfg, ds, n)
    decreases n
  {
    if n > 0 {
      SameShapeFirst(cfg, cs, ds, 0, Any);
      var s := First(cfg, cs, 0, Any);
      if s < |cs| {
        SameShapeDroppable(cfg, cs, ds, s);
        SameShapeDrops(cfg, Cut(cs, s), Cut(ds, s), n - 1);
      }
    }
  }

  // ---------------------------------------------------------------------------------------------
  // Droppability of the other turns does not change when a droppable turn is cut out.
  // ---------------------------------------------------------------------------------------------

  lemma {:induction false} MarksThree(a: Contents, b: Contents, c: Contents)
    ensures Marks(a + b + c) == Marks(a) + Marks(b) + Marks(c)
  {
    MarksAppend(a + b, c);
    MarksAppend(a, b);
  }

  lemma {:induction false} DetachableBefore(cfg: Config, pre: Contents, turn: Contents, between: Contents, gone: Contents, post: Contents)
    requires Detachable(cfg, pre + turn + between, gone, post)
    ensures Detachable(cfg, pre, turn, between + gone + post) <==> Detachable(cfg, pre, turn, between + post)
  {
    MarksThree(pre, turn, between);
    MarksThree(between, gone, post);
    MarksAppend(between, post);
    ClosedBeforeLaterDrop(Marks(pre), Marks(turn), Marks(between), Marks(gone), Marks(post));
  }

  lemma {:induction false} DetachableAfter(cfg: Config, pre: Contents, gone: Contents, between: Contents, turn: Contents, post: Contents)
    requires Detachable(cfg, pre, gone, between + turn + post)
    ensures Detachable(cfg, pre + gone + between, turn, post) <==> Detachable(cfg, pre + between, turn, post)
  {
    MarksThree(pre, gone, between);
    MarksThree(between, turn, post);
    MarksAppend(pre, between);
    ClosedAfterEarlierDrop(Marks(pre), Marks(gone), Marks(between), Marks(turn), Marks(post));
  }

  /** Where a turn ends when a later turn is cut out, and when an earlier one is. */
  lemma {:induction false} TurnEndAfterCut(cs: Contents, s: nat, t: nat)
    requires s < |cs| && StartsPrompt(cs[s]) && TurnEnd(cs, s) < |cs| && t < |cs|
    ensures t < s ==> TurnEnd(cs, t) <= s && TurnEnd(Cut(cs, s), t) == TurnEnd(cs, t)
    ensures TurnEnd(cs, s) <= t ==> TurnEnd(Cut(cs, s), t - (TurnEnd(cs, s) - s)) == TurnEnd(cs, t) - (TurnEnd(cs, s) - s)
  {
    var e, ds, b := TurnEnd(cs, s), Cut(cs, s), TurnEnd(cs, t);
    NextStartIs(cs, s + 1, e);
    NextStartIs(cs, t + 1, b);
    if t < s {
      forall k | 0 <= k < s ensures ds[k] == cs[k] {}
      assert ds[s] == cs[e];
      NextStartIs(ds, t + 1, b);
    } else if e <= t {
      forall k | s <= k < |ds| ensures ds[k] == cs[k + (e - s)] {}
      NextStartIs(ds, t - (e - s) + 1, b - (e - s));
    }
  }

  /** Earlier turns: same start, same verdict. */
  lemma {:induction false} DroppableBefore(cfg: Config, cs: Contents, s: nat, t: nat)
    requires Droppable(cfg, cs, s) && t < s
    ensures Droppable(cfg, cs, t) <==> Droppable(cfg, Cut(cs, s), t)
  {
    hide NextStart, StartsPrompt, Detachable;
    var e, ds, b := TurnEnd(cs, s), Cut(cs, s), TurnEnd(cs, t);
    TurnEndAfterCut(cs, s, t);
    SlicesAroundCut(cs, s, e, t, b);
    assert ds[t] == cs[t];
    DetachableBefore(cfg, cs[..t], cs[t..b], cs[b..s], cs[s..e], cs[e..]);
  }

  /** Later turns: shifted start, same verdict. */
  lemma {:induction false} DroppableAfter(cfg: Config, cs: Contents, s: nat, t: nat)
    requires Droppable(cfg, cs, s) && TurnEnd(cs, s) <= t < |cs|
    ensures Droppable(cfg, cs, t) <==> Droppable(cfg, Cut(cs, s), t - (TurnEnd(cs, s) - s))
    ensures TurnEnd(Cut(cs, s), t - (TurnEnd(cs, s) - s)) == TurnEnd(cs, t) - (TurnEnd(cs, s) - s)
  {
    hide NextStart, StartsPrompt, Detachable;
    var e, ds, b := TurnEnd(cs, s), Cut(cs, s), TurnEnd(cs, t);
    TurnEndAfterCut(cs, s, t);
    SlicesAroundCut(cs, s, e, t, b);
    assert ds[t - (e - s)] == cs[t];
    DetachableAfter(cfg, cs[..s], cs[s..e], cs[e..t], cs[t..b], cs[b..]);
  }

  /**
   Cutting a droppable turn pairs every surviving call and response exactly as before, unnamed ones included,
   although their occurrence numbers are counted anew.
   */
  lemma {:induction false} CutKeepsMatching(cfg: Config, cs: Contents, s: nat, i: nat, j: nat)
    requires s < |cs| && Droppable(cfg, cs, s)
    requires i < |Marks(Cut(cs, s))| && j < |Marks(Cut(cs, s))|
    requires Marks(Cut(cs, s))[i].side == CallSide && Marks(Cut(cs, s))[j].side == ResponseSide
    ensures var at, gone := |Marks(cs[..s])|, |Marks(cs[s..TurnEnd(cs, s)])|;
      && Lift(i, at, gone) < |Marks(cs)| && Lift(j, at, gone) < |Marks(cs)|
      && Marks(cs)[Lift(i, at, gone)] == Marks(Cut(cs, s))[i]
      && Marks(cs)[Lift(j, at, gone)] == Marks(Cut(cs, s))[j]
      && (KeyAt(Marks(Cut(cs, s)), i) == KeyAt(Marks(Cut(cs, s)), j) <==>
            KeyAt(Marks(cs), Lift(i, at, gone)) == KeyAt(Marks(cs), Lift(j, at, gone)))
  {
    hide NextStart, StartsPrompt, ContainsPreserved, Closed, Marks, KeyAt;
    var e := TurnEnd(cs, s);
    ThreePieces(cs, s, e);
    MarksThree(cs[..s], cs[s..e], cs[e..]);
    MarksAppend(cs[..s], cs[e..]);
    MatchingSurvivesDrop(Marks(cs[..s]), Marks(cs[s..e]), Marks(cs[e..]), i, j);
  }

  // ---------------------------------------------------------------------------------------------
  // One scan over the original history.
  // ---------------------------------------------------------------------------------------------

  /** Copies the history from `k` on, skipping the next `n` droppable turns; droppability is that of the whole `cs`. */
  ghost function Scan(cfg: Config, cs: Contents, k: nat, n: nat): Contents
    requires k <= |cs|
    decreases |cs| - k
  {
    if k == |cs| then []
    else if n > 0 && Droppable(cfg, cs, k) then Scan(cfg, cs, TurnEnd(cs, k), n - 1)
    else [cs[k]] + Scan(cfg, cs, k + 1, n)
  }

  lemma {:induction false} ScanCopies(cfg: Config, cs: Contents, k: nat, s: nat, n: nat)
    requires k <= s <= |cs|
    requires forall i :: k <= i < s ==> !Droppable(cfg, cs, i)
    ensures Scan(cfg, cs, k, n) == cs[k..s] + Scan(cfg, cs, s, n)
    decreases s - k
  {
    hide Droppable;
    if k < s {
      ScanCopies(cfg, cs, k + 1, s, n);
      assert cs[k..s] == [cs[k]] + cs[k + 1..s];
    }
  }

  lemma {:induction false} ScanAfterCut(cfg: Config, cs: Contents, s: nat, k: nat, n: nat)
    requires s < |cs| && Droppable(cfg, cs, s) && TurnEnd(cs, s) <= k <= |cs|
    ensures Scan(cfg, Cut(cs, s), k - (TurnEnd(cs, s) - s), n) == Scan(cfg, cs, k, n)
    decreases |cs| - k
  {
    hide Droppable, NextStart, StartsPrompt;
    var w := TurnEnd(cs, s) - s;
    if k < |cs| {
      DroppableAfter(cfg, cs, s, k);
      assert Cut(cs, s)[k - w] == cs[k];
      if n > 0 && Droppable(cfg, cs, k) {
        ScanAfterCut(cfg, cs, s, TurnEnd(cs, k), n - 1);
      } else {
        ScanAfterCut(cfg, cs, s, k + 1, n);
      }
    }
  }

  /** Skipping the first droppable turn is scanning the history without it, although its pairing was recomputed. */
  lemma {:induction false} ScanStep(cfg: Config, cs: Contents, s: nat, n: nat)
    requires s < |cs| && Droppable(cfg, cs, s) && n > 0
    requires forall i :: 0 <= i < s ==> !Droppable(cfg, cs, i)
    ensures Scan(cfg, cs, 0, n) == Scan(cfg, Cut(cs, s), 0, n - 1)
  {
    hide Droppable, NextStart;
    var ds := Cut(cs, s);
    forall i | 0 <= i < s ensures !Droppable(cfg, ds, i) { DroppableBefore(cfg, cs, s, i); }
    ScanCopies(cfg, ds, 0, s, n - 1);
    assert ds[0..s] == cs[0..s];
    ScanAfterCut(cfg, cs, s, TurnEnd(cs, s), n - 1);
    ScanCopies(cfg, cs, 0, s, n);
  }

  /** Repeatedly dropping the first droppable turn equals skipping the first n droppable turns in one scan. */
  lemma {:induction false} DropFirstIsScan(cfg: Config, cs: Contents, n: nat)
    requires CanDrop(cfg, cs, n)
    ensures DropFirst(cfg, cs, n) == Scan(cfg, cs, 0, n)
    decreases n
  {
    hide Droppable, First, Scan, Cut;
    if n == 0 {
      ScanNone(cfg, cs, 0);
    } else {
      var s := First(cfg, cs, 0, Any);
      FirstDroppable(cfg, cs);
      ScanStep(cfg, cs, s, n);
      DropFirstIsScan(cfg, Cut(cs, s), n - 1);
    }
  }

  lemma {:induction false} ScanNone(cfg: Config, cs: Contents, k: nat)
    requires k <= |cs|
    ensures Scan(cfg, cs, k, 0) == cs[k..]
    decreases |cs| - k
  {
    if k < |cs| { ScanNone(cfg, cs, k + 1); }
  }

  // ---------------------------------------------------------------------------------------------
  // What always survives.
  // ---------------------------------------------------------------------------------------------

  function PreservedContents(cs: Contents, preserve: set<string>): Contents {
    if cs == [] then [] else
      PreservedContents(cs[..|cs| - 1], preserve) + (if ContentPreserved(cs[|cs| - 1], preserve) then [cs[|cs| - 1]] else [])
  }

  lemma {:induction false} PreservedAppend(cs: Contents, ds: Contents, preserve: set<string>)
    ensures PreservedContents(cs + ds, preserve) == PreservedContents(cs, preserve) + PreservedContents(ds, preserve)
  {
    if ds == [] {
      assert cs + ds == cs;
    } else {
      assert (cs + ds)[..|cs + ds| - 1] == cs + ds[..|ds| - 1];
      PreservedAppend(cs, ds[..|ds| - 1], preserve);
    }
  }

  lemma {:induction false} PreservedNone(cs: Contents, preserve: set<string>)
    requires !ContainsPreserved(cs, preserve)
    ensures PreservedContents(cs, preserve) == []
  {
    if cs != [] {
      var init := cs[..|cs| - 1];
      forall k | 0 <= k < |init| ensures !ContentPreserved(init[k], preserve) {
        assert init[k] == cs[k];
      }
      PreservedNone(init, preserve);
    }
  }

  /** Where the last prompt turn starts; |cs| without any prompt. */
  function LastStart(cs: Contents, k: nat): (s: nat)
    requires k <= |cs|
    ensures s < |cs| ==> s < k && StartsPrompt(cs[s]) && forall i :: s < i < k ==> !StartsPrompt(cs[i])
    ensures s >= |cs| ==> s == |cs| && forall i :: 0 <= i < k ==> !StartsPrompt(cs[i])
  {
    if k == 0 then |cs| else if StartsPrompt(cs[k - 1]) then k - 1 else LastStart(cs, k - 1)
  }

  /** The last prompt with everything after it. */
  function ActiveTurn(cs: Contents): Contents { cs[LastStart(cs, |cs|)..] }

  /** The last `k` contents. */
  function Recent(cs: Contents, k: nat): Contents
    requires k <= |cs|
  {
    cs[|cs| - k..]
  }

  lemma {:induction false} CutSparesEdges(cfg: Config, cs: Contents, s: nat, k: nat)
    requires s < |cs| && Droppable(cfg, cs, s)
    requires k <= |cs| && k <= cfg.keepRecent
    ensures var ds := Cut(cs, s); ds != [] && ds[0] == cs[0] && k <= |ds| && Recent(ds, k) == Recent(cs, k)
  {
    hide NextStart, StartsPrompt, Closed, ContainsPreserved;
    SlicesAroundCut(cs, s, TurnEnd(cs, s), |cs| - k, |cs|);
  }

  lemma {:induction false} CutSparesActive(cs: Contents, s: nat)
    requires s < |cs| && TurnEnd(cs, s) < |cs|
    ensures ActiveTurn(Cut(cs, s)) == ActiveTurn(cs)
  {
    hide NextStart, LastStart;
    LastStartAfterCut(cs, s);
    SlicesAroundCut(cs, s, TurnEnd(cs, s), LastStart(cs, |cs|), |cs|);
  }

  lemma {:induction false} PreservedAfterCut(a: Contents, gone: Contents, b: Contents, preserve: set<string>)
    requires !ContainsPreserved(gone, preserve)
    ensures PreservedContents(a + b, preserve) == PreservedContents(a + gone + b, preserve)
  {
    hide ContainsPreserved, PreservedContents;
    PreservedAppend(a + gone, b, preserve);
    PreservedAppend(a, gone, preserve);
    PreservedAppend(a, b, preserve);
    PreservedNone(gone, preserve);
  }

  lemma {:induction false} CutSparesPreserved(cfg: Config, cs: Contents, s: nat)
    requires s < |cs| && Droppable(cfg, cs, s)
    ensures PreservedContents(Cut(cs, s), cfg.preserve) == PreservedContents(cs, cfg.preserve)
  {
    hide Droppable, ContainsPreserved, PreservedContents, NextStart;
    var e := TurnEnd(cs, s);
    DroppableEnds(cfg, cs, s);
    ThreePieces(cs, s, e);
    PreservedAfterCut(cs[..s], cs[s..e], cs[e..], cfg.preserve);
  }

  /** `ds` is what is left of `cs` when droppable turns are cut out one after another, at `starts`. */
  ghost predicate CutsTo(cfg: Config, cs: Contents, starts: seq<nat>, ds: Contents)
    decreases |starts|
  {
    if starts == [] then cs == ds
    else starts[0] < |cs| && Droppable(cfg, cs, starts[0]) && CutsTo(cfg, Cut(cs, starts[0]), starts[1..], ds)
  }

  /** Content zero, the recent window, the active turn and every content with a preserved tool stay, however many turns are cut. */
  lemma {:induction false} CutsSpare(cfg: Config, cs: Contents, starts: seq<nat>, ds: Contents, k: nat)
    requires CutsTo(cfg, cs, starts, ds)
    requires k <= |cs| && k <= cfg.keepRecent
    ensures cs != [] ==> ds != [] && ds[0] == cs[0]
    ensures k <= |ds| && Recent(ds, k) == Recent(cs, k)
    ensures ActiveTurn(ds) == ActiveTurn(cs)
    ensures PreservedContents(ds, cfg.preserve) == PreservedContents(cs, cfg.preserve)
    decreases |starts|
  {
    hide Droppable, Cut, ActiveTurn, Recent, PreservedContents, NextStart;
    if starts != [] {
      var s := starts[0];
      CutSparesEdges(cfg, cs, s, k);
      CutSparesPreserved(cfg, cs, s);
      DroppableEnds(cfg, cs, s);
      CutSparesActive(cs, s);
      CutsSpare(cfg, Cut(cs, s), starts[1..], ds, k);
    }
  }

  lemma {:induction false} DropFirstCuts(cfg: Config, cs: Contents, n: nat)
    requires CanDrop(cfg, cs, n)
    ensures exists starts :: CutsTo(cfg, cs, starts, DropFirst(cfg, cs, n))
    decreases n
  {
    hide Droppable, Cut, First;
    if n == 0 {
      assert CutsTo(cfg, cs, [], DropFirst(cfg, cs, n));
    } else {
      var s := First(cfg, cs, 0, Any);
      FirstDroppable(cfg, cs);
      DropFirstCuts(cfg, Cut(cs, s), n - 1);
      var rest :| CutsTo(cfg, Cut(cs, s), rest, DropFirst(cfg, cs, n));
      CutsCons(cfg, cs, s, rest, DropFirst(cfg, cs, n));
    }
  }

  lemma {:induction false} CutsCons(cfg: Config, cs: Contents, s: nat, rest: seq<nat>, ds: Contents)
    requires s < |cs| && Droppable(cfg, cs, s) && CutsTo(cfg, Cut(cs, s), rest, ds)
    ensures CutsTo(cfg, cs, [s] + rest, ds)
  {
    hide Droppable, Cut;
    assert ([s] + rest)[1..] == rest;
  }

  lemma {:induction false} CutsTrans(cfg: Config, cs: Contents, a: seq<nat>, ds: Contents, b: seq<nat>, es: Contents)
    requires CutsTo(cfg, cs, a, ds) && CutsTo(cfg, ds, b, es)
    ensures CutsTo(cfg, cs, a + b, es)
    decreases |a|
  {
    hide Droppable, Cut;
    if a == [] {
      assert a + b == b;
    } else {
      assert (a + b)[1..] == a[1..] + b;
      CutsTrans(cfg, Cut(cs, a[0]), a[1..], ds, b, es);
    }
  }

  /** The same cuts work on any history of the same shape. */
  lemma {:induction false} CutsShape(cfg: Config, cs: Contents, starts: seq<nat>, ds: Contents, cs': Contents) returns (ds': Contents)
    requires CutsTo(cfg, cs, starts, ds) && SameShape(cs, cs')
    ensures CutsTo(cfg, cs', starts, ds') && SameShape(ds, ds')
    decreases |starts|
  {
    hide Droppable, Cut;
    if starts == [] {
      ds' := cs';
    } else {
      SameShapeDroppable(cfg, cs, cs', starts[0]);
      ds' := CutsShape(cfg, Cut(cs, starts[0]), starts[1..], ds, Cut(cs', starts[0]));
    }
  }

  lemma {:induction false} DroppableEnds(cfg: Config, cs: Contents, s: nat)
    requires s < |cs| && Droppable(cfg, cs, s)
    ensures s < TurnEnd(cs, s) < |cs| && !ContainsPreserved(cs[s..TurnEnd(cs, s)], cfg.preserve)
  {}

  lemma {:induction false} LastStartAfterCut(cs: Contents, s: nat)
    requires s < |cs| && TurnEnd(cs, s) < |cs|
    ensures TurnEnd(cs, s) <= LastStart(cs, |cs|)
    ensures LastStart(Cut(cs, s), |Cut(cs, s)|) == LastStart(cs, |cs|) - (TurnEnd(cs, s) - s)
  {
    var e, ds := TurnEnd(cs, s), Cut(cs, s);
    NextStartIs(cs, s + 1, e);
    forall k | s <= k < |ds| ensures ds[k] == cs[k + (e - s)] {}
    LastStartIs(cs, LastStart(cs, |cs|));
    LastStartIs(ds, LastStart(cs, |cs|) - (e - s));
  }

  lemma {:induction false} LastStartIs(cs: Contents, s: nat)
    requires s < |cs|
    ensures LastStart(cs, |cs|) == s <==> StartsPrompt(cs[s]) && forall i :: s < i < |cs| ==> !StartsPrompt(cs[i])
  {}
}
