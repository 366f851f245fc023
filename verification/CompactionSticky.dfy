/**
 Re-applying recorded drops. A run remembers only a multiset of fingerprints; on a longer request the greedy
 re-application must find the very same turns again.
 */
module CompactionSticky {
  import opened Wrappers
  import opened Sequences
  import opened CompactionContents
  import opened CompactionPairs
  import opened CompactionTurns

  /** Drop the first droppable turn whose fingerprint is still owed, until nothing is owed or nothing fits. */
  ghost function Sticky(cfg: Config, cs: Contents, owed: multiset<Contents>): Contents
    decreases |cs|
  {
    var s := First(cfg, cs, 0, Only(owed));
    if s == |cs| then cs else Sticky(cfg, Cut(cs, s), owed - multiset{TurnKey(cs, s)})
  }

  lemma {:induction false} FirstOnlyIn(cfg: Config, cs: Contents, owed: multiset<Contents>)
    ensures var s := First(cfg, cs, 0, Only(owed));
      (s < |cs| ==> Droppable(cfg, cs, s) && TurnKey(cs, s) in owed)
      && forall k :: 0 <= k < s ==> !(Droppable(cfg, cs, k) && TurnKey(cs, k) in owed)
  {
    hide Droppable, TurnKey;
    var s := First(cfg, cs, 0, Only(owed));
    FirstIs(cfg, cs, 0, Only(owed), s);
    forall k | 0 <= k < s ensures !(Droppable(cfg, cs, k) && TurnKey(cs, k) in owed) {
      assert !Takes(cfg, cs, k, Only(owed));
    }
  }

  lemma {:induction false} StickyNothing(cfg: Config, cs: Contents)
    ensures Sticky(cfg, cs, multiset{}) == cs
  {
    FirstOnlyIn(cfg, cs, multiset{});
  }

  lemma {:induction false} StickyCuts(cfg: Config, cs: Contents, owed: multiset<Contents>)
    ensures exists starts :: CutsTo(cfg, cs, starts, Sticky(cfg, cs, owed))
    decreases |cs|
  {
    hide Droppable, Cut, First, TurnKey;
    var s := First(cfg, cs, 0, Only(owed));
    if s == |cs| {
      assert CutsTo(cfg, cs, [], Sticky(cfg, cs, owed));
    } else {
      FirstOnlyIn(cfg, cs, owed);
      var less := owed - multiset{TurnKey(cs, s)};
      StickyCuts(cfg, Cut(cs, s), less);
      var rest :| CutsTo(cfg, Cut(cs, s), rest, Sticky(cfg, Cut(cs, s), less));
      CutsCons(cfg, cs, s, rest, Sticky(cfg, cs, owed));
    }
  }

  // ---------------------------------------------------------------------------------------------
  // Appending contents behind a history.
  // ---------------------------------------------------------------------------------------------

  lemma {:induction false} NextStartAppend(cs: Contents, tail: Contents, i: nat)
    requires i <= |cs| && NextStart(cs, i) < |cs|
    ensures NextStart(cs + tail, i) == NextStart(cs, i)
    decreases |cs| - i
  {
    if i < |cs| && !StartsPrompt(cs[i]) { NextStartAppend(cs, tail, i + 1); }
  }

  lemma {:induction false} NoStartAppend(cs: Contents, tail: Contents, i: nat)
    requires i <= |cs| && forall k :: i <= k < |cs| ==> !StartsPrompt(cs[k])
    ensures NextStart(cs + tail, i) >= |cs|
    decreases |cs| - i
  {
    if i < |cs| { NoStartAppend(cs, tail, i + 1); }
  }

  lemma {:induction false} TurnEndAppend(cs: Contents, tail: Contents, s: nat)
    requires s < |cs|
    ensures TurnEnd(cs, s) < |cs| ==> TurnEnd(cs + tail, s) == TurnEnd(cs, s)
    ensures TurnEnd(cs, s) == |cs| ==> TurnEnd(cs + tail, s) >= |cs|
  {
    if TurnEnd(cs, s) < |cs| {
      NextStartAppend(cs, tail, s + 1);
    } else {
      NextStartIs(cs, s + 1, |cs|);
      NoStartAppend(cs, tail, s + 1);
    }
  }

  /**
   A turn of the old history that is droppable stays so exactly when the appended contents reuse none of its
   IDs; a turn that ends inside the old recent-content cutoff never becomes droppable by appending.
   */
  lemma {:induction false} DroppableAppend(cfg: Config, cs: Contents, tail: Contents, s: nat)
    requires s < |cs| && TurnEnd(cs, s) < |cs| && TurnEnd(cs, s) <= |cs| - cfg.keepRecent
    ensures TurnEnd(cs + tail, s) == TurnEnd(cs, s) && TurnKey(cs + tail, s) == TurnKey(cs, s)
    ensures Droppable(cfg, cs + tail, s) <==>
              Droppable(cfg, cs, s) && !Reuses(Marks(cs[s..TurnEnd(cs, s)]), Marks(tail))
    ensures Cut(cs + tail, s) == Cut(cs, s) + tail
  {
    hide NextStart, StartsPrompt, Closed, Reuses, ContainsPreserved;
    var e, ds := TurnEnd(cs, s), cs + tail;
    TurnEndAppend(cs, tail, s);
    assert ds[s] == cs[s] && ds[..s] == cs[..s] && ds[s..e] == cs[s..e] && ds[e..] == cs[e..] + tail;
    Assoc(cs[..s], cs[e..], tail);
    MarksAppend(cs[e..], tail);
    ClosedAppend(Marks(cs[..s]), Marks(cs[s..e]), Marks(cs[e..]), Marks(tail));
  }

  lemma {:induction false} DroppableCutoff(cfg: Config, cs: Contents, s: nat)
    requires s < |cs| && Droppable(cfg, cs, s)
    ensures s < TurnEnd(cs, s) < |cs| && TurnEnd(cs, s) <= |cs| - cfg.keepRecent
  {}

  /** Before the first droppable turn of the old history nothing becomes droppable. */
  lemma {:induction false} NothingEarlier(cfg: Config, cs: Contents, tail: Contents, s: nat, k: nat)
    requires s < |cs| && Droppable(cfg, cs, s) && !Droppable(cfg, cs, k) && k < s
    ensures !Droppable(cfg, cs + tail, k)
  {
    hide Closed, Reuses, ContainsPreserved;
    DroppableCutoff(cfg, cs, s);
    if StartsPrompt(cs[k]) {
      NextStartIs(cs, k + 1, TurnEnd(cs, k));
      assert TurnEnd(cs, k) <= s;
      DroppableAppend(cfg, cs, tail, k);
    } else {
      assert (cs + tail)[k] == cs[k];
    }
  }

  lemma {:induction false} ReusesAppend(a: seq<Mark>, b: seq<Mark>, tail: seq<Mark>)
    ensures Reuses(a + b, tail) <==> Reuses(a, tail) || Reuses(b, tail)
  {
    if Reuses(a, tail) {
      var i, j :| 0 <= i < |a| && 0 <= j < |tail| && a[i].id != "" && a[i].id == tail[j].id;
      assert (a + b)[i] == a[i];
    }
    if Reuses(b, tail) {
      var i, j :| 0 <= i < |b| && 0 <= j < |tail| && b[i].id != "" && b[i].id == tail[j].id;
      assert (a + b)[|a| + i] == b[i];
    }
    if Reuses(a + b, tail) {
      var i, j :| 0 <= i < |a + b| && 0 <= j < |tail| && (a + b)[i].id != "" && (a + b)[i].id == tail[j].id;
      if i < |a| { assert a[i] == (a + b)[i]; } else { assert b[i - |a|] == (a + b)[i]; }
    }
  }

  /** The first droppable turn of a history is still the first one, and the first owed one, after appending. */
  lemma {:induction false} FirstAppend(cfg: Config, cs: Contents, tail: Contents, owed: multiset<Contents>)
    requires var s := First(cfg, cs, 0, Any);
      s < |cs| && TurnKey(cs, s) in owed && !Reuses(Marks(cs[s..TurnEnd(cs, s)]), Marks(tail))
    ensures var s := First(cfg, cs, 0, Any);
      && First(cfg, cs + tail, 0, Any) == s && First(cfg, cs + tail, 0, Only(owed)) == s
      && TurnKey(cs + tail, s) == TurnKey(cs, s) && TurnEnd(cs + tail, s) == TurnEnd(cs, s)
      && Cut(cs + tail, s) == Cut(cs, s) + tail
  {
    hide Droppable, NextStart, Reuses, First;
    var s := First(cfg, cs, 0, Any);
    FirstDroppable(cfg, cs);
    DroppableCutoff(cfg, cs, s);
    DroppableAppend(cfg, cs, tail, s);
    forall k | 0 <= k < s ensures !Droppable(cfg, cs + tail, k) { NothingEarlier(cfg, cs, tail, s, k); }
    FirstIs(cfg, cs + tail, 0, Any, s);
    FirstIs(cfg, cs + tail, 0, Only(owed), s);
  }

  lemma {:induction false} SliceOfPrefix(cs: Contents, tail: Contents, s: nat, e: nat)
    requires s <= e <= |cs|
    ensures (cs + tail)[s..e] == cs[s..e]
  {}

  /** Dropping commutes with appending contents that reuse no dropped ID. */
  lemma {:induction false} DropsAppend(cfg: Config, cs: Contents, tail: Contents, n: nat)
    requires CanDrop(cfg, cs, n) && !Reuses(DroppedMarks(cfg, cs, n), Marks(tail))
    ensures CanDrop(cfg, cs + tail, n)
    ensures DropFirst(cfg, cs + tail, n) == DropFirst(cfg, cs, n) + tail
    ensures DroppedKeys(cfg, cs + tail, n) == DroppedKeys(cfg, cs, n)
    ensures DroppedMarks(cfg, cs + tail, n) == DroppedMarks(cfg, cs, n)
    decreases n
  {
    hide First, Cut, Reuses, TurnKey, NextStart, Marks;
    if n > 0 {
      var s := First(cfg, cs, 0, Any);
      var e, rest := TurnEnd(cs, s), Cut(cs, s);
      ReusesAppend(Marks(cs[s..e]), DroppedMarks(cfg, rest, n - 1), Marks(tail));
      FirstAppend(cfg, cs, tail, multiset{TurnKey(cs, s)});
      SliceOfPrefix(cs, tail, s, e);
      DropsAppend(cfg, rest, tail, n - 1);
      CanDropUnfold(cfg, cs + tail, s, rest + tail, n);
      DropFirstUnfold(cfg, cs + tail, n);
      DroppedKeysUnfold(cfg, cs + tail, n);
      DroppedMarksUnfold(cfg, cs + tail, n);
    }
  }

  lemma {:induction false} CanDropUnfold(cfg: Config, cs: Contents, s: nat, rest: Contents, n: nat)
    requires n > 0 && s == First(cfg, cs, 0, Any) < |cs| && rest == Cut(cs, s) && CanDrop(cfg, rest, n - 1)
    ensures CanDrop(cfg, cs, n)
  {}

  lemma {:induction false} DropFirstUnfold(cfg: Config, cs: Contents, n: nat)
    requires n > 0 && CanDrop(cfg, cs, n)
    ensures DropFirst(cfg, cs, n) == DropFirst(cfg, Cut(cs, First(cfg, cs, 0, Any)), n - 1)
  {}

  lemma {:induction false} DroppedKeysUnfold(cfg: Config, cs: Contents, n: nat)
    requires n > 0 && CanDrop(cfg, cs, n)
    ensures var s := First(cfg, cs, 0, Any); DroppedKeys(cfg, cs, n) == [TurnKey(cs, s)] + DroppedKeys(cfg, Cut(cs, s), n - 1)
  {}

  lemma {:induction false} DroppedMarksUnfold(cfg: Config, cs: Contents, n: nat)
    requires n > 0 && CanDrop(cfg, cs, n)
    ensures var s := First(cfg, cs, 0, Any);
      DroppedMarks(cfg, cs, n) == Marks(cs[s..TurnEnd(cs, s)]) + DroppedMarks(cfg, Cut(cs, s), n - 1)
  {}

  /**
   Sticky drops are stable: on the same history with contents appended that reuse no ID of the dropped turns,
   the owed fingerprints lead to exactly the same turns, also when fingerprints repeat.
   */
  lemma {:induction false} StickyReplays(cfg: Config, cs: Contents, tail: Contents, n: nat)
    requires CanDrop(cfg, cs, n) && !Reuses(DroppedMarks(cfg, cs, n), Marks(tail))
    ensures Sticky(cfg, cs + tail, multiset(DroppedKeys(cfg, cs, n))) == DropFirst(cfg, cs, n) + tail
    decreases n
  {
    hide First, Cut, Reuses, TurnKey, NextStart, Marks;
    var owed := multiset(DroppedKeys(cfg, cs, n));
    if n == 0 {
      StickyNothing(cfg, cs + tail);
    } else {
      var s := First(cfg, cs, 0, Any);
      var rest := DroppedKeys(cfg, Cut(cs, s), n - 1);
      assert owed == multiset{TurnKey(cs, s)} + multiset(rest);
      ReusesAppend(Marks(cs[s..TurnEnd(cs, s)]), DroppedMarks(cfg, Cut(cs, s), n - 1), Marks(tail));
      FirstAppend(cfg, cs, tail, owed);
      StickyReplays(cfg, Cut(cs, s), tail, n - 1);
      assert owed - multiset{TurnKey(cs, s)} == multiset(rest);
    }
  }

  // ---------------------------------------------------------------------------------------------
  // The converse: an ID reused behind the history keeps its turn in the request.
  // ---------------------------------------------------------------------------------------------

  /** Calls and responses that carry one ID. */
  function Uses(cs: Contents, id: string): nat {
    Named(Marks(cs), id, CallSide) + Named(Marks(cs), id, ResponseSide)
  }

  lemma {:induction false} UsesAppend(cs: Contents, ds: Contents, id: string)
    ensures Uses(cs + ds, id) == Uses(cs, id) + Uses(ds, id)
  {
    MarksAppend(cs, ds);
    NamedAppend(Marks(cs), Marks(ds), id, CallSide);
    NamedAppend(Marks(cs), Marks(ds), id, ResponseSide);
  }

  lemma {:induction false} UsesSplit(cs: Contents, m: nat, id: string)
    requires m <= |cs|
    ensures Uses(cs, id) == Uses(cs[..m], id) + Uses(cs[m..], id)
  {
    assert cs == cs[..m] + cs[m..];
    UsesAppend(cs[..m], cs[m..], id);
  }

  /** The ID occurs on both sides of a prompt start. */
  ghost predicate Straddles(cs: Contents, id: string) {
    exists m :: 0 < m < |cs| && StraddlesAt(cs, id, m)
  }

  ghost predicate StraddlesAt(cs: Contents, id: string, m: nat)
    requires m < |cs|
  {
    StartsPrompt(cs[m]) && Uses(cs[..m], id) > 0 && Uses(cs[m..], id) > 0
  }

  lemma {:induction false} UsesAroundCut(cs: Contents, s: nat, e: nat, m: nat, id: string)
    requires s <= e <= |cs| && m <= |cs|
    ensures Uses(cs, id) == Uses(cs[..s], id) + Uses(cs[s..e], id) + Uses(cs[e..], id)
    ensures Uses(cs[..s] + cs[e..], id) == Uses(cs[..s], id) + Uses(cs[e..], id)
    ensures m <= s ==>
      && Uses((cs[..s] + cs[e..])[..m], id) == Uses(cs[..m], id) <= Uses(cs[..s], id)
      && Uses((cs[..s] + cs[e..])[m..], id) == Uses(cs[m..], id) - Uses(cs[s..e], id)
    ensures e <= m ==>
      && Uses((cs[..s] + cs[e..])[m - (e - s)..], id) == Uses(cs[m..], id) <= Uses(cs[e..], id)
      && Uses((cs[..s] + cs[e..])[..m - (e - s)], id) == Uses(cs[..m], id) - Uses(cs[s..e], id)
  {
    hide Uses;
    UsesSplit(cs, e, id);
    UsesSplit(cs[..e], s, id);
    assert cs[..e][..s] == cs[..s] && cs[..e][s..] == cs[s..e];
    UsesAppend(cs[..s], cs[e..], id);
    if m <= s {
      SlicesAroundCut(cs, s, e, m, m);
      UsesSplit(cs[..s], m, id);
      assert cs[..s][..m] == cs[..m] && cs[..s][m..] == cs[m..s];
      UsesAppend(cs[m..s], cs[e..], id);
      UsesAppend(cs[m..s] + cs[s..e], cs[e..], id);
      UsesAppend(cs[m..s], cs[s..e], id);
    }
    if e <= m {
      SlicesAroundCut(cs, s, e, m, m);
      UsesSplit(cs[e..], m - e, id);
      assert cs[e..][..m - e] == cs[e..m] && cs[e..][m - e..] == cs[m..];
      UsesAppend(cs[..s], cs[e..m], id);
      UsesAppend(cs[..s] + cs[s..e], cs[e..m], id);
      UsesAppend(cs[..s], cs[s..e], id);
    }
  }

  /** A droppable turn never holds a straddling ID. */
  lemma {:induction false} NoStraddlerInside(cfg: Config, cs: Contents, s: nat, id: string, m: nat)
    requires s < |cs| && Droppable(cfg, cs, s) && 0 < m < |cs| && StraddlesAt(cs, id, m) && id != ""
    ensures s < TurnEnd(cs, s) < |cs| && StartsPrompt(cs[TurnEnd(cs, s)])
    ensures (m <= s || TurnEnd(cs, s) <= m) && Uses(cs[s..TurnEnd(cs, s)], id) == 0
  {
    hide ContainsPreserved, Marks, Named, NextStart;
    var e := TurnEnd(cs, s);
    NextStartIs(cs, s + 1, e);
    UsesAroundCut(cs, s, e, m, id);
    assert ClosedId(Marks(cs[..s]), Marks(cs[s..e]), Marks(cs[e..]), id);
  }

  /** So cutting it leaves the ID straddling and its uses unchanged. */
  lemma {:induction false} CutKeepsStraddle(cfg: Config, cs: Contents, s: nat, id: string)
    requires s < |cs| && Droppable(cfg, cs, s) && Straddles(cs, id) && id != ""
    ensures Straddles(Cut(cs, s), id) && Uses(Cut(cs, s), id) == Uses(cs, id)
  {
    hide Droppable, Uses, StartsPrompt, NextStart;
    var m :| 0 < m < |cs| && StraddlesAt(cs, id, m);
    var e, ds := TurnEnd(cs, s), Cut(cs, s);
    NoStraddlerInside(cfg, cs, s, id, m);
    UsesAroundCut(cs, s, e, m, id);
    var k := if m <= s then m else m - (e - s);
    assert ds[k] == if m < s then cs[m] else if m == s then cs[e] else cs[m];
    assert StraddlesAt(ds, id, k);
  }

  lemma {:induction false} StickyKeepsStraddle(cfg: Config, cs: Contents, owed: multiset<Contents>, id: string)
    requires Straddles(cs, id) && id != ""
    ensures Uses(Sticky(cfg, cs, owed), id) == Uses(cs, id)
    decreases |cs|
  {
    hide Droppable, Straddles, Uses, First;
    var s := First(cfg, cs, 0, Only(owed));
    FirstOnlyIn(cfg, cs, owed);
    if s < |cs| {
      CutKeepsStraddle(cfg, cs, s, id);
      StickyKeepsStraddle(cfg, Cut(cs, s), owed - multiset{TurnKey(cs, s)}, id);
    }
  }

  /** The ID is used before some prompt start. */
  ghost predicate UsedEarlier(cs: Contents, id: string) {
    exists m :: 0 < m < |cs| && StartsPrompt(cs[m]) && Uses(cs[..m], id) > 0
  }

  ghost function UsesIn(ms: seq<Mark>, id: string): nat { Named(ms, id, CallSide) + Named(ms, id, ResponseSide) }

  /** Dropping takes exactly the marks it dropped, and a dropped ID lies before some later prompt start. */
  lemma {:induction false} DroppedUses(cfg: Config, cs: Contents, n: nat, id: string)
    requires CanDrop(cfg, cs, n)
    ensures Uses(cs, id) == Uses(DropFirst(cfg, cs, n), id) + UsesIn(DroppedMarks(cfg, cs, n), id)
    ensures UsesIn(DroppedMarks(cfg, cs, n), id) > 0 ==> UsedEarlier(cs, id)
    decreases n
  {
    hide First, Droppable, Uses, UsedEarlier, Cut, UsesIn, Marks, NextStart;
    if n > 0 {
      var s := First(cfg, cs, 0, Any);
      FirstDroppable(cfg, cs);
      DroppedUses(cfg, Cut(cs, s), n - 1, id);
      UsesInAppend(Marks(cs[s..TurnEnd(cs, s)]), DroppedMarks(cfg, Cut(cs, s), n - 1), id);
      OneDropUses(cfg, cs, s, id);
    } else {
      UsesInNothing(id);
    }
  }

  lemma {:induction false} UsesInNothing(id: string)
    ensures UsesIn([], id) == 0
  {}

  lemma {:induction false} UsesInAppend(a: seq<Mark>, b: seq<Mark>, id: string)
    ensures UsesIn(a + b, id) == UsesIn(a, id) + UsesIn(b, id)
  {
    NamedAppend(a, b, id, CallSide);
    NamedAppend(a, b, id, ResponseSide);
  }

  lemma {:induction false} OneDropUses(cfg: Config, cs: Contents, s: nat, id: string)
    requires s < |cs| && Droppable(cfg, cs, s)
    ensures Uses(cs, id) == Uses(Cut(cs, s), id) + UsesIn(Marks(cs[s..TurnEnd(cs, s)]), id)
    ensures UsesIn(Marks(cs[s..TurnEnd(cs, s)]), id) > 0 || UsedEarlier(Cut(cs, s), id) ==> UsedEarlier(cs, id)
  {
    hide StartsPrompt, Closed, ContainsPreserved;
    var e, ds := TurnEnd(cs, s), Cut(cs, s);
    NextStartIs(cs, s + 1, e);
    UsesAroundCut(cs, s, e, e, id);
    UsesSplit(cs[..e], s, id);
    assert cs[..e][s..] == cs[s..e];
    if UsedEarlier(ds, id) {
      var m :| 0 < m < |ds| && StartsPrompt(ds[m]) && Uses(ds[..m], id) > 0;
      StartBeforeCut(cs, s, e, m, id);
    }
  }

  lemma {:induction false} StartBeforeCut(cs: Contents, s: nat, e: nat, m: nat, id: string)
    requires s <= e < |cs| && StartsPrompt(cs[e])
    requires var ds := cs[..s] + cs[e..]; 0 < m < |ds| && StartsPrompt(ds[m]) && Uses(ds[..m], id) > 0
    ensures UsedEarlier(cs, id)
  {
    hide StartsPrompt, Uses;
    var ds := cs[..s] + cs[e..];
    var k := if m < s then m else m + (e - s);
    assert ds[m] == cs[k];
    UsesAroundCut(cs, s, e, k, id);
  }

  /** Exactly when the appended contents reuse none of the dropped IDs are the same turns dropped again. */
  lemma {:induction false} StickyReplaysIff(cfg: Config, cs: Contents, tail: Contents, n: nat)
    requires CanDrop(cfg, cs, n)
    ensures Sticky(cfg, cs + tail, multiset(DroppedKeys(cfg, cs, n))) == DropFirst(cfg, cs, n) + tail
        <==> !Reuses(DroppedMarks(cfg, cs, n), Marks(tail))
  {
    var gone := DroppedMarks(cfg, cs, n);
    if !Reuses(gone, Marks(tail)) {
      StickyReplays(cfg, cs, tail, n);
    } else {
      hide First, Droppable, StartsPrompt, Sticky, DropFirst, CanDrop, DroppedKeys, Closed;
      var i, j :| 0 <= i < |gone| && 0 <= j < |Marks(tail)| && gone[i].id != "" && gone[i].id == Marks(tail)[j].id;
      var id := gone[i].id;
      NamedPositive(gone, id);
      NamedPositive(Marks(tail), id);
      DroppedUses(cfg, cs, n, id);
      var m :| 0 < m < |cs| && StartsPrompt(cs[m]) && Uses(cs[..m], id) > 0;
      StraddleAppend(cs, tail, m, id);
      StickyKeepsStraddle(cfg, cs + tail, multiset(DroppedKeys(cfg, cs, n)), id);
      UsesAppend(cs, tail, id);
      UsesAppend(DropFirst(cfg, cs, n), tail, id);
    }
  }

  lemma {:induction false} StraddleAppend(cs: Contents, tail: Contents, m: nat, id: string)
    requires 0 < m < |cs| && StartsPrompt(cs[m]) && Uses(cs[..m], id) > 0 && Uses(tail, id) > 0
    ensures Straddles(cs + tail, id)
  {
    hide StartsPrompt, Uses;
    var ds := cs + tail;
    assert ds[m] == cs[m] && ds[..m] == cs[..m] && ds[m..] == cs[m..] + tail;
    UsesAppend(cs[m..], tail, id);
    assert StraddlesAt(ds, id, m);
  }
}
