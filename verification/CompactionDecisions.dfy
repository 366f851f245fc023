/** Which bodies elision replaces, and which keys it records, read off the request before and after. */
module CompactionDecisions {
  import opened Numbers
  import opened Wrappers
  import opened CompactionContents
  import opened CompactionTurns
  import opened CompactionEstimate
  import opened CompactionElision
  import opened CompactionChoice

  /** The response may be elided at all: past the first content, before the recent ones, not yet elided, not preserved. */
  predicate Open(cfg: Config, cs: Contents, p: Place) {
    && 1 <= p.content < |cs| && p.content < |cs| - cfg.keepRecent
    && At(cs, p).Some? && !IsElided(At(cs, p).value) && At(cs, p).value.name !in cfg.preserve
  }

  /** The body is replaced by the marker, and the slot otherwise kept. */
  predicate Replaced(before: Contents, after: Contents, p: Place) {
    At(before, p).Some? && At(after, p) == Some(At(before, p).value.(body := Body("{\"output\":\"[elided]\"}", 0)))
  }

  predicate Kept(before: Contents, after: Contents, p: Place) { At(after, p) == At(before, p) }

  /** Replacing the body lowers the estimate of the request as it is when the place is visited. */
  ghost predicate Pays(enc: Encoder, mid: Contents, p: Place)
    requires At(mid, p).Some?
  {
    Tokens(enc, Marked(mid, p)) < Tokens(enc, mid)
  }

  /** At least the minimum number of tokens, four bytes a token and the last one begun. */
  predicate LargeEnough(cfg: Config, enc: Encoder, r: Response) { enc.bodyBytes(r.body) > 4 * (cfg.minimumElision - 1) }

  /** One visit while eliding: an open body goes if it is large enough, the estimate is above the target, and it pays. */
  ghost predicate Visit(cfg: Config, enc: Encoder, factor: real, target: int, before: Contents, after: Contents, p: Place, mid: Contents) {
    && Visiting(mid, before, after, p) && At(before, p).Some? && At(mid, p) == At(before, p)
    && Tokens(enc, after) <= Tokens(enc, mid)
    && if LargeEnough(cfg, enc, At(before, p).value) && Calibrated(Tokens(enc, mid), factor) > target && Pays(enc, mid, p)
       then Replaced(before, after, p) else Kept(before, after, p)
  }

  ghost predicate Elides(cfg: Config, enc: Encoder, factor: real, target: int, before: Contents, after: Contents) {
    && SameShape(after, before)
    && forall p :: if Open(cfg, before, p) then exists mid :: Visit(cfg, enc, factor, target, before, after, p, mid)
                   else Kept(before, after, p)
  }

  /** One visit while applying recorded elisions again: an open body goes if its key is still owed and it pays. */
  ghost predicate VisitAgain(cfg: Config, enc: Encoder, owed: multiset<ResponseKey>, before: Contents, after: Contents, p: Place,
                             mid: Contents, taken: seq<Place>) {
    && Visiting(mid, before, after, p) && At(before, p).Some? && At(mid, p) == At(before, p)
    && Changed(before, after, Some(p), taken)
    && if KeyOf(At(before, p).value) in owed - multiset(KeysOf(before, taken)) && Pays(enc, mid, p)
       then Replaced(before, after, p) else Kept(before, after, p)
  }

  ghost predicate ElidesAgain(cfg: Config, enc: Encoder, owed: multiset<ResponseKey>, before: Contents, after: Contents) {
    && SameShape(after, before)
    && forall p :: if Open(cfg, before, p) then exists mid, taken :: VisitAgain(cfg, enc, owed, before, after, p, mid, taken)
                   else Kept(before, after, p)
  }

  lemma {:induction false} ListedEligible(cfg: Config, enc: Encoder, cs: Contents)
    ensures var cands := Eligible(enc, cs, cfg.keepRecent);
      && AllFit(cs, Min(1, |cs|), EligibleEnd(cs, cfg.keepRecent), cands) && WellListed(enc, cs, cands)
      && forall p :: Among(cands, p) <==> 1 <= p.content < |cs| && p.content < |cs| - cfg.keepRecent && At(cs, p).Some? && !IsElided(At(cs, p).value)
  {
    hide CandidatesUpTo, At, EligibleEnd, Tells, Earlier;
    var lo, hi := Min(1, |cs|), EligibleEnd(cs, cfg.keepRecent);
    var cands := Eligible(enc, cs, cfg.keepRecent);
    CandidatesFit(enc, cs, lo, hi);
    RangeListed(enc, cs, lo, hi);
    forall p: Place ensures Among(cands, p) <==> 1 <= p.content < |cs| && p.content < |cs| - cfg.keepRecent && At(cs, p).Some? && !IsElided(At(cs, p).value) {
      EligibleRange(cs, cfg.keepRecent, p.content);
      if Among(cands, p) {
        var j :| 0 <= j < |cands| && PlaceOf(cands[j]) == p;
        TellsWhat(enc, cs, cands[j]);
      }
    }
  }

  lemma {:induction false} TellsWhat(enc: Encoder, cs: Contents, c: Candidate)
    requires Tells(enc, cs, c)
    ensures At(cs, PlaceOf(c)).Some?
    ensures var r := At(cs, PlaceOf(c)).value; !IsElided(r) && c.name == r.name && c.key == KeyOf(r)
    ensures c.bodyTokens >= 0 && 4 * (c.bodyTokens - 1) < enc.bodyBytes(At(cs, PlaceOf(c)).value.body) <= 4 * c.bodyTokens
  {}

  /** What the fold does at an open place, told by the response sitting there. */
  lemma {:induction false} DecidesVisit(
    cfg: Config, enc: Encoder, factor: real, target: int, before: Contents, out: Elision, c: Candidate, mid: Contents)
    requires Decides(cfg, enc, factor, target, before, out, c, mid) && Tells(enc, before, c)
    requires out.tokens == Tokens(enc, out.contents)
    ensures var p := PlaceOf(c);
      && At(before, p).Some?
      && (At(before, p).value.name !in cfg.preserve ==> Visit(cfg, enc, factor, target, before, out.contents, p, mid))
      && (At(before, p).value.name in cfg.preserve ==> Kept(before, out.contents, p))
  {
    hide Tokens, Calibrated, At, Strip, Marked, Visiting, Tells;
    TellsWhat(enc, before, c);
    MarkedAt(mid, PlaceOf(c), PlaceOf(c));
  }

  /** Which bodies are elided: exactly the open ones that are large enough and pay while the estimate is above the target. */
  lemma {:induction false} ElidedElides(cfg: Config, enc: Encoder, factor: real, target: int, cs: Contents)
    ensures Elides(cfg, enc, factor, target, cs, Elided(cfg, enc, factor, target, cs).contents)
  {
    hide Tokens, Calibrated, At, Strip, Eligible, EligibleEnd, AllFit, ElideFrom, Decides, Visit, Tells;
    var lo, hi, st := Min(1, |cs|), EligibleEnd(cs, cfg.keepRecent), Elision(cs, Tokens(enc, cs), []);
    var cands, out := Eligible(enc, cs, cfg.keepRecent), Elided(cfg, enc, factor, target, cs);
    ListedEligible(cfg, enc, cs);
    ElideFromShape(cfg, enc, factor, target, lo, hi, st, cands);
    forall p ensures if Open(cfg, cs, p) then exists mid :: Visit(cfg, enc, factor, target, cs, out.contents, p, mid)
                     else Kept(cs, out.contents, p)
    {
      if Among(cands, p) {
        var j :| 0 <= j < |cands| && PlaceOf(cands[j]) == p;
        var mid := ElideFromAt(cfg, enc, factor, target, lo, hi, st, cands, j);
        DecidesVisit(cfg, enc, factor, target, cs, out, cands[j], mid);
      } else {
        ElideFromOthers(cfg, enc, factor, target, lo, hi, st, cands, p);
      }
    }
  }

  /** The recorded keys are those of the changed places, in visiting order. */
  lemma {:induction false} ElidedKeys(cfg: Config, enc: Encoder, factor: real, target: int, cs: Contents) returns (places: seq<Place>)
    ensures var out := Elided(cfg, enc, factor, target, cs);
      Changed(cs, out.contents, None, places) && out.keys == KeysOf(cs, places)
  {
    hide Tokens, Calibrated, At, Strip, Eligible, EligibleEnd, AllFit, ElideFrom;
    ListedEligible(cfg, enc, cs);
    places := ElideFromPlaces(cfg, enc, factor, target, Min(1, |cs|), EligibleEnd(cs, cfg.keepRecent),
                              Elision(cs, Tokens(enc, cs), []), Eligible(enc, cs, cfg.keepRecent));
  }

  lemma {:induction false} DecidesVisitAgain(
    cfg: Config, enc: Encoder, owed: multiset<ResponseKey>, before: Contents, after: Contents, c: Candidate, mid: Contents, taken: seq<Place>)
    requires DecidesAgain(cfg, enc, owed, before, after, c, mid, taken) && Tells(enc, before, c)
    ensures var p := PlaceOf(c);
      && At(before, p).Some?
      && (At(before, p).value.name !in cfg.preserve ==> VisitAgain(cfg, enc, owed, before, after, p, mid, taken))
      && (At(before, p).value.name in cfg.preserve ==> Kept(before, after, p))
  {
    hide Tokens, At, Strip, Marked, Visiting, Tells, Changed, KeysOf;
    TellsWhat(enc, before, c);
    MarkedAt(mid, PlaceOf(c), PlaceOf(c));
  }

  /** Which recorded elisions are applied again: exactly the open bodies whose key is still owed and that pay. */
  lemma {:induction false} ReElidedElidesAgain(cfg: Config, enc: Encoder, owed: multiset<ResponseKey>, cs: Contents)
    ensures ElidesAgain(cfg, enc, owed, cs, ReElided(cfg, enc, owed, cs).contents)
  {
    hide Tokens, At, Strip, Eligible, EligibleEnd, AllFit, ReElideFrom, DecidesAgain, VisitAgain, Tells;
    var lo, hi, st := Min(1, |cs|), EligibleEnd(cs, cfg.keepRecent), Elision(cs, Tokens(enc, cs), []);
    var cands, out := Eligible(enc, cs, cfg.keepRecent), ReElided(cfg, enc, owed, cs).contents;
    ListedEligible(cfg, enc, cs);
    ReElideFromOthers(cfg, enc, owed, lo, hi, st, cands, Place(0, 0, FunctionSlot));
    forall p ensures if Open(cfg, cs, p) then exists mid, taken :: VisitAgain(cfg, enc, owed, cs, out, p, mid, taken)
                     else Kept(cs, out, p)
    {
      if Among(cands, p) {
        var j :| 0 <= j < |cands| && PlaceOf(cands[j]) == p;
        var mid, taken := ReElideFromAt(cfg, enc, owed, lo, hi, st, cands, j);
        DecidesVisitAgain(cfg, enc, owed, cs, out, cands[j], mid, taken);
      } else {
        ReElideFromOthers(cfg, enc, owed, lo, hi, st, cands, p);
      }
    }
  }

  lemma {:induction false} NothingAgain(cfg: Config, enc: Encoder, cs: Contents)
    ensures ElidesAgain(cfg, enc, multiset{}, cs, cs)
  {
    hide Tokens, At, Strip;
    forall p | Open(cfg, cs, p) ensures VisitAgain(cfg, enc, multiset{}, cs, cs, p, cs, []) {
      VisitingUnchanged(cs, p);
      NothingChanged(cs);
    }
  }

  /** The calibrated estimate is the scaled one rounded up. */
  lemma {:induction false} CalibratedIs(tokens: nat, factor: real)
    ensures tokens as real * factor <= Calibrated(tokens, factor) as real < tokens as real * factor + 1.0
  {}

  lemma {:induction false} CalibratedGrows(a: nat, b: nat, factor: real)
    requires a <= b && factor >= 0.0
    ensures Calibrated(a, factor) <= Calibrated(b, factor)
  {
    assert a as real * factor <= b as real * factor;
  }

  /**
   When the estimate is still above the target after eliding, every open body of at least the minimum is now the
   marker, or replacing it when it was visited did not lower the estimate.
   */
  lemma {:induction false} StillAbove(cfg: Config, enc: Encoder, factor: real, target: int, before: Contents, after: Contents, p: Place)
    returns (mid: Contents)
    requires Elides(cfg, enc, factor, target, before, after) && factor >= 0.0
    requires Calibrated(Tokens(enc, after), factor) > target
    requires Open(cfg, before, p) && LargeEnough(cfg, enc, At(before, p).value)
    ensures Visiting(mid, before, after, p) && At(mid, p) == At(before, p)
    ensures if Pays(enc, mid, p) then Replaced(before, after, p) else Kept(before, after, p)
  {
    hide Tokens, Calibrated, At, Strip, Marked;
    mid :| Visit(cfg, enc, factor, target, before, after, p, mid);
    CalibratedGrows(Tokens(enc, after), Tokens(enc, mid), factor);
  }
}
