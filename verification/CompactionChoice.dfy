/**
 * Which response bodies a run elides, place by place: the state of the request when a place is visited is everything
 * before it as it ends up and everything from it on as it was, and that state decides.
 */
module CompactionChoice {
  import opened Wrappers
  import opened CompactionContents
  import opened CompactionElision
  import opened CompactionEstimate
  import opened CompactionTurns

  /** A response slot of a request. */
  datatype Place = Place(content: nat, part: nat, slot: Slot)

  /** Visiting order: contents, then parts, then the function response before the tool response. */
  predicate Earlier(p: Place, q: Place) {
    || p.content < q.content
    || (p.content == q.content && p.part < q.part)
    || (p.content == q.content && p.part == q.part && p.slot.FunctionSlot? && q.slot.ToolSlot?)
  }

  function At(cs: Contents, p: Place): Option<Response> { SlotAt(cs, p.content, p.part, p.slot) }

  /** The request as it is when `p` is visited. */
  ghost predicate Visiting(mid: Contents, before: Contents, after: Contents, p: Place) {
    SameShape(mid, before) && forall q :: At(mid, q) == if Earlier(q, p) then At(after, q) else At(before, q)
  }

  function Marked(cs: Contents, p: Place): Contents
    requires At(cs, p).Some?
  {
    SetBody(cs, p.content, p.part, p.slot, Body("{\"output\":\"[elided]\"}", 0))
  }

  predicate IsElided(r: Response) { r.body == Body("{\"output\":\"[elided]\"}", 0) }

  function PlaceOf(c: Candidate): Place { Place(c.content, c.part, c.slot) }

  /** The candidate tells what its place holds. */
  predicate Tells(enc: Encoder, cs: Contents, c: Candidate) {
    match At(cs, PlaceOf(c))
    case None => false
    case Some(r) =>
      && !IsElided(r) && c.name == r.name && c.original == r.body
      && c.key == (if r.id != "" then ResponseId(r.id) else ResponseDigest(r.name, r.body))
      && c.bodyTokens >= 0 && 4 * (c.bodyTokens - 1) < enc.bodyBytes(r.body) <= 4 * c.bodyTokens
  }

  ghost predicate WellListed(enc: Encoder, cs: Contents, cands: seq<Candidate>) {
    && (forall j :: 0 <= j < |cands| ==> Tells(enc, cs, cands[j]))
    && (forall i, j :: 0 <= i < j < |cands| ==> Earlier(PlaceOf(cands[i]), PlaceOf(cands[j])))
  }

  predicate Among(cands: seq<Candidate>, p: Place) { exists j :: 0 <= j < |cands| && PlaceOf(cands[j]) == p }

  // The list of candidates is complete.

  lemma {:induction false} PartListed(enc: Encoder, cs: Contents, i: nat, k: nat)
    ensures WellListed(enc, cs, PartCandidates(enc, cs, i, k))
    ensures forall j :: 0 <= j < |PartCandidates(enc, cs, i, k)| ==>
      PlaceOf(PartCandidates(enc, cs, i, k)[j]).content == i && PlaceOf(PartCandidates(enc, cs, i, k)[j]).part == k
    ensures forall slot :: SlotAt(cs, i, k, slot).Some? && !IsElided(SlotAt(cs, i, k, slot).value) ==>
      Among(PartCandidates(enc, cs, i, k), Place(i, k, slot))
  {
    var f, t := CandidateAt(enc, cs, i, k, FunctionSlot), CandidateAt(enc, cs, i, k, ToolSlot);
    OneListed(enc, cs, i, k, FunctionSlot);
    OneListed(enc, cs, i, k, ToolSlot);
    forall slot | SlotAt(cs, i, k, slot).Some? && !IsElided(SlotAt(cs, i, k, slot).value)
      ensures Among(PartCandidates(enc, cs, i, k), Place(i, k, slot))
    {
      if slot.FunctionSlot? {
        assert PlaceOf((f + t)[0]) == Place(i, k, slot);
      } else {
        assert PlaceOf((f + t)[|f|]) == Place(i, k, slot);
      }
    }
  }

  lemma {:induction false} OneListed(enc: Encoder, cs: Contents, i: nat, k: nat, slot: Slot)
    ensures var cands := CandidateAt(enc, cs, i, k, slot);
      && |cands| <= 1 && WellListed(enc, cs, cands) && (cands != [] ==> PlaceOf(cands[0]) == Place(i, k, slot))
      && (cands != [] <==> SlotAt(cs, i, k, slot).Some? && !IsElided(SlotAt(cs, i, k, slot).value))
  {}

  lemma {:induction false} ListedAppend(enc: Encoder, cs: Contents, a: seq<Candidate>, b: seq<Candidate>)
    requires WellListed(enc, cs, a) && WellListed(enc, cs, b)
    requires forall i, j :: 0 <= i < |a| && 0 <= j < |b| ==> Earlier(PlaceOf(a[i]), PlaceOf(b[j]))
    ensures WellListed(enc, cs, a + b)
    ensures forall p :: Among(a, p) || Among(b, p) ==> Among(a + b, p)
  {
    hide Tells, Earlier;
    forall p | Among(a, p) || Among(b, p) ensures Among(a + b, p) {
      if Among(a, p) {
        var j :| 0 <= j < |a| && PlaceOf(a[j]) == p;
        assert PlaceOf((a + b)[j]) == p;
      } else {
        var j :| 0 <= j < |b| && PlaceOf(b[j]) == p;
        assert PlaceOf((a + b)[|a| + j]) == p;
      }
    }
  }

  /** Candidates of one content up to part `n`. */
  lemma {:induction false} ContentListed(enc: Encoder, cs: Contents, i: nat, n: nat)
    ensures WellListed(enc, cs, ContentCandidates(enc, cs, i, n))
    ensures forall j :: 0 <= j < |ContentCandidates(enc, cs, i, n)| ==>
      PlaceOf(ContentCandidates(enc, cs, i, n)[j]).content == i && PlaceOf(ContentCandidates(enc, cs, i, n)[j]).part < n
    ensures forall p: Place :: p.content == i && p.part < n && At(cs, p).Some? && !IsElided(At(cs, p).value) ==> Among(ContentCandidates(enc, cs, i, n), p)
  {
    hide Tells, PartCandidates, SlotAt, Among;
    if n > 0 {
      ContentListed(enc, cs, i, n - 1);
      PartListed(enc, cs, i, n - 1);
      ListedAppend(enc, cs, ContentCandidates(enc, cs, i, n - 1), PartCandidates(enc, cs, i, n - 1));
      forall p: Place | p.content == i && p.part < n && At(cs, p).Some? && !IsElided(At(cs, p).value)
        ensures Among(ContentCandidates(enc, cs, i, n), p)
      {
        if p.part == n - 1 { assert p == Place(i, n - 1, p.slot) && SlotAt(cs, i, n - 1, p.slot).Some?; }
      }
    }
  }

  lemma {:induction false} RangeListed(enc: Encoder, cs: Contents, lo: nat, hi: nat)
    ensures WellListed(enc, cs, CandidatesUpTo(enc, cs, lo, hi))
    ensures forall j :: 0 <= j < |CandidatesUpTo(enc, cs, lo, hi)| ==> lo <= PlaceOf(CandidatesUpTo(enc, cs, lo, hi)[j]).content < hi
    ensures forall p: Place :: lo <= p.content < hi && At(cs, p).Some? && !IsElided(At(cs, p).value) ==> Among(CandidatesUpTo(enc, cs, lo, hi), p)
  {
    hide Tells, ContentCandidates, Among;
    if lo < hi {
      var i := hi - 1;
      RangeListed(enc, cs, lo, i);
      ContentListed(enc, cs, i, PartCount(cs, i));
      ListedAppend(enc, cs, CandidatesUpTo(enc, cs, lo, i), ContentCandidates(enc, cs, i, PartCount(cs, i)));
      forall p: Place | lo <= p.content < hi && At(cs, p).Some? && !IsElided(At(cs, p).value)
        ensures Among(CandidatesUpTo(enc, cs, lo, hi), p)
      {
        if p.content == i { assert p.part < PartCount(cs, i); }
      }
    }
  }

  /** Which contents are looked at: not the first, and not the most recent ones. */
  lemma {:induction false} EligibleRange(cs: Contents, keepRecent: int, i: nat)
    ensures (if |cs| < 1 then |cs| else 1) <= i < EligibleEnd(cs, keepRecent) <==> 1 <= i < |cs| && i < |cs| - keepRecent
  {}

  // ---------------------------------------------------------------------------------------------
  // One candidate at a time.
  // ---------------------------------------------------------------------------------------------

  lemma {:induction false} MarkedAt(cs: Contents, p: Place, q: Place)
    requires At(cs, p).Some?
    ensures At(Marked(cs, p), q) == if q == p then Some(At(cs, p).value.(body := Body("{\"output\":\"[elided]\"}", 0))) else At(cs, q)
    ensures SameShape(Marked(cs, p), cs)
  {
    SetBodySlots(cs, p.content, p.part, p.slot, Body("{\"output\":\"[elided]\"}", 0), q.content, q.part, q.slot);
    SetBodyShape(cs, p.content, p.part, p.slot, Body("{\"output\":\"[elided]\"}", 0));
  }

  /** Either the candidate's body was replaced or nothing happened to the request. */
  ghost predicate OneVisited(cs: Contents, ds: Contents, c: Candidate) {
    ds == cs || (At(cs, PlaceOf(c)).Some? && ds == Marked(cs, PlaceOf(c)))
  }

  lemma {:induction false} OthersKept(cs: Contents, ds: Contents, c: Candidate)
    requires OneVisited(cs, ds, c)
    ensures SameShape(ds, cs) && forall q :: q != PlaceOf(c) ==> At(ds, q) == At(cs, q)
    ensures At(ds, PlaceOf(c)).Some? == At(cs, PlaceOf(c)).Some?
  {
    hide Marked, At, Strip;
    forall q | q != PlaceOf(c) ensures At(ds, q) == At(cs, q) {
      if ds != cs { MarkedAt(cs, PlaceOf(c), q); }
    }
    if ds != cs { MarkedAt(cs, PlaceOf(c), PlaceOf(c)); }
  }

  /** The rest of the list still tells what its places hold. */
  lemma {:induction false} RestListed(enc: Encoder, cs: Contents, ds: Contents, cands: seq<Candidate>)
    requires cands != [] && WellListed(enc, cs, cands) && OneVisited(cs, ds, cands[0])
    ensures WellListed(enc, ds, cands[1..]) && !Among(cands[1..], PlaceOf(cands[0]))
  {
    hide OneVisited, Marked, At, Strip;
    OthersKept(cs, ds, cands[0]);
    forall j | 0 <= j < |cands[1..]| ensures Tells(enc, ds, cands[1..][j]) && PlaceOf(cands[1..][j]) != PlaceOf(cands[0]) {
      assert Tells(enc, cs, cands[j + 1]) && Earlier(PlaceOf(cands[0]), PlaceOf(cands[j + 1]));
    }
  }

  lemma {:induction false} NotFirst(cands: seq<Candidate>, p: Place)
    requires cands != [] && !Among(cands, p)
    ensures p != PlaceOf(cands[0]) && !Among(cands[1..], p)
  {
    assert PlaceOf(cands[0]) != p;
  }

  /** The fold after its first candidate. */
  ghost function Next(cfg: Config, enc: Encoder, st: Elision, c: Candidate): Elision
    requires At(st.contents, PlaceOf(c)).Some?
  {
    var next := Marked(st.contents, PlaceOf(c));
    if c.name in cfg.preserve || c.bodyTokens < cfg.minimumElision || Tokens(enc, next) >= st.tokens then st
    else Elision(next, Tokens(enc, next), st.keys + [c.key])
  }

  lemma {:induction false} ElideFromNext(cfg: Config, enc: Encoder, factor: real, target: int, lo: nat, hi: nat, st: Elision, cands: seq<Candidate>)
    requires AllFit(st.contents, lo, hi, cands) && cands != [] && Calibrated(st.tokens, factor) > target
    ensures At(st.contents, PlaceOf(cands[0])).Some?
    ensures var next := Next(cfg, enc, st, cands[0]);
      && AllFit(next.contents, lo, hi, cands[1..]) && OneVisited(st.contents, next.contents, cands[0])
      && ElideFrom(cfg, enc, factor, target, lo, hi, st, cands) == ElideFrom(cfg, enc, factor, target, lo, hi, next, cands[1..])
      && (st.tokens == Tokens(enc, st.contents) ==> next.tokens == Tokens(enc, next.contents) <= st.tokens)
  {
    hide Tokens, Calibrated, SlotAt, SetBody;
    assert Fits(st.contents, lo, hi, cands[0]);
    assert AllFit(st.contents, lo, hi, cands[1..]);
    FitAfterSetBody(st.contents, lo, hi, cands[1..], cands[0], ELIDED);
    assert ElideOne(st.contents, cands[0]) == Marked(st.contents, PlaceOf(cands[0]));
  }

  lemma {:induction false} ElideFromOthers(
    cfg: Config, enc: Encoder, factor: real, target: int, lo: nat, hi: nat, st: Elision, cands: seq<Candidate>, p: Place)
    requires AllFit(st.contents, lo, hi, cands) && !Among(cands, p)
    ensures var out := ElideFrom(cfg, enc, factor, target, lo, hi, st, cands);
      At(out.contents, p) == At(st.contents, p)
    decreases |cands|
  {
    hide Tokens, Calibrated, SlotAt, SetBody, Next, Among, OneVisited, Fits, At, Strip;
    if cands != [] && Calibrated(st.tokens, factor) > target {
      ElideFromNext(cfg, enc, factor, target, lo, hi, st, cands);
      var next := Next(cfg, enc, st, cands[0]);
      NotFirst(cands, p);
      OthersKept(st.contents, next.contents, cands[0]);
      ElideFromOthers(cfg, enc, factor, target, lo, hi, next, cands[1..], p);
    }
  }

  lemma {:induction false} ElideFromShape(
    cfg: Config, enc: Encoder, factor: real, target: int, lo: nat, hi: nat, st: Elision, cands: seq<Candidate>)
    requires AllFit(st.contents, lo, hi, cands) && st.tokens == Tokens(enc, st.contents)
    ensures var out := ElideFrom(cfg, enc, factor, target, lo, hi, st, cands);
      SameShape(out.contents, st.contents) && out.tokens == Tokens(enc, out.contents) <= st.tokens
    decreases |cands|
  {
    hide Tokens, Calibrated, SlotAt, SetBody, Next, OneVisited, Fits, At, Strip;
    if cands != [] && Calibrated(st.tokens, factor) > target {
      ElideFromNext(cfg, enc, factor, target, lo, hi, st, cands);
      var next := Next(cfg, enc, st, cands[0]);
      OthersKept(st.contents, next.contents, cands[0]);
      ElideFromShape(cfg, enc, factor, target, lo, hi, next, cands[1..]);
    }
  }

  lemma {:induction false} TellsSome(enc: Encoder, cs: Contents, c: Candidate)
    requires Tells(enc, cs, c)
    ensures At(cs, PlaceOf(c)).Some?
  {}

  lemma {:induction false} VisitingUnchanged(cs: Contents, p: Place)
    ensures Visiting(cs, cs, cs, p)
  {}

  /** The request is visited at the place of the first candidate as it is at the start. */
  lemma {:induction false} FirstVisiting(cs: Contents, out: Contents, cands: seq<Candidate>)
    requires cands != [] && SameShape(out, cs)
    requires forall i, j :: 0 <= i < j < |cands| ==> Earlier(PlaceOf(cands[i]), PlaceOf(cands[j]))
    requires forall q :: !Among(cands, q) ==> At(out, q) == At(cs, q)
    ensures Visiting(cs, cs, out, PlaceOf(cands[0]))
  {
    hide At, Strip;
    forall q | Earlier(q, PlaceOf(cands[0])) ensures At(out, q) == At(cs, q) {
      forall j | 0 <= j < |cands| ensures PlaceOf(cands[j]) != q {
        if j > 0 { assert Earlier(PlaceOf(cands[0]), PlaceOf(cands[j])); }
      }
    }
  }

  /** What is visited later is visited in the same state whether one starts before or after the first candidate. */
  lemma {:induction false} LaterVisiting(enc: Encoder, cs: Contents, ds: Contents, cands: seq<Candidate>, mid: Contents, out: Contents, j: nat)
    requires 0 < j < |cands| && WellListed(enc, cs, cands) && OneVisited(cs, ds, cands[0])
    requires Visiting(mid, ds, out, PlaceOf(cands[j]))
    ensures Visiting(mid, cs, out, PlaceOf(cands[j])) && At(ds, PlaceOf(cands[j])) == At(cs, PlaceOf(cands[j]))
  {
    hide At, Strip, OneVisited, Tells;
    OthersKept(cs, ds, cands[0]);
    assert Earlier(PlaceOf(cands[0]), PlaceOf(cands[j]));
    forall q | !Earlier(q, PlaceOf(cands[j])) ensures At(mid, q) == At(cs, q) {
      assert q != PlaceOf(cands[0]);
    }
  }

  /** What the fold does at the place of one candidate. */
  ghost predicate Decides(cfg: Config, enc: Encoder, factor: real, target: int, before: Contents, out: Elision, c: Candidate, mid: Contents) {
    var p := PlaceOf(c);
    && Visiting(mid, before, out.contents, p)
    && At(before, p).Some? && At(mid, p) == At(before, p)
    && out.tokens <= Tokens(enc, mid)
    && (if c.name !in cfg.preserve && c.bodyTokens >= cfg.minimumElision
           && Calibrated(Tokens(enc, mid), factor) > target && Tokens(enc, Marked(mid, p)) < Tokens(enc, mid)
        then At(out.contents, p) == At(Marked(mid, p), p) else At(out.contents, p) == At(before, p))
  }

  lemma {:induction false} ElideFromAt(
    cfg: Config, enc: Encoder, factor: real, target: int, lo: nat, hi: nat, st: Elision, cands: seq<Candidate>, j: nat) returns (mid: Contents)
    requires AllFit(st.contents, lo, hi, cands) && WellListed(enc, st.contents, cands) && st.tokens == Tokens(enc, st.contents) && j < |cands|
    ensures Decides(cfg, enc, factor, target, st.contents, ElideFrom(cfg, enc, factor, target, lo, hi, st, cands), cands[j], mid)
    decreases |cands|
  {
    hide Tokens, Calibrated, SlotAt, SetBody, Among, OneVisited, Fits, At, Strip, Tells, Visiting, Earlier, Marked;
    var out := ElideFrom(cfg, enc, factor, target, lo, hi, st, cands);
    var p := PlaceOf(cands[j]);
    TellsSome(enc, st.contents, cands[j]);
    if Calibrated(st.tokens, factor) <= target {
      mid := st.contents;
      VisitingUnchanged(mid, p);
    } else {
      ElideFromNext(cfg, enc, factor, target, lo, hi, st, cands);
      var next := Next(cfg, enc, st, cands[0]);
      RestListed(enc, st.contents, next.contents, cands);
      if j == 0 {
        mid := st.contents;
        forall q | !Among(cands, q) ensures At(out.contents, q) == At(st.contents, q) {
          ElideFromOthers(cfg, enc, factor, target, lo, hi, st, cands, q);
        }
        ElideFromShape(cfg, enc, factor, target, lo, hi, st, cands);
        ElideFromShape(cfg, enc, factor, target, lo, hi, next, cands[1..]);
        FirstVisiting(st.contents, out.contents, cands);
        ElideFromOthers(cfg, enc, factor, target, lo, hi, next, cands[1..], p);
      } else {
        mid := ElideFromAt(cfg, enc, factor, target, lo, hi, next, cands[1..], j - 1);
        assert cands[1..][j - 1] == cands[j];
        LaterVisiting(enc, st.contents, next.contents, cands, mid, out.contents, j);
      }
    }
  }

  // ---------------------------------------------------------------------------------------------
  // Which places changed, and the keys recorded for them.
  // ---------------------------------------------------------------------------------------------

  predicate InOrder(places: seq<Place>) { forall i, j :: 0 <= i < j < |places| ==> Earlier(places[i], places[j]) }

  predicate AllFilled(cs: Contents, places: seq<Place>) { forall n :: 0 <= n < |places| ==> At(cs, places[n]).Some? }

  /** A response goes by its ID, and without one by its name and body. */
  function KeyOf(r: Response): ResponseKey { if r.id != "" then ResponseId(r.id) else ResponseDigest(r.name, r.body) }

  function KeysOf(cs: Contents, places: seq<Place>): (keys: seq<ResponseKey>)
    requires AllFilled(cs, places)
    ensures |keys| == |places| && forall n :: 0 <= n < |places| ==> keys[n] == KeyOf(At(cs, places[n]).value)
  {
    seq(|places|, n requires 0 <= n < |places| => KeyOf(At(cs, places[n]).value))
  }

  predicate Reached(p: Place, until: Option<Place>) { until.Some? ==> Earlier(p, until.value) }

  /** `places` are the places, up to the given one, where `after` differs, in visiting order. */
  ghost predicate Changed(before: Contents, after: Contents, until: Option<Place>, places: seq<Place>) {
    && InOrder(places) && AllFilled(before, places)
    && forall p :: p in places <==> Reached(p, until) && At(after, p) != At(before, p)
  }

  lemma {:induction false} NothingChanged(cs: Contents)
    ensures forall until :: Changed(cs, cs, until, [])
    ensures KeysOf(cs, []) == []
  {}

  /** One more changed place in front of the later ones. */
  lemma {:induction false} OneMoreChanged(
    enc: Encoder, cs: Contents, ds: Contents, out: Contents, cands: seq<Candidate>, until: Option<Place>, rest: seq<Place>) returns (places: seq<Place>)
    requires cands != [] && WellListed(enc, cs, cands) && OneVisited(cs, ds, cands[0])
    requires Reached(PlaceOf(cands[0]), until)
    requires Changed(ds, out, until, rest) && forall p :: !Among(cands[1..], p) ==> At(out, p) == At(ds, p)
    ensures places == if ds == cs then rest else [PlaceOf(cands[0])] + rest
    ensures Changed(cs, out, until, places) && AllFilled(cs, places) && AllFilled(ds, rest)
    ensures KeysOf(cs, places) == (if ds == cs then [] else [cands[0].key]) + KeysOf(ds, rest)
  {
    hide At, Strip, Marked, Earlier;
    if ds == cs {
      places := rest;
    } else {
      var p0 := PlaceOf(cands[0]);
      places := [p0] + rest;
      OthersKept(cs, ds, cands[0]);
      RestListed(enc, cs, ds, cands);
      MarkedAt(cs, p0, p0);
      assert Tells(enc, cs, cands[0]);
      forall p | p in rest ensures p != p0 && Earlier(p0, p) {
        assert Among(cands[1..], p);
        var j :| 0 <= j < |cands[1..]| && PlaceOf(cands[1..][j]) == p;
        assert Earlier(PlaceOf(cands[0]), PlaceOf(cands[j + 1]));
      }
      forall n | 0 <= n < |places| ensures At(cs, places[n]).Some? {
        if n > 0 { assert places[n] == rest[n - 1] && places[n] in rest; }
      }
      assert At(out, p0) == At(ds, p0) != At(cs, p0);
      assert InOrder(places) by {
        forall i, j | 0 <= i < j < |places| ensures Earlier(places[i], places[j]) {
          assert places[j] == rest[j - 1] && places[j] in rest;
          if i > 0 { assert places[i] == rest[i - 1]; }
        }
      }
      assert KeysOf(cs, places) == [cands[0].key] + KeysOf(ds, rest) by {
        forall n | 0 <= n < |places| ensures KeysOf(cs, places)[n] == ([cands[0].key] + KeysOf(ds, rest))[n] {
          if n > 0 { assert places[n] == rest[n - 1] && places[n] in rest; }
        }
      }
    }
  }

  lemma {:induction false} ElideFromPlaces(
    cfg: Config, enc: Encoder, factor: real, target: int, lo: nat, hi: nat, st: Elision, cands: seq<Candidate>) returns (places: seq<Place>)
    requires AllFit(st.contents, lo, hi, cands) && WellListed(enc, st.contents, cands)
    ensures var out := ElideFrom(cfg, enc, factor, target, lo, hi, st, cands);
      Changed(st.contents, out.contents, None, places) && out.keys == st.keys + KeysOf(st.contents, places)
    decreases |cands|
  {
    hide Tokens, Calibrated, SlotAt, SetBody, Among, Fits, At, Strip, Tells, Earlier, Marked, Changed, KeysOf;
    if cands == [] || Calibrated(st.tokens, factor) <= target {
      places := [];
      NothingChanged(st.contents);
    } else {
      ElideFromNext(cfg, enc, factor, target, lo, hi, st, cands);
      var next := Next(cfg, enc, st, cands[0]);
      RestListed(enc, st.contents, next.contents, cands);
      var out := ElideFrom(cfg, enc, factor, target, lo, hi, next, cands[1..]);
      var rest := ElideFromPlaces(cfg, enc, factor, target, lo, hi, next, cands[1..]);
      forall p | !Among(cands[1..], p) ensures At(out.contents, p) == At(next.contents, p) {
        ElideFromOthers(cfg, enc, factor, target, lo, hi, next, cands[1..], p);
      }
      places := OneMoreChanged(enc, st.contents, next.contents, out.contents, cands, None, rest);
      NextKeys(cfg, enc, st, cands[0]);
    }
  }

  lemma {:induction false} NextKeys(cfg: Config, enc: Encoder, st: Elision, c: Candidate)
    requires Tells(enc, st.contents, c)
    ensures At(st.contents, PlaceOf(c)).Some?
    ensures var next := Next(cfg, enc, st, c);
      next.keys == st.keys + if next.contents == st.contents then [] else [c.key]
  {
    hide Tokens, At, Marked, Strip;
    MarkedAt(st.contents, PlaceOf(c), PlaceOf(c));
  }

  // ---------------------------------------------------------------------------------------------
  // Applying the recorded elisions again.
  // ---------------------------------------------------------------------------------------------

  ghost predicate Again(cfg: Config, enc: Encoder, owed: multiset<ResponseKey>, st: Elision, c: Candidate)
    requires At(st.contents, PlaceOf(c)).Some?
  {
    c.name !in cfg.preserve && c.key in owed && Tokens(enc, Marked(st.contents, PlaceOf(c))) < st.tokens
  }

  ghost function NextAgain(cfg: Config, enc: Encoder, owed: multiset<ResponseKey>, st: Elision, c: Candidate): Elision
    requires At(st.contents, PlaceOf(c)).Some?
  {
    var next := Marked(st.contents, PlaceOf(c));
    if Again(cfg, enc, owed, st, c) then Elision(next, Tokens(enc, next), st.keys + [c.key]) else st
  }

  lemma {:induction false} ReElideFromNext(cfg: Config, enc: Encoder, owed: multiset<ResponseKey>, lo: nat, hi: nat, st: Elision, cands: seq<Candidate>)
    requires AllFit(st.contents, lo, hi, cands) && cands != []
    ensures At(st.contents, PlaceOf(cands[0])).Some?
    ensures var next := NextAgain(cfg, enc, owed, st, cands[0]);
      var less := if Again(cfg, enc, owed, st, cands[0]) then owed - multiset{cands[0].key} else owed;
      && AllFit(next.contents, lo, hi, cands[1..]) && OneVisited(st.contents, next.contents, cands[0])
      && ReElideFrom(cfg, enc, owed, lo, hi, st, cands) == ReElideFrom(cfg, enc, less, lo, hi, next, cands[1..])
      && (st.tokens == Tokens(enc, st.contents) ==> next.tokens == Tokens(enc, next.contents))
  {
    hide Tokens, SlotAt, SetBody;
    assert Fits(st.contents, lo, hi, cands[0]);
    assert AllFit(st.contents, lo, hi, cands[1..]);
    FitAfterSetBody(st.contents, lo, hi, cands[1..], cands[0], ELIDED);
    assert ElideOne(st.contents, cands[0]) == Marked(st.contents, PlaceOf(cands[0]));
  }

  lemma {:induction false} ReElideFromOthers(
    cfg: Config, enc: Encoder, owed: multiset<ResponseKey>, lo: nat, hi: nat, st: Elision, cands: seq<Candidate>, p: Place)
    requires AllFit(st.contents, lo, hi, cands)
    ensures var out := ReElideFrom(cfg, enc, owed, lo, hi, st, cands);
      SameShape(out.contents, st.contents) && (!Among(cands, p) ==> At(out.contents, p) == At(st.contents, p))
    decreases |cands|
  {
    hide Tokens, SlotAt, SetBody, NextAgain, Again, Among, OneVisited, Fits, At, Strip;
    if cands != [] {
      ReElideFromNext(cfg, enc, owed, lo, hi, st, cands);
      var next := NextAgain(cfg, enc, owed, st, cands[0]);
      var less := if Again(cfg, enc, owed, st, cands[0]) then owed - multiset{cands[0].key} else owed;
      if !Among(cands, p) { NotFirst(cands, p); }
      OthersKept(st.contents, next.contents, cands[0]);
      ReElideFromOthers(cfg, enc, less, lo, hi, next, cands[1..], p);
    }
  }

  /** A recorded key is used up by the earliest responses that carry it. */
  ghost predicate DecidesAgain(cfg: Config, enc: Encoder, owed: multiset<ResponseKey>, before: Contents, after: Contents, c: Candidate,
                               mid: Contents, taken: seq<Place>) {
    var p := PlaceOf(c);
    && Visiting(mid, before, after, p) && Changed(before, after, Some(p), taken)
    && At(before, p).Some? && At(mid, p) == At(before, p)
    && (if c.name !in cfg.preserve && c.key in owed - multiset(KeysOf(before, taken)) && Tokens(enc, Marked(mid, p)) < Tokens(enc, mid)
        then At(after, p) == At(Marked(mid, p), p) else At(after, p) == At(before, p))
  }

  lemma {:induction false} LessOwed(owed: multiset<ResponseKey>, key: ResponseKey, rest: seq<ResponseKey>)
    ensures owed - multiset{key} - multiset(rest) == owed - multiset([key] + rest)
  {}

  lemma {:induction false} NothingBefore(cs: Contents, out: Contents, p: Place)
    requires Visiting(cs, cs, out, p)
    ensures Changed(cs, out, Some(p), [])
  {
    forall q | Earlier(q, p) ensures At(out, q) == At(cs, q) { assert At(cs, q) == if Earlier(q, p) then At(out, q) else At(cs, q); }
  }

  lemma {:induction false} ReElideFromAt(
    cfg: Config, enc: Encoder, owed: multiset<ResponseKey>, lo: nat, hi: nat, st: Elision, cands: seq<Candidate>, j: nat)
    returns (mid: Contents, taken: seq<Place>)
    requires AllFit(st.contents, lo, hi, cands) && WellListed(enc, st.contents, cands) && st.tokens == Tokens(enc, st.contents) && j < |cands|
    ensures DecidesAgain(cfg, enc, owed, st.contents, ReElideFrom(cfg, enc, owed, lo, hi, st, cands).contents, cands[j], mid, taken)
    decreases |cands|
  {
    hide Tokens, SlotAt, SetBody, Among, OneVisited, Fits, At, Strip, Tells, Visiting, Earlier, Marked, ReElideFrom, KeysOf, Changed;
    var out := ReElideFrom(cfg, enc, owed, lo, hi, st, cands).contents;
    var p := PlaceOf(cands[j]);
    TellsSome(enc, st.contents, cands[j]);
    ReElideFromNext(cfg, enc, owed, lo, hi, st, cands);
    var next := NextAgain(cfg, enc, owed, st, cands[0]);
    var less := if Again(cfg, enc, owed, st, cands[0]) then owed - multiset{cands[0].key} else owed;
    RestListed(enc, st.contents, next.contents, cands);
    if j == 0 {
      mid, taken := st.contents, [];
      forall q ensures SameShape(out, st.contents) && (!Among(cands, q) ==> At(out, q) == At(st.contents, q)) {
        ReElideFromOthers(cfg, enc, owed, lo, hi, st, cands, q);
      }
      FirstVisiting(st.contents, out, cands);
      NothingBefore(st.contents, out, p);
      NothingChanged(st.contents);
      ReElideFromOthers(cfg, enc, less, lo, hi, next, cands[1..], p);
    } else {
      var rest;
      mid, rest := ReElideFromAt(cfg, enc, less, lo, hi, next, cands[1..], j - 1);
      assert cands[1..][j - 1] == cands[j];
      LaterVisiting(enc, st.contents, next.contents, cands, mid, out, j);
      forall q | !Among(cands[1..], q) ensures At(out, q) == At(next.contents, q) {
        ReElideFromOthers(cfg, enc, less, lo, hi, next, cands[1..], q);
      }
      taken := OneMoreChanged(enc, st.contents, next.contents, out, cands, Some(p), rest);
      AgainMoves(cfg, enc, owed, st, cands[0]);
      LessOwed(owed, cands[0].key, KeysOf(next.contents, rest));
    }
  }

  lemma {:induction false} AgainMoves(cfg: Config, enc: Encoder, owed: multiset<ResponseKey>, st: Elision, c: Candidate)
    requires Tells(enc, st.contents, c)
    ensures At(st.contents, PlaceOf(c)).Some?
    ensures Again(cfg, enc, owed, st, c) <==> NextAgain(cfg, enc, owed, st, c).contents != st.contents
  {
    hide Tokens, At, Marked, Strip;
    MarkedAt(st.contents, PlaceOf(c), PlaceOf(c));
  }
}
