/** Response-body elision: which bodies are eligible, and the two loops that replace them. */
module CompactionElision {
  import opened Numbers
  import opened Wrappers
  import opened CompactionContents
  import opened CompactionEstimate
  import opened CompactionTurns

  /** The identity of a response: its ID, or a digest of its name and body when it has none. */
  datatype ResponseKey = ResponseId(id: string) | ResponseDigest(name: string, body: Body)

  datatype Slot = FunctionSlot | ToolSlot

  datatype Candidate = Candidate(content: nat, part: nat, slot: Slot, key: ResponseKey, name: string, bodyTokens: nat, original: Body)

  function Filler(p: Part, slot: Slot): Option<Response> {
    match slot
    case FunctionSlot => p.response
    case ToolSlot => p.toolResponse
  }

  /** The response sitting in a slot of the request, if any. */
  function SlotAt(cs: Contents, i: nat, k: nat, slot: Slot): Option<Response> {
    if i < |cs| && cs[i].Some? && k < |cs[i].value.parts| && cs[i].value.parts[k].Some?
    then Filler(cs[i].value.parts[k].value, slot) else None
  }

  function WithBody(p: Part, slot: Slot, body: Body): Part
    requires Filler(p, slot).Some?
  {
    match slot
    case FunctionSlot => p.(response := Some(p.response.value.(body := body)))
    case ToolSlot => p.(toolResponse := Some(p.toolResponse.value.(body := body)))
  }

  /** The request with one response body replaced. */
  function SetBody(cs: Contents, i: nat, k: nat, slot: Slot, body: Body): Contents
    requires SlotAt(cs, i, k, slot).Some?
  {
    var c := cs[i].value;
    cs[i := Some(c.(parts := c.parts[k := Some(WithBody(c.parts[k].value, slot, body))]))]
  }

  lemma {:induction false} SetBodyShape(cs: Contents, i: nat, k: nat, slot: Slot, body: Body)
    requires SlotAt(cs, i, k, slot).Some?
    ensures SameShape(SetBody(cs, i, k, slot, body), cs)
  {
    var ds := SetBody(cs, i, k, slot, body);
    var ps, qs := cs[i].value.parts, ds[i].value.parts;
    assert StripContent(ds[i]).value.parts == StripContent(cs[i]).value.parts by {
      forall j | 0 <= j < |ps| ensures StripPart(qs[j]) == StripPart(ps[j]) {}
    }
    assert Strip(ds) == Strip(cs);
  }

  lemma {:induction false} SetBodySlots(cs: Contents, i: nat, k: nat, slot: Slot, body: Body, i': nat, k': nat, slot': Slot)
    requires SlotAt(cs, i, k, slot).Some?
    ensures SlotAt(SetBody(cs, i, k, slot, body), i', k', slot')
         == if i' == i && k' == k && slot' == slot then Some(SlotAt(cs, i, k, slot).value.(body := body)) else SlotAt(cs, i', k', slot')
  {}

  function KeyFor(r: Response): ResponseKey {
    if r.id != "" then ResponseId(r.id) else ResponseDigest(r.name, r.body)
  }

  /** A response whose body is already the marker is no candidate. */
  function CandidateAt(enc: Encoder, cs: Contents, i: nat, k: nat, slot: Slot): seq<Candidate> {
    match SlotAt(cs, i, k, slot)
    case None => []
    case Some(r) =>
      if r.body == ELIDED then [] else
      [Candidate(i, k, slot, KeyFor(r), r.name, CeilDiv(enc.bodyBytes(r.body), BYTES_PER_TOKEN), r.body)]
  }

  function PartCandidates(enc: Encoder, cs: Contents, i: nat, k: nat): seq<Candidate> {
    CandidateAt(enc, cs, i, k, FunctionSlot) + CandidateAt(enc, cs, i, k, ToolSlot)
  }

  function ContentCandidates(enc: Encoder, cs: Contents, i: nat, n: nat): seq<Candidate> {
    if n == 0 then [] else ContentCandidates(enc, cs, i, n - 1) + PartCandidates(enc, cs, i, n - 1)
  }

  function PartCount(cs: Contents, i: nat): nat { if i < |cs| && cs[i].Some? then |cs[i].value.parts| else 0 }

  function CandidatesUpTo(enc: Encoder, cs: Contents, lo: nat, hi: nat): seq<Candidate> {
    if hi <= lo then [] else CandidatesUpTo(enc, cs, lo, hi - 1) + ContentCandidates(enc, cs, hi - 1, PartCount(cs, hi - 1))
  }

  /** Candidates lie in contents [1, EligibleEnd). */
  function EligibleEnd(cs: Contents, keepRecent: int): nat {
    Max(Min(1, |cs|), Min(Max(1, |cs| - keepRecent), |cs|))
  }

  function Eligible(enc: Encoder, cs: Contents, keepRecent: int): seq<Candidate> {
    CandidatesUpTo(enc, cs, Min(1, |cs|), EligibleEnd(cs, keepRecent))
  }

  method EligibleResponseCandidates(enc: Encoder, cs: Contents, keepRecent: int) returns (candidates: seq<Candidate>)
    ensures candidates == Eligible(enc, cs, keepRecent)
  {
    candidates := [];
    var start, end := Min(1, |cs|), EligibleEnd(cs, keepRecent);
    for i := start to end
      invariant candidates == CandidatesUpTo(enc, cs, start, i)
    {
      ghost var before := candidates;
      if cs[i].Some? {
        var parts := cs[i].value.parts;
        for k := 0 to |parts|
          invariant candidates == before + ContentCandidates(enc, cs, i, k)
        {
          candidates := candidates + CandidateAt(enc, cs, i, k, FunctionSlot);
          candidates := candidates + CandidateAt(enc, cs, i, k, ToolSlot);
        }
      }
    }
  }

  // ---------------------------------------------------------------------------------------------
  // What is true of every candidate.
  // ---------------------------------------------------------------------------------------------

  /** A candidate names a filled slot in the eligible range. */
  predicate Fits(cs: Contents, lo: nat, hi: nat, c: Candidate) {
    lo <= c.content < hi && SlotAt(cs, c.content, c.part, c.slot).Some?
  }

  predicate AllFit(cs: Contents, lo: nat, hi: nat, candidates: seq<Candidate>) {
    forall j :: 0 <= j < |candidates| ==> Fits(cs, lo, hi, candidates[j])
  }

  lemma {:induction false} ContentCandidatesFit(enc: Encoder, cs: Contents, i: nat, n: nat)
    ensures AllFit(cs, i, i + 1, ContentCandidates(enc, cs, i, n))
  {
    if n > 0 { ContentCandidatesFit(enc, cs, i, n - 1); }
  }

  lemma {:induction false} CandidatesFit(enc: Encoder, cs: Contents, lo: nat, hi: nat)
    ensures AllFit(cs, lo, hi, CandidatesUpTo(enc, cs, lo, hi))
  {
    if lo < hi {
      CandidatesFit(enc, cs, lo, hi - 1);
      ContentCandidatesFit(enc, cs, hi - 1, PartCount(cs, hi - 1));
    }
  }

  lemma {:induction false} FitAfterSetBody(cs: Contents, lo: nat, hi: nat, candidates: seq<Candidate>, c: Candidate, body: Body)
    requires AllFit(cs, lo, hi, candidates) && Fits(cs, lo, hi, c)
    ensures AllFit(SetBody(cs, c.content, c.part, c.slot, body), lo, hi, candidates)
  {
    var ds := SetBody(cs, c.content, c.part, c.slot, body);
    forall j | 0 <= j < |candidates| ensures Fits(ds, lo, hi, candidates[j]) {
      assert Fits(cs, lo, hi, candidates[j]);
      SetBodySlots(cs, c.content, c.part, c.slot, body, candidates[j].content, candidates[j].part, candidates[j].slot);
    }
  }

  // ---------------------------------------------------------------------------------------------
  // The two loops as folds over the candidates.
  // ---------------------------------------------------------------------------------------------

  datatype Elision = Elision(contents: Contents, tokens: nat, keys: seq<ResponseKey>)

  function ElideOne(cs: Contents, c: Candidate): Contents
    requires SlotAt(cs, c.content, c.part, c.slot).Some?
  {
    SetBody(cs, c.content, c.part, c.slot, ELIDED)
  }

  /** Elide in order until the target is met; an elision that does not lower the estimate is undone. */
  function ElideFrom(cfg: Config, enc: Encoder, factor: real, target: int, lo: nat, hi: nat, st: Elision, cands: seq<Candidate>): Elision
    requires AllFit(st.contents, lo, hi, cands)
    decreases |cands|
  {
    if cands == [] || Calibrated(st.tokens, factor) <= target then st else
      var c := cands[0];
      assert AllFit(st.contents, lo, hi, cands[1..]);
      if c.name in cfg.preserve || c.bodyTokens < cfg.minimumElision then
        ElideFrom(cfg, enc, factor, target, lo, hi, st, cands[1..])
      else
        assert Fits(st.contents, lo, hi, c);
        var next := ElideOne(st.contents, c);
        FitAfterSetBody(st.contents, lo, hi, cands[1..], c, ELIDED);
        if Tokens(enc, next) >= st.tokens then
          ElideFrom(cfg, enc, factor, target, lo, hi, st, cands[1..])
        else
          ElideFrom(cfg, enc, factor, target, lo, hi, Elision(next, Tokens(enc, next), st.keys + [c.key]), cands[1..])
  }

  /** Re-elide every owed response that still lowers the estimate. */
  function ReElideFrom(cfg: Config, enc: Encoder, owed: multiset<ResponseKey>, lo: nat, hi: nat, st: Elision, cands: seq<Candidate>): Elision
    requires AllFit(st.contents, lo, hi, cands)
    decreases |cands|
  {
    if cands == [] then st else
      var c := cands[0];
      assert AllFit(st.contents, lo, hi, cands[1..]);
      if c.name in cfg.preserve || c.key !in owed then
        ReElideFrom(cfg, enc, owed, lo, hi, st, cands[1..])
      else
        assert Fits(st.contents, lo, hi, c);
        var next := ElideOne(st.contents, c);
        FitAfterSetBody(st.contents, lo, hi, cands[1..], c, ELIDED);
        if Tokens(enc, next) >= st.tokens then
          ReElideFrom(cfg, enc, owed, lo, hi, st, cands[1..])
        else
          ReElideFrom(cfg, enc, owed - multiset{c.key}, lo, hi, Elision(next, Tokens(enc, next), st.keys + [c.key]), cands[1..])
  }

  /** `after` is `before` with some response bodies in contents [lo, hi) replaced by the marker. */
  ghost predicate OnlyElided(before: Contents, after: Contents, lo: nat, hi: nat, preserve: set<string>) {
    && SameShape(after, before)
    && forall i: nat, k: nat, slot: Slot ::
         var old_, new_ := SlotAt(before, i, k, slot), SlotAt(after, i, k, slot);
         new_ == old_ ||
         (lo <= i < hi && old_.Some? && old_.value.name !in preserve && new_ == Some(old_.value.(body := ELIDED)))
  }

  /** What a fold promises: the estimate is right and fell by at least one token per elision. */
  ghost predicate Sound(enc: Encoder, st: Elision, out: Elision, lo: nat, hi: nat, preserve: set<string>) {
    && OnlyElided(st.contents, out.contents, lo, hi, preserve)
    && out.tokens == Tokens(enc, out.contents)
    && |st.keys| <= |out.keys| && out.tokens <= st.tokens - (|out.keys| - |st.keys|)
  }

  lemma {:induction false} OneElision(enc: Encoder, st: Elision, c: Candidate, lo: nat, hi: nat, preserve: set<string>)
    requires Fits(st.contents, lo, hi, c) && SlotAt(st.contents, c.content, c.part, c.slot).value.name !in preserve
    requires Tokens(enc, ElideOne(st.contents, c)) < st.tokens
    ensures var next := ElideOne(st.contents, c);
            Sound(enc, st, Elision(next, Tokens(enc, next), st.keys + [c.key]), lo, hi, preserve)
  {
    hide Strip, Tokens;
    var next := ElideOne(st.contents, c);
    SetBodyShape(st.contents, c.content, c.part, c.slot, ELIDED);
    forall i: nat, k: nat, slot: Slot
      ensures SlotAt(next, i, k, slot) == SlotAt(st.contents, i, k, slot)
           || (i == c.content && k == c.part && slot == c.slot
               && SlotAt(next, i, k, slot) == Some(SlotAt(st.contents, i, k, slot).value.(body := ELIDED)))
    {
      SetBodySlots(st.contents, c.content, c.part, c.slot, ELIDED, i, k, slot);
    }
  }

  lemma {:induction false} SoundTrans(enc: Encoder, a: Elision, b: Elision, c: Elision, lo: nat, hi: nat, preserve: set<string>)
    requires Sound(enc, a, b, lo, hi, preserve) && Sound(enc, b, c, lo, hi, preserve)
    ensures Sound(enc, a, c, lo, hi, preserve)
  {
    hide SlotAt, Strip, Tokens;
    forall i: nat, k: nat, slot: Slot
      ensures var old_, new_ := SlotAt(a.contents, i, k, slot), SlotAt(c.contents, i, k, slot);
        new_ == old_ ||
        (lo <= i < hi && old_.Some? && old_.value.name !in preserve && new_ == Some(old_.value.(body := ELIDED)))
    {
      assert SlotAt(b.contents, i, k, slot) == SlotAt(a.contents, i, k, slot) || SlotAt(b.contents, i, k, slot).Some?;
    }
  }

  /** Candidates carry the name found in their slot. */
  predicate Labelled(cs: Contents, candidates: seq<Candidate>) {
    forall j :: 0 <= j < |candidates| ==>
      var c := candidates[j];
      SlotAt(cs, c.content, c.part, c.slot).Some? && SlotAt(cs, c.content, c.part, c.slot).value.name == c.name
  }

  lemma {:induction false} LabelledAfterElision(cs: Contents, candidates: seq<Candidate>, c: Candidate)
    requires Labelled(cs, candidates) && SlotAt(cs, c.content, c.part, c.slot).Some?
    ensures Labelled(ElideOne(cs, c), candidates)
  {
    var ds := ElideOne(cs, c);
    forall j | 0 <= j < |candidates|
      ensures SlotAt(ds, candidates[j].content, candidates[j].part, candidates[j].slot).Some?
      ensures SlotAt(ds, candidates[j].content, candidates[j].part, candidates[j].slot).value.name == candidates[j].name
    {
      SetBodySlots(cs, c.content, c.part, c.slot, ELIDED, candidates[j].content, candidates[j].part, candidates[j].slot);
    }
  }

  lemma {:induction false} ContentCandidatesLabelled(enc: Encoder, cs: Contents, i: nat, n: nat)
    ensures Labelled(cs, ContentCandidates(enc, cs, i, n))
  {
    if n > 0 { ContentCandidatesLabelled(enc, cs, i, n - 1); }
  }

  lemma {:induction false} CandidatesLabelled(enc: Encoder, cs: Contents, lo: nat, hi: nat)
    ensures Labelled(cs, CandidatesUpTo(enc, cs, lo, hi))
  {
    if lo < hi {
      CandidatesLabelled(enc, cs, lo, hi - 1);
      ContentCandidatesLabelled(enc, cs, hi - 1, PartCount(cs, hi - 1));
    }
  }

  lemma {:induction false} ElideFromSound(cfg: Config, enc: Encoder, factor: real, target: int, lo: nat, hi: nat, st: Elision, cands: seq<Candidate>)
    requires AllFit(st.contents, lo, hi, cands) && Labelled(st.contents, cands)
    requires st.tokens == Tokens(enc, st.contents)
    ensures Sound(enc, st, ElideFrom(cfg, enc, factor, target, lo, hi, st, cands), lo, hi, cfg.preserve)
    decreases |cands|
  {
    hide Tokens, Calibrated, ElideOne, SlotAt, Strip, Sound;
    if cands == [] || Calibrated(st.tokens, factor) <= target {
      SoundRefl(enc, st, lo, hi, cfg.preserve);
    } else {
      var c, rest := cands[0], cands[1..];
      assert Fits(st.contents, lo, hi, c);
      var skip := c.name in cfg.preserve || c.bodyTokens < cfg.minimumElision;
      if skip || Tokens(enc, ElideOne(st.contents, c)) >= st.tokens {
        ElideFromSound(cfg, enc, factor, target, lo, hi, st, rest);
      } else {
        var next := Elision(ElideOne(st.contents, c), Tokens(enc, ElideOne(st.contents, c)), st.keys + [c.key]);
        OneElision(enc, st, c, lo, hi, cfg.preserve);
        FitAfterElision(st.contents, lo, hi, rest, c);
        LabelledAfterElision(st.contents, rest, c);
        ElideFromSound(cfg, enc, factor, target, lo, hi, next, rest);
        SoundTrans(enc, st, next, ElideFrom(cfg, enc, factor, target, lo, hi, next, rest), lo, hi, cfg.preserve);
      }
    }
  }

  lemma {:induction false} FitAfterElision(cs: Contents, lo: nat, hi: nat, candidates: seq<Candidate>, c: Candidate)
    requires AllFit(cs, lo, hi, candidates) && Fits(cs, lo, hi, c)
    ensures AllFit(ElideOne(cs, c), lo, hi, candidates)
  {
    FitAfterSetBody(cs, lo, hi, candidates, c, ELIDED);
  }

  lemma {:induction false} SoundRefl(enc: Encoder, st: Elision, lo: nat, hi: nat, preserve: set<string>)
    requires st.tokens == Tokens(enc, st.contents)
    ensures Sound(enc, st, st, lo, hi, preserve)
  {}

  lemma {:induction false} OneMoreTaken(all: multiset<ResponseKey>, before: multiset<ResponseKey>, owed: multiset<ResponseKey>, key: ResponseKey)
    requires key in owed && all - (before + multiset{key}) <= owed - multiset{key}
    ensures all - before <= owed
  {
    forall x ensures (all - before)[x] <= owed[x] {
      assert (all - (before + multiset{key}))[x] <= (owed - multiset{key})[x];
    }
  }

  lemma {:induction false} ReElideFromSound(cfg: Config, enc: Encoder, owed: multiset<ResponseKey>, lo: nat, hi: nat, st: Elision, cands: seq<Candidate>)
    requires AllFit(st.contents, lo, hi, cands) && Labelled(st.contents, cands)
    requires st.tokens == Tokens(enc, st.contents)
    ensures var out := ReElideFrom(cfg, enc, owed, lo, hi, st, cands);
      Sound(enc, st, out, lo, hi, cfg.preserve) && multiset(out.keys) - multiset(st.keys) <= owed
    decreases |cands|
  {
    hide Tokens, ElideOne, SlotAt, Strip, Sound;
    if cands == [] {
      SoundRefl(enc, st, lo, hi, cfg.preserve);
    } else {
      var c, rest := cands[0], cands[1..];
      assert Fits(st.contents, lo, hi, c);
      if c.name in cfg.preserve || c.key !in owed || Tokens(enc, ElideOne(st.contents, c)) >= st.tokens {
        ReElideFromSound(cfg, enc, owed, lo, hi, st, rest);
      } else {
        var next := Elision(ElideOne(st.contents, c), Tokens(enc, ElideOne(st.contents, c)), st.keys + [c.key]);
        OneElision(enc, st, c, lo, hi, cfg.preserve);
        FitAfterElision(st.contents, lo, hi, rest, c);
        LabelledAfterElision(st.contents, rest, c);
        ReElideFromSound(cfg, enc, owed - multiset{c.key}, lo, hi, next, rest);
        var out := ReElideFrom(cfg, enc, owed - multiset{c.key}, lo, hi, next, rest);
        SoundTrans(enc, st, next, out, lo, hi, cfg.preserve);
        assert multiset(next.keys) == multiset(st.keys) + multiset{c.key};
        OneMoreTaken(multiset(out.keys), multiset(st.keys), owed, c.key);
        assert out == ReElideFrom(cfg, enc, owed, lo, hi, st, cands);
      }
    }
  }

  // ---------------------------------------------------------------------------------------------
  // Both over all candidates of a request.
  // ---------------------------------------------------------------------------------------------

  ghost function Elided(cfg: Config, enc: Encoder, factor: real, target: int, cs: Contents): Elision {
    CandidatesFit(enc, cs, Min(1, |cs|), EligibleEnd(cs, cfg.keepRecent));
    ElideFrom(cfg, enc, factor, target, Min(1, |cs|), EligibleEnd(cs, cfg.keepRecent),
              Elision(cs, Tokens(enc, cs), []), Eligible(enc, cs, cfg.keepRecent))
  }

  ghost function ReElided(cfg: Config, enc: Encoder, owed: multiset<ResponseKey>, cs: Contents): Elision {
    CandidatesFit(enc, cs, Min(1, |cs|), EligibleEnd(cs, cfg.keepRecent));
    ReElideFrom(cfg, enc, owed, Min(1, |cs|), EligibleEnd(cs, cfg.keepRecent),
                Elision(cs, Tokens(enc, cs), []), Eligible(enc, cs, cfg.keepRecent))
  }
}
