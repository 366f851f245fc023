/**
 Call/response pairing. A call and a response are paired by their ID, or, without one, by being the n-th
 such call and the n-th such response of one name. The table built by `CollectPairLocations` is turned into
 a closed form, `Closed`, that only counts marks before, inside and after a range.
 */
module CompactionPairs {
  import opened Wrappers
  import opened Sequences
  import opened CompactionContents

  /** "id:" + id, or "name:" + name + "#" + n; the digits after the last '#' make the spelling injective. */
  datatype PairKey = ById(id: string) | ByOccurrence(name: string, n: nat)

  /** Marks without an ID of one name and side. */
  function Unnamed(ms: seq<Mark>, name: string, side: Side): nat {
    if ms == [] then 0 else
      var m := ms[|ms| - 1];
      Unnamed(ms[..|ms| - 1], name, side) + (if m.id == "" && m.name == name && m.side == side then 1 else 0)
  }

  /** Marks of one ID and side. */
  function Named(ms: seq<Mark>, id: string, side: Side): nat {
    if ms == [] then 0 else
      var m := ms[|ms| - 1];
      Named(ms[..|ms| - 1], id, side) + (if m.id == id && m.side == side then 1 else 0)
  }

  function KeyOf(m: Mark, before: seq<Mark>): PairKey {
    if m.id != "" then ById(m.id) else ByOccurrence(m.name, Unnamed(before, m.name, m.side))
  }

  function KeyAt(ms: seq<Mark>, k: nat): PairKey
    requires k < |ms|
  {
    KeyOf(ms[k], ms[..k])
  }

  lemma {:induction false} UnnamedAppend(a: seq<Mark>, b: seq<Mark>, name: string, side: Side)
    ensures Unnamed(a + b, name, side) == Unnamed(a, name, side) + Unnamed(b, name, side)
  {
    if b == [] {
      assert a + b == a;
    } else {
      assert (a + b)[..|a + b| - 1] == a + b[..|b| - 1];
      UnnamedAppend(a, b[..|b| - 1], name, side);
    }
  }

  lemma {:induction false} NamedAppend(a: seq<Mark>, b: seq<Mark>, id: string, side: Side)
    ensures Named(a + b, id, side) == Named(a, id, side) + Named(b, id, side)
  {
    if b == [] {
      assert a + b == a;
    } else {
      assert (a + b)[..|a + b| - 1] == a + b[..|b| - 1];
      NamedAppend(a, b[..|b| - 1], id, side);
    }
  }

  // ---------------------------------------------------------------------------------------------
  // The closed form and its stability when another closed range disappears.
  // ---------------------------------------------------------------------------------------------

  ghost predicate ClosedName(pre: seq<Mark>, mid: seq<Mark>, name: string) {
    && Unnamed(mid, name, CallSide) == Unnamed(mid, name, ResponseSide)
    && (Unnamed(mid, name, CallSide) > 0 ==> Unnamed(pre, name, CallSide) == Unnamed(pre, name, ResponseSide))
  }

  ghost predicate ClosedId(pre: seq<Mark>, mid: seq<Mark>, post: seq<Mark>, id: string) {
    Named(mid, id, CallSide) + Named(mid, id, ResponseSide) > 0 ==>
      && Named(mid, id, CallSide) == Named(mid, id, ResponseSide)
      && Named(pre, id, CallSide) == Named(pre, id, ResponseSide) == 0
      && Named(post, id, CallSide) == Named(post, id, ResponseSide) == 0
  }

  /** No pair straddles the border of `mid`: every pair touching it is complete and wholly inside. */
  ghost predicate Closed(pre: seq<Mark>, mid: seq<Mark>, post: seq<Mark>) {
    && (forall name: string :: ClosedName(pre, mid, name))
    && (forall id: string :: id != "" ==> ClosedId(pre, mid, post, id))
  }

  /** A later range is closed exactly when it was before an earlier closed range `gone` disappeared. */
  lemma {:induction false} ClosedAfterEarlierDrop(pre: seq<Mark>, gone: seq<Mark>, between: seq<Mark>, mid: seq<Mark>, post: seq<Mark>)
    requires Closed(pre, gone, between + mid + post)
    ensures Closed(pre + gone + between, mid, post) <==> Closed(pre + between, mid, post)
  {
    forall name: string
      ensures ClosedName(pre + gone + between, mid, name) <==> ClosedName(pre + between, mid, name)
    {
      assert ClosedName(pre, gone, name);
      forall side: Side
        ensures Unnamed(pre + gone + between, name, side)
             == Unnamed(pre, name, side) + Unnamed(gone, name, side) + Unnamed(between, name, side)
        ensures Unnamed(pre + between, name, side) == Unnamed(pre, name, side) + Unnamed(between, name, side)
      {
        UnnamedAppend(pre + gone, between, name, side);
        UnnamedAppend(pre, gone, name, side);
        UnnamedAppend(pre, between, name, side);
      }
    }
    forall id: string | id != ""
      ensures ClosedId(pre + gone + between, mid, post, id) <==> ClosedId(pre + between, mid, post, id)
    {
      assert ClosedId(pre, gone, between + mid + post, id);
      forall side: Side
        ensures Named(pre + gone + between, id, side) == Named(pre, id, side) + Named(gone, id, side) + Named(between, id, side)
        ensures Named(pre + between, id, side) == Named(pre, id, side) + Named(between, id, side)
        ensures Named(between + mid + post, id, side) == Named(between, id, side) + Named(mid, id, side) + Named(post, id, side)
      {
        NamedAppend(pre + gone, between, id, side);
        NamedAppend(pre, gone, id, side);
        NamedAppend(pre, between, id, side);
        NamedAppend(between + mid, post, id, side);
        NamedAppend(between, mid, id, side);
      }
    }
  }

  /** An earlier range is closed exactly when it was before a later closed range `gone` disappeared. */
  lemma {:induction false} ClosedBeforeLaterDrop(pre: seq<Mark>, mid: seq<Mark>, between: seq<Mark>, gone: seq<Mark>, post: seq<Mark>)
    requires Closed(pre + mid + between, gone, post)
    ensures Closed(pre, mid, between + gone + post) <==> Closed(pre, mid, between + post)
  {
    forall id: string | id != ""
      ensures ClosedId(pre, mid, between + gone + post, id) <==> ClosedId(pre, mid, between + post, id)
    {
      assert ClosedId(pre + mid + between, gone, post, id);
      forall side: Side
        ensures Named(between + gone + post, id, side) == Named(between, id, side) + Named(gone, id, side) + Named(post, id, side)
        ensures Named(between + post, id, side) == Named(between, id, side) + Named(post, id, side)
        ensures Named(pre + mid + between, id, side) == Named(pre, id, side) + Named(mid, id, side) + Named(between, id, side)
      {
        NamedAppend(between + gone, post, id, side);
        NamedAppend(between, gone, id, side);
        NamedAppend(between, post, id, side);
        NamedAppend(pre + mid, between, id, side);
        NamedAppend(pre, mid, id, side);
      }
    }
  }

  /** Some ID of `mid` occurs again in `tail`. */
  ghost predicate Reuses(mid: seq<Mark>, tail: seq<Mark>) {
    exists i, j :: 0 <= i < |mid| && 0 <= j < |tail| && mid[i].id != "" && mid[i].id == tail[j].id
  }

  lemma {:induction false} NamedPositive(ms: seq<Mark>, id: string)
    ensures Named(ms, id, CallSide) + Named(ms, id, ResponseSide) > 0 <==> exists i :: 0 <= i < |ms| && ms[i].id == id
  {
    if ms != [] {
      var k := |ms| - 1;
      NamedPositive(ms[..k], id);
      if ms[k].id == id {
        assert ms[k].side == CallSide || ms[k].side == ResponseSide;
      } else if i :| 0 <= i < |ms| && ms[i].id == id {
        assert ms[..k][i].id == id;
      }
    }
  }

  /** Appending marks keeps a closed range closed exactly when none of its IDs is reused; it never closes one. */
  lemma {:induction false} ClosedAppend(pre: seq<Mark>, mid: seq<Mark>, post: seq<Mark>, tail: seq<Mark>)
    ensures Closed(pre, mid, post + tail) <==> Closed(pre, mid, post) && !Reuses(mid, tail)
  {
    forall id: string | id != ""
      ensures ClosedId(pre, mid, post + tail, id) <==>
                ClosedId(pre, mid, post, id)
                && !((exists i :: 0 <= i < |mid| && mid[i].id == id) && (exists j :: 0 <= j < |tail| && tail[j].id == id))
    {
      NamedAppend(post, tail, id, CallSide);
      NamedAppend(post, tail, id, ResponseSide);
      NamedPositive(mid, id);
      NamedPositive(tail, id);
    }
    if Reuses(mid, tail) {
      var i, j :| 0 <= i < |mid| && 0 <= j < |tail| && mid[i].id != "" && mid[i].id == tail[j].id;
      assert !ClosedId(pre, mid, post + tail, mid[i].id);
    } else {
      forall id: string | id != "" && ClosedId(pre, mid, post, id) ensures ClosedId(pre, mid, post + tail, id) {}
      forall id: string | id != "" && ClosedId(pre, mid, post + tail, id) ensures ClosedId(pre, mid, post, id) {}
    }
  }

  // ---------------------------------------------------------------------------------------------
  // Matching: dropping a closed range renumbers occurrences but pairs the survivors as before.
  // ---------------------------------------------------------------------------------------------

  /** Position of a survivor before `gone` marks were cut out at `at`. */
  function Lift(k: nat, at: nat, gone: nat): nat { if k < at then k else k + gone }

  lemma {:induction false} UnnamedSplit(ms: seq<Mark>, at: nat, name: string, side: Side)
    requires at <= |ms|
    ensures Unnamed(ms, name, side) == Unnamed(ms[..at], name, side) + Unnamed(ms[at..], name, side)
  {
    assert ms == ms[..at] + ms[at..];
    UnnamedAppend(ms[..at], ms[at..], name, side);
  }

  /** The occurrence number of a survivor, before and after the cut. */
  lemma {:induction false} LiftedKey(pre: seq<Mark>, gone: seq<Mark>, post: seq<Mark>, k: nat)
    requires k < |pre + post|
    ensures (pre + gone + post)[Lift(k, |pre|, |gone|)] == (pre + post)[k]
    ensures var m := (pre + post)[k];
            Unnamed((pre + gone + post)[..Lift(k, |pre|, |gone|)], m.name, m.side)
            == Unnamed((pre + post)[..k], m.name, m.side) + (if k < |pre| then 0 else Unnamed(gone, m.name, m.side))
    ensures var m := (pre + post)[k];
            m.id == "" && k < |pre| ==> Unnamed((pre + post)[..k], m.name, m.side) < Unnamed(pre, m.name, m.side)
    ensures var m := (pre + post)[k];
            m.id == "" && k >= |pre| ==> Unnamed((pre + post)[..k], m.name, m.side) >= Unnamed(pre, m.name, m.side)
  {
    var m := (pre + post)[k];
    if k < |pre| {
      assert (pre + gone + post)[..k] == (pre + post)[..k] == pre[..k];
      assert pre[..k + 1][..k] == pre[..k];
      UnnamedSplit(pre, k + 1, m.name, m.side);
    } else {
      var tail := post[..k - |pre|];
      assert (pre + gone + post)[..k + |gone|] == pre + gone + tail;
      assert (pre + post)[..k] == pre + tail;
      UnnamedAppend(pre + gone, tail, m.name, m.side);
      UnnamedAppend(pre, gone, m.name, m.side);
      UnnamedAppend(pre, tail, m.name, m.side);
    }
  }

  lemma {:induction false} MatchingSurvivesDrop(pre: seq<Mark>, gone: seq<Mark>, post: seq<Mark>, i: nat, j: nat)
    requires Closed(pre, gone, post)
    requires i < |pre + post| && j < |pre + post|
    requires (pre + post)[i].side == CallSide && (pre + post)[j].side == ResponseSide
    ensures KeyAt(pre + post, i) == KeyAt(pre + post, j) <==>
              KeyAt(pre + gone + post, Lift(i, |pre|, |gone|)) == KeyAt(pre + gone + post, Lift(j, |pre|, |gone|))
  {
    LiftedKey(pre, gone, post, i);
    LiftedKey(pre, gone, post, j);
    assert ClosedName(pre, gone, (pre + post)[i].name);
  }

  // ---------------------------------------------------------------------------------------------
  // The pair table.
  // ---------------------------------------------------------------------------------------------

  datatype Located = Located(mark: Mark, at: nat)
  datatype PairLocations = PairLocations(calls: seq<nat>, responses: seq<nat>)

  function MarksOf(ls: seq<Located>): seq<Mark> {
    if ls == [] then [] else MarksOf(ls[..|ls| - 1]) + [ls[|ls| - 1].mark]
  }

  function Place(ms: seq<Mark>, at: nat): seq<Located> {
    if ms == [] then [] else Place(ms[..|ms| - 1], at) + [Located(ms[|ms| - 1], at)]
  }

  lemma {:induction false} PlaceMarks(ms: seq<Mark>, at: nat)
    ensures MarksOf(Place(ms, at)) == ms && AllWithin(Place(ms, at), at, at + 1)
  {
    if ms != [] {
      PlaceMarks(ms[..|ms| - 1], at);
      MarksOfSnoc(Place(ms[..|ms| - 1], at), Located(ms[|ms| - 1], at));
    }
  }

  lemma {:induction false} PlaceAppend(a: seq<Mark>, b: seq<Mark>, at: nat)
    ensures Place(a + b, at) == Place(a, at) + Place(b, at)
  {
    if b == [] {
      assert a + b == a;
    } else {
      assert (a + b)[..|a + b| - 1] == a + b[..|b| - 1];
      PlaceAppend(a, b[..|b| - 1], at);
    }
  }

  lemma {:induction false} PlaceNothing(at: nat)
    ensures Place([], at) == []
  {}

  lemma {:induction false} PlaceFour(seen: seq<Located>, a: seq<Mark>, b: seq<Mark>, c: seq<Mark>, d: seq<Mark>, at: nat)
    ensures seen + Place(a, at) + Place(b, at) + Place(c, at) + Place(d, at) == seen + Place(a + b + c + d, at)
  {
    PlaceAppend(a, b, at);
    PlaceAppend(a + b, c, at);
    PlaceAppend(a + b + c, d, at);
  }

  lemma {:induction false} PlaceNext(seen: seq<Located>, done: seq<Option<Part>>, p: Option<Part>, at: nat)
    ensures seen + Place(PartsMarks(done), at) + Place(PartMarks(p), at) == seen + Place(PartsMarks(done + [p]), at)
  {
    PlaceAppend(PartsMarks(done), PartMarks(p), at);
    PartsMarksSnoc(done, p);
    Assoc(seen, Place(PartsMarks(done), at), Place(PartMarks(p), at));
  }

  lemma {:induction false} MarksOfSnoc(ls: seq<Located>, next: Located)
    ensures MarksOf(ls + [next]) == MarksOf(ls) + [next.mark]
  {
    assert (ls + [next])[..|ls|] == ls;
  }

  function Locate(cs: Contents): seq<Located> {
    if cs == [] then [] else Locate(cs[..|cs| - 1]) + Place(ContentMarks(cs[|cs| - 1]), |cs| - 1)
  }

  /** Content indices recorded under one key and side, in visiting order. */
  function LocationsOf(ls: seq<Located>, key: PairKey, side: Side): seq<nat> {
    if ls == [] then [] else
      var k := |ls| - 1;
      LocationsOf(ls[..k], key, side)
      + (if ls[k].mark.side == side && KeyOf(ls[k].mark, MarksOf(ls[..k])) == key then [ls[k].at] else [])
  }

  lemma {:induction false} LocationsSnoc(ls: seq<Located>, next: Located, key: PairKey, side: Side)
    ensures LocationsOf(ls + [next], key, side)
         == LocationsOf(ls, key, side) + (if next.mark.side == side && KeyOf(next.mark, MarksOf(ls)) == key then [next.at] else [])
  {
    assert (ls + [next])[..|ls|] == ls;
  }

  lemma {:induction false} UnnamedSnoc(ls: seq<Located>, next: Located, name: string, side: Side)
    ensures Unnamed(MarksOf(ls + [next]), name, side)
         == Unnamed(MarksOf(ls), name, side)
            + (if next.mark.id == "" && next.mark.name == name && next.mark.side == side then 1 else 0)
  {
    MarksOfSnoc(ls, next);
    assert (MarksOf(ls) + [next.mark])[..|MarksOf(ls)|] == MarksOf(ls);
  }

  predicate AnyInside(values: seq<nat>, start: nat, end: nat) {
    exists i :: 0 <= i < |values| && start <= values[i] < end
  }

  predicate AllInside(values: seq<nat>, start: nat, end: nat) {
    forall i :: 0 <= i < |values| ==> start <= values[i] < end
  }

  predicate PairContainedInRange(pair: PairLocations, start: nat, end: nat) {
    AnyInside(pair.calls, start, end) || AnyInside(pair.responses, start, end) ==>
      |pair.calls| == |pair.responses| && AllInside(pair.calls, start, end) && AllInside(pair.responses, start, end)
  }

  ghost function PairAt(ls: seq<Located>, key: PairKey): PairLocations {
    PairLocations(LocationsOf(ls, key, CallSide), LocationsOf(ls, key, ResponseSide))
  }

  function Count(m: map<string, nat>, name: string): nat { if name in m then m[name] else 0 }

  lemma {:induction false} NamedSnoc(ls: seq<Located>, next: Located, id: string, side: Side)
    ensures Named(MarksOf(ls + [next]), id, side)
         == Named(MarksOf(ls), id, side) + (if next.mark.id == id && next.mark.side == side then 1 else 0)
  {
    MarksOfSnoc(ls, next);
    assert (MarksOf(ls) + [next.mark])[..|MarksOf(ls)|] == MarksOf(ls);
  }

  /** The counter of one side holds the occurrences seen so far. */
  ghost predicate Counts(m: map<string, nat>, ms: seq<Mark>, side: Side) {
    forall name: string :: Count(m, name) == Unnamed(ms, name, side)
  }

  /** The table holds exactly the locations of the marks seen so far. */
  ghost predicate Tables(all: map<PairKey, PairLocations>, ls: seq<Located>) {
    forall key: PairKey :: Lookup(all, key) == PairAt(ls, key)
  }

  function Lookup(all: map<PairKey, PairLocations>, key: PairKey): PairLocations {
    if key in all then all[key] else PairLocations([], [])
  }

  function Bump(m: map<string, nat>, mark: Mark, side: Side): map<string, nat> {
    if mark.id == "" && mark.side == side then m[mark.name := Count(m, mark.name) + 1] else m
  }

  lemma {:induction false} CountsSnoc(m: map<string, nat>, ls: seq<Located>, next: Located, side: Side)
    requires Counts(m, MarksOf(ls), side)
    ensures Counts(Bump(m, next.mark, side), MarksOf(ls + [next]), side)
  {
    forall name: string ensures Count(Bump(m, next.mark, side), name) == Unnamed(MarksOf(ls + [next]), name, side) {
      UnnamedSnoc(ls, next, name, side);
      assert Count(m, name) == Unnamed(MarksOf(ls), name, side);
    }
  }

  function Add(pair: PairLocations, side: Side, at: nat): PairLocations {
    if side == CallSide then pair.(calls := pair.calls + [at]) else pair.(responses := pair.responses + [at])
  }

  lemma {:induction false} TablesSnoc(all: map<PairKey, PairLocations>, ls: seq<Located>, next: Located)
    requires Tables(all, ls)
    ensures var key := KeyOf(next.mark, MarksOf(ls));
            Tables(all[key := Add(Lookup(all, key), next.mark.side, next.at)], ls + [next])
  {
    var key := KeyOf(next.mark, MarksOf(ls));
    var grown := all[key := Add(Lookup(all, key), next.mark.side, next.at)];
    forall other: PairKey ensures Lookup(grown, other) == PairAt(ls + [next], other) {
      LocationsSnoc(ls, next, other, CallSide);
      LocationsSnoc(ls, next, other, ResponseSide);
      assert Lookup(all, other) == PairAt(ls, other);
    }
  }

  /** The map of pair locations together with the two occurrence counters that feed it. */
  class PairTable {
    var all: map<PairKey, PairLocations>
    var callOccurrences: map<string, nat>
    var responseOccurrences: map<string, nat>
    ghost var seen: seq<Located>

    ghost predicate Valid() reads this {
      && Counts(callOccurrences, MarksOf(seen), CallSide)
      && Counts(responseOccurrences, MarksOf(seen), ResponseSide)
      && Tables(all, seen)
    }

    constructor ()
      ensures Valid() && seen == []
    {
      all, callOccurrences, responseOccurrences, seen := map[], map[], map[], [];
    }

    method Record(mark: Mark, at: nat)
      requires Valid()
      modifies this
      ensures Valid() && seen == old(seen) + [Located(mark, at)]
    {
      var key: PairKey;
      if mark.id != "" {
        key := ById(mark.id);
      } else if mark.side == CallSide {
        key := ByOccurrence(mark.name, Count(callOccurrences, mark.name));
      } else {
        key := ByOccurrence(mark.name, Count(responseOccurrences, mark.name));
      }
      CountsSnoc(callOccurrences, seen, Located(mark, at), CallSide);
      CountsSnoc(responseOccurrences, seen, Located(mark, at), ResponseSide);
      TablesSnoc(all, seen, Located(mark, at));
      callOccurrences := Bump(callOccurrences, mark, CallSide);
      responseOccurrences := Bump(responseOccurrences, mark, ResponseSide);
      all := all[key := Add(Lookup(all, key), mark.side, at)];
      seen := seen + [Located(mark, at)];
    }

    method RecordMarks(marks: seq<Mark>, at: nat)
      requires Valid() && |marks| <= 1
      modifies this
      ensures Valid() && seen == old(seen) + Place(marks, at)
    {
      if marks != [] {
        Record(marks[0], at);
        assert Place(marks, at) == Place(marks[..0], at) + [Located(marks[0], at)];
      }
    }

    method RecordPart(part: Option<Part>, at: nat)
      requires Valid()
      modifies this
      ensures Valid() && seen == old(seen) + Place(PartMarks(part), at)
    {
      hide Place, Tables, Counts;
      if part.None? {
        PlaceNothing(at);
        return;
      }
      var p := part.value;
      var m1, m2, m3, m4 := CallMark(p.call, "function:"), ResponseMark(p.response, "function:"),
                            CallMark(p.toolCall, "tool:"), ResponseMark(p.toolResponse, "tool:");
      RecordMarks(m1, at);
      RecordMarks(m2, at);
      RecordMarks(m3, at);
      RecordMarks(m4, at);
      PlaceFour(old(seen), m1, m2, m3, m4, at);
    }

    method RecordContent(content: Option<Content>, at: nat)
      requires Valid()
      modifies this
      ensures Valid() && seen == old(seen) + Place(ContentMarks(content), at)
    {
      hide Place, PartsMarks, Tables, Counts;
      if content.None? {
        PlaceNothing(at);
        return;
      }
      var parts := content.value.parts;
      ghost var done := [];
      PartsMarksNothing();
      PlaceNothing(at);
      for k := 0 to |parts|
        invariant Valid() && done == parts[..k]
        invariant seen == old(seen) + Place(PartsMarks(done), at)
      {
        RecordPart(parts[k], at);
        PlaceNext(old(seen), done, parts[k], at);
        done := done + [parts[k]];
      }
      assert done == parts;
    }
  }

  method CollectPairLocations(cs: Contents) returns (table: PairTable)
    ensures fresh(table) && table.Valid() && table.seen == Locate(cs)
  {
    table := new PairTable();
    for index := 0 to |cs|
      invariant fresh(table) && table.Valid() && table.seen == Locate(cs[..index])
    {
      assert cs[..index + 1][..index] == cs[..index];
      table.RecordContent(cs[index], index);
    }
    assert cs[..|cs|] == cs;
  }

  // ---------------------------------------------------------------------------------------------
  // The table agrees with the closed form.
  // ---------------------------------------------------------------------------------------------

  ghost predicate AllWithin(ls: seq<Located>, lo: nat, hi: nat) {
    forall i :: 0 <= i < |ls| ==> lo <= ls[i].at < hi
  }

  lemma {:induction false} MarksOfAppend(a: seq<Located>, b: seq<Located>)
    ensures MarksOf(a + b) == MarksOf(a) + MarksOf(b)
  {
    if b == [] {
      assert a + b == a;
    } else {
      assert (a + b)[..|a + b| - 1] == a + b[..|b| - 1];
      MarksOfAppend(a, b[..|b| - 1]);
    }
  }

  /** The locations that `mid` adds after `pre`: occurrence numbers go on counting where `pre` stopped. */
  ghost function Inner(pre: seq<Located>, mid: seq<Located>, key: PairKey, side: Side): seq<nat> {
    match key
    case ById(_) => LocationsOf(mid, key, side)
    case ByOccurrence(name, n) =>
      var u := Unnamed(MarksOf(pre), name, side);
      if n < u then [] else LocationsOf(mid, ByOccurrence(name, n - u), side)
  }

  lemma {:induction false} InnerSnoc(pre: seq<Located>, mid: seq<Located>, next: Located, key: PairKey, side: Side)
    requires MarksOf(pre + mid) == MarksOf(pre) + MarksOf(mid)
    ensures Inner(pre, mid + [next], key, side) == Inner(pre, mid, key, side)
            + (if next.mark.side == side && KeyOf(next.mark, MarksOf(pre + mid)) == key then [next.at] else [])
  {
    hide LocationsOf, MarksOf, Unnamed;
    UnnamedAppend(MarksOf(pre), MarksOf(mid), next.mark.name, next.mark.side);
    match key
    case ById(_) => LocationsSnoc(mid, next, key, side);
    case ByOccurrence(name, n) =>
      var u := Unnamed(MarksOf(pre), name, side);
      if n >= u { LocationsSnoc(mid, next, ByOccurrence(name, n - u), side); }
  }

  /** Locations of a concatenation: the second half is looked up with its own occurrence numbers. */
  lemma {:induction false} LocationsAppend(a: seq<Located>, b: seq<Located>, key: PairKey, side: Side)
    ensures LocationsOf(a + b, key, side) == LocationsOf(a, key, side) + Inner(a, b, key, side)
  {
    if b == [] {
      assert a + b == a;
    } else {
      var init, last := b[..|b| - 1], b[|b| - 1];
      var own := if last.mark.side == side && KeyOf(last.mark, MarksOf(a + init)) == key then [last.at] else [];
      SplitLast(b);
      Assoc(a, init, [last]);
      MarksOfAppend(a, init);
      calc {
        LocationsOf(a + b, key, side);
        { LocationsSnoc(a + init, last, key, side); }
        LocationsOf(a + init, key, side) + own;
        { LocationsAppend(a, init, key, side); }
        LocationsOf(a, key, side) + Inner(a, init, key, side) + own;
        { Assoc(LocationsOf(a, key, side), Inner(a, init, key, side), own); InnerSnoc(a, init, last, key, side); }
        LocationsOf(a, key, side) + Inner(a, b, key, side);
      }
    }
  }

  lemma {:induction false} LocationsNothing(key: PairKey, side: Side)
    ensures LocationsOf([], key, side) == [] && MarksOf([]) == []
    ensures forall name: string :: Unnamed([], name, side) == Named([], name, side) == 0
  {}

  lemma {:induction false} LocationsCount(ls: seq<Located>, key: PairKey, side: Side, lo: nat, hi: nat)
    requires AllWithin(ls, lo, hi)
    requires key.ById? ==> key.id != ""
    ensures AllInside(LocationsOf(ls, key, side), lo, hi)
    ensures key.ById? ==> |LocationsOf(ls, key, side)| == Named(MarksOf(ls), key.id, side)
    ensures key.ByOccurrence? ==>
      |LocationsOf(ls, key, side)| == if key.n < Unnamed(MarksOf(ls), key.name, side) then 1 else 0
  {
    hide LocationsOf, MarksOf, Unnamed, Named;
    if ls == [] {
      LocationsNothing(key, side);
    } else {
      var init, last := ls[..|ls| - 1], ls[|ls| - 1];
      LocationsCount(init, key, side, lo, hi);
      SplitLast(ls);
      LocationsSnoc(init, last, key, side);
      if key.ByOccurrence? { UnnamedSnoc(init, last, key.name, side); } else { NamedSnoc(init, last, key.id, side); }
    }
  }

  lemma {:induction false} LocationsSplit(pre: seq<Located>, mid: seq<Located>, post: seq<Located>, key: PairKey, side: Side)
    ensures LocationsOf(pre + mid + post, key, side)
         == LocationsOf(pre, key, side) + Inner(pre, mid, key, side) + Inner(pre + mid, post, key, side)
  {
    LocationsAppend(pre + mid, post, key, side);
    LocationsAppend(pre, mid, key, side);
  }

  lemma {:induction false} InsideOfThree(a: seq<nat>, b: seq<nat>, c: seq<nat>, s: nat, e: nat, n: nat)
    requires AllInside(a, 0, s) && AllInside(b, s, e) && AllInside(c, e, n)
    ensures AnyInside(a + b + c, s, e) <==> |b| > 0
    ensures AllInside(a + b + c, s, e) <==> |a| == |c| == 0
  {
    var xs := a + b + c;
    if |b| > 0 { assert xs[|a|] == b[0]; }
    if |a| > 0 { assert xs[0] == a[0]; }
    if |c| > 0 { assert xs[|a| + |b|] == c[0]; }
  }

  /** What containment of one side's list says about the counts. */
  lemma {:induction false} SideCounts(pre: seq<Located>, mid: seq<Located>, post: seq<Located>, key: PairKey, side: Side, s: nat, e: nat, n: nat)
    requires AllWithin(pre, 0, s) && AllWithin(mid, s, e) && AllWithin(post, e, n)
    requires s <= e <= n
    requires key.ById? ==> key.id != ""
    ensures var xs := LocationsOf(pre + mid + post, key, side);
      && |xs| == |LocationsOf(pre, key, side)| + |Inner(pre, mid, key, side)| + |Inner(pre + mid, post, key, side)|
      && (AnyInside(xs, s, e) <==> |Inner(pre, mid, key, side)| > 0)
      && (AllInside(xs, s, e) <==> |LocationsOf(pre, key, side)| == |Inner(pre + mid, post, key, side)| == 0)
  {
    LocationsSplit(pre, mid, post, key, side);
    LocationsCount(pre, key, side, 0, s);
    InnerWithin(pre, mid, key, side, s, e);
    InnerWithin(pre + mid, post, key, side, e, n);
    InsideOfThree(LocationsOf(pre, key, side), Inner(pre, mid, key, side), Inner(pre + mid, post, key, side), s, e, n);
  }

  lemma {:induction false} InnerWithin(pre: seq<Located>, mid: seq<Located>, key: PairKey, side: Side, lo: nat, hi: nat)
    requires AllWithin(mid, lo, hi)
    requires key.ById? ==> key.id != ""
    ensures AllInside(Inner(pre, mid, key, side), lo, hi)
    ensures key.ById? ==> |Inner(pre, mid, key, side)| == Named(MarksOf(mid), key.id, side)
    ensures key.ByOccurrence? ==>
      var u := Unnamed(MarksOf(pre), key.name, side);
      |Inner(pre, mid, key, side)| == if u <= key.n < u + Unnamed(MarksOf(mid), key.name, side) then 1 else 0
  {
    match key
    case ById(_) => LocationsCount(mid, key, side, lo, hi);
    case ByOccurrence(name, n) =>
      var u := Unnamed(MarksOf(pre), name, side);
      if n >= u { LocationsCount(mid, ByOccurrence(name, n - u), side, lo, hi); }
  }

  lemma {:induction false} ContainedIdIff(pre: seq<Located>, mid: seq<Located>, post: seq<Located>, id: string, s: nat, e: nat, n: nat)
    requires AllWithin(pre, 0, s) && AllWithin(mid, s, e) && AllWithin(post, e, n)
    requires s <= e <= n && id != ""
    ensures PairContainedInRange(PairAt(pre + mid + post, ById(id)), s, e)
        <==> ClosedId(MarksOf(pre), MarksOf(mid), MarksOf(post), id)
  {
    SideCounts(pre, mid, post, ById(id), CallSide, s, e, n);
    SideCounts(pre, mid, post, ById(id), ResponseSide, s, e, n);
    LocationsCount(pre, ById(id), CallSide, 0, s);
    LocationsCount(pre, ById(id), ResponseSide, 0, s);
    InnerWithin(pre, mid, ById(id), CallSide, s, e);
    InnerWithin(pre, mid, ById(id), ResponseSide, s, e);
    InnerWithin(pre + mid, post, ById(id), CallSide, e, n);
    InnerWithin(pre + mid, post, ById(id), ResponseSide, e, n);
  }

  /** Containment of the k-th occurrence, read off the two occurrence intervals of the middle range. */
  lemma {:induction false} ContainedOccurrenceIff(pre: seq<Located>, mid: seq<Located>, post: seq<Located>, name: string, k: nat, s: nat, e: nat, n: nat)
    requires AllWithin(pre, 0, s) && AllWithin(mid, s, e) && AllWithin(post, e, n)
    requires s <= e <= n
    ensures
      var c, r := Unnamed(MarksOf(pre), name, CallSide), Unnamed(MarksOf(pre), name, ResponseSide);
      var dc, dr := Unnamed(MarksOf(mid), name, CallSide), Unnamed(MarksOf(mid), name, ResponseSide);
      PairContainedInRange(PairAt(pre + mid + post, ByOccurrence(name, k)), s, e) <==> (c <= k < c + dc <==> r <= k < r + dr)
  {
    var key := ByOccurrence(name, k);
    SideCounts(pre, mid, post, key, CallSide, s, e, n);
    SideCounts(pre, mid, post, key, ResponseSide, s, e, n);
    LocationsCount(pre, key, CallSide, 0, s);
    LocationsCount(pre, key, ResponseSide, 0, s);
    InnerWithin(pre, mid, key, CallSide, s, e);
    InnerWithin(pre, mid, key, ResponseSide, s, e);
    MarksOfAppend(pre, mid);
    UnnamedAppend(MarksOf(pre), MarksOf(mid), name, CallSide);
    UnnamedAppend(MarksOf(pre), MarksOf(mid), name, ResponseSide);
    InnerWithin(pre + mid, post, key, CallSide, e, n);
    InnerWithin(pre + mid, post, key, ResponseSide, e, n);
  }

  lemma {:induction false} LocateWithin(cs: Contents)
    ensures AllWithin(Locate(cs), 0, |cs|) && MarksOf(Locate(cs)) == Marks(cs)
  {
    if cs != [] {
      var k := |cs| - 1;
      LocateWithin(cs[..k]);
      MarksOfAppend(Locate(cs[..k]), Place(ContentMarks(cs[k]), k));
      PlaceMarks(ContentMarks(cs[k]), k);
    }
  }

  /** What the contents from `s` on add to the located marks. */
  ghost function LocateFrom(cs: Contents, s: nat): seq<Located>
    requires s <= |cs|
  {
    if s == |cs| then [] else LocateFrom(cs[..|cs| - 1], s) + Place(ContentMarks(cs[|cs| - 1]), |cs| - 1)
  }

  lemma {:induction false} LocateSnoc(cs: Contents, c: Option<Content>, s: nat)
    requires s <= |cs|
    ensures Locate(cs + [c]) == Locate(cs) + Place(ContentMarks(c), |cs|)
    ensures LocateFrom(cs + [c], s) == LocateFrom(cs, s) + Place(ContentMarks(c), |cs|)
  {
    assert (cs + [c])[..|cs|] == cs;
  }

  lemma {:induction false} LocateSplit(cs: Contents, s: nat)
    requires s <= |cs|
    ensures Locate(cs) == Locate(cs[..s]) + LocateFrom(cs, s)
  {
    if s == |cs| {
      assert cs[..s] == cs;
    } else {
      var init, last := cs[..|cs| - 1], cs[|cs| - 1];
      var own := Place(ContentMarks(last), |init|);
      SplitLast(cs);
      calc {
        Locate(cs);
        { LocateSnoc(init, last, s); }
        Locate(init) + own;
        { LocateSplit(init, s); assert cs[..s] == init[..s]; }
        Locate(cs[..s]) + LocateFrom(init, s) + own;
        { Assoc(Locate(cs[..s]), LocateFrom(init, s), own); LocateSnoc(init, last, s); }
        Locate(cs[..s]) + LocateFrom(cs, s);
      }
    }
  }

  lemma {:induction false} LocateFromWithin(cs: Contents, s: nat)
    requires s <= |cs|
    ensures AllWithin(LocateFrom(cs, s), s, |cs|) && MarksOf(LocateFrom(cs, s)) == Marks(cs[s..])
  {
    if s < |cs| {
      var init, last := cs[..|cs| - 1], cs[|cs| - 1];
      var own := Place(ContentMarks(last), |init|);
      SplitLast(cs);
      LocateFromWithin(init, s);
      PlaceMarks(ContentMarks(last), |init|);
      calc {
        MarksOf(LocateFrom(cs, s));
        { LocateSnoc(init, last, s); }
        MarksOf(LocateFrom(init, s) + own);
        { MarksOfAppend(LocateFrom(init, s), own); }
        Marks(init[s..]) + ContentMarks(last);
        { MarksSnoc(init[s..], last); assert cs[s..] == init[s..] + [last]; }
        Marks(cs[s..]);
      }
      assert LocateFrom(cs, s) == LocateFrom(init, s) + own by { LocateSnoc(init, last, s); }
    }
  }

  /** Every key a table can hold. */
  ghost predicate Spelled(key: PairKey) { key.ById? ==> key.id != "" }

  /** The table's verdict on every key is the closed form over the three ranges. */
  lemma {:induction false} ContainedIffClosed(cs: Contents, s: nat, e: nat)
    requires s <= e <= |cs|
    ensures (forall key: PairKey :: Spelled(key) ==> PairContainedInRange(PairAt(Locate(cs), key), s, e))
        <==> Closed(Marks(cs[..s]), Marks(cs[s..e]), Marks(cs[e..]))
  {
    var pre, mid, post := Locate(cs[..s]), LocateFrom(cs[..e], s), LocateFrom(cs, e);
    assert Locate(cs) == pre + mid + post by {
      LocateSplit(cs, e);
      LocateSplit(cs[..e], s);
      assert cs[..e][..s] == cs[..s];
    }
    LocateWithin(cs[..s]);
    LocateFromWithin(cs[..e], s);
    assert cs[..e][s..] == cs[s..e];
    LocateFromWithin(cs, e);
    ThreeRangesIffClosed(pre, mid, post, s, e, |cs|);
  }

  lemma {:induction false} ThreeRangesIffClosed(pre: seq<Located>, mid: seq<Located>, post: seq<Located>, s: nat, e: nat, n: nat)
    requires AllWithin(pre, 0, s) && AllWithin(mid, s, e) && AllWithin(post, e, n)
    requires s <= e <= n
    ensures (forall key: PairKey :: Spelled(key) ==> PairContainedInRange(PairAt(pre + mid + post, key), s, e))
        <==> Closed(MarksOf(pre), MarksOf(mid), MarksOf(post))
  {
    forall id: string | id != ""
      ensures PairContainedInRange(PairAt(pre + mid + post, ById(id)), s, e) <==> ClosedId(MarksOf(pre), MarksOf(mid), MarksOf(post), id)
    {
      ContainedIdIff(pre, mid, post, id, s, e, n);
    }
    forall name: string
      ensures (forall k: nat :: PairContainedInRange(PairAt(pre + mid + post, ByOccurrence(name, k)), s, e))
          <==> ClosedName(MarksOf(pre), MarksOf(mid), name)
    {
      OccurrencesIffClosed(pre, mid, post, name, s, e, n);
    }
    if Closed(MarksOf(pre), MarksOf(mid), MarksOf(post)) {
      forall key: PairKey | Spelled(key) ensures PairContainedInRange(PairAt(pre + mid + post, key), s, e) {
        match key
        case ById(id) =>
        case ByOccurrence(name, k) => assert ClosedName(MarksOf(pre), MarksOf(mid), name);
      }
    }
  }

  lemma {:induction false} OccurrencesIffClosed(pre: seq<Located>, mid: seq<Located>, post: seq<Located>, name: string, s: nat, e: nat, n: nat)
    requires AllWithin(pre, 0, s) && AllWithin(mid, s, e) && AllWithin(post, e, n)
    requires s <= e <= n
    ensures (forall k: nat :: PairContainedInRange(PairAt(pre + mid + post, ByOccurrence(name, k)), s, e))
        <==> ClosedName(MarksOf(pre), MarksOf(mid), name)
  {
    var c, r := Unnamed(MarksOf(pre), name, CallSide), Unnamed(MarksOf(pre), name, ResponseSide);
    var dc, dr := Unnamed(MarksOf(mid), name, CallSide), Unnamed(MarksOf(mid), name, ResponseSide);
    forall k: nat
      ensures PairContainedInRange(PairAt(pre + mid + post, ByOccurrence(name, k)), s, e)
        <==> (c <= k < c + dc <==> r <= k < r + dr)
    {
      ContainedOccurrenceIff(pre, mid, post, name, k, s, e, n);
    }
    if forall k: nat :: PairContainedInRange(PairAt(pre + mid + post, ByOccurrence(name, k)), s, e) {
      assert PairContainedInRange(PairAt(pre + mid + post, ByOccurrence(name, c)), s, e);
      assert PairContainedInRange(PairAt(pre + mid + post, ByOccurrence(name, r)), s, e);
      assert PairContainedInRange(PairAt(pre + mid + post, ByOccurrence(name, c + dc)), s, e);
      assert PairContainedInRange(PairAt(pre + mid + post, ByOccurrence(name, r + dr)), s, e);
    }
  }

  /** Whether dropping contents [start, end) splits no pair. */
  method PairsContained(cs: Contents, start: nat, end: nat) returns (contained: bool)
    requires start <= end <= |cs|
    ensures contained <==> Closed(Marks(cs[..start]), Marks(cs[start..end]), Marks(cs[end..]))
  {
    var table := CollectPairLocations(cs);
    ContainedIffClosed(cs, start, end);
    var rest := table.all.Keys;
    while rest != {}
      invariant rest <= table.all.Keys
      invariant forall key :: key in table.all.Keys - rest ==> PairContainedInRange(PairAt(Locate(cs), key), start, end)
    {
      var key :| key in rest;
      assert Lookup(table.all, key) == PairAt(Locate(cs), key);
      if !PairContainedInRange(table.all[key], start, end) {
        if key == ById("") {
          NoEmptyId(Locate(cs), CallSide);
          NoEmptyId(Locate(cs), ResponseSide);
        }
        return false;
      }
      rest := rest - {key};
    }
    return true;
  }

  lemma {:induction false} NoEmptyId(ls: seq<Located>, side: Side)
    ensures LocationsOf(ls, ById(""), side) == []
  {
    if ls != [] { NoEmptyId(ls[..|ls| - 1], side); }
  }
}
