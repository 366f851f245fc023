/** The projection of journal entries to state: every key holds the value of the highest order that wrote it. */
module StoreProjection {
  import opened Sequences
  import opened Wrappers
  import opened StoreState
  import opened StoreJournal

  datatype Version = Version(order: Order, id: RecordId)

  datatype Projection = Projection(state: State, versions: map<string, Version>)

  const NOTHING := Projection(map[], map[])

  /** Last writer wins: the definition the update loops are measured against. */
  ghost predicate IsLww(p: Projection, es: seq<Entry>) {
    && p.state.Keys == p.versions.Keys
    && (forall k :: k in p.state ==> exists e :: e in es && Writes(p, k, e))
    && (forall e, k :: e in es && k in e.delta ==> k in p.versions && e.order <= p.versions[k].order)
  }

  /** Entry `e` is the writer `p` names for key `k`. */
  ghost predicate Writes(p: Projection, k: string, e: Entry) {
    && k in e.delta && k in p.state && k in p.versions
    && p.state[k] == e.delta[k] && p.versions[k] == Version(e.order, e.id)
  }

  predicate Wins(p: Projection, k: string, order: Order) { k !in p.versions || p.versions[k].order <= order }

  function Applied(p: Projection, e: Entry): Projection {
    var won := set k | k in e.delta && Wins(p, k, e.order);
    Projection(
      map k | k in p.state.Keys + won :: if k in won then e.delta[k] else p.state[k],
      map k | k in p.versions.Keys + won :: if k in won then Version(e.order, e.id) else p.versions[k]
    )
  }

  /** Deltas applied in the order they arrive. */
  function AllApplied(p: Projection, es: seq<Entry>): Projection {
    if es == [] then p else Applied(AllApplied(p, es[..|es| - 1]), es[|es| - 1])
  }

  lemma {:induction false} AppliedIsLww(p: Projection, es: seq<Entry>, e: Entry)
    requires IsLww(p, es)
    ensures IsLww(Applied(p, e), es + [e])
  {
    var q := Applied(p, e);
    forall k | k in q.state ensures exists x :: x in es + [e] && Writes(q, k, x) {
      if k in e.delta && Wins(p, k, e.order) {
        assert e in es + [e] && Writes(q, k, e);
      } else {
        var x :| x in es && Writes(p, k, x);
        assert x in es + [e] && Writes(q, k, x);
      }
    }
    forall x, k | x in es + [e] && k in x.delta ensures k in q.versions && x.order <= q.versions[k].order {
      if x in es { assert k in p.versions; }
    }
  }

  lemma {:induction false} AllAppliedIsLww(p: Projection, known: seq<Entry>, es: seq<Entry>)
    requires IsLww(p, known)
    ensures IsLww(AllApplied(p, es), known + es)
  {
    if es == [] {
      assert known + es == known;
    } else {
      AllAppliedIsLww(p, known, es[..|es| - 1]);
      AppliedIsLww(AllApplied(p, es[..|es| - 1]), known + es[..|es| - 1], es[|es| - 1]);
      SplitLast(es);
      Assoc(known, es[..|es| - 1], [es[|es| - 1]]);
    }
  }

  lemma {:induction false} LwwAt(p: Projection, q: Projection, es: seq<Entry>, fs: seq<Entry>, k: string)
    requires Consistent(es) && (forall e :: e in es <==> e in fs)
    requires IsLww(p, es) && IsLww(q, fs) && k in p.state
    ensures k in q.state && k in p.versions && k in q.versions
    ensures p.state[k] == q.state[k] && p.versions[k] == q.versions[k]
  {
    var e :| e in es && Writes(p, k, e);
    assert e in fs && k in q.versions;
    var f :| f in fs && Writes(q, k, f);
    assert f in es && Claims(e, f);
  }

  /** Entries whose orders are one-to-one have only one last-writer-wins projection. */
  lemma {:induction false} LwwUnique(p: Projection, q: Projection, es: seq<Entry>, fs: seq<Entry>)
    requires Consistent(es) && (forall e :: e in es <==> e in fs)
    requires IsLww(p, es) && IsLww(q, fs)
    ensures p == q
  {
    assert p.state.Keys == p.versions.Keys && q.state.Keys == q.versions.Keys;
    hide IsLww, Consistent;
    SameMembers(es, fs);
    forall k | k in p.state
      ensures k in q.state && k in p.versions && k in q.versions && p.state[k] == q.state[k] && p.versions[k] == q.versions[k]
    {
      LwwAt(p, q, es, fs, k);
    }
    forall k | k in q.state ensures k in p.state { LwwAt(q, p, fs, es, k); }
    assert p.state == q.state && p.versions == q.versions;
  }

  lemma {:induction false} NothingIsLww()
    ensures IsLww(NOTHING, [])
  {}

  /** Shared state is a function of the set of records: neither their order nor repetitions matter. */
  lemma {:induction false} ProjectionOfSet(es: seq<Entry>, fs: seq<Entry>)
    requires Consistent(es) && forall e :: e in es <==> e in fs
    ensures AllApplied(NOTHING, es) == AllApplied(NOTHING, fs)
  {
    AllAppliedIsProjection(es);
    AllAppliedIsProjection(fs);
    LwwUnique(AllApplied(NOTHING, es), AllApplied(NOTHING, fs), es, fs);
  }

  lemma {:induction false} LwwKeepsKeys(p: Projection, q: Projection, es: seq<Entry>, fs: seq<Entry>, k: string)
    requires IsLww(p, es) && IsLww(q, fs) && (forall e :: e in es ==> e in fs) && k in p.state
    ensures k in q.state
  {
    var e :| e in es && Writes(p, k, e);
    assert e in fs && k in e.delta && k in q.versions.Keys;
  }

  lemma {:induction false} AllAppliedIsProjection(es: seq<Entry>)
    ensures IsLww(AllApplied(NOTHING, es), es)
  {
    hide AllApplied, IsLww;
    NothingIsLww();
    AllAppliedIsLww(NOTHING, [], es);
    assert [] + es == es;
  }

  /** Shared state never loses a key: with more entries, every key is still there. */
  lemma {:induction false} ProjectionKeepsKeys(es: seq<Entry>, fs: seq<Entry>, k: string)
    requires (forall e :: e in es ==> e in fs) && k in AllApplied(NOTHING, es).state
    ensures k in AllApplied(NOTHING, fs).state
  {
    hide AllApplied, IsLww;
    AllAppliedIsProjection(es);
    AllAppliedIsProjection(fs);
    LwwKeepsKeys(AllApplied(NOTHING, es), AllApplied(NOTHING, fs), es, fs, k);
  }

  /** `applyOrderedDelta`: key by key, skipping keys a later order has written. */
  class Scope {
    var state: State
    var versions: map<string, Version>

    ghost function Value(): Projection
      reads this
    {
      Projection(state, versions)
    }

    constructor (p: Projection)
      ensures Value() == p
    {
      state, versions := p.state, p.versions;
    }

    method ApplyOrderedDelta(e: Entry)
      modifies this
      ensures Value() == Applied(old(Value()), e)
    {
      ghost var p := Value();
      var rest := e.delta.Keys;
      assert (map k | k in e.delta && k !in rest :: e.delta[k]) == map[];
      while rest != {}
        invariant rest <= e.delta.Keys
        invariant Value() == Applied(p, e.(delta := map k | k in e.delta && k !in rest :: e.delta[k]))
      {
        var key :| key in rest;
        ghost var before := e.(delta := map k | k in e.delta && k !in rest :: e.delta[k]);
        rest := rest - {key};
        assert (map k | k in e.delta && k !in rest :: e.delta[k]) == before.delta[key := e.delta[key]];
        KeyStep(p, before, key, e.delta[key]);
        if key in versions && e.order < versions[key].order { continue; }
        state := state[key := e.delta[key]];
        versions := versions[key := Version(e.order, e.id)];
      }
      assert (map k | k in e.delta && k !in rest :: e.delta[k]) == e.delta;
    }
  }

  lemma {:induction false} AppliedAt(p: Projection, e: Entry, k: string)
    ensures var q := Applied(p, e); var won := k in e.delta && Wins(p, k, e.order);
      && (k in q.state <==> k in p.state || won) && (k in q.versions <==> k in p.versions || won)
      && (won ==> q.state[k] == e.delta[k] && q.versions[k] == Version(e.order, e.id))
      && (!won && k in p.state ==> q.state[k] == p.state[k])
      && (!won && k in p.versions ==> q.versions[k] == p.versions[k])
  {}

  lemma {:induction false} KeyStepAt(p: Projection, e: Entry, key: string, value: string, k: string)
    requires key !in e.delta
    ensures var q, r := Applied(p, e), Applied(p, e.(delta := e.delta[key := value]));
      var won := k == key && Wins(p, key, e.order);
      && (k in r.state <==> k in q.state || won) && (k in r.versions <==> k in q.versions || won)
      && (k in r.state ==> r.state[k] == if won then value else q.state[k])
      && (k in r.versions ==> r.versions[k] == if won then Version(e.order, e.id) else q.versions[k])
  {
    hide Applied, Wins;
    AppliedAt(p, e, k);
    AppliedAt(p, e.(delta := e.delta[key := value]), k);
  }

  lemma {:induction false} KeyStep(p: Projection, e: Entry, key: string, value: string)
    requires key !in e.delta
    ensures var q, r := Applied(p, e), Applied(p, e.(delta := e.delta[key := value]));
      && (key in q.versions <==> key in p.versions) && (key in p.versions ==> q.versions[key] == p.versions[key])
      && (Wins(p, key, e.order) ==> r == Projection(q.state[key := value], q.versions[key := Version(e.order, e.id)]))
      && (!Wins(p, key, e.order) ==> r == q)
  {
    AppliedAt(p, e, key);
    hide Applied, Wins;
    var q, r := Applied(p, e), Applied(p, e.(delta := e.delta[key := value]));
    var won := Wins(p, key, e.order);
    var state := if won then q.state[key := value] else q.state;
    var versions := if won then q.versions[key := Version(e.order, e.id)] else q.versions;
    forall k: string
      ensures (k in r.state <==> k in state) && (k in state ==> r.state[k] == state[k])
    {
      KeyStepAt(p, e, key, value, k);
    }
    assert r.state == state;
    forall k: string
      ensures (k in r.versions <==> k in versions) && (k in versions ==> r.versions[k] == versions[k])
    {
      KeyStepAt(p, e, key, value, k);
    }
    assert r.versions == versions;
  }

  method ProjectJournal(records: seq<Entry>) returns (p: Projection)
    ensures p == AllApplied(NOTHING, SortByOrder(records))
    ensures Consistent(records) ==> p == AllApplied(NOTHING, records)
  {
    var sorted := SortByOrder(records);
    var scope := new Scope(NOTHING);
    for i := 0 to |sorted|
      invariant fresh(scope) && scope.Value() == AllApplied(NOTHING, sorted[..i])
    {
      assert sorted[..i + 1][..i] == sorted[..i];
      scope.ApplyOrderedDelta(sorted[i]);
    }
    assert sorted[..|sorted|] == sorted;
    p := Projection(scope.state, scope.versions);
    SortIsOrdered(records);
    forall e ensures e in records <==> e in sorted { assert e in records <==> e in multiset(records); assert e in sorted <==> e in multiset(sorted); }
    if Consistent(records) { ProjectionOfSet(records, sorted); }
  }

  /** The app side of the cached projection: what was projected, and from which records. */
  datatype Known = Known(app: Projection, records: seq<Entry>)

  /** Records learned since, merged into the cached projection without reading the journal. */
  method MergeKnownSharedRecords(known: Known, pending: seq<StateRecord>) returns (merged: Option<Known>)
    requires Distinct(known.records)
    ensures var sorted := SortByOrder(EntriesFor(AppJournal, pending));
      match Additions(known.records, sorted)
      case None => merged.None?
      case Some(a) => merged == Some(Known(AllApplied(known.app, a), known.records + a))
  {
    hide Additions, SortByOrder, EntriesFor, AllApplied, Distinct, Tables, Clashes;
    var sorted := SortByOrder(EntriesFor(AppJournal, pending));
    var index := new JournalIndex(known.records);
    var scope := new Scope(known.app);
    ghost var added: seq<Entry> := [];
    MergeStart(known, sorted);
    for i := 0 to |sorted|
      invariant index.Valid() && fresh(index) && fresh(scope) && index.records == known.records + added
      invariant Additions(known.records, sorted[..i]) == Some(added)
      invariant scope.Value() == AllApplied(known.app, added)
    {
      var e := sorted[i];
      MergeStep(known, sorted, i, added);
      var before := |index.records|;
      var ok := index.Add(e);
      if !ok { return None; }
      Assoc(known.records, added, [e]);
      if |index.records| > before {
        scope.ApplyOrderedDelta(e);
        added := added + [e];
      }
    }
    assert sorted[..|sorted|] == sorted;
    merged := Some(Known(Projection(scope.state, scope.versions), index.records));
  }

  lemma {:induction false} MergeStart(known: Known, sorted: seq<Entry>)
    ensures Additions(known.records, sorted[..0]) == Some([]) && AllApplied(known.app, []) == known.app
    ensures known.records + [] == known.records
  {}

  lemma {:induction false} MergeStep(known: Known, sorted: seq<Entry>, i: nat, added: seq<Entry>)
    requires i < |sorted| && Additions(known.records, sorted[..i]) == Some(added)
    ensures var e := sorted[i];
      && (Clashes(e, known.records + added) ==> Additions(known.records, sorted).None?)
      && (!Clashes(e, known.records + added) ==>
          Additions(known.records, sorted[..i + 1]) == Some(if e in known.records + added then added else added + [e]))
      && AllApplied(known.app, added + [e]) == Applied(AllApplied(known.app, added), e)
  {
    hide Additions, Clashes;
    assert sorted[..i + 1] == sorted[..i] + [sorted[i]];
    AdditionsSnoc(known.records, sorted[..i], sorted[i]);
    assert (added + [sorted[i]])[..|added|] == added;
    if Clashes(sorted[i], known.records + added) { AdditionsStayNone(known.records, sorted, i + 1); }
  }

  lemma {:induction false} AdditionsStayNone(journal: seq<Entry>, wanted: seq<Entry>, n: nat)
    requires n <= |wanted| && Additions(journal, wanted[..n]).None?
    ensures Additions(journal, wanted).None?
    decreases |wanted| - n
  {
    hide Additions;
    if n == |wanted| {
      assert wanted[..n] == wanted;
    } else {
      assert wanted[..n + 1] == wanted[..n] + [wanted[n]];
      AdditionsSnoc(journal, wanted[..n], wanted[n]);
      AdditionsStayNone(journal, wanted, n + 1);
    }
  }

  /** A merge succeeds exactly when the records agree, and then equals projecting all of them together, in any arrangement. */
  lemma {:induction false} MergeIsProjection(known: Known, pending: seq<StateRecord>, all: seq<Entry>)
    requires Distinct(known.records) && known.app == AllApplied(NOTHING, known.records)
    requires forall e :: e in all <==> e in known.records || e in EntriesFor(AppJournal, pending)
    ensures var merged := Additions(known.records, SortByOrder(EntriesFor(AppJournal, pending)));
      && (merged.Some? <==> Consistent(all))
      && (merged.Some? ==> AllApplied(known.app, merged.value) == AllApplied(NOTHING, all))
  {
    hide Additions, AllApplied, EntriesFor, SortByOrder, Distinct, Consistent;
    var sorted := SortByOrder(EntriesFor(AppJournal, pending));
    var merged := Additions(known.records, sorted);
    SortIsOrdered(EntriesFor(AppJournal, pending));
    forall e ensures e in sorted <==> e in EntriesFor(AppJournal, pending) {
      assert e in sorted <==> e in multiset(sorted);
      assert e in EntriesFor(AppJournal, pending) <==> e in multiset(EntriesFor(AppJournal, pending));
    }
    AdditionsSomeIff(known.records, sorted);
    SameMembers(known.records + sorted, all);
    if merged.Some? {
      AdditionsComplete(known.records, sorted);
      AllAppliedIsProjection(known.records);
      AllAppliedIsLww(known.app, known.records, merged.value);
      AllAppliedIsProjection(all);
      LwwUnique(AllApplied(NOTHING, all), AllApplied(known.app, merged.value), all, known.records + merged.value);
    }
  }
}
