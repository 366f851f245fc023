/** Shared-state journals: the identity of a logical record, and which entries a repair still has to append. */
module StoreJournal {
  import opened Sequences
  import opened Wrappers
  import opened StoreState

  type Order = n: nat | 0 < n witness 1

  /** What `sharedRecordID` hashes. Two records are the same logical record when every field agrees. */
  datatype RecordId =
    | CreateId(user: string, session: string, incarnation: Order)
    | EventId(user: string, session: string, incarnation: Order, event: string)

  datatype Entry = Entry(id: RecordId, order: Order, delta: State)

  datatype StateRecord = StateRecord(id: RecordId, order: Order, user: string, app: State, userDelta: State)

  datatype JournalKind = AppJournal | UserJournal(user: string)

  predicate Wants(kind: JournalKind, r: StateRecord) { kind.AppJournal? || r.user == kind.user }

  function EntryFor(kind: JournalKind, r: StateRecord): Entry {
    Entry(r.id, r.order, if kind.AppJournal? then r.app else r.userDelta)
  }

  /** The entries one journal needs for the records of a scan. */
  function EntriesFor(kind: JournalKind, records: seq<StateRecord>): seq<Entry> {
    if records == [] then []
    else if Wants(kind, records[|records| - 1]) then
      EntriesFor(kind, records[..|records| - 1]) + [EntryFor(kind, records[|records| - 1])]
    else EntriesFor(kind, records[..|records| - 1])
  }

  predicate Claims(x: Entry, e: Entry) { x.id == e.id || x.order == e.order }

  /** Identity and order are one-to-one, and equal identities carry equal deltas. */
  predicate Consistent(es: seq<Entry>) {
    forall x, y :: x in es && y in es && Claims(x, y) ==> x == y
  }

  predicate Distinct(es: seq<Entry>) {
    forall i, j :: 0 <= i < j < |es| ==> !Claims(es[i], es[j])
  }

  predicate Clashes(e: Entry, es: seq<Entry>) {
    exists x :: x in es && Claims(x, e) && x != e
  }

  lemma {:induction false} DistinctIsConsistent(es: seq<Entry>)
    requires Distinct(es)
    ensures Consistent(es)
  {
    forall x, y | x in es && y in es && Claims(x, y) ensures x == y {
      var i :| 0 <= i < |es| && es[i] == x;
      var j :| 0 <= j < |es| && es[j] == y;
    }
  }

  lemma {:induction false} DistinctSnoc(es: seq<Entry>, e: Entry)
    requires Distinct(es) && e !in es && !Clashes(e, es)
    ensures Distinct(es + [e])
  {
    forall i, j | 0 <= i < j < |es + [e]| ensures !Claims((es + [e])[i], (es + [e])[j]) {
      if j == |es| { assert es[i] in es; }
    }
  }

  lemma {:induction false} DistinctPrefix(es: seq<Entry>, i: nat)
    requires Distinct(es) && i < |es|
    ensures Distinct(es[..i + 1])
    ensures forall x :: x in es[..i] ==> !Claims(x, es[i])
  {}

  /** The two lookup tables hold the records and nothing else. */
  ghost predicate Tables(records: seq<Entry>, byId: map<RecordId, Entry>, byOrder: map<Order, RecordId>) {
    && (forall e :: e in records ==> e.id in byId && byId[e.id] == e)
    && (forall id :: id in byId ==> byId[id] in records && byId[id].id == id)
    && (forall e :: e in records ==> e.order in byOrder && byOrder[e.order] == e.id)
    && (forall o :: o in byOrder ==> byOrder[o] in byId && byId[byOrder[o]].order == o)
  }

  lemma {:induction false} TablesSnoc(records: seq<Entry>, byId: map<RecordId, Entry>, byOrder: map<Order, RecordId>, e: Entry)
    requires Tables(records, byId, byOrder)
    requires forall x :: x in records ==> !Claims(x, e)
    ensures Tables(records + [e], byId[e.id := e], byOrder[e.order := e.id])
  {
    var ids, orders := byId[e.id := e], byOrder[e.order := e.id];
    forall o | o in orders ensures orders[o] in ids && ids[orders[o]].order == o {
      if o != e.order { assert byId[byOrder[o]] in records; }
    }
  }

  lemma {:induction false} NoTables()
    ensures Distinct([]) && Tables([], map[], map[])
  {}

  /** The lookup tables of a journal; a record is added once, and refused when it contradicts one already there. */
  class JournalIndex {
    var records: seq<Entry>
    var byId: map<RecordId, Entry>
    var byOrder: map<Order, RecordId>

    ghost predicate Valid()
      reads this
    {
      Distinct(records) && Tables(records, byId, byOrder)
    }

    constructor (journal: seq<Entry>)
      requires Distinct(journal)
      ensures Valid() && records == journal
    {
      records, byId, byOrder := [], map[], map[];
      new;
      hide Tables, Distinct;
      NoTables();
      for i := 0 to |journal|
        invariant Valid() && records == journal[..i]
      {
        assert journal[..i + 1] == journal[..i] + [journal[i]];
        DistinctPrefix(journal, i);
        TablesSnoc(records, byId, byOrder, journal[i]);
        byId := byId[journal[i].id := journal[i]];
        byOrder := byOrder[journal[i].order := journal[i].id];
        records := records + [journal[i]];
      }
    }

    method Add(e: Entry) returns (ok: bool)
      requires Valid()
      modifies this
      ensures Valid() && ok == !Clashes(e, old(records))
      ensures records == if ok && e !in old(records) then old(records) + [e] else old(records)
    {
      if e.id in byId {
        ok := byId[e.id] == e;
        DistinctIsConsistent(records);
      } else if e.order in byOrder {
        ok := false;
        assert byId[byOrder[e.order]] in records;
      } else {
        ok := true;
        DistinctSnoc(records, e);
        TablesSnoc(records, byId, byOrder, e);
        byOrder := byOrder[e.order := e.id];
        byId := byId[e.id := e];
        records := records + [e];
      }
    }
  }

  /** The entries of `wanted` a journal lacks, in order; nothing when one of them contradicts the journal. */
  function Additions(journal: seq<Entry>, wanted: seq<Entry>): Option<seq<Entry>>
    decreases |wanted|
  {
    if wanted == [] then Some([])
    else if Clashes(wanted[0], journal) then None
    else if wanted[0] in journal then Additions(journal, wanted[1..])
    else match Additions(journal + [wanted[0]], wanted[1..])
      case None => None
      case Some(rest) => Some([wanted[0]] + rest)
  }

  lemma {:induction false} AdditionsSnoc(journal: seq<Entry>, wanted: seq<Entry>, e: Entry)
    ensures Additions(journal, wanted).None? ==> Additions(journal, wanted + [e]).None?
    ensures Additions(journal, wanted).Some? ==>
      var a := Additions(journal, wanted).value;
      Additions(journal, wanted + [e]) ==
      if Clashes(e, journal + a) then None else if e in journal + a then Some(a) else Some(a + [e])
    decreases |wanted|
  {
    if wanted == [] {
      var none: seq<Entry> := [];
      assert journal + none == journal && wanted + [e] == [e] && [e][1..] == none && none + [e] == [e] && [e] + none == [e];
      assert Additions(journal + [e], none) == Some(none) && Additions(journal, none) == Some(none);
    } else {
      var w := wanted[0];
      assert (wanted + [e])[0] == w && (wanted + [e])[1..] == wanted[1..] + [e];
      if !Clashes(w, journal) {
        if w in journal {
          AdditionsSnoc(journal, wanted[1..], e);
        } else {
          AdditionsSnoc(journal + [w], wanted[1..], e);
          if Additions(journal, wanted).Some? {
            var rest := Additions(journal + [w], wanted[1..]).value;
            assert journal + [w] + rest == journal + ([w] + rest);
            assert [w] + (rest + [e]) == [w] + rest + [e];
          }
        }
      }
    }
  }

  lemma {:induction false} EntriesStep(kind: JournalKind, records: seq<StateRecord>, i: nat)
    requires i < |records|
    ensures var w := EntriesFor(kind, records[..i]);
      EntriesFor(kind, records[..i + 1]) == if Wants(kind, records[i]) then w + [EntryFor(kind, records[i])] else w
  {
    assert records[..i + 1][..i] == records[..i];
  }

  /** What a journal must hold for a record: the app journal everyone's app delta, a user's journal that user's own. */
  predicate Due(kind: JournalKind, records: seq<StateRecord>, e: Entry) {
    match kind
    case AppJournal => exists r :: r in records && e == Entry(r.id, r.order, r.app)
    case UserJournal(u) => exists r :: r in records && r.user == u && e == Entry(r.id, r.order, r.userDelta)
  }

  lemma {:induction false} EntriesAreDue(kind: JournalKind, records: seq<StateRecord>)
    ensures forall e :: e in EntriesFor(kind, records) <==> Due(kind, records, e)
  {
    if records != [] {
      var front, last := records[..|records| - 1], records[|records| - 1];
      EntriesAreDue(kind, front);
      SplitLast(records);
      forall e ensures e in EntriesFor(kind, records) <==> Due(kind, records, e) {
        assert Due(kind, records, e) <==> Due(kind, front, e) || Due(kind, [last], e) by { DueAppend(kind, front, last, e); }
        assert Due(kind, [last], e) <==> Wants(kind, last) && e == EntryFor(kind, last) by { assert last in [last]; }
      }
    }
  }

  lemma {:induction false} DueAppend(kind: JournalKind, front: seq<StateRecord>, last: StateRecord, e: Entry)
    ensures Due(kind, front + [last], e) <==> Due(kind, front, e) || Due(kind, [last], e)
  {
    assert forall r :: r in front + [last] <==> r in front || r in [last];
  }

  /** A repair of a journal leaves exactly what was there and what is due, and an ordered scan adds in order. */
  lemma {:induction false} AdditionsAreDue(journal: seq<Entry>, kind: JournalKind, records: seq<StateRecord>)
    requires Distinct(journal) && Additions(journal, EntriesFor(kind, records)).Some?
    ensures var a := Additions(journal, EntriesFor(kind, records)).value;
      forall e :: e in journal + a <==> e in journal || Due(kind, records, e)
  {
    hide Additions, EntriesFor, Distinct;
    AdditionsComplete(journal, EntriesFor(kind, records));
    EntriesAreDue(kind, records);
  }

  /** Nobody claims an ID or an order that somebody else has, among what is there and what is due. */
  ghost predicate Agreeing(journal: seq<Entry>, kind: JournalKind, records: seq<StateRecord>) {
    forall x, y :: (x in journal || Due(kind, records, x)) && (y in journal || Due(kind, records, y)) && (x.id == y.id || x.order == y.order) ==> x == y
  }

  lemma {:induction false} RefusedOnlyWhenContradicted(journal: seq<Entry>, kind: JournalKind, records: seq<StateRecord>)
    requires Distinct(journal)
    ensures Additions(journal, EntriesFor(kind, records)).Some? <==> Agreeing(journal, kind, records)
  {
    hide Additions, EntriesFor, Distinct, Due;
    var all := journal + EntriesFor(kind, records);
    AdditionsSomeIff(journal, EntriesFor(kind, records));
    EntriesAreDue(kind, records);
    assert forall e :: e in all <==> e in journal || Due(kind, records, e);
  }

  lemma {:induction false} OrderedEntries(kind: JournalKind, records: seq<StateRecord>)
    requires forall i, j :: 0 <= i < j < |records| ==> records[i].order <= records[j].order
    ensures Ordered(EntriesFor(kind, records))
    ensures forall e :: e in EntriesFor(kind, records) ==> exists r :: r in records && e.order == r.order
  {
    if records != [] {
      var front, last := records[..|records| - 1], records[|records| - 1];
      OrderedEntries(kind, front);
      forall e | e in EntriesFor(kind, front) ensures e.order <= last.order {
        var r :| r in front && e.order == r.order;
      }
    }
  }

  lemma {:induction false} AdditionsOrdered(journal: seq<Entry>, wanted: seq<Entry>)
    requires Ordered(wanted) && Additions(journal, wanted).Some?
    ensures Ordered(Additions(journal, wanted).value) && forall e :: e in Additions(journal, wanted).value ==> e in wanted
    decreases |wanted|
  {
    if wanted != [] {
      var w := wanted[0];
      assert Ordered(wanted[1..]) && forall e :: e in wanted[1..] ==> e in wanted && w.order <= e.order;
      if w in journal {
        AdditionsOrdered(journal, wanted[1..]);
      } else {
        AdditionsOrdered(journal + [w], wanted[1..]);
      }
    }
  }

  method JournalAdditions(journal: seq<Entry>, records: seq<StateRecord>, kind: JournalKind) returns (additions: Option<seq<Entry>>)
    requires Distinct(journal)
    ensures additions == Additions(journal, EntriesFor(kind, records))
    ensures additions.Some? <==> Agreeing(journal, kind, records)
    ensures additions.Some? ==> forall e :: e in journal + additions.value <==> e in journal || Due(kind, records, e)
  {
    hide Additions, Distinct, Clashes, EntriesFor, EntryFor, Tables, Due, Agreeing;
    RefusedOnlyWhenContradicted(journal, kind, records);
    var index := new JournalIndex(journal);
    var added: seq<Entry> := [];
    AdditionsOfNothing(journal, kind, records);
    for i := 0 to |records|
      invariant index.Valid() && fresh(index) && index.records == journal + added
      invariant Additions(journal, EntriesFor(kind, records[..i])) == Some(added)
    {
      EntriesStep(kind, records, i);
      if Wants(kind, records[i]) {
        var e := EntryFor(kind, records[i]);
        AdditionsSnoc(journal, EntriesFor(kind, records[..i]), e);
        var before := |index.records|;
        var ok := index.Add(e);
        if !ok {
          AdditionsFail(journal, kind, records, i + 1);
          return None;
        }
        Assoc(journal, added, [e]);
        if |index.records| > before { added := added + [e]; }
      }
    }
    assert records[..|records|] == records;
    AdditionsAreDue(journal, kind, records);
    additions := Some(added);
  }

  lemma {:induction false} AdditionsOfNothing(journal: seq<Entry>, kind: JournalKind, records: seq<StateRecord>)
    ensures Additions(journal, EntriesFor(kind, records[..0])) == Some([]) && journal + [] == journal
  {}

  lemma {:induction false} AdditionsFail(journal: seq<Entry>, kind: JournalKind, records: seq<StateRecord>, n: nat)
    requires n <= |records| && Additions(journal, EntriesFor(kind, records[..n])).None?
    ensures Additions(journal, EntriesFor(kind, records)).None?
    decreases |records| - n
  {
    hide Additions;
    if n == |records| {
      assert records[..n] == records;
    } else {
      EntriesStep(kind, records, n);
      AdditionsSnoc(journal, EntriesFor(kind, records[..n]), EntryFor(kind, records[n]));
      AdditionsFail(journal, kind, records, n + 1);
    }
  }

  /** A repair is refused exactly when journal and scan together are contradictory. */
  lemma {:induction false} AdditionsSomeIff(journal: seq<Entry>, wanted: seq<Entry>)
    requires Distinct(journal)
    ensures Additions(journal, wanted).Some? <==> Consistent(journal + wanted)
    decreases |wanted|
  {
    if wanted == [] {
      DistinctIsConsistent(journal);
      assert journal + wanted == journal;
    } else {
      var w := wanted[0];
      if Clashes(w, journal) {
        var x :| x in journal && Claims(x, w) && x != w;
        assert x in journal + wanted && w in journal + wanted;
      } else if w in journal {
        AdditionsSomeIff(journal, wanted[1..]);
        SameMembers(journal + wanted, journal + wanted[1..]);
      } else {
        DistinctSnoc(journal, w);
        AdditionsSomeIff(journal + [w], wanted[1..]);
        assert journal + [w] + wanted[1..] == journal + wanted;
      }
    }
  }

  lemma {:induction false} SameMembers(a: seq<Entry>, b: seq<Entry>)
    requires forall e :: e in a <==> e in b
    ensures Consistent(a) <==> Consistent(b)
  {}

  /** What a repair leaves: the journal and the scan together, each logical record once. */
  lemma {:induction false} AdditionsComplete(journal: seq<Entry>, wanted: seq<Entry>)
    requires Distinct(journal) && Additions(journal, wanted).Some?
    ensures var a := Additions(journal, wanted).value;
      && Distinct(journal + a)
      && (forall e :: e in journal + a <==> e in journal || e in wanted)
    decreases |wanted|
  {
    if wanted == [] {
      assert journal + [] == journal;
    } else {
      var w := wanted[0];
      assert wanted == [w] + wanted[1..];
      if w in journal {
        AdditionsComplete(journal, wanted[1..]);
      } else {
        DistinctSnoc(journal, w);
        AdditionsComplete(journal + [w], wanted[1..]);
        var rest := Additions(journal + [w], wanted[1..]).value;
        assert journal + ([w] + rest) == journal + [w] + rest;
      }
    }
  }

  lemma {:induction false} FirstKnown(journal: seq<Entry>, known: seq<Entry>, wanted: seq<Entry>)
    requires Distinct(known) && wanted != [] && wanted[0] in journal && forall x :: x in journal ==> x in known
    ensures Additions(journal, wanted) == Additions(journal, wanted[1..])
  {
    DistinctIsConsistent(known);
  }

  lemma {:induction false} ConsSlices(journal: seq<Entry>, a: seq<Entry>, k: nat)
    requires 0 < k <= |a|
    ensures journal + a[..k] == journal + [a[0]] + a[1..][..k - 1] && a[1..][k - 1..] == a[k..]
  {}

  /** Stopped after any number of entries and run again, a repair appends exactly the rest. */
  lemma {:induction false} AdditionsRestart(journal: seq<Entry>, wanted: seq<Entry>, k: nat)
    requires Distinct(journal) && Additions(journal, wanted).Some?
    requires k <= |Additions(journal, wanted).value|
    ensures var a := Additions(journal, wanted).value; Additions(journal + a[..k], wanted) == Some(a[k..])
    decreases |wanted|
  {
    hide Distinct, Clashes, Claims;
    var a := Additions(journal, wanted).value;
    if wanted == [] || k == 0 {
      assert journal + a[..0] == journal && a[0..] == a;
    } else {
      var w := wanted[0];
      AdditionsComplete(journal, wanted);
      assert forall x :: x in journal + a[..k] ==> x in journal + a;
      if w in journal {
        AdditionsRestart(journal, wanted[1..], k);
      } else {
        DistinctSnoc(journal, w);
        AdditionsRestart(journal + [w], wanted[1..], k - 1);
        assert a[1..] == Additions(journal + [w], wanted[1..]).value;
        ConsSlices(journal, a, k);
      }
      FirstKnown(journal + a[..k], journal + a, wanted);
    }
  }

  predicate Ordered(es: seq<Entry>) {
    forall i, j :: 0 <= i < j < |es| ==> es[i].order <= es[j].order
  }

  function InsertByOrder(e: Entry, es: seq<Entry>): seq<Entry> {
    if es == [] || e.order < es[0].order then [e] + es else [es[0]] + InsertByOrder(e, es[1..])
  }

  function SortByOrder(es: seq<Entry>): seq<Entry> {
    if es == [] then [] else InsertByOrder(es[|es| - 1], SortByOrder(es[..|es| - 1]))
  }

  lemma {:induction false} InsertMembers(e: Entry, es: seq<Entry>)
    ensures multiset(InsertByOrder(e, es)) == multiset(es) + multiset{e}
  {
    if es != [] && es[0].order <= e.order {
      assert es == [es[0]] + es[1..];
      InsertMembers(e, es[1..]);
    }
  }

  lemma {:induction false} InsertOrdered(e: Entry, es: seq<Entry>)
    requires Ordered(es)
    ensures Ordered(InsertByOrder(e, es))
  {
    if es != [] && es[0].order <= e.order {
      InsertOrdered(e, es[1..]);
      InsertMembers(e, es[1..]);
      var rest := InsertByOrder(e, es[1..]);
      forall k | 0 <= k < |rest| ensures es[0].order <= rest[k].order {
        assert rest[k] in multiset(rest);
        if rest[k] != e { assert rest[k] in es[1..]; }
      }
    }
  }

  lemma {:induction false} SortIsOrdered(es: seq<Entry>)
    ensures Ordered(SortByOrder(es)) && multiset(SortByOrder(es)) == multiset(es)
  {
    if es != [] {
      SplitLast(es);
      SortIsOrdered(es[..|es| - 1]);
      InsertOrdered(es[|es| - 1], SortByOrder(es[..|es| - 1]));
      InsertMembers(es[|es| - 1], SortByOrder(es[..|es| - 1]));
    }
  }
}
