/** The in-memory inventory of reserved records: identities and orders, and a maximum that never goes down. */
module StoreInventory {
  import opened Numbers
  import opened Wrappers
  import opened StoreState
  import opened StoreJournal
  import opened StoreProtocol

  /** Orders are 64-bit. */
  const LARGEST_ORDER := 0xFFFF_FFFF_FFFF_FFFF

  datatype Fingerprint = Fingerprint(user: string, app: State, userDelta: State)

  /** `complete` is false for a record of which only one half was found when the inventory was built. */
  datatype Reservation = Reservation(order: Order, fingerprint: Fingerprint, complete: bool)

  function FingerprintOf(r: StateRecord): Fingerprint { Fingerprint(r.user, r.app, r.userDelta) }

  function ReservationOf(r: StateRecord): Reservation { Reservation(r.order, FingerprintOf(r), true) }

  /** Reserving `r` again is harmless; reserving anything that shares only its ID or only its order is refused. */
  predicate Admits(byId: map<RecordId, Reservation>, byOrder: map<Order, RecordId>, r: StateRecord) {
    if r.id in byId then byId[r.id] == ReservationOf(r) else r.order !in byOrder
  }

  class RecordInventory {
    var byId: map<RecordId, Reservation>
    var byOrder: map<Order, RecordId>
    var maximum: nat

    ghost predicate Valid()
      reads this
    {
      && (forall id :: id in byId ==> byId[id].order in byOrder && byOrder[byId[id].order] == id)
      && (forall o :: o in byOrder ==> byOrder[o] in byId && byId[byOrder[o]].order == o)
      && (forall o :: o in byOrder ==> o <= maximum)
    }

    constructor ()
      ensures Valid() && byId == map[] && byOrder == map[] && maximum == 0
    {
      byId, byOrder, maximum := map[], map[], 0;
    }

    method Add(r: StateRecord) returns (ok: bool)
      requires Valid()
      modifies this
      ensures Valid() && ok == Admits(old(byId), old(byOrder), r)
      ensures ok ==> byId == old(byId)[r.id := ReservationOf(r)] && byOrder == old(byOrder)[r.order := r.id] && maximum == Max(old(maximum), r.order)
      ensures !ok ==> byId == old(byId) && byOrder == old(byOrder) && maximum == old(maximum)
    {
      var reserved := ReservationOf(r);
      if r.id in byId {
        ok := byId[r.id].complete && byId[r.id] == reserved;
        assert byId[r.id].order <= maximum;
        assert ok ==> byId == byId[r.id := reserved] && byOrder == byOrder[r.order := r.id];
      } else if r.order in byOrder {
        ok := false;
      } else {
        ok := true;
        byOrder := byOrder[r.order := r.id];
        byId := byId[r.id := reserved];
        maximum := Max(maximum, r.order);
      }
    }

    /** Releasing forgets the record but keeps the maximum: its order is not handed out again. */
    method Remove(r: StateRecord)
      requires Valid()
      modifies this
      ensures Valid() && maximum == old(maximum)
      ensures var known := r.id in old(byId) && old(byId)[r.id] == ReservationOf(r);
        && byId == (if known then old(byId) - {r.id} else old(byId))
        && byOrder == (if known then old(byOrder) - {r.order} else old(byOrder))
    {
      if r.id !in byId || !byId[r.id].complete || byId[r.id].order != r.order || byId[r.id].fingerprint != FingerprintOf(r) { return; }
      byId := byId - {r.id};
      byOrder := byOrder - {r.order};
    }

    /**
     * `reserveRecord`. The sequence file may be missing, unreadable or behind: the order handed out is above every
     * order the inventory knows all the same. A refusal changes nothing; a failed sequence write keeps the maximum raised.
     * After the largest order every reservation is refused.
     */
    method Reserve(sequence: Sequence, candidate: Order -> StateRecord, writes: bool) returns (r: Option<StateRecord>, written: Sequence)
      requires Valid()
      requires forall n: Order :: candidate(n).order == n
      modifies this
      ensures Valid()
      ensures var n := NextOrder(sequence, old(maximum));
        && n !in old(byOrder) && (forall o :: o in old(byOrder) ==> o < n) && SequenceValue(sequence) < n
        && (n - 1 == old(maximum) || n - 1 == SequenceValue(sequence))
        && (r.Some? <==> n <= LARGEST_ORDER && candidate(n).id !in old(byId) && writes)
        && (r.Some? ==> r.value == candidate(n) && written == Reads(n) && byId == old(byId)[r.value.id := ReservationOf(r.value)])
        && (r.None? ==> written == sequence && byId == old(byId) && byOrder == old(byOrder))
        && maximum == if n > LARGEST_ORDER || candidate(n).id in old(byId) then old(maximum) else n
    {
      var n := NextOrder(sequence, maximum);
      if n > LARGEST_ORDER {
        assert n !in byOrder;
        return None, sequence;
      }
      var record := candidate(n);
      assert n !in byOrder;
      assert record.id in byId ==> byId[record.id].order in byOrder && byId[record.id].order <= maximum;
      var ok := Add(record);
      if !ok { return None, sequence; }
      if !writes {
        Remove(record);
        assert byId == old(byId) && byOrder == old(byOrder);
        return None, sequence;
      }
      r, written := Some(record), Reads(n);
    }
  }
}
