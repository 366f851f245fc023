/** The per-session output budget: grants are reserved before a tool call and settled after it. */
module OutputBudget {
  import opened Numbers

  const MINIMUM_GRANT := 2000
  const DEFAULT_PER_SESSION := 400000
  const ID_LIMIT := 0x1_0000_0000_0000_0000

  datatype Account = Account(used: int, reserved: int, pending: map<nat, int>)

  const FRESH := Account(0, 0, map[])

  datatype Reservation = Reservation(id: nat, grant: int)

  const NOTHING := Reservation(0, 0)

  /** Reservation IDs are 64-bit, skip zero, and wrap around. */
  function NextId(last: nat): nat {
    var n := (last + 1) % ID_LIMIT;
    if n == 0 then 1 else n
  }

  function Remaining(limit: int, a: Account): int { limit - a.used - a.reserved }

  /** Half of what is left, at least the minimum grant, never more than is left or wanted. */
  function Allowed(remaining: int, want: int): int {
    Min(Min(Max(remaining / 2, MINIMUM_GRANT), remaining), want)
  }

  predicate Grants(limit: int, a: Account, want: int) { want > 0 && Remaining(limit, a) > 0 }

  function Reserved(limit: int, a: Account, id: nat, want: int): Account {
    if !Grants(limit, a, want) then a
    else
      var grant := Allowed(Remaining(limit, a), want);
      Account(a.used, a.reserved + grant, a.pending[id := grant])
  }

  function Settled(a: Account, id: nat): Account {
    if id in a.pending then Account(a.used, a.reserved - a.pending[id], a.pending - {id}) else a
  }

  function Consumed(limit: int, a: Account, id: nat, emitted: int): Account {
    var b := Settled(a, id);
    var clipped := if id in a.pending then Min(Max(emitted, 0), a.pending[id]) else Max(emitted, 0);
    b.(used := b.used + Max(Min(clipped, Remaining(limit, b)), 0))
  }

  ghost function Sum(m: map<nat, int>): int {
    if m == map[] then 0
    else
      var k :| k in m;
      m[k] + Sum(m - {k})
  }

  lemma {:induction false} SumWithout(m: map<nat, int>, k: nat)
    requires k in m
    ensures Sum(m) == m[k] + Sum(m - {k})
    decreases |m|
  {
    var j :| j in m && Sum(m) == m[j] + Sum(m - {j});
    if j != k {
      SumWithout(m - {j}, k);
      SumWithout(m - {k}, j);
      assert m - {j} - {k} == m - {k} - {j};
    }
  }

  lemma {:induction false} SumWith(m: map<nat, int>, k: nat, v: int)
    ensures Sum(m[k := v]) == v + Sum(m) - if k in m then m[k] else 0
  {
    SumWithout(m[k := v], k);
    if k in m {
      SumWithout(m, k);
      assert m[k := v] - {k} == m - {k};
    } else {
      assert m[k := v] - {k} == m;
    }
  }

  /** The reserved total is the sum of the outstanding grants. */
  ghost predicate Balanced(a: Account) { a.reserved == Sum(a.pending) }

  predicate Within(limit: int, a: Account) {
    && 0 <= a.used && 0 <= a.reserved && a.used + a.reserved <= limit
    && forall id :: id in a.pending ==> 0 < a.pending[id]
  }

  /** A reservation keeps the books balanced exactly when its ID is not already outstanding. */
  lemma {:induction false} ReserveBalanced(limit: int, a: Account, id: nat, want: int)
    requires Balanced(a) && Within(limit, a)
    ensures Balanced(Reserved(limit, a, id, want)) <==> !Grants(limit, a, want) || id !in a.pending
    ensures Within(limit, Reserved(limit, a, id, want))
    ensures Grants(limit, a, want) ==> 0 < Allowed(Remaining(limit, a), want) <= want
  {
    if Grants(limit, a, want) { SumWith(a.pending, id, Allowed(Remaining(limit, a), want)); }
  }

  /** What may be granted: no more than asked, no more than is left, and past 2000 bytes no more than half of it. */
  predicate MayGrant(limit: int, a: Account, want: int, grant: int) {
    var left := limit - a.used - a.reserved;
    0 < grant <= want && grant <= left && (grant <= 2000 || grant <= left / 2)
  }

  /** A reservation takes the largest amount that may be granted, and nothing when none may. */
  lemma {:induction false} GrantIsLargest(limit: int, a: Account, id: nat, want: int)
    ensures var b := Reserved(limit, a, id, want);
      if (exists g :: MayGrant(limit, a, want, g)) then
        && id in b.pending && MayGrant(limit, a, want, b.pending[id])
        && (forall g :: MayGrant(limit, a, want, g) ==> g <= b.pending[id])
        && b == Account(a.used, a.reserved + b.pending[id], a.pending[id := b.pending[id]])
      else b == a
  {
    if Grants(limit, a, want) {
      assert MayGrant(limit, a, want, Allowed(Remaining(limit, a), want));
    }
  }

  /** Settling an outstanding grant releases it and charges what was emitted, at most the grant; negative counts charge nothing. */
  lemma {:induction false} ConsumeCharges(limit: int, a: Account, id: nat, emitted: int)
    requires Balanced(a) && Within(limit, a) && id in a.pending
    ensures var b, grant := Consumed(limit, a, id, emitted), a.pending[id];
      && b.pending == a.pending - {id} && b.reserved == a.reserved - grant
      && (0 <= emitted <= grant ==> b.used == a.used + emitted)
      && (emitted < 0 ==> b.used == a.used)
      && (emitted > grant ==> b.used == a.used + grant)
  {
    SumWithout(a.pending, id);
    SumOfPositive(a.pending - {id});
  }

  /** Without an outstanding grant what was emitted is charged as long as something is left. */
  lemma {:induction false} ConsumeUnknown(limit: int, a: Account, id: nat, emitted: int)
    requires id !in a.pending && Within(limit, a)
    ensures var b, left := Consumed(limit, a, id, emitted), limit - a.used - a.reserved;
      && b.pending == a.pending && b.reserved == a.reserved
      && (0 <= emitted <= left ==> b.used == a.used + emitted)
      && (emitted < 0 ==> b.used == a.used)
      && (emitted > left ==> b.used == a.used + left)
  {}

  lemma {:induction false} SumOfPositive(m: map<nat, int>)
    requires forall k :: k in m ==> 0 < m[k]
    ensures 0 <= Sum(m)
    decreases |m|
  {
    if m != map[] {
      var k :| k in m;
      SumWithout(m, k);
      SumOfPositive(m - {k});
    }
  }

  /** Settling keeps the books, whether the ID is outstanding, stale or made up, and whatever was emitted. */
  lemma {:induction false} ConsumeBalanced(limit: int, a: Account, id: nat, emitted: int)
    requires Balanced(a) && Within(limit, a)
    ensures Balanced(Consumed(limit, a, id, emitted)) && Within(limit, Consumed(limit, a, id, emitted))
    ensures a.used <= Consumed(limit, a, id, emitted).used <= a.used + Max(emitted, 0)
    ensures id in a.pending ==> Consumed(limit, a, id, emitted).used <= a.used + a.pending[id]
  {
    if id in a.pending {
      SumWithout(a.pending, id);
      SumOfPositive(a.pending - {id});
    }
  }

  class Budget {
    const perSession: int
    var used: map<string, int>
    var reserved: map<string, int>
    var pending: map<string, map<nat, int>>
    var nextId: nat

    function At(session: string): Account
      reads this
    {
      Account(if session in used then used[session] else 0,
              if session in reserved then reserved[session] else 0,
              if session in pending then pending[session] else map[])
    }

    constructor (perSession: int)
      ensures this.perSession == (if perSession <= 0 then DEFAULT_PER_SESSION else perSession) && nextId == 0
      ensures forall s :: At(s) == FRESH
    {
      this.perSession := if perSession <= 0 then DEFAULT_PER_SESSION else perSession;
      used, reserved, pending, nextId := map[], map[], map[], 0;
    }

    method Reserve(session: string, want: int) returns (r: Reservation)
      modifies this
      ensures At(session) == Reserved(perSession, old(At(session)), NextId(old(nextId)), want)
      ensures r == if Grants(perSession, old(At(session)), want)
        then Reservation(NextId(old(nextId)), Allowed(Remaining(perSession, old(At(session))), want)) else NOTHING
      ensures nextId == if Grants(perSession, old(At(session)), want) then NextId(old(nextId)) else old(nextId)
      ensures forall s :: s != session ==> At(s) == old(At(s))
    {
      if want <= 0 { return NOTHING; }
      var account := At(session);
      var remaining := perSession - account.used - account.reserved;
      if remaining <= 0 { return NOTHING; }
      var allowed := remaining / 2;
      if allowed < MINIMUM_GRANT { allowed := MINIMUM_GRANT; }
      if allowed > remaining { allowed := remaining; }
      if allowed > want { allowed := want; }
      nextId := (nextId + 1) % ID_LIMIT;
      if nextId == 0 { nextId := 1; }
      reserved := reserved[session := account.reserved + allowed];
      pending := pending[session := account.pending[nextId := allowed]];
      r := Reservation(nextId, allowed);
    }

    /** The first half of `Consume`: the reservation is taken off the books, when there is one. */
    method Settle(session: string, id: nat) returns (grant: int)
      modifies this
      ensures old(Within(perSession, At(session))) ==>
        At(session) == Settled(old(At(session)), id) && grant == if id in old(At(session)).pending then old(At(session)).pending[id] else 0
      ensures nextId == old(nextId) && used == old(used)
      ensures forall s :: s != session ==> At(s) == old(At(s))
    {
      grant := 0;
      if session !in pending { return; }
      var reservations: map<nat, int> := pending[session];
      if id in reservations { grant := reservations[id]; }
      if grant > 0 { reservations := map k: nat | k in reservations && k != id :: reservations[k]; }
      pending := if reservations == map[] then pending - {session} else pending[session := reservations];
      reserved := reserved[session := (if session in reserved then reserved[session] else 0) - grant];
      assert id in old(At(session)).pending && grant > 0 ==> reservations == old(At(session)).pending - {id};
    }

    method Consume(session: string, id: nat, emitted: int)
      modifies this
      ensures old(Within(perSession, At(session))) ==> At(session) == Consumed(perSession, old(At(session)), id, emitted)
      ensures nextId == old(nextId)
      ensures forall s :: s != session ==> At(s) == old(At(s))
    {
      var grant := Settle(session, id);
      var bytes := if emitted < 0 then 0 else emitted;
      if grant > 0 && bytes > grant { bytes := grant; }
      var account := At(session);
      var remaining := perSession - account.used - account.reserved;
      if bytes > remaining { bytes := remaining; }
      if bytes > 0 { used := used[session := account.used + bytes]; }
    }

    method Reset(session: string)
      modifies this
      ensures At(session) == FRESH && nextId == old(nextId)
      ensures forall s :: s != session ==> At(s) == old(At(s))
    {
      used, reserved, pending := used - {session}, reserved - {session}, pending - {session};
    }
  }

  // Every sequence of operations.

  datatype Op = Reserve(session: string, want: int) | Consume(session: string, id: nat, emitted: int) | Reset(session: string)

  /** `issued` counts the reservations handed out; the 64-bit ID is a function of it. */
  datatype Books = Books(accounts: map<string, Account>, issued: nat)

  function AccountOf(b: Books, session: string): Account {
    if session in b.accounts then b.accounts[session] else FRESH
  }

  function IdAfter(issued: nat): nat {
    if issued == 0 then 0 else NextId(IdAfter(issued - 1))
  }

  function Do(limit: int, b: Books, op: Op): Books {
    var a := AccountOf(b, op.session);
    match op
    case Reserve(session, want) =>
      Books(b.accounts[session := Reserved(limit, a, IdAfter(b.issued + 1), want)], if Grants(limit, a, want) then b.issued + 1 else b.issued)
    case Consume(session, id, emitted) => b.(accounts := b.accounts[session := Consumed(limit, a, id, emitted)])
    case Reset(session) => b.(accounts := b.accounts[session := FRESH])
  }

  function DoAll(limit: int, ops: seq<Op>): Books {
    if ops == [] then Books(map[], 0) else Do(limit, DoAll(limit, ops[..|ops| - 1]), ops[|ops| - 1])
  }

  /** Up to the first wrap-around the IDs count up. */
  lemma {:induction false} IdsCountUp(issued: nat)
    requires issued < ID_LIMIT
    ensures IdAfter(issued) == issued
  {
    if issued > 0 { IdsCountUp(issued - 1); }
  }

  ghost predicate Sound(limit: int, b: Books) {
    forall s: string ::
      && Balanced(AccountOf(b, s)) && Within(limit, AccountOf(b, s))
      && forall id :: id in AccountOf(b, s).pending ==> id <= b.issued
  }

  /** Books stay sound over every sequence of operations that issues fewer than 2^64 reservations. */
  lemma {:induction false} BooksStaySound(limit: int, ops: seq<Op>)
    requires 0 <= limit && DoAll(limit, ops).issued < ID_LIMIT
    ensures Sound(limit, DoAll(limit, ops))
  {
    if ops != [] {
      var front, op := ops[..|ops| - 1], ops[|ops| - 1];
      var b := DoAll(limit, front);
      BooksStaySound(limit, front);
      forall s: string
        ensures var a := AccountOf(Do(limit, b, op), s);
          && Balanced(a) && Within(limit, a) && forall id :: id in a.pending ==> id <= Do(limit, b, op).issued
      {
        StepStaysSound(limit, b, op, s);
      }
    }
  }

  lemma {:induction false} StepStaysSound(limit: int, b: Books, op: Op, s: string)
    requires 0 <= limit && Sound(limit, b) && Do(limit, b, op).issued < ID_LIMIT
    ensures var a := AccountOf(Do(limit, b, op), s);
      && Balanced(a) && Within(limit, a) && forall id :: id in a.pending ==> id <= Do(limit, b, op).issued
  {
    var a := AccountOf(b, op.session);
    assert Balanced(a) && Within(limit, a) && forall id :: id in a.pending ==> id <= b.issued;
    assert Balanced(AccountOf(b, s)) && Within(limit, AccountOf(b, s));
    if s == op.session {
      match op
      case Reserve(session, want) =>
        if Grants(limit, a, want) { IdsCountUp(b.issued + 1); }
        ReserveBalanced(limit, a, IdAfter(b.issued + 1), want);
      case Consume(session, id, emitted) => ConsumeBalanced(limit, a, id, emitted);
      case Reset(session) =>
    }
  }

  /** Past the wrap-around an ID can be issued while its first grant is outstanding, and that grant is never released. */
  lemma {:induction false} WrapLeaks(limit: int, a: Account, id: nat, want: int)
    requires Balanced(a) && Within(limit, a) && Grants(limit, a, want) && id in a.pending
    ensures var b := Reserved(limit, a, id, want); b.reserved == Sum(b.pending) + a.pending[id]
  {
    SumWith(a.pending, id, Allowed(Remaining(limit, a), want));
  }

  lemma {:induction false} WrappedId(n: nat)
    requires n == ID_LIMIT
    ensures IdAfter(n) == 1
  {
    IdsCountUp(n - 1);
  }

  lemma {:induction false} OneByte(limit: int, a: Account, id: nat)
    requires 0 < Remaining(limit, a)
    ensures Reserved(limit, a, id, 1) == Account(a.used, a.reserved + 1, a.pending[id := 1])
  {}

  lemma {:induction false} NothingEmitted(limit: int, a: Account, id: nat)
    requires id in a.pending && 0 < a.pending[id]
    ensures Consumed(limit, a, id, 0) == Account(a.used, a.reserved - a.pending[id], a.pending - {id})
  {}

  /** The wrap-around is real: the first and the 2^64th reservation have ID 1, and then a byte is never released. */
  lemma {:induction false} WrapLeaksOneByte(last: nat)
    requires last == ID_LIMIT
    ensures IdAfter(1) == 1 && IdAfter(last) == 1
    ensures var first := Reserved(DEFAULT_PER_SESSION, FRESH, IdAfter(1), 1);
      var both := Reserved(DEFAULT_PER_SESSION, first, IdAfter(last), 1);
      both == Account(0, 2, map[1 := 1]) && Consumed(DEFAULT_PER_SESSION, both, 1, 0) == Account(0, 1, map[])
  {
    hide IdAfter, Reserved, Consumed;
    IdsCountUp(1);
    WrappedId(last);
    OneByte(DEFAULT_PER_SESSION, FRESH, 1);
    var one, both := Account(0, 1, map[][1 := 1]), Account(0, 2, map[][1 := 1][1 := 1]);
    OneByte(DEFAULT_PER_SESSION, one, 1);
    NothingEmitted(DEFAULT_PER_SESSION, both, 1);
    assert both.pending == map[1 := 1] && both.pending - {1} == map[];
  }
}
