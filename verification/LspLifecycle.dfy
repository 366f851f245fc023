/**
 * Language-server lifecycles: lazy starts that share one attempt per server and root, caller cancellation, failures
 * that disable a server, disconnects, and closing the manager, in any interleaving.
 */
module LspLifecycle {
  import opened Wrappers

  datatype Key = Key(server: string, root: string)

  datatype Code = NoCode | Unavailable | StartFailed | InitializeFailed | RequestFailed

  /** `completions` counts finished start attempts; a waiter waits for the next one. */
  datatype ServerState = ServerState(starting: bool, completions: nat, client: Option<nat>, failures: nat, disabled: bool)

  const NEW_SERVER := ServerState(false, 0, None, 0, false)

  datatype Servers = Servers(closed: bool, states: map<Key, ServerState>)

  datatype Begun = Refused | Existing(client: nat) | Degraded | WaitFor(completions: nat) | Own

  function StateOf(m: Servers, key: Key): ServerState { if key in m.states then m.states[key] else NEW_SERVER }

  function WithState(m: Servers, key: Key, s: ServerState): Servers { m.(states := m.states[key := s]) }

  function Begin(m: Servers, key: Key): (r: (Begun, Servers)) {
    if m.closed then (Refused, m)
    else
      var s := StateOf(m, key);
      if s.client.Some? then (Existing(s.client.value), WithState(m, key, s))
      else if s.disabled then (Degraded, WithState(m, key, s))
      else if s.starting then (WaitFor(s.completions), WithState(m, key, s))
      else (Own, WithState(m, key, s.(starting := true)))
  }

  function Complete(m: Servers, key: Key, client: Option<nat>, code: Code, cancelled: bool, limit: nat): Servers {
    var s := StateOf(m, key).(starting := false, completions := StateOf(m, key).completions + 1);
    WithState(m, key,
      if client.Some? && !m.closed && !cancelled then s.(client := client, failures := 0)
      else if !cancelled then s.(failures := s.failures + 1, disabled := code.Unavailable? || s.failures + 1 >= limit)
      else s)
  }

  predicate Registered(m: Servers, key: Key, client: nat) { key in m.states && m.states[key].client == Some(client) }

  /** The registry after a failure, and whether the transport is to be closed. */
  function Fail(m: Servers, key: Key, client: nat, disconnected: bool, limit: nat): (r: (Servers, bool)) {
    if m.closed || !Registered(m, key, client) then (m, false)
    else
      var s := m.states[key];
      var failures := s.failures + 1;
      var disabled := s.disabled || failures >= limit;
      (WithState(m, key, s.(failures := failures, client := if disconnected || failures >= limit then None else s.client, disabled := disabled)),
       disabled && !disconnected)
  }

  function Succeed(m: Servers, key: Key, client: nat): Servers {
    if Registered(m, key, client) then WithState(m, key, m.states[key].(failures := 0)) else m
  }

  function Shut(m: Servers): Servers {
    if m.closed then m else Servers(true, map k | k in m.states :: m.states[k].(client := None))
  }

  ghost predicate HasClient(m: Servers, client: nat) { exists k :: Registered(m, k, client) }

  /** The manager; every method is one section under its lock. */
  class Manager {
    const limit: nat
    var closed: bool
    var states: map<Key, ServerState>

    function Value(): Servers
      reads this
    {
      Servers(closed, states)
    }

    constructor (limit: nat)
      requires 0 < limit
      ensures Value() == Servers(false, map[]) && this.limit == limit
    {
      this.limit, closed, states := limit, false, map[];
    }

    method BeginStart(key: Key) returns (begun: Begun)
      modifies this
      ensures (begun, Value()) == Begin(old(Value()), key)
    {
      if closed { return Refused; }
      if key !in states { states := states[key := NEW_SERVER]; }
      var state := states[key];
      assert states == old(states)[key := state];
      if state.client.Some? { return Existing(state.client.value); }
      if state.disabled { return Degraded; }
      if state.starting { return WaitFor(state.completions); }
      states := states[key := state.(starting := true)];
      assert states == old(states)[key := state.(starting := true)];
      begun := Own;
    }

    method CompleteStart(key: Key, client: Option<nat>, code: Code, cancelled: bool) returns (wasClosed: bool)
      requires key in states
      modifies this
      ensures Value() == Complete(old(Value()), key, client, code, cancelled, limit)
      ensures wasClosed == closed
    {
      var state := states[key].(starting := false);
      wasClosed := closed;
      if client.Some? && !wasClosed && !cancelled {
        state := state.(client := client, failures := 0);
      } else if !cancelled {
        state := state.(failures := state.failures + 1);
        state := state.(disabled := code.Unavailable? || state.failures >= limit);
      }
      states := states[key := state.(completions := state.completions + 1)];
    }

    method RecordSuccess(key: Key, client: nat)
      modifies this
      ensures Value() == Succeed(old(Value()), key, client)
    {
      if key !in states || states[key].client != Some(client) { return; }
      states := states[key := states[key].(failures := 0)];
    }

    method RecordFailure(key: Key, client: nat, disconnected: bool) returns (closeTransport: bool)
      modifies this
      ensures (Value(), closeTransport) == Fail(old(Value()), key, client, disconnected, limit)
    {
      if key !in states || states[key].client != Some(client) || closed { return false; }
      var state := states[key].(failures := states[key].failures + 1);
      if disconnected || state.failures >= limit { state := state.(client := None); }
      if state.failures >= limit { state := state.(disabled := true); }
      states := states[key := state];
      closeTransport := state.disabled && !disconnected;
    }

    /** The locked half of `Close`: nothing new starts, and every registered client is taken out. */
    method CloseLocked() returns (clients: set<nat>)
      modifies this
      ensures Value() == Shut(old(Value()))
      ensures old(closed) ==> clients == {}
      ensures !old(closed) ==> forall c :: c in clients <==> HasClient(old(Value()), c)
    {
      clients := {};
      if closed { return; }
      closed := true;
      var rest := states.Keys;
      ghost var was := states;
      while rest != {}
        invariant rest <= was.Keys && closed
        invariant states == map k | k in was :: if k in rest then was[k] else was[k].(client := None)
        invariant forall c :: c in clients <==> exists k :: k in was && k !in rest && was[k].client == Some(c)
      {
        var key :| key in rest;
        rest := rest - {key};
        if states[key].client.Some? {
          clients := clients + {states[key].client.value};
          states := states[key := states[key].(client := None)];
        }
      }
      assert states == map k | k in was :: was[k].(client := None);
      forall c ensures c in clients <==> HasClient(old(Value()), c) {
        assert forall k :: Registered(old(Value()), k, c) <==> k in was && k !in rest && was[k].client == Some(c);
      }
    }
  }

  // Interleavings.

  datatype Status = Live | Disconnected | Shutdown

  /** Where a call of `Start` is. A transport is named by its position among all transports ever started. */
  datatype Call =
    | Beginning(key: Key)
    | Awaiting(key: Key, completions: nat)
    | Launching(key: Key)
    | Initializing(key: Key, transport: nat)
    | Built(key: Key, transport: nat)
    | Resolved(key: Key, client: Option<nat>, code: Code, cancelled: bool)
    | Finishing(key: Key, discard: Option<nat>)

  datatype World = World(servers: Servers, calls: map<nat, Call>, transports: seq<Status>, toClose: set<nat>)

  const START := World(Servers(false, map[]), map[], [], {})

  datatype Step =
    | CallStart(call: nat, key: Key)
    | BeginCall(call: nat)
    | Wake(call: nat)
    | CancelWait(call: nat)
    | Launch(call: nat)
    | LaunchFails(call: nat, code: Code)
    | InitializeFails(call: nat, code: Code)
    | InitializeWorks(call: nat)
    | Resolve(call: nat, cancelled: bool)
    | CompleteCall(call: nat)
    | FinishCall(call: nat)
    | Disconnect(transport: nat)
    | ReportFailure(key: Key, client: nat, disconnected: bool)
    | ReportSuccess(key: Key, client: nat)
    | CloseManager(clients: set<nat>)
    | CloseTransport(transport: nat)

  function Down(ts: seq<Status>, t: nat): seq<Status> { if t < |ts| && ts[t].Live? then ts[t := Shutdown] else ts }

  /** Holds the one start attempt of its key. */
  predicate Owns(c: Call) { c.Launching? || c.Initializing? || c.Built? || c.Resolved? }

  predicate HoldsTransport(c: Call, t: nat) {
    match c
    case Initializing(_, x) => x == t
    case Built(_, x) => x == t
    case Resolved(_, client, _, _) => client == Some(t)
    case Finishing(_, discard) => discard == Some(t)
    case _ => false
  }

  ghost predicate Next(w: World, limit: nat, step: Step, v: World) {
    match step
    case CallStart(c, key) => c !in w.calls && v == w.(calls := w.calls[c := Beginning(key)])
    case BeginCall(c) =>
      && c in w.calls && w.calls[c].Beginning?
      && var key := w.calls[c].key;
      var (begun, servers) := Begin(w.servers, key);
      var calls :=
        if begun.WaitFor? then w.calls[c := Awaiting(key, begun.completions)]
        else if begun.Own? then w.calls[c := Launching(key)]
        else w.calls - {c};
      v == w.(servers := servers, calls := calls)
    case Wake(c) =>
      && c in w.calls && w.calls[c].Awaiting? && w.calls[c].completions < StateOf(w.servers, w.calls[c].key).completions
      && v == w.(calls := w.calls[c := Beginning(w.calls[c].key)])
    case CancelWait(c) => c in w.calls && w.calls[c].Awaiting? && v == w.(calls := w.calls - {c})
    case Launch(c) =>
      && c in w.calls && w.calls[c].Launching?
      && v == w.(calls := w.calls[c := Initializing(w.calls[c].key, |w.transports|)], transports := w.transports + [Live])
    case LaunchFails(c, code) =>
      && c in w.calls && w.calls[c].Launching?
      && exists cancelled :: v == w.(calls := w.calls[c := Resolved(w.calls[c].key, None, code, cancelled)])
    case InitializeFails(c, code) =>
      && c in w.calls && w.calls[c].Initializing?
      && exists cancelled ::
        v == w.(calls := w.calls[c := Resolved(w.calls[c].key, None, code, cancelled)], transports := Down(w.transports, w.calls[c].transport))
    case InitializeWorks(c) =>
      c in w.calls && w.calls[c].Initializing? && v == w.(calls := w.calls[c := Built(w.calls[c].key, w.calls[c].transport)])
    case Resolve(c, cancelled) =>
      && c in w.calls && w.calls[c].Built?
      && var key, t := w.calls[c].key, w.calls[c].transport;
      if !cancelled && t < |w.transports| && !w.transports[t].Live? then
        v == w.(calls := w.calls[c := Resolved(key, None, RequestFailed, false)], transports := Down(w.transports, t))
      else v == w.(calls := w.calls[c := Resolved(key, Some(t), NoCode, cancelled)])
    case CompleteCall(c) =>
      && c in w.calls && w.calls[c].Resolved?
      && var r := w.calls[c];
      v == w.(servers := Complete(w.servers, r.key, r.client, r.code, r.cancelled, limit),
              calls := w.calls[c := Finishing(r.key, if r.cancelled || w.servers.closed then r.client else None)])
    case FinishCall(c) =>
      && c in w.calls && w.calls[c].Finishing?
      && var d := w.calls[c].discard;
      v == w.(calls := w.calls - {c}, transports := if d.Some? then Down(w.transports, d.value) else w.transports)
    case Disconnect(t) => t < |w.transports| && w.transports[t].Live? && v == w.(transports := w.transports[t := Disconnected])
    case ReportFailure(key, client, disconnected) =>
      && (disconnected ==> client < |w.transports| && !w.transports[client].Live?)
      && var (servers, close) := Fail(w.servers, key, client, disconnected, limit);
      v == w.(servers := servers, toClose := if close then w.toClose + {client} else w.toClose)
    case ReportSuccess(key, client) => v == w.(servers := Succeed(w.servers, key, client))
    case CloseManager(clients) =>
      && (forall c :: c in clients <==> !w.servers.closed && HasClient(w.servers, c))
      && v == w.(servers := Shut(w.servers), toClose := w.toClose + clients)
    case CloseTransport(t) => t in w.toClose && v == w.(toClose := w.toClose - {t}, transports := Down(w.transports, t))
  }

  /** Somebody will close transport `t`, or has it registered. */
  ghost predicate Owned(w: World, t: nat) {
    || t in w.toClose
    || HasClient(w.servers, t)
    || exists c :: c in w.calls && HoldsTransport(w.calls[c], t)
  }

  /** Every live transport has an owner, and owners name transports that exist. */
  ghost predicate NothingLeaks(w: World) {
    && (forall t: nat :: t < |w.transports| && w.transports[t].Live? ==> Owned(w, t))
    && (forall t: nat :: Owned(w, t) ==> t < |w.transports|)
  }

  predicate OwnsAt(w: World, c: nat, key: Key) { c in w.calls && Owns(w.calls[c]) && w.calls[c].key == key }

  /** A start in progress has exactly one owner; its server is neither registered nor disabled; waiters have something to wait for. */
  ghost predicate OneStart(w: World) {
    && (forall k :: k in w.servers.states && w.servers.states[k].starting ==> exists c :: OwnsAt(w, c, k))
    && (forall c, k :: OwnsAt(w, c, k) ==>
          k in w.servers.states && w.servers.states[k].starting && w.servers.states[k].client.None? && !w.servers.states[k].disabled)
    && (forall c, d, k :: OwnsAt(w, c, k) && OwnsAt(w, d, k) ==> c == d)
    && (forall c :: c in w.calls && w.calls[c].Awaiting? ==>
          var s := StateOf(w.servers, w.calls[c].key);
          w.calls[c].completions < s.completions || (w.calls[c].completions == s.completions && s.starting))
    && (w.servers.closed ==> forall k :: k in w.servers.states ==> w.servers.states[k].client.None?)
  }

  ghost predicate Inv(w: World) { NothingLeaks(w) && OneStart(w) }

  lemma {:induction false} InvInitially()
    ensures Inv(START)
  {}

  /** How one server's state can change in a step. */
  predicate ServerMoves(w: World, limit: nat, step: Step, v: World, k: Key) {
    && (k in w.servers.states ==> k in v.servers.states)
    && var s, t := StateOf(w.servers, k), StateOf(v.servers, k);
    if step.BeginCall? && step.call in w.calls && w.calls[step.call] == Beginning(k) then
      (t == s || (!w.servers.closed && s.client.None? && !s.disabled && !s.starting && t == s.(starting := true)
        && v.calls == w.calls[step.call := Launching(k)]))
    else if step.CompleteCall? && step.call in w.calls && w.calls[step.call].Resolved? && w.calls[step.call].key == k then
      && !t.starting && t.completions == s.completions + 1
      && var r := w.calls[step.call];
      t.client == if r.client.Some? && !w.servers.closed && !r.cancelled then r.client else s.client
    else
      && t.starting == s.starting && t.completions == s.completions && (s.disabled ==> t.disabled)
      && (t.disabled ==> s.disabled || s.client.Some?)
      && (t.client == s.client
          || (t.client.None? && (step.CloseManager? || (step.ReportFailure? && step.key == k && s.client == Some(step.client)))))
  }

  lemma {:induction false} ServerAt(w: World, limit: nat, step: Step, v: World, k: Key)
    requires Next(w, limit, step, v)
    ensures ServerMoves(w, limit, step, v, k)
  {}

  /** How the calls can change in a step. */
  predicate CallMoves(w: World, step: Step, v: World, c: nat) {
    if c in w.calls && c in v.calls then
      && (step == CompleteCall(c) ==> v.calls[c].Finishing?)
      && (v.calls[c] == w.calls[c]
          || (v.calls[c].key == w.calls[c].key
          && match v.calls[c]
             case Beginning(_) => w.calls[c].Awaiting?
             case Awaiting(k, n) => step == BeginCall(c) && w.calls[c].Beginning? && n == StateOf(w.servers, k).completions && StateOf(w.servers, k).starting
             case Launching(k) =>
               && step == BeginCall(c) && w.calls[c].Beginning? && !StateOf(w.servers, k).starting && k in v.servers.states
               && v.servers.states[k].starting && v.servers.states[k].client.None? && !v.servers.states[k].disabled
             case Initializing(_, _) => w.calls[c].Launching?
             case Built(_, _) => w.calls[c].Initializing?
             case Resolved(_, _, _, _) => w.calls[c].Launching? || w.calls[c].Initializing? || w.calls[c].Built?
             case Finishing(_, _) => step == CompleteCall(c) && w.calls[c].Resolved?))
    else if c in v.calls then v.calls[c].Beginning?
    else c in w.calls ==> !Owns(w.calls[c])
  }

  lemma {:induction false} CallAt(w: World, limit: nat, step: Step, v: World, c: nat)
    requires Next(w, limit, step, v)
    ensures CallMoves(w, step, v, c)
  {}

  lemma {:induction false} ClosedMoves(w: World, limit: nat, step: Step, v: World)
    requires Next(w, limit, step, v)
    ensures w.servers.closed ==> v.servers.closed
    ensures v.servers.closed && !w.servers.closed ==> step.CloseManager? && forall k :: k in v.servers.states ==> v.servers.states[k].client.None?
    ensures w.servers.closed ==> forall k :: k in v.servers.states && k !in w.servers.states ==> v.servers.states[k].client.None?
  {}

  lemma {:induction false} OtherCompletes(w: World, step: Step, c: nat, k: Key)
    requires OneStart(w) && OwnsAt(w, c, k)
    ensures step.CompleteCall? && step.call != c ==> !OwnsAt(w, step.call, k)
  {}

  lemma {:induction false} OwnerStays(w: World, limit: nat, step: Step, v: World, c: nat, k: Key)
    requires OneStart(w) && Next(w, limit, step, v) && OwnsAt(v, c, k)
    ensures k in v.servers.states && v.servers.states[k].starting && v.servers.states[k].client.None? && !v.servers.states[k].disabled
    ensures OwnsAt(w, c, k) || (step == BeginCall(c) && !StateOf(w.servers, k).starting)
  {
    hide Next;
    CallAt(w, limit, step, v, c);
    ServerAt(w, limit, step, v, k);
    if OwnsAt(w, c, k) {
      OtherCompletes(w, step, c, k);
    }
  }

  lemma {:induction false} StartingHasOwner(w: World, limit: nat, step: Step, v: World, k: Key)
    requires OneStart(w) && Next(w, limit, step, v) && k in v.servers.states && v.servers.states[k].starting
    ensures exists c :: OwnsAt(v, c, k)
  {
    hide Next;
    ServerAt(w, limit, step, v, k);
    if StateOf(w.servers, k).starting {
      var c :| OwnsAt(w, c, k);
      CallAt(w, limit, step, v, c);
      assert OwnsAt(v, c, k);
    } else {
      assert OwnsAt(v, step.call, k);
    }
  }

  lemma {:induction false} WaiterStays(w: World, limit: nat, step: Step, v: World, c: nat)
    requires OneStart(w) && Next(w, limit, step, v) && c in v.calls && v.calls[c].Awaiting?
    ensures var s := StateOf(v.servers, v.calls[c].key);
      v.calls[c].completions < s.completions || (v.calls[c].completions == s.completions && s.starting)
  {
    hide Next;
    CallAt(w, limit, step, v, c);
    ServerAt(w, limit, step, v, v.calls[c].key);
  }

  lemma {:induction false} KeepsOneStart(w: World, limit: nat, step: Step, v: World)
    requires OneStart(w) && Next(w, limit, step, v)
    ensures OneStart(v)
  {
    hide Next, OwnsAt;
    forall k | k in v.servers.states && v.servers.states[k].starting ensures exists c :: OwnsAt(v, c, k) { StartingHasOwner(w, limit, step, v, k); }
    forall c, k | OwnsAt(v, c, k)
      ensures k in v.servers.states && v.servers.states[k].starting && v.servers.states[k].client.None? && !v.servers.states[k].disabled
    {
      OwnerStays(w, limit, step, v, c, k);
    }
    forall c, d, k | OwnsAt(v, c, k) && OwnsAt(v, d, k) ensures c == d {
      OwnerStays(w, limit, step, v, c, k);
      OwnerStays(w, limit, step, v, d, k);
    }
    forall c | c in v.calls && v.calls[c].Awaiting?
      ensures var s := StateOf(v.servers, v.calls[c].key);
        v.calls[c].completions < s.completions || (v.calls[c].completions == s.completions && s.starting)
    {
      WaiterStays(w, limit, step, v, c);
    }
    ClosedMoves(w, limit, step, v);
    if v.servers.closed {
      forall k | k in v.servers.states ensures v.servers.states[k].client.None? {
        if w.servers.closed && k in w.servers.states { ServerAt(w, limit, step, v, k); }
      }
    }
  }

  lemma {:induction false} TransportsMove(w: World, limit: nat, step: Step, v: World)
    requires Next(w, limit, step, v)
    ensures |w.transports| <= |v.transports|
    ensures forall t :: 0 <= t < |w.transports| && !w.transports[t].Live? ==> !v.transports[t].Live?
    ensures |v.transports| > |w.transports| ==>
      && step.Launch? && |v.transports| == |w.transports| + 1
      && step.call in v.calls && HoldsTransport(v.calls[step.call], |w.transports|)
  {}

  /** What a call holds it passes on, closes, or registers. */
  lemma {:induction false} HeldStaysOwned(w: World, limit: nat, step: Step, v: World, c: nat, t: nat)
    requires Next(w, limit, step, v) && c in w.calls && HoldsTransport(w.calls[c], t) && t < |w.transports|
    ensures (c in v.calls && HoldsTransport(v.calls[c], t)) || !v.transports[t].Live?
      || (step == CompleteCall(c) && Registered(v.servers, w.calls[c].key, t))
  {
    TransportsMove(w, limit, step, v);
  }

  /** A registered client stays registered, or whoever removes it sees to its transport. */
  lemma {:induction false} RegisteredStaysOwned(w: World, limit: nat, step: Step, v: World, k: Key, t: nat)
    requires OneStart(w) && Next(w, limit, step, v) && Registered(w.servers, k, t) && t < |w.transports|
    ensures Registered(v.servers, k, t) || t in v.toClose || !v.transports[t].Live?
  {
    TransportsMove(w, limit, step, v);
    ServerAt(w, limit, step, v, k);
    RemovalIsSeenTo(w, limit, step, v, k, t);
    hide Next;
    assert step.CompleteCall? ==> !OwnsAt(w, step.call, k);
  }

  lemma {:induction false} RemovalIsSeenTo(w: World, limit: nat, step: Step, v: World, k: Key, t: nat)
    requires Next(w, limit, step, v) && Registered(w.servers, k, t) && t < |w.transports|
    ensures step.CloseManager? && !w.servers.closed ==> t in v.toClose
    ensures step.CloseManager? && w.servers.closed ==> Registered(v.servers, k, t)
    ensures step.ReportFailure? && step.key == k && step.client == t && !Registered(v.servers, k, t) ==> t in v.toClose || !w.transports[t].Live?
  {
    assert HasClient(w.servers, t);
  }

  lemma {:induction false} PendingStays(w: World, limit: nat, step: Step, v: World, t: nat)
    requires Next(w, limit, step, v) && t in w.toClose && t < |w.transports|
    ensures t in v.toClose || !v.transports[t].Live?
  {}

  lemma {:induction false} OwnedFrom(w: World, limit: nat, step: Step, v: World, t: nat)
    requires Next(w, limit, step, v) && Owned(v, t)
    ensures Owned(w, t) || (step.Launch? && t == |w.transports| && |v.transports| == t + 1)
  {
    if k :| Registered(v.servers, k, t) {
      ServerAt(w, limit, step, v, k);
      if step.CompleteCall? && !Registered(w.servers, k, t) { assert HoldsTransport(w.calls[step.call], t); }
      if Registered(w.servers, k, t) { assert HasClient(w.servers, t); }
    } else if c :| c in v.calls && HoldsTransport(v.calls[c], t) {
      HeldFrom(w, limit, step, v, c, t);
    } else {
      assert t in w.toClose || (step.ReportFailure? && Registered(w.servers, step.key, t)) || (step.CloseManager? && HasClient(w.servers, t));
    }
  }

  lemma {:induction false} HeldFrom(w: World, limit: nat, step: Step, v: World, c: nat, t: nat)
    requires Next(w, limit, step, v) && c in v.calls && HoldsTransport(v.calls[c], t)
    ensures (c in w.calls && HoldsTransport(w.calls[c], t)) || (step.Launch? && t == |w.transports| && |v.transports| == t + 1)
  {}

  lemma {:induction false} KeepsNothingLeaks(w: World, limit: nat, step: Step, v: World)
    requires Inv(w) && Next(w, limit, step, v)
    ensures NothingLeaks(v)
  {
    hide Next, OneStart;
    TransportsMove(w, limit, step, v);
    forall t: nat | t < |v.transports| && v.transports[t].Live? ensures Owned(v, t) {
      if t < |w.transports| { StaysOwned(w, limit, step, v, t); }
    }
    forall t: nat | Owned(v, t) ensures t < |v.transports| { OwnedFrom(w, limit, step, v, t); }
  }

  lemma {:induction false} StaysOwned(w: World, limit: nat, step: Step, v: World, t: nat)
    requires Inv(w) && Next(w, limit, step, v) && t < |w.transports| <= |v.transports| && v.transports[t].Live?
    ensures Owned(v, t)
  {
    hide Next, OneStart;
    TransportsMove(w, limit, step, v);
    assert Owned(w, t);
    if t in w.toClose {
      PendingStays(w, limit, step, v, t);
    } else if k :| Registered(w.servers, k, t) {
      RegisteredStaysOwned(w, limit, step, v, k, t);
    } else {
      var c :| c in w.calls && HoldsTransport(w.calls[c], t);
      HeldStaysOwned(w, limit, step, v, c, t);
    }
  }

  // Runs.

  ghost predicate IsRun(worlds: seq<World>, limit: nat, steps: seq<Step>) {
    && |worlds| == |steps| + 1 && worlds[0] == START
    && forall i :: 0 <= i < |steps| ==> Next(worlds[i], limit, steps[i], worlds[i + 1])
  }

  lemma {:induction false} InvAlongRun(worlds: seq<World>, limit: nat, steps: seq<Step>, n: nat)
    requires IsRun(worlds, limit, steps) && n < |worlds|
    ensures Inv(worlds[n])
  {
    hide Next, NothingLeaks, OneStart;
    InvInitially();
    for i := 0 to n
      invariant Inv(worlds[i])
    {
      KeepsOneStart(worlds[i], limit, steps[i], worlds[i + 1]);
      KeepsNothingLeaks(worlds[i], limit, steps[i], worlds[i + 1]);
    }
  }

  /** At most one start attempt per server and root, and none beside a registered client or on a disabled server. */
  lemma {:induction false} OneStartPerServer(worlds: seq<World>, limit: nat, steps: seq<Step>, n: nat, c: nat, d: nat)
    requires IsRun(worlds, limit, steps) && n < |worlds|
    requires c in worlds[n].calls && d in worlds[n].calls && Owns(worlds[n].calls[c]) && Owns(worlds[n].calls[d])
    ensures worlds[n].calls[c].key == worlds[n].calls[d].key ==> c == d
    ensures var s := StateOf(worlds[n].servers, worlds[n].calls[c].key); s.client.None? && !s.disabled
  {
    hide IsRun, NothingLeaks;
    InvAlongRun(worlds, limit, steps, n);
    assert OwnsAt(worlds[n], c, worlds[n].calls[c].key) && OwnsAt(worlds[n], d, worlds[n].calls[d].key);
  }

  /** A disabled server stays disabled. */
  lemma {:induction false} DisabledForGood(worlds: seq<World>, limit: nat, steps: seq<Step>, m: nat, n: nat, k: Key)
    requires IsRun(worlds, limit, steps) && m <= n < |worlds|
    requires StateOf(worlds[m].servers, k).disabled
    ensures StateOf(worlds[n].servers, k).disabled
  {
    hide Next, NothingLeaks;
    for i := m to n
      invariant StateOf(worlds[i].servers, k).disabled
    {
      InvAlongRun(worlds, limit, steps, i);
      ServerAt(worlds[i], limit, steps[i], worlds[i + 1], k);
      assert steps[i].CompleteCall? ==> !OwnsAt(worlds[i], steps[i].call, k);
    }
  }

  /** Once the manager is closed and every call has returned, no transport ever started is still running. */
  lemma {:induction false} NothingLeftRunning(worlds: seq<World>, limit: nat, steps: seq<Step>, n: nat)
    requires IsRun(worlds, limit, steps) && n < |worlds|
    requires worlds[n].servers.closed && worlds[n].calls == map[] && worlds[n].toClose == {}
    ensures forall t :: 0 <= t < |worlds[n].transports| ==> !worlds[n].transports[t].Live?
  {
    hide Next;
    InvAlongRun(worlds, limit, steps, n);
    var w := worlds[n];
    forall t: nat ensures !Owned(w, t) { NobodyOwns(w, t); }
  }

  lemma {:induction false} NobodyOwns(w: World, t: nat)
    requires OneStart(w) && w.servers.closed && w.calls == map[] && w.toClose == {}
    ensures !Owned(w, t)
  {}

  /** A call that waits either has something to wait for, or can go on. */
  lemma {:induction false} NoLostWakeup(worlds: seq<World>, limit: nat, steps: seq<Step>, n: nat, c: nat)
    requires IsRun(worlds, limit, steps) && n < |worlds|
    requires c in worlds[n].calls && worlds[n].calls[c].Awaiting?
    ensures var k := worlds[n].calls[c].key;
      || worlds[n].calls[c].completions < StateOf(worlds[n].servers, k).completions
      || exists d :: OwnsAt(worlds[n], d, k)
  {
    hide IsRun, NothingLeaks;
    InvAlongRun(worlds, limit, steps, n);
  }

  /** A call on an open manager returns at once when there is a client or the server is disabled; otherwise a start is under way. */
  lemma {:induction false} ReturnsOrStarts(worlds: seq<World>, limit: nat, steps: seq<Step>, n: nat)
    requires IsRun(worlds, limit, steps) && n < |steps| && steps[n].BeginCall?
    ensures var w, v, c := worlds[n], worlds[n + 1], steps[n].call;
      && c in w.calls
      && var k := w.calls[c].key;
      if w.servers.closed || StateOf(w.servers, k).client.Some? || StateOf(w.servers, k).disabled then
        c !in v.calls && forall d :: OwnsAt(v, d, k) ==> OwnsAt(w, d, k)
      else
        && c in v.calls && (exists d :: OwnsAt(v, d, k))
        && (v.calls[c].Launching? || (v.calls[c].Awaiting? && v.calls[c].completions == StateOf(v.servers, k).completions))
  {
    hide NothingLeaks;
    InvAlongRun(worlds, limit, steps, n);
    var w, v, c := worlds[n], worlds[n + 1], steps[n].call;
    var k := w.calls[c].key;
    if c in v.calls && v.calls[c].Launching? { assert OwnsAt(v, c, k); }
    if c in v.calls && v.calls[c].Awaiting? {
      var d :| OwnsAt(w, d, k);
      assert OwnsAt(v, d, k);
    }
  }

  // Failures.

  /** A start attempt of `k` ends, and its caller did not give up. */
  predicate Ends(w: World, step: Step, k: Key) {
    step.CompleteCall? && step.call in w.calls && w.calls[step.call].Resolved? && w.calls[step.call].key == k && !w.calls[step.call].cancelled
  }

  /** A failure of server `k`: a start without a client, or one too late; or a failed request of the registered client. */
  predicate Fails(w: World, step: Step, k: Key) {
    || (Ends(w, step, k) && (w.calls[step.call].client.None? || w.servers.closed))
    || (step.ReportFailure? && step.key == k && !w.servers.closed && Registered(w.servers, k, step.client))
  }

  /** A start with a client, or a request of the registered client that works. */
  predicate Works(w: World, step: Step, k: Key) {
    || (Ends(w, step, k) && w.calls[step.call].client.Some? && !w.servers.closed)
    || (step.ReportSuccess? && step.key == k && Registered(w.servers, k, step.client))
  }

  /** Failures in a row up to world `n`. */
  function InARow(worlds: seq<World>, steps: seq<Step>, k: Key, n: nat): nat
    requires n < |worlds| == |steps| + 1
  {
    if n == 0 then 0
    else if Works(worlds[n - 1], steps[n - 1], k) then 0
    else InARow(worlds, steps, k, n - 1) + if Fails(worlds[n - 1], steps[n - 1], k) then 1 else 0
  }

  predicate MissingExecutable(w: World, step: Step, k: Key) {
    Fails(w, step, k) && step.CompleteCall? && w.calls[step.call].code.Unavailable?
  }

  /** The failure that disables a server: the last one allowed in a row, or an executable that is not there. */
  predicate Disables(worlds: seq<World>, limit: nat, steps: seq<Step>, k: Key, i: nat)
    requires i < |steps| && |worlds| == |steps| + 1
  {
    Fails(worlds[i], steps[i], k) && (InARow(worlds, steps, k, i + 1) >= limit || MissingExecutable(worlds[i], steps[i], k))
  }

  /** How failures and successes move one server's count. */
  lemma {:induction false} CountMoves(w: World, limit: nat, step: Step, v: World, k: Key)
    requires Next(w, limit, step, v)
    ensures var s, t := StateOf(w.servers, k), StateOf(v.servers, k);
      && t.failures == (if Works(w, step, k) then 0 else if Fails(w, step, k) then s.failures + 1 else s.failures)
      && (Fails(w, step, k) && (t.failures >= limit || MissingExecutable(w, step, k)) ==> t.disabled)
      && (!(Fails(w, step, k) && (t.failures >= limit || MissingExecutable(w, step, k))) && !Ends(w, step, k) ==> t.disabled == s.disabled)
      && (Ends(w, step, k) && !(Fails(w, step, k) && (t.failures >= limit || MissingExecutable(w, step, k))) && !s.disabled ==> !t.disabled)
      && (step.ReportFailure? && Fails(w, step, k) && t.failures >= limit ==> t.client.None?)
      && (step.ReportFailure? && Fails(w, step, k) && step.disconnected ==> t.client.None?)
      && (step.ReportFailure? && Fails(w, step, k) && t.failures < limit && !step.disconnected ==> t.client == s.client)
  {}

  /** The count of a server is its failures in a row, and it is disabled from the deciding failure on and never before. */
  lemma {:induction false} DisabledIff(worlds: seq<World>, limit: nat, steps: seq<Step>, n: nat, k: Key)
    requires IsRun(worlds, limit, steps) && n < |worlds|
    ensures StateOf(worlds[n].servers, k).failures == InARow(worlds, steps, k, n)
    ensures StateOf(worlds[n].servers, k).disabled <==> exists i :: 0 <= i < n && Disables(worlds, limit, steps, k, i)
  {
    hide Next, NothingLeaks, Works, Fails, Ends, MissingExecutable;
    if n > 0 {
      DisabledIff(worlds, limit, steps, n - 1, k);
      InvAlongRun(worlds, limit, steps, n - 1);
      CountMoves(worlds[n - 1], limit, steps[n - 1], worlds[n], k);
      if StateOf(worlds[n - 1].servers, k).disabled { DisabledForGood(worlds, limit, steps, n - 1, n, k); }
      else if StateOf(worlds[n].servers, k).disabled { assert Disables(worlds, limit, steps, k, n - 1); }
    }
  }

  /** A registered client has failed fewer times in a row than the limit allows, and its server is not disabled. */
  lemma {:induction false} RegisteredBelowLimit(worlds: seq<World>, limit: nat, steps: seq<Step>, n: nat, k: Key)
    requires IsRun(worlds, limit, steps) && n < |worlds| && 0 < limit && StateOf(worlds[n].servers, k).client.Some?
    ensures InARow(worlds, steps, k, n) < limit && !StateOf(worlds[n].servers, k).disabled
  {
    hide Next, NothingLeaks, Works;
    if n > 0 {
      var w, step, v := worlds[n - 1], steps[n - 1], worlds[n];
      InvAlongRun(worlds, limit, steps, n - 1);
      DisabledIff(worlds, limit, steps, n - 1, k);
      DisabledIff(worlds, limit, steps, n, k);
      CountMoves(w, limit, step, v, k);
      ServerAt(w, limit, step, v, k);
      WorksUnlessFails(w, limit, step, v, k);
      if StateOf(w.servers, k).client.Some? { RegisteredBelowLimit(worlds, limit, steps, n - 1, k); }
      assert Ends(w, step, k) ==> OwnsAt(w, step.call, k);
    }
  }

  /** A client is registered anew only by a start that works. */
  lemma {:induction false} WorksUnlessFails(w: World, limit: nat, step: Step, v: World, k: Key)
    requires Next(w, limit, step, v) && StateOf(v.servers, k).client.Some?
    ensures StateOf(w.servers, k).client == StateOf(v.servers, k).client || (Ends(w, step, k) && Works(w, step, k))
  {}
}
