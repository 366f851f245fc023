/** A session handle in memory against its transcript on disk: retried appends and the state a caller sees. */
module StoreSession {
  import opened Sequences
  import opened StoreState
  import opened StoreJournal

  /** `body` is everything about an event except its ID and its state delta. */
  datatype Event = Event(id: string, partial: bool, body: string, delta: State)

  datatype Outcome = Skipped | Invalid | Stale | Refused | Replayed | Appended

  function Local(delta: State): State { map k | k in delta && ScopeOf(k).SessionScope? :: delta[k] }

  function Durable(delta: State): State { map k | k in delta && !ScopeOf(k).TempScope? :: delta[k] }

  function ToStore(e: Event): Event { e.(delta := Durable(e.delta)) }

  /** The session's own keys, replayed from the header and the events. */
  function LocalState(header: State, events: seq<Event>): State {
    if events == [] then header
    else LocalState(header, events[..|events| - 1]) + Local(events[|events| - 1].delta)
  }

  predicate HasEvent(events: seq<Event>, id: string) { exists i :: 0 <= i < |events| && events[i].id == id }

  predicate UniqueIds(events: seq<Event>) { forall i, j :: 0 <= i < j < |events| ==> events[i].id != events[j].id }

  /** What one append attempt leaves in the transcript. */
  function Attempted(events: seq<Event>, e: Event): seq<Event> {
    if e.partial || e.id == "" || HasEvent(events, e.id) then events else events + [ToStore(e)]
  }

  function AllAttempted(events: seq<Event>, attempts: seq<Event>): seq<Event> {
    if attempts == [] then events
    else Attempted(AllAttempted(events, attempts[..|attempts| - 1]), attempts[|attempts| - 1])
  }

  /** The first attempt with `id` that can be stored. */
  predicate FirstWith(attempts: seq<Event>, id: string, i: nat) {
    && i < |attempts| && attempts[i].id == id && !attempts[i].partial && id != ""
    && forall j :: 0 <= j < i ==> attempts[j].id != id || attempts[j].partial
  }

  lemma {:induction false} AttemptsOnlyAdd(events: seq<Event>, attempts: seq<Event>)
    requires UniqueIds(events)
    ensures events <= AllAttempted(events, attempts) && UniqueIds(AllAttempted(events, attempts))
  {
    if attempts != [] { AttemptsOnlyAdd(events, attempts[..|attempts| - 1]); }
  }

  lemma {:induction false} KnownStays(a: seq<Event>, b: seq<Event>, id: string)
    requires a <= b && HasEvent(a, id)
    ensures HasEvent(b, id)
  {
    var i :| 0 <= i < |a| && a[i].id == id;
    assert b[i].id == id;
  }

  /** Attempts after the first with an ID change nothing about it: one copy, with the first attempt's content. */
  lemma {:induction false} RetriesKeepFirst(events: seq<Event>, attempts: seq<Event>, id: string, i: nat)
    requires UniqueIds(events) && !HasEvent(events, id) && FirstWith(attempts, id, i)
    ensures ToStore(attempts[i]) in AllAttempted(events, attempts)
    ensures forall e :: e in AllAttempted(events, attempts) && e.id == id ==> e == ToStore(attempts[i])
  {
    var front, last := attempts[..|attempts| - 1], attempts[|attempts| - 1];
    var before := AllAttempted(events, front);
    AttemptsOnlyAdd(events, front);
    if i == |attempts| - 1 {
      NotYetKnown(events, front, id);
      assert before + [ToStore(last)] == AllAttempted(events, attempts);
    } else {
      RetriesKeepFirst(events, front, id, i);
      var k :| 0 <= k < |before| && before[k] == ToStore(attempts[i]);
      assert HasEvent(before, id);
      assert before <= AllAttempted(events, attempts);
    }
  }

  lemma {:induction false} NotYetKnown(events: seq<Event>, attempts: seq<Event>, id: string)
    requires !HasEvent(events, id) && forall j :: 0 <= j < |attempts| ==> attempts[j].id != id || attempts[j].partial
    ensures !HasEvent(AllAttempted(events, attempts), id)
  {
    if attempts != [] { NotYetKnown(events, attempts[..|attempts| - 1], id); }
  }

  /** `x` is how a transcript may hold `e`: everything as given, but no key that starts with "temp:". */
  ghost predicate HeldAs(x: Event, e: Event) {
    && x.id == e.id && x.partial == e.partial && x.body == e.body
    && (forall k :: k in x.delta <==> k in e.delta && !("temp:" <= k))
    && (forall k :: k in x.delta ==> x.delta[k] == e.delta[k])
  }

  lemma {:induction false} HeldAsIs(x: Event, e: Event)
    ensures HeldAs(x, e) <==> x == ToStore(e)
  {
    TempKeys(e.delta);
    if HeldAs(x, e) { assert x.delta == ToStore(e).delta; }
  }

  lemma {:induction false} TempKeys(delta: State)
    ensures forall k :: k in Durable(delta) <==> k in delta && !("temp:" <= k)
  {}

  /** No stored event has a temporary key. */
  predicate NoTemporary(events: seq<Event>) { forall i, k :: 0 <= i < |events| && k in events[i].delta ==> !("temp:" <= k) }

  class Transcript {
    const incarnation: Order
    const header: State
    var events: seq<Event>

    constructor (incarnation: Order, header: State)
      ensures this.incarnation == incarnation && this.header == header && events == []
    {
      this.incarnation, this.header, events := incarnation, header, [];
    }

    method EventById(id: string) returns (found: bool, at: nat)
      ensures found == HasEvent(events, id)
      ensures found ==> at < |events| && events[at].id == id
    {
      at := 0;
      while at < |events|
        invariant at <= |events| && forall i :: 0 <= i < at ==> events[i].id != id
      {
        if events[at].id == id { return true, at; }
        at := at + 1;
      }
      found := false;
    }

    /** The transcript's side of an append: a known event ID is replayed when its content is the same, refused when not. */
    method AppendEvent(handleIncarnation: Order, e: Event) returns (outcome: Outcome)
      requires UniqueIds(events)
      modifies this`events
      ensures UniqueIds(events)
      ensures outcome ==
        if e.partial then Skipped
        else if e.id == "" then Invalid
        else if handleIncarnation != incarnation then Stale
        else if !HasEvent(old(events), e.id) then Appended
        else if ToStore(e) in old(events) then Replayed
        else Refused
      ensures events == if handleIncarnation == incarnation then Attempted(old(events), e) else old(events)
      ensures outcome.Appended? ==> |events| == |old(events)| + 1 && events[..|old(events)|] == old(events) && HeldAs(events[|old(events)|], e)
      ensures !outcome.Appended? ==> events == old(events)
      ensures outcome.Replayed? <==>
        !e.partial && e.id != "" && handleIncarnation == incarnation && exists i :: 0 <= i < |old(events)| && HeldAs(old(events)[i], e)
      ensures NoTemporary(old(events)) ==> NoTemporary(events)
    {
      forall x ensures HeldAs(x, e) <==> x == ToStore(e) { HeldAsIs(x, e); }
      TempKeys(e.delta);
      hide HeldAs;
      if e.partial { return Skipped; }
      if e.id == "" { return Invalid; }
      if handleIncarnation != incarnation { return Stale; }
      var delta := WithoutTemporaryState(e.delta);
      var stored := e.(delta := delta);
      var found, at := EventById(e.id);
      if found { return if events[at] == stored then Replayed else Refused; }
      events := events + [stored];
      outcome := Appended;
    }

    /** `sessionState`: the state replayed from disk and merged with the shared projection. */
    method SessionState(app: State, user: State) returns (merged: State)
      ensures IsMerge(LocalState(header, events), app, user, merged)
    {
      var local := header;
      for i := 0 to |events|
        invariant local == LocalState(header, events[..i])
      {
        var split := SplitState(events[i].delta);
        LocalOfSplit(events[i].delta, split);
        assert events[..i + 1][..i] == events[..i];
        local := local + split.session;
      }
      assert events[..|events|] == events;
      merged := MergeState(local, app, user);
    }
  }

  /** A session key of the replayed state has the value of the last event that wrote it. */
  lemma {:induction false} LastWriterWins(header: State, events: seq<Event>, i: nat, k: string)
    requires !("app:" <= k) && !("user:" <= k) && !("temp:" <= k)
    requires i < |events| && k in events[i].delta && forall j :: i < j < |events| ==> k !in events[j].delta
    ensures k in LocalState(header, events) && LocalState(header, events)[k] == events[i].delta[k]
  {
    var front, last := events[..|events| - 1], events[|events| - 1];
    assert LocalState(header, events) == LocalState(header, front) + Local(last.delta);
    hide LocalState;
    if i < |front| { LastWriterWins(header, front, i, k); }
  }

  /** A key no event wrote is as in the header. */
  lemma {:induction false} UnwrittenAsInHeader(header: State, events: seq<Event>, k: string)
    requires forall i :: 0 <= i < |events| ==> k !in events[i].delta
    ensures (k in LocalState(header, events) <==> k in header) && (k in header ==> LocalState(header, events)[k] == header[k])
  {
    if events != [] { UnwrittenAsInHeader(header, events[..|events| - 1], k); }
  }

  /** Shared and temporary keys of events never become session keys. */
  lemma {:induction false} OnlySessionKeysReplay(header: State, events: seq<Event>, k: string)
    requires "app:" <= k || "user:" <= k || "temp:" <= k
    ensures (k in LocalState(header, events) <==> k in header) && (k in header ==> LocalState(header, events)[k] == header[k])
  {
    if events != [] { OnlySessionKeysReplay(header, events[..|events| - 1], k); }
  }

  lemma {:induction false} LocalOfSplit(delta: State, split: Split)
    requires IsSplit(delta, split)
    ensures split.session == Local(delta)
  {}

  predicate Cleared(key: string) {
    (4 < |key| && HasPrefix(key, APP_PREFIX)) || (5 < |key| && HasPrefix(key, USER_PREFIX))
  }

  /** No bare scope prefix disappears from the shared state. */
  predicate BareKeysStay(app: State, user: State, app': State, user': State) {
    ("" in app ==> "" in app') && ("" in user ==> "" in user')
  }

  class DurableSession {
    var state: State
    var events: seq<Event>

    constructor (state: State, events: seq<Event>)
      ensures this.state == state && this.events == events
    {
      this.state, this.events := state, events;
    }

    /** Shared keys are dropped, except a bare prefix, and replaced by the projection. */
    method ReplaceShared(app: State, user: State)
      modifies this`state
      ensures IsMerge(Uncleared(old(state)), app, user, state)
    {
      var rest := state.Keys;
      ghost var was := state;
      while rest != {}
        invariant rest <= was.Keys
        invariant state == map k | k in was && (k in rest || !Cleared(k)) :: was[k]
      {
        var key :| key in rest;
        rest := rest - {key};
        if (4 < |key| && HasPrefix(key, APP_PREFIX)) || (5 < |key| && HasPrefix(key, USER_PREFIX)) { state := state - {key}; }
      }
      var kept := state;
      assert kept == Uncleared(was);
      var shared := MergeState(map[], app, user);
      state := state + shared;
      MergeOver(kept, app, user, shared);
    }

    /** `appendCommittedLocked`. `local` is the session state the handle showed so far. */
    method AppendCommitted(e: Event, app: State, user: State, ghost local: State, ghost app0: State, ghost user0: State)
      requires OnlySession(local) && IsMerge(local, app0, user0, state)
      modifies this
      ensures events == old(events) + [e]
      ensures IsMerge(local + Local(e.delta), app, user, state) <==> BareKeysStay(app0, user0, app, user)
    {
      var split := SplitState(e.delta);
      LocalOfSplit(e.delta, split);
      ghost var was := state;
      state := state + split.session;
      MergeOfLocal(local, app0, user0, was, split.session);
      ghost var copied := state;
      ReplaceShared(app, user);
      ReplacedIff(local + split.session, app0, user0, copied, app, user, state);
      events := events + [e];
    }

    /** `ensureCommitted`, for an event the transcript already had. */
    method EnsureCommitted(e: Event, app: State, user: State, ghost local: State, ghost app0: State, ghost user0: State)
      requires OnlySession(local) && IsMerge(local, app0, user0, state)
      modifies this
      ensures HasEvent(old(events), e.id) ==> events == old(events)
      ensures !HasEvent(old(events), e.id) ==> events == old(events) + [e]
      ensures var now := if HasEvent(old(events), e.id) then local else local + Local(e.delta);
        IsMerge(now, app, user, state) <==> BareKeysStay(app0, user0, app, user)
    {
      var i := 0;
      while i < |events|
        invariant i <= |events| && state == old(state) && events == old(events)
        invariant forall j :: 0 <= j < i ==> events[j].id != e.id
      {
        if events[i].id == e.id {
          ReplaceShared(app, user);
          ReplacedIff(local, app0, user0, old(state), app, user, state);
          return;
        }
        i := i + 1;
      }
      AppendCommitted(e, app, user, local, app0, user0);
    }
  }

  predicate OnlySession(local: State) { forall k :: k in local ==> ScopeOf(k).SessionScope? }

  /** Key by key: what a merged view shows. */
  predicate Shows(merged: State, k: string, session: State, app: State, user: State) {
    match ScopeOf(k)
    case AppScope => ShowsShared(merged, k, app, k[|APP_PREFIX|..], session)
    case UserScope => ShowsShared(merged, k, user, k[|USER_PREFIX|..], session)
    case _ => (k in merged <==> k in session) && (k in session ==> merged[k] == session[k])
  }

  predicate ShowsShared(merged: State, k: string, shared: State, j: string, session: State) {
    if j in shared then k in merged && merged[k] == shared[j]
    else (k in merged <==> k in session) && (k in session ==> merged[k] == session[k])
  }

  lemma {:induction false} MergeShows(session: State, app: State, user: State, merged: State)
    ensures IsMerge(session, app, user, merged) <==> forall k: string :: Shows(merged, k, session, app, user)
  {
    if forall k: string :: Shows(merged, k, session, app, user) {
      forall k: string
        ensures match ScopeOf(k)
          case AppScope => Agree(merged, k, app, k[|APP_PREFIX|..], session, k)
          case UserScope => Agree(merged, k, user, k[|USER_PREFIX|..], session, k)
          case _ => (k in merged <==> k in session) && (k in session ==> merged[k] == session[k])
      {
        assert Shows(merged, k, session, app, user);
      }
    }
  }

  /** Copying a merged shared view over kept keys. */
  lemma {:induction false} MergeOver(kept: State, app: State, user: State, shared: State)
    requires IsMerge(map[], app, user, shared)
    ensures IsMerge(kept, app, user, kept + shared)
  {
    hide IsMerge, ScopeOf;
    MergeShows(map[], app, user, shared);
    MergeShows(kept, app, user, kept + shared);
    forall k: string ensures Shows(kept + shared, k, kept, app, user) {
      assert Shows(shared, k, map[], app, user);
    }
  }

  lemma {:induction false} MergeOfLocal(local: State, app: State, user: State, was: State, added: State)
    requires OnlySession(added) && IsMerge(local, app, user, was)
    ensures IsMerge(local + added, app, user, was + added)
  {
    hide IsMerge, ScopeOf;
    MergeShows(local, app, user, was);
    MergeShows(local + added, app, user, was + added);
    forall k: string ensures Shows(was + added, k, local + added, app, user) {
      assert Shows(was, k, local, app, user);
    }
  }

  function Uncleared(state: State): State { map k | k in state && !Cleared(k) :: state[k] }

  lemma {:induction false} BareOrCleared(k: string)
    ensures ScopeOf(k).AppScope? ==> (k[|APP_PREFIX|..] == "" <==> !Cleared(k))
    ensures ScopeOf(k).UserScope? ==> (k[|USER_PREFIX|..] == "" <==> !Cleared(k))
    ensures ScopeOf(k).SessionScope? || ScopeOf(k).TempScope? ==> !Cleared(k)
  {
    ScopesOfPrefixed(k);
  }

  lemma {:induction false} ReplacedAt(local: State, app0: State, user0: State, was: State, app: State, user: State, now: State, k: string)
    requires OnlySession(local)
    requires Shows(was, k, local, app0, user0) && Shows(now, k, Uncleared(was), app, user)
    ensures BareKeysStay(app0, user0, app, user) ==> Shows(now, k, local, app, user)
    ensures Shows(now, k, local, app, user) && k == APP_PREFIX ==> ("" in app0 ==> "" in app)
    ensures Shows(now, k, local, app, user) && k == USER_PREFIX ==> ("" in user0 ==> "" in user)
  {
    BareOrCleared(k);
  }

  /** A refreshed handle shows the replayed state exactly when no bare scope prefix has disappeared. */
  lemma {:induction false} ReplacedIff(local: State, app0: State, user0: State, was: State, app: State, user: State, now: State)
    requires OnlySession(local) && IsMerge(local, app0, user0, was) && IsMerge(Uncleared(was), app, user, now)
    ensures IsMerge(local, app, user, now) <==> BareKeysStay(app0, user0, app, user)
  {
    hide IsMerge, ScopeOf, Shows, Uncleared, OnlySession;
    MergeShows(local, app0, user0, was);
    MergeShows(Uncleared(was), app, user, now);
    MergeShows(local, app, user, now);
    forall k: string ensures BareKeysStay(app0, user0, app, user) ==> Shows(now, k, local, app, user) {
      ReplacedAt(local, app0, user0, was, app, user, now, k);
    }
    ReplacedAt(local, app0, user0, was, app, user, now, APP_PREFIX);
    ReplacedAt(local, app0, user0, was, app, user, now, USER_PREFIX);
  }
}
