/** When a session handle shows what a replay from disk gives: over whole runs of calls, and exactly for one call. */
module StoreMirror {
  import opened Wrappers
  import opened StoreState
  import opened StoreJournal
  import opened StoreProjection
  import opened StoreProtocol
  import opened StoreInvariant
  import opened StoreSession
  import opened StoreHandle

  // Which events the handle has seen.

  lemma {:induction false} AttemptsGrow(w: World, attempts: seq<Attempt>, i: nat)
    requires i <= |attempts|
    ensures AfterAll(w, attempts[..i]).stored <= AfterAll(w, attempts).stored
    ensures AfterAll(w, attempts[..i]).seen <= AfterAll(w, attempts).seen
    decreases |attempts|
  {
    if i == |attempts| {
      assert attempts[..i] == attempts;
    } else {
      AttemptsGrow(w, attempts[..|attempts| - 1], i);
      assert attempts[..|attempts| - 1][..i] == attempts[..i];
    }
  }

  /** What the handle takes up is the next stored event it has not seen. */
  predicate InTurn(w: World, a: Attempt) {
    Takes(w, a) ==>
      var stored := After(w, a).stored; |w.seen| < |stored| && stored[|w.seen|] == ToStore(a.event)
  }

  predicate SeenAreStored(w: World) { forall e :: e in w.seen ==> e in w.stored }

  lemma {:induction false} SeenStayStored(w: World, a: Attempt)
    requires SeenAreStored(w)
    ensures SeenAreStored(After(w, a))
  {}

  lemma {:induction false} ShorterPrefix(seen: seq<Event>, stored: seq<Event>, e: Event)
    requires forall i :: 0 <= i < |seen| ==> seen[i] != e
    ensures seen <= stored + [e] <==> seen <= stored
  {
    if seen <= stored + [e] {
      if seen != [] { assert seen[|seen| - 1] == (stored + [e])[|seen| - 1]; }
      forall i | 0 <= i < |seen| ensures i < |stored| && stored[i] == seen[i] { assert seen[i] == (stored + [e])[i]; }
    }
  }

  lemma {:induction false} LongerPrefix(seen: seq<Event>, stored: seq<Event>, e: Event)
    ensures seen + [e] <= stored <==> seen <= stored && |seen| < |stored| && stored[|seen|] == e
  {
    if seen + [e] <= stored { assert (seen + [e])[|seen|] == stored[|seen|] && seen <= seen + [e]; }
  }

  lemma {:induction false} InTurnStep(w: World, a: Attempt)
    requires SeenAreStored(w)
    ensures (w.seen <= w.stored && InTurn(w, a)) <==> After(w, a).seen <= After(w, a).stored
  {
    var e := ToStore(a.event);
    if Appends(w, a.event) {
      NewIsNotSeen(w, a.event);
      ShorterPrefix(w.seen, w.stored, e);
    }
    LongerPrefix(w.seen, After(w, a).stored, e);
  }

  lemma {:induction false} NewIsNotSeen(w: World, e: Event)
    requires SeenAreStored(w) && !HasEvent(w.stored, e.id)
    ensures forall i :: 0 <= i < |w.seen| ==> w.seen[i] != ToStore(e)
  {
    forall i | 0 <= i < |w.seen| ensures w.seen[i] != ToStore(e) { assert w.seen[i] in w.stored; }
  }

  /** The handle has seen the stored events in their order, up to some point, exactly when it took up each one in turn. */
  lemma {:induction false} SeenInTurnIff(w0: World, attempts: seq<Attempt>)
    requires w0.seen <= w0.stored
    ensures SeenAreStored(AfterAll(w0, attempts))
    ensures (forall i :: 0 <= i < |attempts| ==> InTurn(AfterAll(w0, attempts[..i]), attempts[i]))
       <==> AfterAll(w0, attempts).seen <= AfterAll(w0, attempts).stored
  {
    hide After, InTurn, SeenAreStored;
    if attempts == [] {
      PrefixIsStored(w0);
    } else {
      var n := |attempts| - 1;
      var front := attempts[..n];
      assert forall i :: 0 <= i <= n ==> front[..i] == attempts[..i];
      SeenInTurnIff(w0, front);
      SeenStayStored(AfterAll(w0, front), attempts[n]);
      InTurnStep(AfterAll(w0, front), attempts[n]);
    }
  }

  lemma {:induction false} PrefixIsStored(w: World)
    requires w.seen <= w.stored
    ensures SeenAreStored(w)
  {}

  /** Took up everything in turn, nothing is outstanding and no other news: the handle shows what a replay shows. */
  lemma {:induction false} CaughtUpMirrors(header: State, w0: World, attempts: seq<Attempt>)
    requires w0.seen <= w0.stored
    requires forall i :: 0 <= i < |attempts| ==> InTurn(AfterAll(w0, attempts[..i]), attempts[i])
    requires |AfterAll(w0, attempts).seen| == |AfterAll(w0, attempts).stored|
    requires SameShared(AfterAll(w0, attempts).shown, AfterAll(w0, attempts).found)
    ensures Mirrors(header, AfterAll(w0, attempts))
  {
    SeenInTurnIff(w0, attempts);
    assert AfterAll(w0, attempts).seen == AfterAll(w0, attempts).stored;
  }

  /** The handle knows every event it has seen: it was created with the session, or given all of its events. */
  predicate Complete(w: World) { forall e :: e in w.seen ==> HasEvent(w.known, e.id) }

  /** It has seen the stored events in order, but for the last one at most. */
  predicate Following(w: World) {
    Complete(w) && w.seen <= w.stored && |w.stored| <= |w.seen| + 1
  }

  /** A new event comes only when the handle has caught up: an append that was committed but failed is retried first. */
  predicate Prompt(w: World, a: Attempt) { Appends(w, a.event) ==> |w.seen| == |w.stored| }

  predicate AllReported(attempts: seq<Attempt>) { forall i :: 0 <= i < |attempts| ==> attempts[i].reported }

  predicate AllPrompt(w0: World, attempts: seq<Attempt>) {
    forall i :: 0 <= i < |attempts| ==> Prompt(AfterAll(w0, attempts[..i]), attempts[i])
  }

  lemma {:induction false} CompleteStays(w: World, a: Attempt)
    requires Complete(w)
    ensures Complete(After(w, a))
  {
    var t := After(w, a);
    assert w.known <= t.known;
    forall e | e in t.seen ensures HasEvent(t.known, e.id) {
      if e in w.seen {
        KnownStays(w.known, t.known, e.id);
      } else {
        assert t.known[|t.known| - 1].id == e.id;
      }
    }
  }

  lemma {:induction false} FollowingStep(w: World, a: Attempt)
    requires Following(w) && Prompt(w, a)
    ensures Following(After(w, a)) && InTurn(w, a)
    ensures Takes(w, a) ==> After(w, a).seen == After(w, a).stored
  {
    CompleteStays(w, a);
    hide Complete;
    if Takes(w, a) && !Appends(w, a.event) {
      NotSeen(w, ToStore(a.event));
      var i :| 0 <= i < |w.stored| && w.stored[i] == ToStore(a.event);
    }
  }

  lemma {:induction false} NotSeen(w: World, e: Event)
    requires Complete(w) && !HasEvent(w.known, e.id)
    ensures forall i :: 0 <= i < |w.seen| ==> w.seen[i] != e
  {}

  /**
   * Prompt callers with a complete handle: after every successful call that leaves nothing outstanding, so after every
   * one that makes the handle take up its event, the handle's state is the replayed one, whatever came before.
   */
  lemma {:induction false} PromptCallsMirror(header: State, w0: World, attempts: seq<Attempt>)
    requires Following(w0) && AllPrompt(w0, attempts)
    ensures Following(AfterAll(w0, attempts))
    ensures attempts != [] ==>
      var before, last, w := AfterAll(w0, attempts[..|attempts| - 1]), attempts[|attempts| - 1], AfterAll(w0, attempts);
      && (Takes(before, last) ==> |w.seen| == |w.stored|)
      && (Updates(before, last) && |w.seen| == |w.stored| ==> Mirrors(header, w))
  {
    hide Prompt, After, Takes, Updates, Complete;
    if attempts != [] {
      var front := attempts[..|attempts| - 1];
      assert forall i :: 0 <= i < |front| ==> front[..i] == attempts[..i];
      PromptCallsMirror(header, w0, front);
      FollowingStep(AfterAll(w0, front), attempts[|attempts| - 1]);
      UpdatedIsShown(AfterAll(w0, front), attempts[|attempts| - 1]);
      assert |AfterAll(w0, attempts).seen| == |AfterAll(w0, attempts).stored| ==> AfterAll(w0, attempts).seen == AfterAll(w0, attempts).stored;
    }
  }

  lemma {:induction false} UpdatedIsShown(w: World, a: Attempt)
    ensures Updates(w, a) ==> After(w, a).shown == After(w, a).found
    ensures Takes(w, a) ==> Updates(w, a)
  {}

  /** As long as no call fails after its event was committed, handle and replay agree after every successful call. */
  lemma {:induction false} ReportedCallsMirror(header: State, w0: World, attempts: seq<Attempt>)
    requires Following(w0) && w0.seen == w0.stored && AllReported(attempts)
    ensures Following(AfterAll(w0, attempts)) && AfterAll(w0, attempts).seen == AfterAll(w0, attempts).stored
    ensures attempts != [] && Updates(AfterAll(w0, attempts[..|attempts| - 1]), attempts[|attempts| - 1]) ==> Mirrors(header, AfterAll(w0, attempts))
  {
    hide After, Complete, Updates;
    if attempts != [] {
      ReportedCallsMirror(header, w0, attempts[..|attempts| - 1]);
      ReportedStep(AfterAll(w0, attempts[..|attempts| - 1]), attempts[|attempts| - 1]);
      UpdatedIsShown(AfterAll(w0, attempts[..|attempts| - 1]), attempts[|attempts| - 1]);
    }
  }

  lemma {:induction false} ReportedStep(w: World, a: Attempt)
    requires Following(w) && w.seen == w.stored && a.reported
    ensures Following(After(w, a)) && After(w, a).seen == After(w, a).stored
  {
    FollowingStep(w, a);
  }

  // Other sessions' news.

  predicate Journaled(w: World, r: StateRecord) {
    EntryFor(AppJournal, r) in w.found.app && (Wants(UserJournal(w.key.user), r) ==> EntryFor(UserJournal(w.key.user), r) in w.found.user)
  }

  /** The scan after the call finds nothing new in other sessions. */
  predicate Quiet(w: World, a: Attempt) { forall r :: r in a.scan ==> r in RecordsAfter(w, a) || Journaled(w, r) }

  predicate AllQuiet(w0: World, attempts: seq<Attempt>) {
    forall i :: 0 <= i < |attempts| ==> Quiet(AfterAll(w0, attempts[..i]), attempts[i])
  }

  lemma {:induction false} NothingToAdd(journal: seq<Entry>, wanted: seq<Entry>)
    requires Distinct(journal) && forall e :: e in wanted ==> e in journal
    ensures Additions(journal, wanted) == Some([]) && Repaired(journal, wanted) == journal
    decreases |wanted|
  {
    assert journal + [] == journal;
    if wanted != [] {
      DistinctIsConsistent(journal);
      NothingToAdd(journal, wanted[1..]);
    }
  }

  lemma {:induction false} QuietFinds(w: World, a: Attempt, issued: Registry, kind: JournalKind, journal: seq<Entry>)
    requires Regular(w, issued) && Lawful(w, a, issued) && Quiet(w, a)
    requires (kind == AppJournal && journal == w.found.app) || (kind == UserJournal(w.key.user) && journal == w.found.user)
    ensures Distinct(journal)
    ensures forall e :: e in EntriesFor(kind, a.scan) ==>
      e in journal || (Appends(w, a.event) && e == EntryFor(kind, RecordOf(w, ToStore(a.event), a.order)))
    ensures Appends(w, a.event) ==> EntryFor(kind, RecordOf(w, ToStore(a.event), a.order)) in EntriesFor(kind, a.scan)
  {
    hide EntriesFor, Distinct, IsRegistry, IssuedEntry, Recorded, Part;
    EntriesForMembers(kind, a.scan);
    if Appends(w, a.event) {
      var r := RecordOf(w, ToStore(a.event), a.order);
      assert RecordsAfter(w, a)[|w.records|] == r && r in a.scan;
    }
  }

  /** Without news, a call that stores nothing changes nothing in the journals. */
  lemma {:induction false} QuietKeepsFound(w: World, a: Attempt, issued: Registry)
    requires Regular(w, issued) && Lawful(w, a, issued) && Quiet(w, a) && !Appends(w, a.event)
    ensures After(w, a).found == w.found
  {
    hide EntriesFor, Distinct, Regular, Lawful, Quiet, Repaired;
    QuietFinds(w, a, issued, AppJournal, w.found.app);
    QuietFinds(w, a, issued, UserJournal(w.key.user), w.found.user);
    NothingToAdd(w.found.app, EntriesFor(AppJournal, a.scan));
    NothingToAdd(w.found.user, EntriesFor(UserJournal(w.key.user), a.scan));
  }

  /** When moreover no other session writes, handle and replay agree after every call, skipped and refused ones too. */
  lemma {:induction false} QuietCallsMirror(header: State, w0: World, attempts: seq<Attempt>, issued: Registry)
    requires Following(w0) && w0.seen == w0.stored && w0.shown == w0.found && AllReported(attempts)
    requires Regular(w0, issued) && AllLawful(w0, attempts, issued) && AllQuiet(w0, attempts)
    ensures AfterAll(w0, attempts).shown == AfterAll(w0, attempts).found && Mirrors(header, AfterAll(w0, attempts))
  {
    hide After, Following, Regular, Lawful, Quiet, Updates;
    if attempts != [] {
      var n := |attempts| - 1;
      var front := attempts[..n];
      assert forall i :: 0 <= i <= n ==> front[..i] == attempts[..i];
      QuietCallsMirror(header, w0, front, issued);
      RegularAlong(w0, attempts, issued, n);
      QuietStep(AfterAll(w0, front), attempts[n], issued);
    }
    ReportedCallsMirror(header, w0, attempts);
  }

  lemma {:induction false} QuietStep(w: World, a: Attempt, issued: Registry)
    requires Regular(w, issued) && Lawful(w, a, issued) && Quiet(w, a) && w.shown == w.found && a.reported
    ensures After(w, a).shown == After(w, a).found
  {
    hide Regular, Lawful, Quiet, RepairedBoth;
    if !Updates(w, a) { QuietKeepsFound(w, a, issued); }
  }

  // Runs of the methods.

  lemma {:induction false} ReportedRun(header: State, w0: World, attempts: seq<Attempt>)
    ensures Following(w0) && w0.seen == w0.stored && AllReported(attempts) ==>
      forall i :: 0 <= i < |attempts| && Updates(AfterAll(w0, attempts[..i]), attempts[i]) ==> Mirrors(header, AfterAll(w0, attempts[..i + 1]))
  {
    hide AfterAll, Following, Mirrors, Updates;
    if Following(w0) && w0.seen == w0.stored && AllReported(attempts) {
      forall i | 0 <= i < |attempts| && Updates(AfterAll(w0, attempts[..i]), attempts[i])
        ensures Mirrors(header, AfterAll(w0, attempts[..i + 1]))
      {
        assert attempts[..i + 1][..i] == attempts[..i];
        ReportedCallsMirror(header, w0, attempts[..i + 1]);
      }
    }
  }

  lemma {:induction false} PromptRun(header: State, w0: World, attempts: seq<Attempt>)
    ensures Following(w0) && AllPrompt(w0, attempts) ==>
      forall i :: 0 <= i < |attempts| && Takes(AfterAll(w0, attempts[..i]), attempts[i]) ==> Mirrors(header, AfterAll(w0, attempts[..i + 1]))
  {
    hide AfterAll, Following, Mirrors, Prompt, Takes, Updates;
    if Following(w0) && AllPrompt(w0, attempts) {
      forall i | 0 <= i < |attempts| && Takes(AfterAll(w0, attempts[..i]), attempts[i])
        ensures Mirrors(header, AfterAll(w0, attempts[..i + 1]))
      {
        assert forall j :: 0 <= j <= i ==> attempts[..i + 1][..j] == attempts[..j];
        PromptCallsMirror(header, w0, attempts[..i + 1]);
        UpdatedIsShown(AfterAll(w0, attempts[..i]), attempts[i]);
      }
    }
  }

  lemma {:induction false} QuietRun(header: State, w0: World, attempts: seq<Attempt>, issued: Registry)
    requires Regular(w0, issued) && AllLawful(w0, attempts, issued)
    ensures Following(w0) && w0.seen == w0.stored && w0.shown == w0.found && AllReported(attempts) && AllQuiet(w0, attempts) ==>
      forall n :: 0 <= n <= |attempts| ==> Mirrors(header, AfterAll(w0, attempts[..n]))
  {
    hide AfterAll, Following, Mirrors, Regular, Lawful, Quiet;
    if Following(w0) && w0.seen == w0.stored && w0.shown == w0.found && AllReported(attempts) && AllQuiet(w0, attempts) {
      forall n | 0 <= n <= |attempts| ensures Mirrors(header, AfterAll(w0, attempts[..n])) {
        assert forall j :: 0 <= j < n ==> attempts[..n][..j] == attempts[..j];
        QuietCallsMirror(header, w0, attempts[..n], issued);
      }
    }
  }

  /**
   * Calls through one handle, each followed by a replay from disk. After every call the handle's state is the replayed
   * one exactly when the events it has seen and the stored ones replay to the same session state, and the journals it
   * was shown and those the replay finds project to the same shared state. So it is after every successful call when
   * no call fails after committing, after every event taken up when such an append is retried before the next event,
   * and after every call when no other session writes either.
   */
  method RunAppends(t: Transcript, h: DurableSession, files: SharedFiles, owner: string, attempts: seq<Attempt>, ghost w0: World, ghost issued: Registry)
    returns (shown: seq<State>, replayed: seq<State>)
    requires UniqueIds(t.events) && OnlySession(t.header) && Regular(w0, issued) && AllLawful(w0, attempts, issued) && owner == w0.key.user
    requires t.events == w0.stored && h.events == w0.known && Journals(files.app, files.user) == w0.found && Showing(t.header, w0, h.state)
    modifies t`events, h, files
    ensures UniqueIds(t.events)
    ensures var w := AfterAll(w0, attempts);
      && t.events == w.stored && h.events == w.known && Journals(files.app, files.user) == w.found && Showing(t.header, w, h.state)
    ensures NoTemporary(w0.stored) ==> NoTemporary(t.events)
    ensures |shown| == |attempts| && |replayed| == |attempts|
    ensures forall i :: 0 <= i < |attempts| ==> (shown[i] == replayed[i] <==> Mirrors(t.header, AfterAll(w0, attempts[..i + 1])))
    ensures Following(w0) && w0.seen == w0.stored && AllReported(attempts) ==>
      forall i :: 0 <= i < |attempts| && Updates(AfterAll(w0, attempts[..i]), attempts[i]) ==> shown[i] == replayed[i]
    ensures Following(w0) && AllPrompt(w0, attempts) ==>
      forall i :: 0 <= i < |attempts| && Takes(AfterAll(w0, attempts[..i]), attempts[i]) ==> shown[i] == replayed[i]
    ensures Following(w0) && w0.seen == w0.stored && w0.shown == w0.found && AllReported(attempts) && AllQuiet(w0, attempts) ==> shown == replayed
  {
    hide NoTemporary, Showing, Mirrors, Following, AllReported, AllPrompt, AllQuiet, Takes, Updates, After, AfterAll, Shared, UniqueIds, OnlySession, IsMerge,
      Regular, Lawful, Additions, Distinct, EntriesFor, Repaired, RepairedBoth;
    shown, replayed := [], [];
    AfterNone(w0, attempts);
    for i := 0 to |attempts|
      invariant UniqueIds(t.events)
      invariant var w := AfterAll(w0, attempts[..i]);
        && w.key == w0.key
        && t.events == w.stored && h.events == w.known && Journals(files.app, files.user) == w.found && Showing(t.header, w, h.state)
      invariant NoTemporary(w0.stored) ==> NoTemporary(t.events)
      invariant |shown| == i && |replayed| == i
      invariant forall j :: 0 <= j < i ==> (shown[j] == replayed[j] <==> Mirrors(t.header, AfterAll(w0, attempts[..j + 1])))
    {
      RegularAlong(w0, attempts, issued, i);
      AfterSnoc(w0, attempts, i);
      var state := CallAndReplay(t, h, files, owner, attempts[i], AfterAll(w0, attempts[..i]), issued);
      ShowsReplayIff(t.header, AfterAll(w0, attempts[..i + 1]), h.state, state);
      shown, replayed := shown + [h.state], replayed + [state];
    }
    assert attempts[..|attempts|] == attempts;
    ReportedRun(t.header, w0, attempts);
    PromptRun(t.header, w0, attempts);
    QuietRun(t.header, w0, attempts, issued);
  }

  method CallAndReplay(t: Transcript, h: DurableSession, files: SharedFiles, owner: string, a: Attempt, ghost w: World, ghost issued: Registry)
    returns (state: State)
    requires owner == w.key.user && UniqueIds(t.events) && OnlySession(t.header) && Regular(w, issued) && Lawful(w, a, issued)
    requires t.events == w.stored && h.events == w.known && Journals(files.app, files.user) == w.found && Showing(t.header, w, h.state)
    modifies t`events, h, files
    ensures UniqueIds(t.events) && (NoTemporary(w.stored) ==> NoTemporary(t.events))
    ensures var w' := After(w, a);
      && w'.key == w.key
      && t.events == w'.stored && h.events == w'.known && Journals(files.app, files.user) == w'.found && Showing(t.header, w', h.state)
      && IsMerge(LocalState(t.header, w'.stored), Shared(w'.found.app), Shared(w'.found.user), state)
  {
    hide NoTemporary, Showing, Updates, Takes, Shared, UniqueIds, OnlySession, IsMerge, LocalState, Regular, Lawful, Additions, Distinct, EntriesFor, Repaired, RecordsAfter, Attempted;
    RepairRuns(w, a, issued);
    AppendOnce(t, h, files, owner, a, w, issued);
    assert Journals(files.app, files.user) == w.found || Journals(files.app, files.user) == RepairedBoth(w.found, w.key.user, a.scan);
    var read := Replay(t, files, owner, a.scan);
    state := read.value;
  }

  // One call, exactly.

  /** The call commits its event and fails before the handle is told. */
  predicate Misses(w: World, a: Attempt) { !a.reported && Appends(w, a.event) }

  /** The call replays an event that the handle was not given, though its state carries it. */
  predicate Retakes(w: World, a: Attempt) { Takes(w, a) && !Appends(w, a.event) }

  /**
   * A handle that shows the replayed state still does after a call, exactly when an event the call misses or retakes
   * leaves the session's keys as they are, and a call without success leaves the shared state a replay finds as it is.
   */
  lemma {:induction false} CallMirrorsIff(header: State, w: World, a: Attempt)
    requires Mirrors(header, w)
    ensures Mirrors(header, After(w, a)) <==>
      ((Misses(w, a) || Retakes(w, a) ==> LocalState(header, w.stored) + Local(a.event.delta) == LocalState(header, w.stored))
      && (!Updates(w, a) ==> SameShared(w.found, After(w, a).found)))
  {
    hide Shared, RepairedBoth, RecordsAfter, LocalState;
    LocalSnoc(header, w.stored, a.event);
    LocalSnoc(header, w.seen, a.event);
  }

  /** What a call costs a handle that agrees with the disk: all stored keys of a missed event, the session keys of a retaken one. */
  function Lost(w: World, a: Attempt): State {
    if Misses(w, a) then Durable(a.event.delta) else if Retakes(w, a) then Local(a.event.delta) else map[]
  }

  /** Reservations hand out orders above every order known. */
  predicate Newest(w: World, order: Order) {
    (forall e :: e in w.found.app ==> e.order < order) && (forall e :: e in w.found.user ==> e.order < order)
  }

  lemma {:induction false} NewestWinsAt(p: Projection, journal: seq<Entry>, order: Order, k: string)
    requires IsLww(p, journal) && forall x :: x in journal ==> x.order < order
    ensures Wins(p, k, order)
  {
    if k in p.versions {
      assert k in p.state.Keys;
      var x :| x in journal && Writes(p, k, x);
    }
  }

  lemma {:induction false} AllWon(p: Projection, e: Entry)
    requires forall k :: k in e.delta ==> Wins(p, k, e.order)
    ensures Applied(p, e).state == p.state + e.delta
  {
    var state := Applied(p, e).state;
    forall k: string
      ensures k in state <==> k in p.state || k in e.delta
      ensures k in state ==> state[k] == if k in e.delta then e.delta[k] else p.state[k]
    {
      AppliedAt(p, e, k);
    }
    hide Applied, Wins;
    assert state == p.state + e.delta;
  }

  lemma {:induction false} NewestWins(journal: seq<Entry>, e: Entry)
    requires forall x :: x in journal ==> x.order < e.order
    ensures AllApplied(NOTHING, journal + [e]).state == AllApplied(NOTHING, journal).state + e.delta
  {
    hide Applied, IsLww, Wins;
    var p := AllApplied(NOTHING, journal);
    AllAppliedIsProjection(journal);
    assert (journal + [e])[..|journal|] == journal;
    forall k | k in e.delta ensures Wins(p, k, e.order) { NewestWinsAt(p, journal, e.order, k); }
    AllWon(p, e);
  }

  /** A repair that adds one entry with a new order: the shared state takes its delta. */
  lemma {:induction false} OneMore(journal: seq<Entry>, wanted: seq<Entry>, e: Entry)
    requires Distinct(journal) && Additions(journal, wanted).Some?
    requires e in wanted && (forall x :: x in wanted ==> x in journal || x == e) && forall x :: x in journal ==> x.order < e.order
    ensures Shared(Repaired(journal, wanted)) == Shared(journal) + e.delta
  {
    var now, sorted := Repaired(journal, wanted), SortByOrder(journal);
    AdditionsComplete(journal, wanted);
    DistinctIsConsistent(now);
    hide Additions, Repaired, Distinct, AllApplied, SortByOrder, Consistent;
    SortedMembers(journal);
    SortedMembers(now);
    SameMembers(now, SortByOrder(now));
    ProjectionOfSet(SortByOrder(now), sorted + [e]);
    NewestWins(sorted, e);
  }

  predicate Holding(m: State, delta: State) { forall k :: k in delta ==> k in m && m[k] == delta[k] }

  lemma {:induction false} HoldingIff(m: State, delta: State)
    ensures m + delta == m <==> Holding(m, delta)
  {
    if m + delta == m {
      forall k | k in delta ensures k in m && m[k] == delta[k] { assert (m + delta)[k] == delta[k]; }
    }
  }

  lemma {:induction false} PartAt(delta: State, prefix: string, k: string)
    requires k in delta && HasPrefix(k, prefix)
    ensures Trim(k, prefix) in Part(delta, prefix) && Part(delta, prefix)[Trim(k, prefix)] == delta[k]
  {
    TrimPrefix(k, prefix);
    PartIsScope(delta, prefix);
  }

  lemma {:induction false} HoldingPart(delta: State, prefix: string, m: State)
    ensures Holding(m, Part(delta, prefix)) <==>
      forall k :: k in delta && HasPrefix(k, prefix) ==> Trim(k, prefix) in m && m[Trim(k, prefix)] == delta[k]
  {
    forall k | k in delta && HasPrefix(k, prefix)
      ensures Trim(k, prefix) in Part(delta, prefix) && Part(delta, prefix)[Trim(k, prefix)] == delta[k]
    {
      PartAt(delta, prefix, k);
    }
    forall j | j in Part(delta, prefix) ensures HasPrefix(prefix + j, prefix) && Trim(prefix + j, prefix) == j { TrimPrefix(j, prefix); }
  }

  /** A stored key of a merged view, seen from its scope. */
  lemma {:induction false} ViewAt(local: State, app: State, user: State, state: State, k: string, v: string)
    requires OnlySession(local) && IsMerge(local, app, user, state) && !ScopeOf(k).TempScope?
    ensures HasPrefix(k, APP_PREFIX) ==> ((k in state && state[k] == v) <==> (Trim(k, APP_PREFIX) in app && app[Trim(k, APP_PREFIX)] == v))
    ensures HasPrefix(k, USER_PREFIX) ==> ((k in state && state[k] == v) <==> (Trim(k, USER_PREFIX) in user && user[Trim(k, USER_PREFIX)] == v))
    ensures ScopeOf(k).SessionScope? ==> ((k in state && state[k] == v) <==> (k in local && local[k] == v))
    ensures HasPrefix(k, APP_PREFIX) || HasPrefix(k, USER_PREFIX) || ScopeOf(k).SessionScope?
  {
    hide IsMerge;
    ScopesOfPrefixed(k);
    MergeShows(local, app, user, state);
    assert Shows(state, k, local, app, user);
  }

  /** A merged view holds a stored delta exactly when each scope holds its part. */
  lemma {:induction false} ViewHoldsIff(local: State, app: State, user: State, state: State, delta: State)
    requires OnlySession(local) && IsMerge(local, app, user, state) && forall k :: k in delta ==> !ScopeOf(k).TempScope?
    ensures Holding(state, delta) <==>
      (Holding(local, Local(delta)) && Holding(app, Part(delta, APP_PREFIX)) && Holding(user, Part(delta, USER_PREFIX)))
  {
    hide IsMerge, OnlySession, Part;
    HoldingPart(delta, APP_PREFIX, app);
    HoldingPart(delta, USER_PREFIX, user);
    forall k | k in delta
      ensures HasPrefix(k, APP_PREFIX) ==> ((k in state && state[k] == delta[k]) <==> (Trim(k, APP_PREFIX) in app && app[Trim(k, APP_PREFIX)] == delta[k]))
      ensures HasPrefix(k, USER_PREFIX) ==> ((k in state && state[k] == delta[k]) <==> (Trim(k, USER_PREFIX) in user && user[Trim(k, USER_PREFIX)] == delta[k]))
      ensures ScopeOf(k).SessionScope? ==> ((k in state && state[k] == delta[k]) <==> (k in local && local[k] == delta[k]))
      ensures HasPrefix(k, APP_PREFIX) || HasPrefix(k, USER_PREFIX) || ScopeOf(k).SessionScope?
    {
      ViewAt(local, app, user, state, k, delta[k]);
    }
    hide ScopeOf, HasPrefix, Trim;
  }

  lemma {:induction false} StoredDelta(delta: State)
    ensures Local(Durable(delta)) == Local(delta) && (forall k :: k in Durable(delta) ==> !ScopeOf(k).TempScope?)
    ensures forall k :: k in Local(delta) ==> ScopeOf(k).SessionScope?
  {}

  /** The shared state a replay finds after a missed event. */
  lemma {:induction false} MissedIsFound(w: World, a: Attempt, issued: Registry)
    requires Regular(w, issued) && Lawful(w, a, issued) && Quiet(w, a) && Misses(w, a) && Newest(w, a.order)
    ensures Shared(After(w, a).found.app) == Shared(w.found.app) + Part(Durable(a.event.delta), APP_PREFIX)
    ensures Shared(After(w, a).found.user) == Shared(w.found.user) + Part(Durable(a.event.delta), USER_PREFIX)
  {
    hide EntriesFor, Distinct, Regular, Lawful, Quiet, Repaired, Additions, Part, Shared;
    var r := RecordOf(w, ToStore(a.event), a.order);
    RepairRuns(w, a, issued);
    QuietFinds(w, a, issued, AppJournal, w.found.app);
    QuietFinds(w, a, issued, UserJournal(w.key.user), w.found.user);
    OneMore(w.found.app, EntriesFor(AppJournal, a.scan), EntryFor(AppJournal, r));
    OneMore(w.found.user, EntriesFor(UserJournal(w.key.user), a.scan), EntryFor(UserJournal(w.key.user), r));
  }

  /** A retaken event touches session keys only. */
  lemma {:induction false} SessionHoldsIff(local: State, app: State, user: State, state: State, delta: State)
    requires OnlySession(local) && IsMerge(local, app, user, state)
    ensures Holding(state, Local(delta)) <==> Holding(local, Local(delta))
  {
    hide IsMerge;
    StoredDelta(delta);
    forall k | k in Local(delta) ensures (k in state && state[k] == Local(delta)[k]) <==> (k in local && local[k] == Local(delta)[k]) {
      ViewAt(local, app, user, state, k, Local(delta)[k]);
    }
  }

  /**
   * The condition a caller can check: with no other session writing, a handle that shows the replayed state still does
   * after a call exactly when its state already has, with these values, all stored keys of an event that is committed
   * without telling it, and the session keys of an old event it was not given.
   */
  lemma {:induction false} QuietCallMirrorsIff(header: State, w: World, a: Attempt, issued: Registry, state: State)
    requires OnlySession(header) && Mirrors(header, w) && Showing(header, w, state)
    requires Regular(w, issued) && Lawful(w, a, issued) && Quiet(w, a) && (Misses(w, a) ==> Newest(w, a.order))
    ensures Mirrors(header, After(w, a)) <==> Holding(state, Lost(w, a))
  {
    hide IsMerge, Shared, Regular, Lawful, Quiet, Newest, LocalState, OnlySession, Local, Durable, Part, After, Holding;
    var local, app, user, delta := LocalState(header, w.seen), Shared(w.found.app), Shared(w.found.user), a.event.delta;
    LocalOnlySession(header, w.seen);
    CallMirrorsIff(header, w, a);
    StoredDelta(delta);
    HoldingIff(local, Local(delta));
    if Misses(w, a) {
      MissedIsFound(w, a, issued);
      HoldingIff(app, Part(Durable(delta), APP_PREFIX));
      HoldingIff(user, Part(Durable(delta), USER_PREFIX));
      ViewHoldsIff(local, app, user, state, Durable(delta));
    } else {
      if !Updates(w, a) { QuietKeepsFound(w, a, issued); }
      SessionHoldsIff(local, app, user, state, delta);
      HoldsNothing(state);
    }
  }

  lemma {:induction false} HoldsNothing(m: State)
    ensures Holding(m, map[])
  {}

  // The three ways to disagree, with inputs.

  const K := Key("u", "s")
  const FIRST := Event("e1", false, "", map["x" := "1"])
  const SECOND := Event("e2", false, "", map["x" := "2"])
  const APP_ONLY := Event("e1", false, "", map["app:x" := "1"])

  const HEADER := CreateRecord(K, 1, map[], map[])
  const NEW_JOURNALS := Journals([EntryFor(AppJournal, HEADER)], [EntryFor(UserJournal("u"), HEADER)])

  /** A new session and its handle. */
  const NO_EVENTS := World(K, 1, [], [HEADER], [], [], NEW_JOURNALS, NEW_JOURNALS)

  const FIRST_RECORD := EventRecord(K, 1, "e1", 2, map[], map[])
  const SECOND_RECORD := EventRecord(K, 1, "e2", 3, map[], map[])
  const APP_RECORD := EventRecord(K, 1, "e1", 2, map["x" := "1"], map[])

  lemma {:induction false} NoWriter(p: Projection, es: seq<Entry>)
    requires IsLww(p, es) && forall e :: e in es ==> e.delta == map[]
    ensures p.state == map[]
  {
    assert forall e, k :: e in es ==> k !in e.delta;
  }

  lemma {:induction false} EmptyDeltas(journal: seq<Entry>)
    requires forall e :: e in journal ==> e.delta == map[]
    ensures Shared(journal) == map[]
  {
    hide AllApplied, SortByOrder, IsLww;
    SortedMembers(journal);
    AllAppliedIsProjection(SortByOrder(journal));
    NoWriter(AllApplied(NOTHING, SortByOrder(journal)), SortByOrder(journal));
  }

  lemma {:induction false} NoPart(key: string, v: string, prefix: string)
    requires !HasPrefix(key, prefix)
    ensures Part(map[key := v], prefix) == map[]
  {
    PartIsScope(map[key := v], prefix);
    hide Part;
    forall j: string ensures HasPrefix(prefix + j, prefix) { TrimPrefix(j, prefix); }
  }

  lemma {:induction false} OnePart(j: string, v: string, prefix: string)
    ensures Part(map[prefix + j := v], prefix) == map[j := v]
  {
    var delta := map[prefix + j := v];
    TrimPrefix(j, prefix);
    PartIsScope(delta, prefix);
    hide Part;
    forall i | i in Part(delta, prefix) ensures i == j {
      TrimPrefix(i, prefix);
      assert prefix + i == prefix + j;
    }
    assert Trim(prefix + j, prefix) in Part(delta, prefix);
  }

  lemma {:induction false} KindsOfKeys()
    ensures ScopeOf("x") == SessionScope && !HasPrefix("x", APP_PREFIX) && !HasPrefix("x", USER_PREFIX)
    ensures ScopeOf("app:x") == AppScope && !HasPrefix("app:x", USER_PREFIX) && APP_PREFIX + "x" == "app:x"
  {
    ScopesOfPrefixed("x");
    assert APP_PREFIX + "x" == "app:x";
    assert "app:x"[0] == 'a' && USER_PREFIX[0] == 'u';
  }

  lemma {:induction false} SessionKey(e: Event)
    requires e == FIRST || e == SECOND
    ensures ToStore(e) == e && Local(e.delta) == e.delta && Part(e.delta, APP_PREFIX) == map[] && Part(e.delta, USER_PREFIX) == map[]
  {
    hide Part, ScopeOf, HasPrefix;
    KindsOfKeys();
    NoPart("x", e.delta["x"], APP_PREFIX);
    NoPart("x", e.delta["x"], USER_PREFIX);
    assert Durable(e.delta) == e.delta;
  }

  lemma {:induction false} AppKey()
    ensures ToStore(APP_ONLY) == APP_ONLY && Local(APP_ONLY.delta) == map[]
    ensures Part(APP_ONLY.delta, APP_PREFIX) == map["x" := "1"] && Part(APP_ONLY.delta, USER_PREFIX) == map[]
  {
    hide Part, ScopeOf, HasPrefix;
    KindsOfKeys();
    OnePart("x", "1", APP_PREFIX);
    NoPart("app:x", "1", USER_PREFIX);
    assert Durable(APP_ONLY.delta) == APP_ONLY.delta;
  }

  ghost const ISSUED: Registry := map[1 := HEADER, 2 := FIRST_RECORD, 3 := SECOND_RECORD]
  ghost const APP_ISSUED: Registry := map[1 := HEADER, 2 := APP_RECORD]

  lemma {:induction false} OneEntryCovers(issued: Registry, kind: JournalKind, journal: seq<Entry>)
    requires (issued == ISSUED || issued == APP_ISSUED) && (kind == AppJournal || kind == UserJournal("u"))
    requires journal == [EntryFor(kind, HEADER)]
    ensures Covering(issued, kind, journal, journal, [HEADER])
  {}

  lemma {:induction false} NewIsRegular(issued: Registry)
    requires issued == ISSUED || issued == APP_ISSUED
    ensures Regular(NO_EVENTS, issued) && Following(NO_EVENTS) && NO_EVENTS.seen == NO_EVENTS.stored && Mirrors(map[], NO_EVENTS)
  {
    assert IsRegistry(issued) && Recorded(NO_EVENTS);
    hide IsRegistry, Recorded, Covering, LocalState, Shared;
    OneEntryCovers(issued, AppJournal, NEW_JOURNALS.app);
    OneEntryCovers(issued, UserJournal("u"), NEW_JOURNALS.user);
  }

  // An app key of a missed event.

  const MISSED_APP := Attempt(APP_ONLY, false, 2, [HEADER, APP_RECORD])

  lemma {:induction false} MissedAppIsLawful()
    ensures RecordOf(NO_EVENTS, APP_ONLY, 2) == APP_RECORD && Misses(NO_EVENTS, MISSED_APP)
    ensures Lawful(NO_EVENTS, MISSED_APP, APP_ISSUED) && Quiet(NO_EVENTS, MISSED_APP) && Newest(NO_EVENTS, 2)
  {
    hide Part, Local, Durable;
    AppKey();
    assert RecordsAfter(NO_EVENTS, MISSED_APP) == [HEADER, APP_RECORD];
  }

  lemma {:induction false} MissedWorld(w: World, a: Attempt)
    requires Misses(w, a) && w.stored == [] && w.seen == []
    ensures var t := After(w, a); t.stored == [] + [ToStore(a.event)] && t.seen == [] && t.shown == w.shown
  {
    hide RepairedBoth, RecordsAfter, Durable;
  }

  lemma {:induction false} Differ(header: State, w: World)
    requires LocalState(header, w.seen) != LocalState(header, w.stored) || Shared(w.shown.app) != Shared(w.found.app)
    ensures !Mirrors(header, w)
  {}

  lemma {:induction false} MissedAppOf(w: World, a: Attempt, issued: Registry)
    requires Misses(w, a) && w.stored == [] && w.seen == [] && a.event == APP_ONLY && w.shown == w.found
    requires Regular(w, issued) && Lawful(w, a, issued) && Quiet(w, a) && Newest(w, a.order)
    requires forall e :: e in w.found.app ==> e.delta == map[]
    ensures var t := After(w, a);
      && LocalState(map[], t.seen) == LocalState(map[], t.stored) == map[]
      && Shared(t.shown.app) == map[] && Shared(t.found.app) == map["x" := "1"]
  {
    MissedWorld(w, a);
    hide Part, Local, Shared, Regular, Lawful, Quiet, Newest, After, LocalState, Durable;
    AppKey();
    EmptyDeltas(w.found.app);
    NoLocal(map[]);
    LocalSnoc(map[], [], APP_ONLY);
    MissedIsFound(w, a, issued);
    OneKeyAdded("1");
  }

  lemma {:induction false} NewSession(w: World, a: Attempt)
    requires w == NO_EVENTS && a == MISSED_APP
    ensures Misses(w, a) && w.stored == [] && w.seen == [] && a.event == APP_ONLY && w.shown == w.found
    ensures Regular(w, APP_ISSUED) && Lawful(w, a, APP_ISSUED) && Quiet(w, a) && Newest(w, a.order)
    ensures forall e :: e in w.found.app ==> e.delta == map[]
    ensures Following(w) && Mirrors(map[], w)
  {
    hide Shared, Regular, Lawful, Quiet, Newest, LocalState, Following, Misses, Mirrors, RecordOf;
    NewIsRegular(APP_ISSUED);
    MissedAppIsLawful();
  }

  /** A committed event with only an app key, and a call that fails: a replay shows the key, the handle does not. */
  lemma {:induction false} MissedAppKey(w: World, a: Attempt)
    requires w == NO_EVENTS && a == MISSED_APP
    ensures Following(w) && Mirrors(map[], w) && Misses(w, a) && Lawful(w, a, APP_ISSUED)
    ensures var t := After(w, a);
      && LocalState(map[], t.seen) == LocalState(map[], t.stored) == map[]
      && Shared(t.shown.app) == map[] && Shared(t.found.app) == map["x" := "1"]
      && !Mirrors(map[], t)
  {
    hide Shared, Regular, Lawful, Quiet, Newest, After, LocalState, Following, Misses, Mirrors;
    NewSession(w, a);
    AppKeyIsLost(w, a, APP_ISSUED);
  }

  lemma {:induction false} AppKeyIsLost(w: World, a: Attempt, issued: Registry)
    requires Misses(w, a) && w.stored == [] && w.seen == [] && a.event == APP_ONLY && w.shown == w.found
    requires Regular(w, issued) && Lawful(w, a, issued) && Quiet(w, a) && Newest(w, a.order)
    requires forall e :: e in w.found.app ==> e.delta == map[]
    ensures var t := After(w, a);
      && LocalState(map[], t.seen) == LocalState(map[], t.stored) == map[]
      && Shared(t.shown.app) == map[] && Shared(t.found.app) == map["x" := "1"]
      && !Mirrors(map[], t)
  {
    hide Shared, Regular, Lawful, Quiet, Newest, After, LocalState, Misses, Mirrors;
    MissedAppOf(w, a, issued);
    OneKeyAdded("1");
    Differ(map[], After(w, a));
  }

  lemma {:induction false} NoLocal(header: State)
    ensures LocalState(header, []) == header
  {}

  lemma {:induction false} OneKeyAdded(v: string)
    ensures var none: State := map[]; none + none == none && none + map["x" := v] == map["x" := v] && map["x" := v] != none
  {
    assert "x" in map["x" := v];
  }

  // A retry that comes too late, and a handle with recent events only.

  const LATE := [
    Attempt(FIRST, false, 2, [HEADER, FIRST_RECORD]),
    Attempt(SECOND, true, 3, [HEADER, FIRST_RECORD, SECOND_RECORD]),
    Attempt(FIRST, true, 2, [HEADER, FIRST_RECORD, SECOND_RECORD])]

  lemma {:induction false} SameKey(m: State, v: string)
    requires m.Keys <= {"x"}
    ensures m + map["x" := v] == map["x" := v]
  {}

  lemma {:induction false} LastWins(before: seq<Event>, e: Event)
    requires (e == FIRST || e == SECOND) && LocalState(map[], before).Keys <= {"x"}
    ensures LocalState(map[], before + [e]) == e.delta
  {
    hide LocalState, Local, Part;
    SessionKey(e);
    LocalSnoc(map[], before, e);
    SameKey(LocalState(map[], before), e.delta["x"]);
  }

  lemma {:induction false} BothOrders(one: seq<Event>, two: seq<Event>, three: seq<Event>)
    requires one == [FIRST, SECOND] && two == [SECOND, FIRST] && three == [FIRST, SECOND, FIRST]
    ensures LocalState(map[], one) == map["x" := "2"] && LocalState(map[], two) == map["x" := "1"]
    ensures LocalState(map[], three) == map["x" := "1"] && map["x" := "1"] != map["x" := "2"]
  {
    NoLocal(map[]);
    hide LocalState;
    LastWins([], FIRST);
    LastWins([], SECOND);
    assert [] + [FIRST] == [FIRST] && [] + [SECOND] == [SECOND];
    LastWins([FIRST], SECOND);
    LastWins([SECOND], FIRST);
    assert [FIRST] + [SECOND] == one && [SECOND] + [FIRST] == two;
    LastWins(one, FIRST);
    assert one + [FIRST] == three;
    assert map["x" := "1"]["x"] != map["x" := "2"]["x"];
  }

  predicate Is(w: World, stored: seq<Event>, records: seq<StateRecord>, seen: seq<Event>) {
    w.key == K && w.incarnation == 1 && w.stored == stored && w.records == records && w.seen == seen && w.known == seen
  }

  lemma {:induction false} LateFirst(w: World)
    requires Is(w, [], [HEADER], [])
    ensures Is(After(w, LATE[0]), [FIRST], [HEADER, FIRST_RECORD], []) && Lawful(w, LATE[0], ISSUED)
  {
    hide RepairedBoth, Part, Local, Durable;
    SessionKey(FIRST);
    assert [] + [FIRST] == [FIRST] && [HEADER] + [FIRST_RECORD] == [HEADER, FIRST_RECORD];
  }

  lemma {:induction false} LateSecond(w: World)
    requires Is(w, [FIRST], [HEADER, FIRST_RECORD], [])
    ensures Is(After(w, LATE[1]), [FIRST, SECOND], [HEADER, FIRST_RECORD, SECOND_RECORD], [SECOND]) && Lawful(w, LATE[1], ISSUED)
  {
    hide RepairedBoth, Part, Local, Durable;
    SessionKey(SECOND);
    assert [] + [SECOND] == [SECOND] && [FIRST] + [SECOND] == [FIRST, SECOND];
    assert [HEADER, FIRST_RECORD] + [SECOND_RECORD] == [HEADER, FIRST_RECORD, SECOND_RECORD];
  }

  lemma {:induction false} LateThird(w: World)
    requires Is(w, [FIRST, SECOND], [HEADER, FIRST_RECORD, SECOND_RECORD], [SECOND])
    ensures Is(After(w, LATE[2]), [FIRST, SECOND], [HEADER, FIRST_RECORD, SECOND_RECORD], [SECOND, FIRST])
    ensures Takes(w, LATE[2]) && Lawful(w, LATE[2], ISSUED)
  {
    hide RepairedBoth, Part, Local, Durable;
    SessionKey(FIRST);
    assert w.stored[0] == FIRST && [SECOND] + [FIRST] == [SECOND, FIRST];
  }

  lemma {:induction false} LateCalls()
    ensures Is(AfterAll(NO_EVENTS, LATE), [FIRST, SECOND], [HEADER, FIRST_RECORD, SECOND_RECORD], [SECOND, FIRST])
    ensures AllLawful(NO_EVENTS, LATE, ISSUED) && Takes(AfterAll(NO_EVENTS, LATE[..2]), LATE[2])
  {
    hide AfterAll, After, Takes, Lawful;
    var late := LATE;
    AfterNone(NO_EVENTS, late);
    AfterSnoc(NO_EVENTS, late, 0);
    AfterSnoc(NO_EVENTS, late, 1);
    AfterSnoc(NO_EVENTS, late, 2);
    assert late[..3] == late;
    LateFirst(AfterAll(NO_EVENTS, late[..0]));
    LateSecond(AfterAll(NO_EVENTS, late[..1]));
    LateThird(AfterAll(NO_EVENTS, late[..2]));
    hide Is;
    forall i | 0 <= i < |late| ensures Lawful(AfterAll(NO_EVENTS, late[..i]), late[i], ISSUED) { assert i == 0 || i == 1 || i == 2; }
  }

  /** A failed append retried only after the next event: the handle shows "1" where a replay shows "2". */
  lemma {:induction false} LateRetry()
    ensures Following(NO_EVENTS) && Regular(NO_EVENTS, ISSUED) && AllLawful(NO_EVENTS, LATE, ISSUED)
    ensures Takes(AfterAll(NO_EVENTS, LATE[..2]), LATE[2])
    ensures var w := AfterAll(NO_EVENTS, LATE);
      LocalState(map[], w.seen) == map["x" := "1"] && LocalState(map[], w.stored) == map["x" := "2"] && !Mirrors(map[], w)
  {
    NewIsRegular(ISSUED);
    LateCalls();
    hide LocalState, AfterAll, Takes, AllLawful, Regular, Following, Mirrors;
    var w := AfterAll(NO_EVENTS, LATE);
    BothOrders(w.stored, w.seen, [FIRST, SECOND, FIRST]);
    Differ(map[], w);
  }

  /** A handle that was given only the last of two events, and replays the first: it shows "1" again, a replay "2". */
  lemma {:induction false} RecentEventsOnly(w: World)
    requires w.stored == w.seen == [FIRST, SECOND] && w.known == [SECOND] && w.shown == w.found
    ensures Mirrors(map[], w)
    ensures var t := After(w, LATE[2]);
      LocalState(map[], t.seen) == map["x" := "1"] && LocalState(map[], t.stored) == map["x" := "2"] && !Mirrors(map[], t)
  {
    SessionKey(FIRST);
    hide LocalState, RepairedBoth, Shared, Part, Local;
    assert w.stored[0] == FIRST;
    var t := After(w, LATE[2]);
    assert t.stored == w.stored && t.seen == [FIRST, SECOND] + [FIRST];
    hide After;
    BothOrders(w.stored, [SECOND, FIRST], [FIRST, SECOND, FIRST]);
    assert [FIRST, SECOND] + [FIRST] == [FIRST, SECOND, FIRST];
    Differ(map[], t);
  }
}
