/**
 * Matching published diagnostics to document versions: synchronising a document, failed notifications that are
 * rolled back, publications with and without a version, closing, and waiting, in any interleaving.
 */
module LspDiagnostics {
  import opened Wrappers

  /** What a client knows about one document. */
  datatype Doc = Doc(
    values: seq<string>,
    documentVersion: int,
    publicationVersion: int,
    versioned: bool,
    acceptsUnversioned: bool,
    generation: nat)

  const NEW_DOC := Doc([], 0, 0, false, true, 0)

  predicate Accepts(d: Doc, tag: Option<int>) {
    match tag
    case Some(v) => d.documentVersion == 0 || v == d.documentVersion
    case None => d.acceptsUnversioned && d.documentVersion <= 1
  }

  function Prepare(d: Doc, version: int): Doc { d.(documentVersion := version) }

  function Rollback(d: Doc, version: int, previous: int): Doc {
    if d.documentVersion == version then d.(documentVersion := previous) else d
  }

  function Publish(d: Doc, tag: Option<int>, values: seq<string>): Doc {
    if Accepts(d, tag) then
      d.(values := values, publicationVersion := if tag.Some? then tag.value else 0, versioned := tag.Some?, generation := d.generation + 1)
    else d
  }

  function Close(d: Doc): Doc { Doc([], 0, 0, true, false, d.generation + 1) }

  /** The condition under which a wait returns the current values. */
  predicate Answers(d: Doc, version: int, generation: nat) {
    d.documentVersion == version && d.generation > generation && (!d.versioned || d.publicationVersion == version)
  }

  datatype Answer = Answered(values: seq<string>) | GivenUp | Waiting

  /** The diagnostic state of a client; every method is one section under the diagnostic lock. */
  class DiagnosticStates {
    var states: map<string, Doc>

    constructor ()
      ensures states == map[]
    {
      states := map[];
    }

    function At(path: string): Doc
      reads this
    {
      if path in states then states[path] else NEW_DOC
    }

    method PrepareDiagnostics(path: string, version: int) returns (generation: nat, previous: int)
      modifies this
      ensures At(path) == Prepare(old(At(path)), version)
      ensures generation == old(At(path)).generation && previous == old(At(path)).documentVersion
      ensures forall p :: p != path ==> At(p) == old(At(p))
    {
      var state := At(path);
      generation, previous := state.generation, state.documentVersion;
      states := states[path := state.(documentVersion := version)];
    }

    method RollbackDiagnostics(path: string, version: int, previous: int)
      modifies this
      ensures At(path) == Rollback(old(At(path)), version, previous)
      ensures forall p :: p != path ==> At(p) == old(At(p))
    {
      var state := At(path);
      if state.documentVersion == version { state := state.(documentVersion := previous); }
      states := states[path := state];
    }

    method PublishDiagnostics(path: string, tag: Option<int>, values: seq<string>)
      modifies this
      ensures At(path) == Publish(old(At(path)), tag, values)
      ensures forall p :: p != path ==> At(p) == old(At(p))
    {
      var state := At(path);
      states := states[path := state];
      if tag.Some? && state.documentVersion != 0 && tag.value != state.documentVersion { return; }
      if tag.None? && (!state.acceptsUnversioned || state.documentVersion > 1) { return; }
      var version := if tag.Some? then tag.value else 0;
      states := states[path := state.(values := values, publicationVersion := version, versioned := tag.Some?, generation := state.generation + 1)];
    }

    method CloseDiagnostics(path: string)
      modifies this
      ensures At(path) == Close(old(At(path)))
      ensures forall p :: p != path ==> At(p) == old(At(p))
    {
      states := states[path := Doc([], 0, 0, true, false, At(path).generation + 1)];
    }

    /** One pass of the waiting loop. */
    method WaitOnce(path: string, version: int, generation: nat) returns (answer: Answer)
      ensures answer.Answered? <==> path in states && Answers(states[path], version, generation)
      ensures answer.Answered? ==> answer.values == At(path).values
      ensures answer.GivenUp? <==> path !in states || states[path].documentVersion != version
    {
      if path !in states { return GivenUp; }
      var state := states[path];
      if state.documentVersion != version { return GivenUp; }
      if state.generation > generation && (!state.versioned || state.publicationVersion == version) { return Answered(state.values); }
      answer := Waiting;
    }
  }

  // Interleavings, for one document. The document lock serialises synchronising and closing; publications come at any time.

  datatype Event = Prepared(version: int) | Published(tag: Option<int>, values: seq<string>) | Closed

  /** `mark` is where the history stood when the ticket's version was prepared. */
  datatype Ticket = Ticket(version: int, generation: nat, mark: nat)

  datatype Holder = Nobody | Syncing(ticket: Ticket, previous: int) | Closing

  /** `history` is what happened so far; the program does not keep it. */
  datatype World = World(doc: Doc, open: Option<int>, holder: Holder, tickets: set<Ticket>, history: seq<Event>)

  const START := World(NEW_DOC, None, Nobody, {}, [])

  datatype Step = BeginSync | Notified | NotifyFailed | Publication(tag: Option<int>, values: seq<string>) | BeginClose | EndClose

  function NextVersion(w: World): int { if w.open.Some? then w.open.value + 1 else 1 }

  predicate Next(w: World, step: Step, t: World) {
    match step
    case BeginSync =>
      && w.holder.Nobody?
      && var v := NextVersion(w);
      t == w.(doc := Prepare(w.doc, v),
              holder := Syncing(Ticket(v, w.doc.generation, |w.history|), w.doc.documentVersion),
              history := w.history + [Prepared(v)])
    case Notified =>
      && w.holder.Syncing?
      && t == w.(open := Some(w.holder.ticket.version), holder := Nobody, tickets := w.tickets + {w.holder.ticket})
    case NotifyFailed =>
      && w.holder.Syncing?
      && t == w.(doc := Rollback(w.doc, w.holder.ticket.version, w.holder.previous), holder := Nobody)
    case Publication(tag, values) =>
      t == w.(doc := Publish(w.doc, tag, values),
              history := if Accepts(w.doc, tag) then w.history + [Published(tag, values)] else w.history)
    case BeginClose => w.holder.Nobody? && w.open.Some? && t == w.(holder := Closing)
    case EndClose =>
      w.holder.Closing? && t == w.(doc := Close(w.doc), open := None, holder := Nobody, history := w.history + [Closed])
  }

  predicate Bump(e: Event) { !e.Prepared? }

  function Bumps(history: seq<Event>): nat {
    if history == [] then 0
    else Bumps(history[..|history| - 1]) + if Bump(history[|history| - 1]) then 1 else 0
  }

  /** The document's cached answer is the last publication or closing in the history. */
  predicate Latest(d: Doc, history: seq<Event>, i: nat) {
    && i < |history| && Bump(history[i]) && (forall j :: i < j < |history| ==> history[j].Prepared?)
    && match history[i]
       case Published(tag, values) =>
         d.values == values && d.versioned == tag.Some? && d.publicationVersion == if tag.Some? then tag.value else 0
       case Closed => d.versioned && d.publicationVersion == 0
       case Prepared(_) => false
  }

  predicate TicketFits(w: World, k: Ticket) {
    && 1 <= k.version && k.mark <= |w.history| && k.generation == Bumps(w.history[..k.mark])
    && (w.doc.acceptsUnversioned ==> k.version <= w.doc.documentVersion)
    && forall i :: k.mark <= i < |w.history| && w.history[i].Published? && w.history[i].tag.None? ==> k.version == 1
  }

  function OpenVersion(w: World): int { if w.open.Some? then w.open.value else 0 }

  ghost predicate Inv(w: World) {
    && w.doc.generation == Bumps(w.history)
    && (w.doc.generation > 0 ==> exists i :: Latest(w.doc, w.history, i))
    && VersionsAgree(w)
    && (w.holder.Syncing? ==> TicketFits(w, w.holder.ticket))
    && (forall k :: k in w.tickets ==> TicketFits(w, k) && (w.doc.acceptsUnversioned ==> k.version <= OpenVersion(w)))
  }

  lemma {:induction false} BumpsSnoc(history: seq<Event>, e: Event)
    ensures Bumps(history + [e]) == Bumps(history) + if Bump(e) then 1 else 0
  {
    assert (history + [e])[..|history|] == history;
  }

  lemma {:induction false} BumpsMonotone(history: seq<Event>, m: nat)
    requires m <= |history|
    ensures Bumps(history[..m]) <= Bumps(history)
    ensures (forall j :: m <= j < |history| ==> !Bump(history[j])) ==> Bumps(history[..m]) == Bumps(history)
  {
    if m == |history| {
      assert history[..m] == history;
    } else {
      var front := history[..|history| - 1];
      BumpsMonotone(front, m);
      assert front[..m] == history[..m];
    }
  }

  predicate SameAnswer(d: Doc, e: Doc) {
    d.values == e.values && d.versioned == e.versioned && d.publicationVersion == e.publicationVersion && d.generation == e.generation
  }

  /** A step appends at most one event; the cached answer changes exactly with a publication or a closing. */
  lemma {:induction false} OneEvent(w: World, step: Step, t: World)
    requires Next(w, step, t)
    ensures t.history == w.history ==> SameAnswer(w.doc, t.doc)
    ensures t.history != w.history ==> |t.history| == |w.history| + 1 && t.history == w.history + [t.history[|w.history|]]
    ensures t.history != w.history ==>
      var e := t.history[|w.history|];
      if Bump(e) then Latest(t.doc, t.history, |w.history|) && t.doc.generation == w.doc.generation + 1 else SameAnswer(w.doc, t.doc)
  {}

  lemma {:induction false} LatestExtends(d: Doc, e: Doc, history: seq<Event>, i: nat, more: seq<Event>)
    requires Latest(d, history, i) && SameAnswer(d, e) && forall x :: x in more ==> x.Prepared?
    ensures Latest(e, history + more, i)
  {}

  lemma {:induction false} LatestStays(w: World, step: Step, t: World)
    requires Inv(w) && Next(w, step, t)
    ensures t.doc.generation == Bumps(t.history)
    ensures t.doc.generation > 0 ==> exists i :: Latest(t.doc, t.history, i)
  {
    OneEvent(w, step, t);
    hide Next, Latest, TicketFits, Bumps;
    var more := t.history[|w.history|..];
    assert t.history == w.history + more;
    if t.history != w.history { BumpsSnoc(w.history, t.history[|w.history|]); }
    if (t.history == w.history || !Bump(t.history[|w.history|])) && w.doc.generation > 0 {
      var i :| Latest(w.doc, w.history, i);
      LatestExtends(w.doc, t.doc, w.history, i, more);
    }
  }

  lemma {:induction false} TicketStays(w: World, step: Step, t: World, k: Ticket)
    requires Inv(w) && Next(w, step, t) && TicketFits(w, k)
    requires k in w.tickets || (w.holder.Syncing? && k == w.holder.ticket && step != NotifyFailed)
    ensures TicketFits(t, k)
  {
    assert t.history[..k.mark] == w.history[..k.mark];
  }

  lemma {:induction false} NewTicketFits(w: World, t: World)
    requires Inv(w) && Next(w, BeginSync, t)
    ensures TicketFits(t, t.holder.ticket)
  {
    assert t.history[..|w.history|] == w.history;
  }

  /** Outside a synchronisation the document's version is the open one; within it, the next. */
  predicate VersionsAgree(w: World) {
    && (w.open.Some? ==> 1 <= w.open.value)
    && if w.holder.Syncing? then
         && w.holder.previous == OpenVersion(w) && w.holder.ticket.version == NextVersion(w)
         && w.doc.documentVersion == NextVersion(w)
       else w.doc.documentVersion == OpenVersion(w)
  }

  lemma {:induction false} VersionsStayAgreed(w: World, step: Step, t: World)
    requires VersionsAgree(w) && Next(w, step, t)
    ensures VersionsAgree(t)
  {}

  lemma {:induction false} TicketsFrom(w: World, step: Step, t: World)
    requires Next(w, step, t)
    ensures forall k :: k in t.tickets ==> k in w.tickets || (step.Notified? && w.holder.Syncing? && k == w.holder.ticket)
    ensures t.holder.Syncing? ==> step.BeginSync? || (w.holder == t.holder && !step.NotifyFailed?)
    ensures OpenVersion(w) <= OpenVersion(t) || !t.doc.acceptsUnversioned || (step.Notified? && w.holder.Syncing?)
    ensures step.Notified? ==> w.holder.Syncing? && OpenVersion(t) == w.holder.ticket.version
    ensures t.doc.acceptsUnversioned ==> w.doc.acceptsUnversioned
  {}

  lemma {:induction false} InvStep(w: World, step: Step, t: World)
    requires Inv(w) && Next(w, step, t)
    ensures Inv(t)
  {
    hide Next, TicketFits, Latest, Bumps;
    LatestStays(w, step, t);
    VersionsStayAgreed(w, step, t);
    TicketsFrom(w, step, t);
    if step.BeginSync? { NewTicketFits(w, t); }
    forall k | k in t.tickets ensures TicketFits(t, k) && (t.doc.acceptsUnversioned ==> k.version <= OpenVersion(t)) {
      TicketStays(w, step, t, k);
    }
    if t.holder.Syncing? && !step.BeginSync? { TicketStays(w, step, t, w.holder.ticket); }
  }

  predicate IsRun(worlds: seq<World>, steps: seq<Step>) {
    && |worlds| == |steps| + 1 && worlds[0] == START
    && forall i :: 0 <= i < |steps| ==> Next(worlds[i], steps[i], worlds[i + 1])
  }

  lemma {:induction false} InvAlongRun(worlds: seq<World>, steps: seq<Step>, n: nat)
    requires IsRun(worlds, steps) && n < |worlds|
    ensures Inv(worlds[n])
  {
    if n > 0 {
      InvAlongRun(worlds, steps, n - 1);
      InvStep(worlds[n - 1], steps[n - 1], worlds[n]);
    }
  }

  /**
   * A wait that succeeds returns the latest publication, one accepted after the ticket's version was prepared,
   * tagged with exactly that version, or untagged when the version is 1.
   */
  lemma {:induction false} AnswerIsCurrent(worlds: seq<World>, steps: seq<Step>, n: nat, k: Ticket) returns (i: nat)
    requires IsRun(worlds, steps) && n < |worlds| && k in worlds[n].tickets
    requires Answers(worlds[n].doc, k.version, k.generation)
    ensures var w := worlds[n];
      && k.mark <= i < |w.history| && w.history[i].Published? && w.history[i].values == w.doc.values
      && (forall j :: i < j < |w.history| ==> w.history[j].Prepared?)
      && (w.history[i].tag == Some(k.version) || (w.history[i].tag == None && k.version == 1))
  {
    InvAlongRun(worlds, steps, n);
    var w := worlds[n];
    assert TicketFits(w, k);
    i :| Latest(w.doc, w.history, i);
    BumpsMonotone(w.history, k.mark);
  }

  /** The other direction: while the ticket's version is current, a publication with its tag answers the wait. */
  lemma {:induction false} TaggedPublicationAnswers(worlds: seq<World>, steps: seq<Step>, n: nat, k: Ticket, values: seq<string>)
    requires IsRun(worlds, steps) && n < |worlds| && k in worlds[n].tickets && worlds[n].doc.documentVersion == k.version
    ensures var d := Publish(worlds[n].doc, Some(k.version), values);
      Answers(d, k.version, k.generation) && d.values == values
  {
    InvAlongRun(worlds, steps, n);
    assert TicketFits(worlds[n], k);
    BumpsMonotone(worlds[n].history, k.mark);
  }

  /** Untagged publications count until the document is closed for the first time. */
  lemma {:induction false} UntaggedUntilClosed(worlds: seq<World>, steps: seq<Step>, n: nat)
    requires IsRun(worlds, steps) && n < |worlds|
    ensures worlds[n].doc.acceptsUnversioned <==> Closed !in worlds[n].history
  {
    if n > 0 { UntaggedUntilClosed(worlds, steps, n - 1); }
  }

  /** Without a tag, a publication answers the wait for version 1 of a document never closed, and is ignored otherwise. */
  lemma {:induction false} UntaggedPublicationAnswers(worlds: seq<World>, steps: seq<Step>, n: nat, k: Ticket, values: seq<string>)
    requires IsRun(worlds, steps) && n < |worlds| && k in worlds[n].tickets && worlds[n].doc.documentVersion == k.version
    ensures var w := worlds[n];
      var d := Publish(w.doc, None, values);
      if k.version == 1 && Closed !in w.history then Answers(d, 1, k.generation) && d.values == values else d == w.doc
  {
    InvAlongRun(worlds, steps, n);
    UntaggedUntilClosed(worlds, steps, n);
    assert TicketFits(worlds[n], k);
    BumpsMonotone(worlds[n].history, k.mark);
  }

  /** While a version is open, a publication for another version changes nothing. */
  lemma {:induction false} OtherVersionsIgnored(worlds: seq<World>, steps: seq<Step>, n: nat, tag: int, values: seq<string>)
    requires IsRun(worlds, steps) && n < |worlds| && worlds[n].open.Some? && worlds[n].holder.Nobody?
    ensures tag != worlds[n].open.value ==> Publish(worlds[n].doc, Some(tag), values) == worlds[n].doc
  {
    InvAlongRun(worlds, steps, n);
  }

  /** A failed synchronisation leaves the version as it was before, so older tickets can still be answered. */
  lemma {:induction false} FailureRestoresVersion(worlds: seq<World>, steps: seq<Step>, n: nat)
    requires IsRun(worlds, steps) && n < |steps| && steps[n].NotifyFailed?
    ensures worlds[n + 1].doc.documentVersion == OpenVersion(worlds[n])
  {
    InvAlongRun(worlds, steps, n);
  }
}
