/** What a readable transcript is, line by line, and what reading it yields. */
module StoreReading {
  import opened Sequences
  import opened Wrappers
  import opened StoreState
  import opened StoreJournal
  import opened StoreJournalFile
  import opened StoreProtocol
  import opened StoreTranscript

  function LineAt(codec: LineCodec, lines: seq<string>, i: nat): Option<Line>
    requires i < |lines|
  {
    if Blank(lines[i]) then None else codec.decode(lines[i])
  }

  /** The header names this user and session, and its own positive order as the incarnation. */
  predicate GoodHeader(k: Key, l: Option<Line>) {
    l.Some? && l.value.HeaderLine? && l.value.user == k.user && l.value.session == k.session
    && l.value.order > 0 && l.value.incarnation == l.value.order && l.value.dated
  }

  /** Later lines: an event with an ID and an order, a sidecar with a kind and data, or a line of a later version. */
  predicate GoodLine(l: Option<Line>) {
    && l.Some?
    && match l.value
       case HeaderLine(_, _, _, _, _, _, _) => false
       case EventLine(event, order, _, _) => event != "" && order > 0
       case SidecarLine(kind, data) => kind != "" && !Blank(data)
       case ForwardLine => true
  }

  predicate IsEvent(l: Option<Line>, event: string) { l.Some? && l.value.EventLine? && l.value.event == event }

  predicate IsSidecar(l: Option<Line>, kind: string) { l.Some? && l.value.SidecarLine? && l.value.kind == kind }

  ghost predicate Readable(codec: LineCodec, k: Key, lines: seq<string>) {
    && lines != [] && GoodHeader(k, LineAt(codec, lines, 0))
    && (forall i :: 1 <= i < |lines| ==> GoodLine(LineAt(codec, lines, i)))
    && (forall i, j, event :: 1 <= i < j < |lines| && IsEvent(LineAt(codec, lines, i), event) ==> !IsEvent(LineAt(codec, lines, j), event))
  }

  predicate Increasing(at: seq<nat>) { forall m, n :: 0 <= m < n < |at| ==> at[m] < at[n] }

  /** The line is that event's, and the record is what it says. */
  predicate TellsEvent(k: Key, incarnation: Order, l: Option<Line>, event: string, r: StateRecord) {
    && IsEvent(l, event) && l.value.order > 0
    && r == StateRecord(EventId(k.user, k.session, incarnation, event), l.value.order, k.user, l.value.app, l.value.userDelta)
  }

  /** The events and records are those of the event lines, which stand at `at`, behind the record of the header. */
  ghost predicate TellsEvents(codec: LineCodec, k: Key, lines: seq<string>, p: Parsed, at: seq<nat>)
    requires Readable(codec, k, lines)
  {
    var h := LineAt(codec, lines, 0).value;
    && p.incarnation == Some(h.order)
    && |p.events| == |at| && |p.records| == |at| + 1
    && p.records[0] == StateRecord(CreateId(k.user, k.session, h.order), h.order, k.user, h.app, h.userDelta)
    && Increasing(at)
    && (forall n :: 0 <= n < |at| ==> 1 <= at[n] < |lines| && TellsEvent(k, h.order, LineAt(codec, lines, at[n]), p.events[n], p.records[n + 1]))
    && (forall i: nat :: 1 <= i < |lines| && LineAt(codec, lines, i).value.EventLine? ==> i in at)
  }

  /** Of every kind of sidecar the last one counts. */
  ghost predicate TellsSidecars(codec: LineCodec, lines: seq<string>, p: Parsed) {
    && (forall kind :: kind in p.sidecars ==> exists i :: 1 <= i < |lines| && IsSidecar(LineAt(codec, lines, i), kind))
    && (forall i, kind :: 1 <= i < |lines| && IsSidecar(LineAt(codec, lines, i), kind) ==> kind in p.sidecars)
    && (forall i, kind :: 1 <= i < |lines| && IsSidecar(LineAt(codec, lines, i), kind)
          && (forall j :: i < j < |lines| ==> !IsSidecar(LineAt(codec, lines, j), kind))
          ==> kind in p.sidecars && p.sidecars[kind] == LineAt(codec, lines, i).value.data)
  }

  lemma {:induction false} FrontLines(codec: LineCodec, lines: seq<string>)
    requires |lines| > 1
    ensures var front := lines[..|lines| - 1];
      forall i :: 0 <= i < |front| ==> LineAt(codec, front, i) == LineAt(codec, lines, i)
  {}

  lemma {:induction false} ReadableFront(codec: LineCodec, k: Key, lines: seq<string>)
    requires |lines| > 1
    ensures Readable(codec, k, lines) <==>
      && Readable(codec, k, lines[..|lines| - 1]) && GoodLine(LineAt(codec, lines, |lines| - 1))
      && forall i, event :: 1 <= i < |lines| - 1 && IsEvent(LineAt(codec, lines, i), event) ==> !IsEvent(LineAt(codec, lines, |lines| - 1), event)
  {
    hide GoodHeader, GoodLine, IsEvent;
    FrontLines(codec, lines);
    hide LineAt;
    var front := lines[..|lines| - 1];
    if Readable(codec, k, front) {
      forall i, event | 1 <= i < |front| && IsEvent(LineAt(codec, lines, i), event) ensures IsEvent(LineAt(codec, front, i), event) {}
    }
  }

  lemma {:induction false} OneLineRead(codec: LineCodec, k: Key, lines: seq<string>)
    requires |lines| == 1
    ensures var p := ParsedLines(codec, k, lines);
      && (p.Some? && p.value.incarnation.Some? <==> Readable(codec, k, lines))
      && (Readable(codec, k, lines) ==> TellsEvents(codec, k, lines, p.value, []) && TellsSidecars(codec, lines, p.value))
  {
    NoLinesParsed(codec, k, []);
    ParsedSnoc(codec, k, [], lines[0], NOTHING_PARSED);
    assert [] + [lines[0]] == lines;
  }

  lemma {:induction false} EventKnown(codec: LineCodec, k: Key, lines: seq<string>, p: Parsed, at: seq<nat>, event: string)
    requires Readable(codec, k, lines) && TellsEvents(codec, k, lines, p, at)
    ensures event in p.events <==> exists i :: 1 <= i < |lines| && IsEvent(LineAt(codec, lines, i), event)
  {
    hide LineAt, GoodHeader, GoodLine, Readable;
    if i :| 1 <= i < |lines| && IsEvent(LineAt(codec, lines, i), event) {
      var n :| 0 <= n < |at| && at[n] == i;
      assert p.events[n] == event;
    }
    if event in p.events {
      var n :| 0 <= n < |p.events| && p.events[n] == event;
      assert IsEvent(LineAt(codec, lines, at[n]), event);
    }
  }

  lemma {:induction false} OneMoreLine(codec: LineCodec, k: Key, lines: seq<string>, p: Parsed, at: seq<nat>)
    requires |lines| > 1
    requires var front := lines[..|lines| - 1]; Readable(codec, k, front) && TellsEvents(codec, k, front, p, at)
    ensures Accept(codec, k, p, |lines|, lines[|lines| - 1]).Some? <==> Readable(codec, k, lines)
    ensures Accept(codec, k, p, |lines|, lines[|lines| - 1]).Some? ==>
      Accept(codec, k, p, |lines|, lines[|lines| - 1]).value.incarnation == p.incarnation && p.incarnation.Some?
  {
    hide Blank;
    var front, last := lines[..|lines| - 1], LineAt(codec, lines, |lines| - 1);
    ReadableFront(codec, k, lines);
    FrontLines(codec, lines);
    if last.Some? && last.value.EventLine? {
      EventKnown(codec, k, front, p, at, last.value.event);
      forall i, event | 1 <= i < |front| && IsEvent(LineAt(codec, lines, i), event) ensures IsEvent(LineAt(codec, front, i), event) {}
      forall i | 1 <= i < |front| && IsEvent(LineAt(codec, front, i), last.value.event) ensures IsEvent(LineAt(codec, lines, i), last.value.event) {}
    }
    hide Readable, TellsEvents;
  }

  /** What one accepted line behind the header adds. */
  lemma {:induction false} Adds(codec: LineCodec, k: Key, p: Parsed, n: nat, raw: string)
    requires n > 1 && Accept(codec, k, p, n, raw).Some? && p.incarnation.Some?
    ensures !Blank(raw) && codec.decode(raw).Some?
    ensures var q, h := Accept(codec, k, p, n, raw).value, p.incarnation.value;
      match codec.decode(raw).value
      case HeaderLine(_, _, _, _, _, _, _) => false
      case EventLine(event, order, app, userDelta) =>
        q == p.(events := p.events + [event],
                records := p.records + [StateRecord(EventId(k.user, k.session, h, event), order, k.user, app, userDelta)])
      case SidecarLine(kind, data) => q == p.(sidecars := p.sidecars[kind := data])
      case ForwardLine => q == p
  {
    hide Blank;
  }

  lemma {:induction false} MoreEvents(codec: LineCodec, k: Key, lines: seq<string>, p: Parsed, q: Parsed, at: seq<nat>) returns (more: seq<nat>)
    requires |lines| > 1 && Readable(codec, k, lines)
    requires var front := lines[..|lines| - 1]; Readable(codec, k, front) && TellsEvents(codec, k, front, p, at)
    requires q.incarnation == p.incarnation
    requires var h, l := LineAt(codec, lines, 0).value, LineAt(codec, lines, |lines| - 1).value;
      if l.EventLine? then
        && q.events == p.events + [l.event]
        && q.records == p.records + [StateRecord(EventId(k.user, k.session, h.order, l.event), l.order, k.user, l.app, l.userDelta)]
      else q.events == p.events && q.records == p.records
    ensures TellsEvents(codec, k, lines, q, more)
  {
    var front, i := lines[..|lines| - 1], |lines| - 1;
    FrontLines(codec, lines);
    var h, last := LineAt(codec, lines, 0).value, LineAt(codec, lines, i);
    assert last.Some?;
    hide LineAt, GoodHeader, GoodLine, Readable;
    if last.value.EventLine? {
      more := at + [i];
      assert TellsEvent(k, h.order, last, q.events[|at|], q.records[|at| + 1]);
      hide TellsEvent;
      forall j: nat | 1 <= j < |lines| && LineAt(codec, lines, j).value.EventLine? ensures j in more {
        if j < i { assert LineAt(codec, front, j).value.EventLine? && j in at; }
      }
    } else {
      more := at;
      hide TellsEvent;
      forall j: nat | 1 <= j < |lines| && LineAt(codec, lines, j).value.EventLine? ensures j in more {
        assert LineAt(codec, front, j).value.EventLine?;
      }
    }
  }

  lemma {:induction false} MoreSidecars(codec: LineCodec, lines: seq<string>, p: Parsed, q: Parsed)
    requires |lines| > 1 && TellsSidecars(codec, lines[..|lines| - 1], p)
    requires var l := LineAt(codec, lines, |lines| - 1);
      l.Some? && q.sidecars == if l.value.SidecarLine? then p.sidecars[l.value.kind := l.value.data] else p.sidecars
    ensures TellsSidecars(codec, lines, q)
  {
    var front, last := lines[..|lines| - 1], |lines| - 1;
    FrontLines(codec, lines);
    hide LineAt;
    forall i, kind | 1 <= i < |lines| && IsSidecar(LineAt(codec, lines, i), kind)
      ensures kind in q.sidecars
      ensures (forall j :: i < j < |lines| ==> !IsSidecar(LineAt(codec, lines, j), kind)) ==> q.sidecars[kind] == LineAt(codec, lines, i).value.data
    {
      if i < last {
        assert IsSidecar(LineAt(codec, front, i), kind);
        if forall j :: i < j < |lines| ==> !IsSidecar(LineAt(codec, lines, j), kind) {
          assert !IsSidecar(LineAt(codec, lines, last), kind);
          assert forall j :: i < j < |front| ==> !IsSidecar(LineAt(codec, front, j), kind);
        }
      }
    }
    forall kind | kind in q.sidecars ensures exists i :: 1 <= i < |lines| && IsSidecar(LineAt(codec, lines, i), kind) {
      if kind in p.sidecars {
        var i :| 1 <= i < |front| && IsSidecar(LineAt(codec, front, i), kind);
        assert IsSidecar(LineAt(codec, lines, i), kind);
      } else {
        assert IsSidecar(LineAt(codec, lines, last), kind);
      }
    }
  }

  /** A transcript is read exactly when it is readable, and reading it yields its header, events, records and sidecars. */
  lemma {:induction false} ReadExactly(codec: LineCodec, k: Key, lines: seq<string>) returns (at: seq<nat>)
    requires lines != []
    ensures var p := ParsedLines(codec, k, lines);
      && (p.Some? && p.value.incarnation.Some? <==> Readable(codec, k, lines))
      && (Readable(codec, k, lines) ==> TellsEvents(codec, k, lines, p.value, at) && TellsSidecars(codec, lines, p.value))
  {
    if |lines| == 1 {
      at := [];
      OneLineRead(codec, k, lines);
    } else {
      hide Readable, TellsEvents, TellsSidecars, GoodLine, IsEvent, Accept;
      var front := lines[..|lines| - 1];
      at := ReadExactly(codec, k, front);
      ReadableFront(codec, k, lines);
      var p := ParsedLines(codec, k, front);
      if Readable(codec, k, front) {
        OneMoreLine(codec, k, lines, p.value, at);
        if Readable(codec, k, lines) {
          var q := Accept(codec, k, p.value, |lines|, lines[|lines| - 1]).value;
          Adds(codec, k, p.value, |lines|, lines[|lines| - 1]);
          HeaderOf(codec, k, front, p.value, at);
          at := MoreEvents(codec, k, lines, p.value, q, at);
          MoreSidecars(codec, lines, p.value, q);
        }
      } else if p.Some? {
        HeaderlessStays(codec, k, p.value, |lines|, lines[|lines| - 1]);
      }
    }
  }

  lemma {:induction false} HeaderlessStays(codec: LineCodec, k: Key, p: Parsed, n: nat, raw: string)
    requires p.incarnation.None? && n > 1
    ensures Accept(codec, k, p, n, raw).Some? ==> Accept(codec, k, p, n, raw).value.incarnation.None?
  {}

  lemma {:induction false} HeaderOf(codec: LineCodec, k: Key, lines: seq<string>, p: Parsed, at: seq<nat>)
    requires Readable(codec, k, lines) && TellsEvents(codec, k, lines, p, at)
    ensures LineAt(codec, lines, 0).Some? && LineAt(codec, lines, 0).value.HeaderLine?
    ensures p.incarnation == Some(LineAt(codec, lines, 0).value.order)
  {}

  /** The same for a transcript file, whose last line counts only with its line break. */
  lemma {:induction false} TranscriptReadExactly(codec: LineCodec, k: Key, data: string) returns (at: seq<nat>)
    ensures var p, lines := Transcript(codec, k, data), CompleteLines(data);
      && (p.Some? <==> Readable(codec, k, lines))
      && (p.Some? ==> TellsEvents(codec, k, lines, p.value, at) && TellsSidecars(codec, lines, p.value))
  {
    hide CompleteLines, TellsEvents, TellsSidecars;
    var lines := CompleteLines(data);
    at := [];
    if lines != [] { at := ReadExactly(codec, k, lines); }
  }

  // Journals.

  ghost predicate ReadableJournal(codec: Codec, lines: seq<string>) {
    && (forall i :: 0 <= i < |lines| && lines[i] != "" ==> codec.decode(lines[i]).Some?)
    && (forall i, j :: 0 <= i < j < |lines| && lines[i] != "" && lines[j] != "" ==>
          var d, e := codec.decode(lines[i]).value, codec.decode(lines[j]).value;
          d.id != e.id && d.order != e.order)
  }

  predicate IsEntry(codec: Codec, line: string, e: Entry) { line != "" && codec.decode(line) == Some(e) }

  /** The entries are those of the lines that are not empty, which stand at `at`. */
  ghost predicate TellsEntries(codec: Codec, lines: seq<string>, es: seq<Entry>, at: seq<nat>) {
    && |es| == |at| && Increasing(at)
    && (forall n :: 0 <= n < |at| ==> at[n] < |lines| && IsEntry(codec, lines[at[n]], es[n]))
    && (forall i: nat :: i < |lines| && lines[i] != "" ==> i in at)
  }

  lemma {:induction false} ClaimedBy(codec: Codec, lines: seq<string>, es: seq<Entry>, at: seq<nat>, e: Entry)
    requires ReadableJournal(codec, lines) && TellsEntries(codec, lines, es, at)
    ensures Claimed(e, es) <==>
      exists i :: 0 <= i < |lines| && lines[i] != "" && (codec.decode(lines[i]).value.id == e.id || codec.decode(lines[i]).value.order == e.order)
  {
    if i :| 0 <= i < |lines| && lines[i] != "" && (codec.decode(lines[i]).value.id == e.id || codec.decode(lines[i]).value.order == e.order) {
      var n :| 0 <= n < |at| && at[n] == i;
      assert es[n] in es && Claims(es[n], e);
    }
    if Claimed(e, es) {
      var x :| x in es && Claims(x, e);
      var n :| 0 <= n < |es| && es[n] == x;
      assert lines[at[n]] != "";
    }
  }

  /** A journal is read exactly when all its lines decode and no two share an ID or an order; its entries are those of its lines. */
  lemma {:induction false} JournalReadExactly(codec: Codec, lines: seq<string>) returns (at: seq<nat>)
    ensures var r := Decoded(codec, lines);
      (r.Some? <==> ReadableJournal(codec, lines)) && (r.Some? ==> TellsEntries(codec, lines, r.value, at))
  {
    at := [];
    if lines != [] {
      hide TellsEntries, Claimed;
      var front, last := lines[..|lines| - 1], lines[|lines| - 1];
      at := JournalReadExactly(codec, front);
      ReadableJournalFront(codec, lines);
      if Decoded(codec, front).Some? {
        var es := Decoded(codec, front).value;
        if last != "" && codec.decode(last).Some? { ClaimedBy(codec, front, es, at, codec.decode(last).value); }
        hide ReadableJournal;
        if Decoded(codec, lines).Some? { at := MoreEntries(codec, lines, es, at); }
      }
    } else {
      assert TellsEntries(codec, lines, [], []);
    }
  }

  lemma {:induction false} MoreEntries(codec: Codec, lines: seq<string>, es: seq<Entry>, at: seq<nat>) returns (more: seq<nat>)
    requires lines != [] && TellsEntries(codec, lines[..|lines| - 1], es, at)
    requires DecodedNext(codec, es, lines[|lines| - 1]).Some?
    ensures TellsEntries(codec, lines, DecodedNext(codec, es, lines[|lines| - 1]).value, more)
  {
    hide Claimed;
    var front, i := lines[..|lines| - 1], |lines| - 1;
    if lines[i] == "" {
      more := at;
      hide IsEntry;
      forall j: nat | j < |lines| && lines[j] != "" ensures j in more { assert front[j] != ""; }
    } else {
      more := at + [i];
      var all := DecodedNext(codec, es, lines[i]).value;
      assert IsEntry(codec, lines[i], all[|at|]) && all == es + [all[|at|]];
      hide IsEntry, DecodedNext;
      forall j: nat | j < |lines| && lines[j] != "" ensures j in more {
        if j < i { assert front[j] != "" && j in at; }
      }
    }
  }

  lemma {:induction false} ReadableJournalFront(codec: Codec, lines: seq<string>)
    requires lines != []
    ensures ReadableJournal(codec, lines) <==>
      var front, last := lines[..|lines| - 1], lines[|lines| - 1];
      && ReadableJournal(codec, front)
      && (last != "" ==> codec.decode(last).Some? && forall i :: 0 <= i < |front| && front[i] != "" ==>
            codec.decode(front[i]).value.id != codec.decode(last).value.id && codec.decode(front[i]).value.order != codec.decode(last).value.order)
  {}
}
