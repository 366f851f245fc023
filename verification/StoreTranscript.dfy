/** A transcript file: a header line, then event and sidecar lines. An append that is cut off anywhere did not happen. */
module StoreTranscript {
  import opened Numbers
  import opened Sequences
  import opened Wrappers
  import opened StoreState
  import opened StoreJournal
  import opened StoreJournalFile
  import opened StoreProtocol

  /** What a line decodes to. Lines of other versions or types are skipped; `dated` is false without a creation time. */
  datatype Line =
    | HeaderLine(user: string, session: string, order: nat, incarnation: nat, dated: bool, app: State, userDelta: State)
    | EventLine(event: string, order: nat, app: State, userDelta: State)
    | SidecarLine(kind: string, data: string)
    | ForwardLine

  datatype LineCodec = LineCodec(encode: Line -> string, decode: string -> Option<Line>)

  ghost predicate Faithful(codec: LineCodec) {
    forall l :: OneLine(codec.encode(l)) && !Blank(codec.encode(l)) && codec.decode(codec.encode(l)) == Some(l)
  }

  predicate Blank(s: string) { forall c :: c in s ==> c == ' ' || c == '\t' || c == '\r' || c == '\n' }

  datatype Parsed = Parsed(incarnation: Option<Order>, events: seq<string>, records: seq<StateRecord>, sidecars: map<string, string>)

  const NOTHING_PARSED := Parsed(None, [], [], map[])

  /** Reading line number `n` of session `k`; nothing when the line is corrupt. */
  function Accept(codec: LineCodec, k: Key, p: Parsed, n: nat, raw: string): Option<Parsed> {
    if Blank(raw) then None
    else
      match codec.decode(raw)
      case None => None
      case Some(line) => AcceptLine(k, p, n, line)
  }

  function AcceptLine(k: Key, p: Parsed, n: nat, line: Line): Option<Parsed> {
    if line.ForwardLine? then Some(p)
    else if n == 1 then AcceptHeader(k, p, line)
    else AcceptBody(k, p, line)
  }

  function AcceptHeader(k: Key, p: Parsed, line: Line): Option<Parsed> {
    if line.HeaderLine? && line.user == k.user && line.session == k.session && line.order > 0 && line.incarnation == line.order && line.dated then
      Some(p.(incarnation := Some(line.order), records := p.records + [CreateRecord(k, line.order, line.app, line.userDelta)]))
    else None
  }

  function AcceptBody(k: Key, p: Parsed, line: Line): Option<Parsed> {
    match line
    case SidecarLine(kind, data) => if kind == "" || Blank(data) then None else Some(p.(sidecars := p.sidecars[kind := data]))
    case EventLine(event, order, app, userDelta) =>
      if event == "" || order == 0 || event in p.events then None
      else if p.incarnation.None? then Some(p.(events := p.events + [event]))
      else Some(p.(events := p.events + [event], records := p.records + [EventRecord(k, p.incarnation.value, event, order, app, userDelta)]))
    case _ => None
  }

  function ParsedLines(codec: LineCodec, k: Key, lines: seq<string>): Option<Parsed> {
    if lines == [] then Some(NOTHING_PARSED)
    else
      match ParsedLines(codec, k, lines[..|lines| - 1])
      case None => None
      case Some(p) => Accept(codec, k, p, |lines|, lines[|lines| - 1])
  }

  /** A transcript without a header is corrupt. */
  function Transcript(codec: LineCodec, k: Key, data: string): Option<Parsed> {
    match ParsedLines(codec, k, CompleteLines(data))
    case None => None
    case Some(p) => if p.incarnation.None? then None else Some(p)
  }

  /** `sessionLogParser`: the line loop over an already truncated file. */
  class SessionLogParser {
    const key: Key
    const codec: LineCodec
    var log: Parsed
    var seenEvents: set<string>

    ghost predicate Valid()
      reads this
    {
      forall id :: id in seenEvents <==> id in log.events
    }

    constructor (key: Key, codec: LineCodec)
      ensures Valid() && log == NOTHING_PARSED && this.key == key && this.codec == codec
    {
      this.key, this.codec, log, seenEvents := key, codec, NOTHING_PARSED, {};
    }

    method ParseLine(raw: string, n: nat) returns (ok: bool)
      requires Valid()
      modifies this
      ensures Valid()
      ensures ok == Accept(codec, key, old(log), n, raw).Some?
      ensures ok ==> log == Accept(codec, key, old(log), n, raw).value
    {
      if Blank(raw) { return false; }
      var decoded := codec.decode(raw);
      if decoded.None? { return false; }
      var line := decoded.value;
      if line.ForwardLine? { return true; }
      if n == 1 {
        if !line.HeaderLine? || line.user != key.user || line.session != key.session { return false; }
        if line.order == 0 || line.incarnation != line.order || !line.dated { return false; }
        log := log.(incarnation := Some(line.order), records := log.records + [CreateRecord(key, line.order, line.app, line.userDelta)]);
        return true;
      }
      match line {
        case SidecarLine(kind, data) =>
          if kind == "" || Blank(data) { return false; }
          log := log.(sidecars := log.sidecars[kind := data]);
        case EventLine(event, order, app, userDelta) =>
          if event == "" || order == 0 || event in seenEvents { return false; }
          seenEvents := seenEvents + {event};
          var records := if log.incarnation.None? then log.records
            else log.records + [EventRecord(key, log.incarnation.value, event, order, app, userDelta)];
          log := log.(events := log.events + [event], records := records);
        case _ => return false;
      }
      ok := true;
    }

    method Parse(data: string) returns (parsed: Option<Parsed>)
      requires Valid() && log == NOTHING_PARSED && data == Kept(data)
      modifies this
      ensures parsed == Transcript(codec, key, data)
    {
      hide CompleteLines, Kept, Accept, ParsedLines;
      var rest, line := data, 0;
      ghost var done: seq<string> := [];
      NoLinesParsed(codec, key, CompleteLines(data));
      while FirstBreak(rest) < |rest|
        invariant Valid() && line == |done|
        invariant CompleteLines(data) == done + CompleteLines(rest)
        invariant ParsedLines(codec, key, done) == Some(log)
        decreases |rest|
      {
        line := line + 1;
        var end := FirstBreak(rest);
        var raw := rest[..end];
        LineStep(done, rest);
        ParsedSnoc(codec, key, done, raw, log);
        rest := rest[end + 1..];
        done := done + [raw];
        var ok := ParseLine(raw, line);
        if !ok {
          ParsedFails(codec, key, done, CompleteLines(rest));
          return None;
        }
      }
      NoLinesLeft(rest, done);
      parsed := if log.incarnation.None? then None else Some(log);
    }
  }

  lemma {:induction false} NoLinesParsed(codec: LineCodec, k: Key, lines: seq<string>)
    ensures ParsedLines(codec, k, []) == Some(NOTHING_PARSED) && [] + lines == lines
  {}

  lemma {:induction false} ParsedSnoc(codec: LineCodec, k: Key, done: seq<string>, raw: string, p: Parsed)
    requires ParsedLines(codec, k, done) == Some(p)
    ensures ParsedLines(codec, k, done + [raw]) == Accept(codec, k, p, |done| + 1, raw)
  {
    assert (done + [raw])[..|done|] == done;
  }

  lemma {:induction false} ParsedFails(codec: LineCodec, k: Key, done: seq<string>, rest: seq<string>)
    requires ParsedLines(codec, k, done).None?
    ensures ParsedLines(codec, k, done + rest).None?
    decreases |rest|
  {
    if rest == [] {
      assert done + rest == done;
    } else {
      SplitLast(rest);
      Assoc(done, rest[..|rest| - 1], [rest[|rest| - 1]]);
      assert (done + rest)[..|done + rest| - 1] == done + rest[..|rest| - 1];
      ParsedFails(codec, k, done, rest[..|rest| - 1]);
    }
  }

  // Appends.

  function EventText(codec: LineCodec, e: Line): string { codec.encode(e) + "\n" }

  predicate Storable(p: Parsed, e: Line) { e.EventLine? && e.event != "" && e.order > 0 && e.event !in p.events }

  function WithEvent(k: Key, p: Parsed, e: Line): Parsed
    requires e.EventLine? && e.order > 0 && p.incarnation.Some?
  {
    p.(events := p.events + [e.event], records := p.records + [EventRecord(k, p.incarnation.value, e.event, e.order, e.app, e.userDelta)])
  }

  lemma {:induction false} HeaderComesFirst(codec: LineCodec, k: Key, lines: seq<string>)
    requires ParsedLines(codec, k, lines).Some? && ParsedLines(codec, k, lines).value.incarnation.Some?
    ensures lines != []
  {}

  /** Cut off at any byte, an append leaves the transcript as it was; only with its line break is it there. */
  lemma {:induction false} AppendIsAtomic(codec: LineCodec, k: Key, data: string, e: Line, cut: nat)
    requires Faithful(codec) && Transcript(codec, k, data).Some? && Storable(Transcript(codec, k, data).value, e)
    requires cut <= |EventText(codec, e)|
    ensures var p := Transcript(codec, k, data).value;
      Transcript(codec, k, Kept(data) + EventText(codec, e)[..cut]) ==
        Some(if cut == |EventText(codec, e)| then WithEvent(k, p, e) else p)
  {
    hide CompleteLines, Text, ParsedLines, Blank;
    var lines, text := CompleteLines(data), EventText(codec, e);
    var p := Transcript(codec, k, data).value;
    LinesAreLines(data);
    if cut == |text| {
      assert text[..cut] == text;
      OneLineText(codec.encode(e));
      TextConcat(lines, [codec.encode(e)]);
      var all := lines + [codec.encode(e)];
      assert Text(all) + "" == Kept(data) + text;
      LinesOfText(all, "");
      HeaderComesFirst(codec, k, lines);
      ParsedSnoc(codec, k, lines, codec.encode(e), p);
    } else {
      assert text[..cut] == codec.encode(e)[..cut];
      LinesOfText(lines, text[..cut]);
    }
  }

  lemma {:induction false} OneLineText(line: string)
    ensures Text([line]) == line + "\n"
  {
    assert [line][1..] == [] && Text([]) == "";
  }

  /** One attempt: load, and append unless the event is already there. The disk takes `cut` bytes. */
  function Attempt(codec: LineCodec, k: Key, data: string, e: Line, cut: nat): string {
    match Transcript(codec, k, data)
    case None => Kept(data)
    case Some(p) => if Storable(p, e) then Kept(data) + EventText(codec, e)[..Min(cut, |EventText(codec, e)|)] else Kept(data)
  }

  function Attempts(codec: LineCodec, k: Key, data: string, tries: seq<(Line, nat)>): string {
    if tries == [] then data
    else Attempt(codec, k, Attempts(codec, k, data, tries[..|tries| - 1]), tries[|tries| - 1].0, tries[|tries| - 1].1)
  }

  /** Its meaning: an attempt counts when the event is new and its whole line reached the disk. */
  function Meant(codec: LineCodec, k: Key, p: Parsed, tries: seq<(Line, nat)>): Parsed {
    if tries == [] then p
    else
      var before := Meant(codec, k, p, tries[..|tries| - 1]);
      var (e, cut) := tries[|tries| - 1];
      if Storable(before, e) && before.incarnation.Some? && cut >= |EventText(codec, e)| then WithEvent(k, before, e) else before
  }

  predicate Unique(ids: seq<string>) { forall i, j :: 0 <= i < j < |ids| ==> ids[i] != ids[j] }

  /** However often appends are tried and cut off, the transcript stays readable, and holds each event once. */
  lemma {:induction false} AttemptsMeanThat(codec: LineCodec, k: Key, data: string, tries: seq<(Line, nat)>)
    requires Faithful(codec) && Transcript(codec, k, data).Some? && Unique(Transcript(codec, k, data).value.events)
    ensures var end := Transcript(codec, k, Attempts(codec, k, data, tries));
      end == Some(Meant(codec, k, Transcript(codec, k, data).value, tries)) && Unique(end.value.events)
  {
    if tries != [] {
      var front := tries[..|tries| - 1];
      var (e, cut) := tries[|tries| - 1];
      AttemptsMeanThat(codec, k, data, front);
      var before := Attempts(codec, k, data, front);
      hide Meant, Faithful;
      AttemptMeans(codec, k, before, e, cut);
      MeantStep(codec, k, Transcript(codec, k, data).value, tries);
    }
  }

  lemma {:induction false} MeantStep(codec: LineCodec, k: Key, p: Parsed, tries: seq<(Line, nat)>)
    requires tries != []
    ensures var before := Meant(codec, k, p, tries[..|tries| - 1]);
      var (e, cut) := tries[|tries| - 1];
      Meant(codec, k, p, tries) ==
        if Storable(before, e) && before.incarnation.Some? && cut >= |EventText(codec, e)| then WithEvent(k, before, e) else before
  {}

  lemma {:induction false} AttemptMeans(codec: LineCodec, k: Key, data: string, e: Line, cut: nat)
    requires Faithful(codec) && Transcript(codec, k, data).Some? && Unique(Transcript(codec, k, data).value.events)
    ensures var p := Transcript(codec, k, data).value;
      var end := Transcript(codec, k, Attempt(codec, k, data, e, cut));
      && end == Some(if Storable(p, e) && cut >= |EventText(codec, e)| then WithEvent(k, p, e) else p)
      && Unique(end.value.events)
  {
    hide CompleteLines, Text, ParsedLines, Faithful;
    var p := Transcript(codec, k, data).value;
    KeptLines(data);
    if Storable(p, e) {
      AppendIsAtomic(codec, k, data, e, Min(cut, |EventText(codec, e)|));
    }
  }
}
