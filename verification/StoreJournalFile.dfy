/** A journal file as text: one line per entry, a torn last line is cut off on load, a repair appends line by line. */
module StoreJournalFile {
  import opened Numbers
  import opened Sequences
  import opened Wrappers
  import opened StoreJournal

  function Text(lines: seq<string>): string {
    if lines == [] then "" else lines[0] + "\n" + Text(lines[1..])
  }

  predicate OneLine(s: string) { '\n' !in s }

  function FirstBreak(data: string): (i: nat)
    ensures i <= |data| && OneLine(data[..i]) && (i < |data| ==> data[i] == '\n')
  {
    if data == "" || data[0] == '\n' then 0 else 1 + FirstBreak(data[1..])
  }

  /** The lines of a file that end in a line break. */
  function CompleteLines(data: string): seq<string> {
    var i := FirstBreak(data);
    if i == |data| then [] else [data[..i]] + CompleteLines(data[i + 1..])
  }

  /** What loading leaves of a file: everything up to its last line break. */
  function Kept(data: string): string { Text(CompleteLines(data)) }

  lemma {:induction false} TextConcat(a: seq<string>, b: seq<string>)
    ensures Text(a + b) == Text(a) + Text(b)
  {
    if a == [] {
      assert a + b == b;
    } else {
      assert (a + b)[0] == a[0] && (a + b)[1..] == a[1..] + b;
      TextConcat(a[1..], b);
      Assoc(a[0] + "\n", Text(a[1..]), Text(b));
    }
  }

  lemma {:induction false} FirstBreakOf(line: string, rest: string)
    requires OneLine(line)
    ensures FirstBreak(line + "\n" + rest) == |line|
    ensures FirstBreak(line) == |line|
  {
    if line == "" {
      assert line + "\n" + rest == "\n" + rest;
    } else {
      FirstBreakOf(line[1..], rest);
      assert (line + "\n" + rest)[1..] == line[1..] + "\n" + rest;
    }
  }

  /** Reading back lines that were written, with or without a torn line after them. */
  lemma {:induction false} LinesOfText(lines: seq<string>, torn: string)
    requires OneLine(torn) && forall l :: l in lines ==> OneLine(l)
    ensures CompleteLines(Text(lines) + torn) == lines
  {
    if lines == [] {
      FirstBreakOf(torn, "");
      assert Text(lines) + torn == torn;
    } else {
      var rest := Text(lines[1..]) + torn;
      Assoc(lines[0] + "\n", Text(lines[1..]), torn);
      FirstBreakOf(lines[0], rest);
      LinesOfText(lines[1..], torn);
      var data := lines[0] + "\n" + rest;
      assert data[..|lines[0]|] == lines[0] && data[|lines[0]| + 1..] == rest;
      assert lines == [lines[0]] + lines[1..];
    }
  }

  lemma {:induction false} LinesAreLines(data: string)
    ensures forall l :: l in CompleteLines(data) ==> OneLine(l)
  {
    var i := FirstBreak(data);
    if i < |data| { LinesAreLines(data[i + 1..]); }
  }

  lemma {:induction false} KeptStep(data: string)
    ensures var i := FirstBreak(data);
      Kept(data) == if i == |data| then "" else data[..i] + "\n" + Kept(data[i + 1..])
  {
    var i := FirstBreak(data);
    if i < |data| { assert CompleteLines(data)[1..] == CompleteLines(data[i + 1..]); }
  }

  lemma {:induction false} CutAt(data: string, i: nat)
    requires i < |data|
    ensures data == data[..i] + [data[i]] + data[i + 1..]
  {}

  /** A file is its complete lines followed by at most one torn line. */
  lemma {:induction false} KeptAndTorn(data: string) returns (torn: string)
    ensures data == Kept(data) + torn && OneLine(torn)
    ensures Kept(data) != "" ==> Kept(data)[|Kept(data)| - 1] == '\n'
  {
    hide Kept, FirstBreak;
    var i := FirstBreak(data);
    KeptStep(data);
    if i == |data| {
      torn := data;
      assert data[..i] == data && "" + data == data;
    } else {
      CutAt(data, i);
      var first, rest := data[..i] + "\n", data[i + 1..];
      torn := KeptAndTorn(rest);
      Assoc(first, Kept(rest), torn);
    }
  }

  /** Cutting written lines off after any number of bytes leaves some whole lines and a torn one. */
  lemma {:induction false} TextPrefix(lines: seq<string>, bytes: nat) returns (k: nat, torn: string)
    requires bytes <= |Text(lines)| && forall l :: l in lines ==> OneLine(l)
    ensures k <= |lines| && OneLine(torn) && Text(lines)[..bytes] == Text(lines[..k]) + torn
  {
    if lines == [] {
      k, torn := 0, "";
    } else {
      var first := lines[0] + "\n";
      if bytes < |first| {
        k, torn := 0, lines[0][..bytes];
        assert lines[0] in lines && forall c :: c in torn ==> c in lines[0];
        assert Text(lines)[..bytes] == torn && Text(lines[..0]) == "";
      } else {
        k, torn := TextPrefix(lines[1..], bytes - |first|);
        k := k + 1;
        assert lines[..k][0] == lines[0] && lines[..k][1..] == lines[1..][..k - 1];
        Assoc(first, Text(lines[1..][..k - 1]), torn);
        assert Text(lines)[..bytes] == first + Text(lines[1..])[..bytes - |first|];
      }
    }
  }

  /** JSON is opaque: an encoder and decoder for entries. */
  datatype Codec = Codec(encode: Entry -> string, decode: string -> Option<Entry>)

  ghost predicate Inverse(codec: Codec) {
    forall e :: codec.encode(e) != "" && OneLine(codec.encode(e)) && codec.decode(codec.encode(e)) == Some(e)
  }

  function Encoded(codec: Codec, es: seq<Entry>): seq<string> {
    seq(|es|, i requires 0 <= i < |es| => codec.encode(es[i]))
  }

  predicate Claimed(e: Entry, es: seq<Entry>) { exists x :: x in es && Claims(x, e) }

  /** The entries of a journal's lines. Empty lines are skipped; an unreadable line, a repeated ID or a repeated order is corruption. */
  function Decoded(codec: Codec, lines: seq<string>): Option<seq<Entry>> {
    if lines == [] then Some([])
    else
      match Decoded(codec, lines[..|lines| - 1])
      case None => None
      case Some(es) => DecodedNext(codec, es, lines[|lines| - 1])
  }

  function DecodedNext(codec: Codec, es: seq<Entry>, line: string): Option<seq<Entry>> {
    if line == "" then Some(es)
    else
      match codec.decode(line)
      case None => None
      case Some(e) => if Claimed(e, es) then None else Some(es + [e])
  }

  lemma {:induction false} DecodedDistinct(codec: Codec, lines: seq<string>)
    requires Decoded(codec, lines).Some?
    ensures Distinct(Decoded(codec, lines).value)
  {
    if lines != [] {
      DecodedDistinct(codec, lines[..|lines| - 1]);
      var es := Decoded(codec, lines[..|lines| - 1]).value;
      var r := Decoded(codec, lines).value;
      if r != es { assert !Clashes(r[|es|], es); DistinctSnoc(es, r[|es|]); }
    }
  }

  /** Appending the encoding of new entries appends the entries: a repaired journal never reports a duplicate. */
  lemma {:induction false} DecodedAppend(codec: Codec, lines: seq<string>, es: seq<Entry>)
    requires Inverse(codec) && Decoded(codec, lines).Some?
    requires Distinct(Decoded(codec, lines).value + es)
    ensures Decoded(codec, lines + Encoded(codec, es)) == Some(Decoded(codec, lines).value + es)
    decreases |es|
  {
    var journal := Decoded(codec, lines).value;
    if es == [] {
      assert lines + Encoded(codec, es) == lines && journal + es == journal;
    } else {
      var front, e := es[..|es| - 1], es[|es| - 1];
      SplitLast(es);
      assert Distinct(journal + front) && !Claimed(e, journal + front) by { DistinctInit(journal, front, e); }
      DecodedAppend(codec, lines, front);
      assert Encoded(codec, es) == Encoded(codec, front) + [codec.encode(e)];
      var all := lines + Encoded(codec, es);
      assert all[..|all| - 1] == lines + Encoded(codec, front) && all[|all| - 1] == codec.encode(e);
      Assoc(journal, front, [e]);
    }
  }

  lemma {:induction false} DistinctInit(journal: seq<Entry>, front: seq<Entry>, e: Entry)
    requires Distinct(journal + (front + [e]))
    ensures Distinct(journal + front) && !Claimed(e, journal + front)
  {
    var all := journal + (front + [e]);
    assert all[..|all| - 1] == journal + front && all[|all| - 1] == e;
    forall i, j | 0 <= i < j < |journal + front| ensures !Claims((journal + front)[i], (journal + front)[j]) {
      assert all[i] == (journal + front)[i] && all[j] == (journal + front)[j];
    }
    forall x | x in journal + front ensures !Claims(x, e) {
      var i :| 0 <= i < |journal + front| && (journal + front)[i] == x;
      assert all[i] == x;
    }
  }

  /** The text a repair appends to a loaded file. */
  function Appended(codec: Codec, data: string, wanted: seq<Entry>): string {
    match Decoded(codec, CompleteLines(data))
    case None => ""
    case Some(journal) =>
      match Additions(journal, wanted)
      case None => ""
      case Some(a) => Text(Encoded(codec, a))
  }

  /** A repair that the disk stops after `bytes` appended bytes, or that completes before. */
  function Repaired(codec: Codec, data: string, wanted: seq<Entry>, bytes: nat): string {
    var text := Appended(codec, data, wanted);
    Kept(data) + text[..Min(bytes, |text|)]
  }

  function Finished(codec: Codec, data: string, wanted: seq<Entry>): string {
    Kept(data) + Appended(codec, data, wanted)
  }

  predicate Repairable(codec: Codec, data: string, wanted: seq<Entry>) {
    match Decoded(codec, CompleteLines(data))
    case None => false
    case Some(journal) => Additions(journal, wanted).Some?
  }

  /** The file after a stopped repair: the old lines, the first k additions, and a torn line. */
  lemma {:induction false} StoppedLines(codec: Codec, data: string, wanted: seq<Entry>, bytes: nat) returns (k: nat)
    requires Inverse(codec) && Repairable(codec, data, wanted)
    ensures var journal := Decoded(codec, CompleteLines(data)).value;
      var a := Additions(journal, wanted).value;
      && k <= |a|
      && CompleteLines(Repaired(codec, data, wanted, bytes)) == CompleteLines(data) + Encoded(codec, a[..k])
      && Decoded(codec, CompleteLines(data) + Encoded(codec, a[..k])) == Some(journal + a[..k])
  {
    hide Decoded, Additions, Distinct, CompleteLines, Text;
    var lines := CompleteLines(data);
    var journal := Decoded(codec, lines).value;
    var a := Additions(journal, wanted).value;
    var torn;
    k, torn := TextPrefix(Encoded(codec, a), Min(bytes, |Text(Encoded(codec, a))|));
    assert Encoded(codec, a)[..k] == Encoded(codec, a[..k]);
    DecodedDistinct(codec, lines);
    AdditionsComplete(journal, wanted);
    DistinctTake(journal, a, k);
    DecodedAppend(codec, lines, a[..k]);
    TextConcat(lines, Encoded(codec, a[..k]));
    Assoc(Text(lines), Text(Encoded(codec, a[..k])), torn);
    LinesAreLines(data);
    LinesOfText(lines + Encoded(codec, a[..k]), torn);
  }

  lemma {:induction false} DistinctTake(journal: seq<Entry>, a: seq<Entry>, k: nat)
    requires Distinct(journal + a) && k <= |a|
    ensures Distinct(journal + a[..k])
  {
    forall i, j | 0 <= i < j < |journal + a[..k]| ensures !Claims((journal + a[..k])[i], (journal + a[..k])[j]) {
      assert (journal + a)[i] == (journal + a[..k])[i] && (journal + a)[j] == (journal + a[..k])[j];
    }
  }

  /** Wherever a repair stopped, running it again ends with the very file an uninterrupted repair writes. */
  lemma {:induction false} RepairRestarts(codec: Codec, data: string, wanted: seq<Entry>, bytes: nat)
    requires Inverse(codec) && Repairable(codec, data, wanted)
    ensures var stopped := Repaired(codec, data, wanted, bytes);
      Repairable(codec, stopped, wanted) && Finished(codec, stopped, wanted) == Finished(codec, data, wanted)
  {
    hide Decoded, Additions, CompleteLines, Text, Distinct, Repaired;
    var lines := CompleteLines(data);
    var journal := Decoded(codec, lines).value;
    var a := Additions(journal, wanted).value;
    var k := StoppedLines(codec, data, wanted, bytes);
    DecodedDistinct(codec, lines);
    AdditionsRestart(journal, wanted, k);
    TextConcat(lines, Encoded(codec, a[..k]));
    TextConcat(Encoded(codec, a[..k]), Encoded(codec, a[k..]));
    assert Encoded(codec, a) == Encoded(codec, a[..k]) + Encoded(codec, a[k..]);
    Assoc(Text(lines), Text(Encoded(codec, a[..k])), Text(Encoded(codec, a[k..])));
  }

  /** A whole run: the repair is stopped any number of times, then completes. */
  function StoppedRuns(codec: Codec, data: string, wanted: seq<Entry>, stops: seq<nat>): string
    decreases |stops|
  {
    if stops == [] then data else StoppedRuns(codec, Repaired(codec, data, wanted, stops[0]), wanted, stops[1..])
  }

  lemma {:induction false} RepairRunsConverge(codec: Codec, data: string, wanted: seq<Entry>, stops: seq<nat>)
    requires Inverse(codec) && Repairable(codec, data, wanted)
    ensures var last := StoppedRuns(codec, data, wanted, stops);
      Repairable(codec, last, wanted) && Finished(codec, last, wanted) == Finished(codec, data, wanted)
    decreases |stops|
  {
    if stops != [] {
      RepairRestarts(codec, data, wanted, stops[0]);
      RepairRunsConverge(codec, Repaired(codec, data, wanted, stops[0]), wanted, stops[1..]);
    }
  }

  /** A finished repair reads back as the journal and the scan together, and repairing it again writes nothing. */
  lemma {:induction false} FinishedIsComplete(codec: Codec, data: string, wanted: seq<Entry>)
    requires Inverse(codec) && Repairable(codec, data, wanted)
    ensures var journal := Decoded(codec, CompleteLines(data)).value;
      var end := Finished(codec, data, wanted);
      var back := Decoded(codec, CompleteLines(end));
      && back == Some(journal + Additions(journal, wanted).value)
      && Distinct(back.value) && (forall e :: e in back.value <==> e in journal || e in wanted)
      && Finished(codec, end, wanted) == end
  {
    hide Decoded, Additions, CompleteLines, Distinct;
    var journal := Decoded(codec, CompleteLines(data)).value;
    var a := Additions(journal, wanted).value;
    var text := Text(Encoded(codec, a));
    assert text[..|text|] == text;
    assert Repaired(codec, data, wanted, |text|) == Finished(codec, data, wanted);
    DecodedDistinct(codec, CompleteLines(data));
    AdditionsComplete(journal, wanted);
    RepairRestarts(codec, data, wanted, |text|);
    WholeText(codec, data, a);
  }

  lemma {:induction false} WholeText(codec: Codec, data: string, a: seq<Entry>)
    requires Inverse(codec) && Decoded(codec, CompleteLines(data)).Some?
    requires Distinct(Decoded(codec, CompleteLines(data)).value + a)
    ensures var lines := CompleteLines(Kept(data) + Text(Encoded(codec, a)));
      Decoded(codec, lines) == Some(Decoded(codec, CompleteLines(data)).value + a)
  {
    hide Decoded, CompleteLines, Distinct, Text;
    var lines := CompleteLines(data);
    DecodedAppend(codec, lines, a);
    TextConcat(lines, Encoded(codec, a));
    LinesAreLines(data);
    assert Text(lines + Encoded(codec, a)) + "" == Text(lines) + Text(Encoded(codec, a));
    LinesOfText(lines + Encoded(codec, a), "");
  }

  lemma {:induction false} DecodedFails(codec: Codec, done: seq<string>, rest: seq<string>)
    requires Decoded(codec, done).None?
    ensures Decoded(codec, done + rest).None?
    decreases |rest|
  {
    if rest == [] {
      assert done + rest == done;
    } else {
      SplitLast(rest);
      Assoc(done, rest[..|rest| - 1], [rest[|rest| - 1]]);
      assert (done + rest)[..|done + rest| - 1] == done + rest[..|rest| - 1];
      DecodedFails(codec, done, rest[..|rest| - 1]);
    }
  }

  lemma {:induction false} DecodedSnoc(codec: Codec, done: seq<string>, line: string, es: seq<Entry>)
    requires Decoded(codec, done) == Some(es)
    ensures Decoded(codec, done + [line]) == DecodedNext(codec, es, line)
  {
    assert (done + [line])[..|done|] == done;
  }

  /** One step of the line loop: the next line moves from the unread text to the lines read. */
  lemma {:induction false} LineStep(done: seq<string>, rest: string)
    requires FirstBreak(rest) < |rest|
    ensures var i := FirstBreak(rest);
      done + CompleteLines(rest) == done + [rest[..i]] + CompleteLines(rest[i + 1..])
  {}

  lemma {:induction false} NoBreakAfterKept(data: string)
    ensures Kept(data) <= data && (Kept(data) != "" ==> Kept(data)[|Kept(data)| - 1] == '\n')
    ensures forall k :: |Kept(data)| <= k < |data| ==> data[k] != '\n'
  {
    var torn := KeptAndTorn(data);
    forall k | |Kept(data)| <= k < |data| ensures data[k] != '\n' { assert data[k] == torn[k - |Kept(data)|]; }
  }

  /** A journal on disk. `room` is how many bytes the disk still takes before it fails. */
  class JournalFile {
    var data: string
    const codec: Codec

    constructor (data: string, codec: Codec)
      ensures this.data == data && this.codec == codec
    {
      this.data, this.codec := data, codec;
    }

    method TruncateTorn()
      modifies this`data
      ensures data == Kept(old(data))
    {
      NoBreakAfterKept(data);
      var cut := |data|;
      while cut > 0 && data[cut - 1] != '\n'
        invariant |Kept(old(data))| <= cut <= |data| && data == old(data)
      {
        cut := cut - 1;
      }
      data := data[..cut];
    }

    method DecodeJournal() returns (journal: Option<seq<Entry>>)
      requires data == Kept(data)
      ensures journal == Decoded(codec, CompleteLines(data))
    {
      hide CompleteLines, Kept, Decoded, Claims;
      var rest := data;
      var entries: seq<Entry> := [];
      var seenIds: set<RecordId>, seenOrders: set<Order> := {}, {};
      ghost var done: seq<string> := [];
      NothingDecoded(codec, CompleteLines(data));
      while FirstBreak(rest) < |rest|
        invariant CompleteLines(data) == done + CompleteLines(rest)
        invariant Decoded(codec, done) == Some(entries)
        invariant forall id :: id in seenIds <==> exists e :: e in entries && e.id == id
        invariant forall o :: o in seenOrders <==> exists e :: e in entries && e.order == o
        decreases |rest|
      {
        var line := rest[..FirstBreak(rest)];
        LineStep(done, rest);
        DecodedSnoc(codec, done, line, entries);
        rest := rest[FirstBreak(rest) + 1..];
        done := done + [line];
        if line != "" {
          var decoded := codec.decode(line);
          if decoded.None? || decoded.value.id in seenIds || decoded.value.order in seenOrders {
            if decoded.Some? { SeenIsClaimed(decoded.value, entries); }
            DecodedFails(codec, done, CompleteLines(rest));
            return None;
          }
          SeenIsClaimed(decoded.value, entries);
          entries := entries + [decoded.value];
          seenIds, seenOrders := seenIds + {decoded.value.id}, seenOrders + {decoded.value.order};
        }
      }
      NoLinesLeft(rest, done);
      journal := Some(entries);
    }

    /** `loadJournal`: an unterminated last line is cut off on disk, then every line must decode. */
    method Load() returns (journal: Option<seq<Entry>>)
      modifies this`data
      ensures data == Kept(old(data)) && journal == Decoded(codec, CompleteLines(old(data)))
    {
      NoBreakAfterKept(data);
      KeptLines(data);
      if data != "" && data[|data| - 1] != '\n' {
        TruncateTorn();
      }
      journal := DecodeJournal();
    }

    method AppendEntries(entries: seq<Entry>, room: nat) returns (complete: bool)
      modifies this`data
      ensures var text := Text(Encoded(codec, entries));
        data == old(data) + text[..Min(room, |text|)] && complete == (|text| <= room)
    {
      hide Text;
      var left := room;
      TextConcat(Encoded(codec, []), []);
      assert Text(Encoded(codec, entries[..0])) == "" by { EmptyText(Encoded(codec, entries[..0])); }
      for i := 0 to |entries|
        invariant var text := Text(Encoded(codec, entries[..i]));
          |text| <= room && left == room - |text| && data == old(data) + text
      {
        var line := codec.encode(entries[i]) + "\n";
        EncodedStep(codec, entries, i);
        if |line| > left {
          Assoc(old(data), Text(Encoded(codec, entries[..i])), line[..left]);
          data := data + line[..left];
          return false;
        }
        Assoc(old(data), Text(Encoded(codec, entries[..i])), line);
        data := data + line;
        left := left - |line|;
      }
      assert entries[..|entries|] == entries;
      complete := true;
    }

    /** `repairJournal`: load, find what the scan adds, append it, return the journal by order. */
    method Repair(records: seq<StateRecord>, kind: JournalKind, room: nat) returns (journal: Option<seq<Entry>>)
      modifies this`data
      ensures data == Repaired(codec, old(data), EntriesFor(kind, records), room)
      ensures journal ==
        if Repairable(codec, old(data), EntriesFor(kind, records)) && |Appended(codec, old(data), EntriesFor(kind, records))| <= room then
          var loaded := Decoded(codec, CompleteLines(old(data))).value;
          Some(SortByOrder(loaded + Additions(loaded, EntriesFor(kind, records)).value))
        else None
    {
      hide CompleteLines, Decoded, Additions, EntriesFor, Text, SortByOrder;
      var loaded := Load();
      if loaded.None? { return None; }
      DecodedDistinct(codec, CompleteLines(old(data)));
      var additions := JournalAdditions(loaded.value, records, kind);
      if additions.None? { return None; }
      var complete := AppendEntries(additions.value, room);
      journal := if complete then Some(SortByOrder(loaded.value + additions.value)) else None;
    }
  }

  lemma {:induction false} NothingDecoded(codec: Codec, lines: seq<string>)
    ensures Decoded(codec, []) == Some([]) && [] + lines == lines
  {}

  lemma {:induction false} NoLinesLeft(rest: string, done: seq<string>)
    requires FirstBreak(rest) == |rest|
    ensures done + CompleteLines(rest) == done
  {}

  lemma {:induction false} SeenIsClaimed(e: Entry, es: seq<Entry>)
    ensures Claimed(e, es) <==> (exists x :: x in es && x.id == e.id) || (exists x :: x in es && x.order == e.order)
  {}

  lemma {:induction false} KeptLines(data: string)
    ensures CompleteLines(Kept(data)) == CompleteLines(data) && Kept(Kept(data)) == Kept(data)
  {
    LinesAreLines(data);
    LinesOfText(CompleteLines(data), "");
    assert Kept(data) + "" == Kept(data);
  }

  lemma {:induction false} EmptyText(lines: seq<string>)
    requires lines == []
    ensures Text(lines) == ""
  {}

  lemma {:induction false} EncodedStep(codec: Codec, entries: seq<Entry>, i: nat)
    requires i < |entries|
    ensures var before, line := Text(Encoded(codec, entries[..i])), codec.encode(entries[i]) + "\n";
      var text := Text(Encoded(codec, entries));
      && Text(Encoded(codec, entries[..i + 1])) == before + line
      && before + line <= text
      && forall n :: |before| <= n < |before + line| ==> text[..n] == before + line[..n - |before|]
  {
    var es := Encoded(codec, entries);
    assert es == Encoded(codec, entries[..i + 1]) + es[i + 1..];
    assert Encoded(codec, entries[..i + 1]) == Encoded(codec, entries[..i]) + [codec.encode(entries[i])];
    assert [codec.encode(entries[i])][1..] == [];
    TextConcat(Encoded(codec, entries[..i + 1]), es[i + 1..]);
    TextConcat(Encoded(codec, entries[..i]), [codec.encode(entries[i])]);
  }
}
