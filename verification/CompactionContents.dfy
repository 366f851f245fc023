/**
 Request contents as the compaction policy sees them: contents made of parts, where a part may hold a
 function call, a function response, a server-tool call and a server-tool response at once.
 Canonical JSON is opaque: an `Encoder` says how long the encodings are, nothing else.
 */
module CompactionContents {
  import opened Sequences
  import opened Wrappers

  const BYTES_PER_TOKEN := 4
  const CONTENT_OVERHEAD_TOKENS := 4
  const PART_OVERHEAD_TOKENS := 1
  const FUNCTION_OVERHEAD_TOKENS := 8
  const BINARY_OVERHEAD_TOKENS := 16
  const TOOL_DECLARATION_OVERHEAD_TOKENS := 12

  /** A response body: its canonical JSON text and how many inline binaries it carries. */
  datatype Body = Body(json: string, binaries: nat)

  /** The stable replacement of an elided body. */
  const ELIDED := Body("{\"output\":\"[elided]\"}", 0)

  /** The erased body inside a turn key. */
  const NO_BODY := Body("", 0)

  datatype Call = Call(id: string, name: string, args: string)
  datatype Response = Response(id: string, name: string, body: Body)

  datatype Part = Part(
    call: Option<Call>,
    response: Option<Response>,
    toolCall: Option<Call>,
    toolResponse: Option<Response>,
    payload: string,
    binary: bool)

  datatype Content = Content(role: string, parts: seq<Option<Part>>)

  /** A content or a part may be absent (a nil pointer in the request). */
  type Contents = seq<Option<Content>>

  // ---------------------------------------------------------------------------------------------
  // Erasing response bodies: two histories with the same shape differ in response bodies only.
  // ---------------------------------------------------------------------------------------------

  function StripResponse(r: Option<Response>): Option<Response> {
    match r
    case None => None
    case Some(v) => Some(v.(body := NO_BODY))
  }

  function StripPart(p: Option<Part>): Option<Part> {
    match p
    case None => None
    case Some(v) => Some(v.(response := StripResponse(v.response), toolResponse := StripResponse(v.toolResponse)))
  }

  function StripContent(c: Option<Content>): Option<Content> {
    match c
    case None => None
    case Some(v) => Some(v.(parts := seq(|v.parts|, i requires 0 <= i < |v.parts| => StripPart(v.parts[i]))))
  }

  function Strip(cs: Contents): Contents {
    seq(|cs|, i requires 0 <= i < |cs| => StripContent(cs[i]))
  }

  ghost predicate SameShape(cs: Contents, ds: Contents) {
    Strip(cs) == Strip(ds)
  }

  lemma {:induction false} StripSlices(cs: Contents, s: nat, e: nat)
    requires s <= e <= |cs|
    ensures Strip(cs[s..e]) == Strip(cs)[s..e]
  {}

  lemma {:induction false} StripAppend(cs: Contents, ds: Contents)
    ensures Strip(cs + ds) == Strip(cs) + Strip(ds)
  {}

  // ---------------------------------------------------------------------------------------------
  // Pairing marks: one per call or response, in the order in which pairing visits them.
  // ---------------------------------------------------------------------------------------------

  datatype Side = CallSide | ResponseSide
  datatype Mark = Mark(id: string, name: string, side: Side)

  function CallMark(c: Option<Call>, kind: string): seq<Mark> {
    if c.None? then [] else [Mark(c.value.id, kind + c.value.name, CallSide)]
  }

  function ResponseMark(r: Option<Response>, kind: string): seq<Mark> {
    if r.None? then [] else [Mark(r.value.id, kind + r.value.name, ResponseSide)]
  }

  function PartMarks(p: Option<Part>): seq<Mark> {
    match p
    case None => []
    case Some(v) =>
      CallMark(v.call, "function:") + ResponseMark(v.response, "function:")
      + CallMark(v.toolCall, "tool:") + ResponseMark(v.toolResponse, "tool:")
  }

  function PartsMarks(ps: seq<Option<Part>>): seq<Mark> {
    if ps == [] then [] else PartsMarks(ps[..|ps| - 1]) + PartMarks(ps[|ps| - 1])
  }

  function ContentMarks(c: Option<Content>): seq<Mark> {
    if c.None? then [] else PartsMarks(c.value.parts)
  }

  function Marks(cs: Contents): seq<Mark> {
    if cs == [] then [] else Marks(cs[..|cs| - 1]) + ContentMarks(cs[|cs| - 1])
  }

  lemma {:induction false} PartsMarksNothing()
    ensures PartsMarks([]) == []
  {}

  lemma {:induction false} PartsMarksSnoc(ps: seq<Option<Part>>, p: Option<Part>)
    ensures PartsMarks(ps + [p]) == PartsMarks(ps) + PartMarks(p)
  {
    assert (ps + [p])[..|ps|] == ps;
  }

  lemma {:induction false} MarksSnoc(cs: Contents, c: Option<Content>)
    ensures Marks(cs + [c]) == Marks(cs) + ContentMarks(c)
  {
    assert (cs + [c])[..|cs|] == cs;
  }

  lemma {:induction false} MarksAppend(cs: Contents, ds: Contents)
    ensures Marks(cs + ds) == Marks(cs) + Marks(ds)
  {
    if ds == [] {
      assert cs + ds == cs;
    } else {
      hide ContentMarks;
      var front, last := ds[..|ds| - 1], ds[|ds| - 1];
      SplitLast(ds);
      Assoc(cs, front, [last]);
      MarksSnoc(cs + front, last);
      MarksSnoc(front, last);
      MarksAppend(cs, front);
      hide Marks;
      Assoc(Marks(cs), Marks(front), ContentMarks(last));
    }
  }

  lemma {:induction false} PartsMarksStrip(ps: seq<Option<Part>>, qs: seq<Option<Part>>)
    requires |ps| == |qs|
    requires forall i :: 0 <= i < |ps| ==> StripPart(ps[i]) == StripPart(qs[i])
    ensures PartsMarks(ps) == PartsMarks(qs)
  {
    if ps != [] {
      var k := |ps| - 1;
      PartsMarksStrip(ps[..k], qs[..k]);
      assert StripPart(ps[k]) == StripPart(qs[k]);
      assert PartMarks(ps[k]) == PartMarks(qs[k]);
    }
  }

  lemma {:induction false} SameShapeContent(c: Option<Content>, d: Option<Content>)
    requires StripContent(c) == StripContent(d)
    ensures ContentMarks(c) == ContentMarks(d)
    ensures c.Some? == d.Some?
    ensures c.Some? ==> c.value.role == d.value.role && |c.value.parts| == |d.value.parts|
    ensures c.Some? ==> forall i :: 0 <= i < |c.value.parts| ==> StripPart(c.value.parts[i]) == StripPart(d.value.parts[i])
  {
    if c.Some? {
      var ps, qs := c.value.parts, d.value.parts;
      assert |StripContent(c).value.parts| == |StripContent(d).value.parts|;
      forall i | 0 <= i < |ps| ensures StripPart(ps[i]) == StripPart(qs[i]) {
        assert StripContent(c).value.parts[i] == StripContent(d).value.parts[i];
      }
      PartsMarksStrip(ps, qs);
    }
  }

  /** Marks, and so the whole pairing, depend on the shape only. */
  lemma {:induction false} SameShapeMarks(cs: Contents, ds: Contents)
    requires SameShape(cs, ds)
    ensures Marks(cs) == Marks(ds)
  {
    assert |Strip(cs)| == |Strip(ds)|;
    if cs != [] {
      var k := |cs| - 1;
      assert Strip(cs)[k] == Strip(ds)[k];
      SameShapeContent(cs[k], ds[k]);
      assert Strip(cs[..k]) == Strip(cs)[..k];
      assert Strip(ds[..k]) == Strip(ds)[..k];
      SameShapeMarks(cs[..k], ds[..k]);
    }
  }
}
