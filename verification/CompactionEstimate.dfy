/** The deterministic token estimate of one request. */
module CompactionEstimate {
  import opened Wrappers
  import opened CompactionContents

  /** A request's configuration: the system instruction, and how many functions each configured tool declares. */
  datatype Setup = Setup(system: Option<Content>, tools: seq<Option<nat>>)

  /**
   The encoding-dependent inputs: the length of the whole canonical request for given contents, the length of a
   canonical response body, and the configuration sent with the contents.
   */
  datatype Encoder = Encoder(requestBytes: Contents -> nat, bodyBytes: Body -> nat, setup: Option<Setup>)

  function CeilDiv(value: int, divisor: int): (q: int)
    requires divisor > 0
    ensures value <= 0 ==> q == 0
    ensures value > 0 ==> (q - 1) * divisor < value <= q * divisor
  {
    if value <= 0 then 0 else 1 + (value - 1) / divisor
  }

  function Filled<T>(slot: Option<T>): nat { if slot.Some? then 1 else 0 }

  function Functions(p: Part): nat {
    Filled(p.call) + Filled(p.response) + Filled(p.toolCall) + Filled(p.toolResponse)
  }

  function Binaries(p: Part): nat {
    (if p.response.Some? then p.response.value.body.binaries else 0) + (if p.binary then 1 else 0)
  }

  function PartTokens(p: Option<Part>): nat {
    match p
    case None => 0
    case Some(v) => PART_OVERHEAD_TOKENS + FUNCTION_OVERHEAD_TOKENS * Functions(v) + BINARY_OVERHEAD_TOKENS * Binaries(v)
  }

  function PartsTokens(ps: seq<Option<Part>>): nat {
    if ps == [] then 0 else PartsTokens(ps[..|ps| - 1]) + PartTokens(ps[|ps| - 1])
  }

  function ContentTokens(c: Option<Content>): nat {
    if c.None? then 0 else CONTENT_OVERHEAD_TOKENS + PartsTokens(c.value.parts)
  }

  function Overhead(cs: Contents): nat {
    if cs == [] then 0 else Overhead(cs[..|cs| - 1]) + ContentTokens(cs[|cs| - 1])
  }

  function Declarations(tools: seq<Option<nat>>): nat {
    if tools == [] then 0
    else Declarations(tools[..|tools| - 1]) + if tools[|tools| - 1].Some? then tools[|tools| - 1].value else 0
  }

  /** What the configuration adds. */
  function Frame(setup: Option<Setup>): nat {
    match setup
    case None => 0
    case Some(s) => ContentTokens(s.system) + TOOL_DECLARATION_OVERHEAD_TOKENS * Declarations(s.tools)
  }

  function Tokens(enc: Encoder, cs: Contents): nat {
    CeilDiv(enc.requestBytes(cs), BYTES_PER_TOKEN) + Overhead(cs) + Frame(enc.setup)
  }

  function Weight(contents: nat, parts: nat, functions: nat, binaries: nat, declarations: nat): nat {
    contents * CONTENT_OVERHEAD_TOKENS + parts * PART_OVERHEAD_TOKENS
    + functions * FUNCTION_OVERHEAD_TOKENS + binaries * BINARY_OVERHEAD_TOKENS
    + declarations * TOOL_DECLARATION_OVERHEAD_TOKENS
  }

  lemma {:induction false} WeightOfPart(c: nat, p: nat, f: nat, b: nat, d: nat, part: Part)
    ensures Weight(c, p + 1, f + Functions(part), b + Binaries(part), d) == Weight(c, p, f, b, d) + PartTokens(Some(part))
  {
    hide Functions, Binaries;
  }

  /** The five running counters of an estimate. */
  class Tally {
    var contents: nat
    var parts: nat
    var functions: nat
    var binaries: nat
    var declarations: nat

    function OverheadTokens(): nat reads this { Weight(contents, parts, functions, binaries, declarations) }

    constructor ()
      ensures OverheadTokens() == 0
    {
      contents, parts, functions, binaries, declarations := 0, 0, 0, 0, 0;
    }

    method CountPart(part: Option<Part>)
      modifies this
      ensures OverheadTokens() == old(OverheadTokens()) + PartTokens(part)
    {
      if part.None? { return; }
      hide Weight;
      var p := part.value;
      WeightOfPart(contents, parts, functions, binaries, declarations, p);
      parts := parts + 1;
      if p.call.Some? { functions := functions + 1; }
      if p.response.Some? {
        functions := functions + 1;
        binaries := binaries + p.response.value.body.binaries;
      }
      if p.toolCall.Some? { functions := functions + 1; }
      if p.toolResponse.Some? { functions := functions + 1; }
      if p.binary { binaries := binaries + 1; }
    }

    method CountContent(content: Option<Content>)
      modifies this
      ensures OverheadTokens() == old(OverheadTokens()) + ContentTokens(content)
    {
      if content.None? { return; }
      contents := contents + 1;
      var ps := content.value.parts;
      for k := 0 to |ps|
        invariant OverheadTokens() == old(OverheadTokens()) + CONTENT_OVERHEAD_TOKENS + PartsTokens(ps[..k])
      {
        assert ps[..k + 1][..k] == ps[..k];
        CountPart(ps[k]);
      }
      assert ps[..|ps|] == ps;
    }

    method CountSetup(setup: Setup)
      modifies this
      ensures OverheadTokens() == old(OverheadTokens()) + Frame(Some(setup))
    {
      CountContent(setup.system);
      ghost var before := declarations;
      for k := 0 to |setup.tools|
        invariant declarations == before + Declarations(setup.tools[..k])
        invariant OverheadTokens() == old(OverheadTokens()) + ContentTokens(setup.system) + TOOL_DECLARATION_OVERHEAD_TOKENS * (declarations - before)
      {
        assert setup.tools[..k + 1][..k] == setup.tools[..k];
        if setup.tools[k].None? { continue; }
        declarations := declarations + setup.tools[k].value;
      }
      assert setup.tools[..|setup.tools|] == setup.tools;
    }
  }

  method EstimateRequest(enc: Encoder, cs: Contents) returns (tokens: nat)
    ensures tokens == Tokens(enc, cs)
  {
    var tally := new Tally();
    for k := 0 to |cs|
      invariant tally.OverheadTokens() == Overhead(cs[..k])
    {
      assert cs[..k + 1][..k] == cs[..k];
      tally.CountContent(cs[k]);
    }
    assert cs[..|cs|] == cs;
    if enc.setup.Some? { tally.CountSetup(enc.setup.value); }
    tokens := CeilDiv(enc.requestBytes(cs), BYTES_PER_TOKEN) + tally.OverheadTokens();
  }

  /** Framing tokens of a spliced history: removing contents removes exactly their share. */
  lemma {:induction false} OverheadAppend(cs: Contents, ds: Contents)
    ensures Overhead(cs + ds) == Overhead(cs) + Overhead(ds)
  {
    if ds == [] {
      assert cs + ds == cs;
    } else {
      assert (cs + ds)[..|cs + ds| - 1] == cs + ds[..|ds| - 1];
      OverheadAppend(cs, ds[..|ds| - 1]);
    }
  }

  // What each thing weighs, in numbers.

  lemma {:induction false} OneContent(c: Option<Content>)
    ensures Overhead([c]) == ContentTokens(c)
  {
    assert [c][..0] == [];
  }

  /** A content weighs 4, a missing one nothing. */
  lemma {:induction false} ContentWeighs(role: string)
    ensures Overhead([None]) == 0 && Overhead([Some(Content(role, []))]) == 4
  {
    OneContent(None);
    OneContent(Some(Content(role, [])));
  }

  /** A part weighs 1, each call or response in it 8 more, and each inline binary 16 more; a missing part weighs nothing. */
  lemma {:induction false} PartWeighs(role: string, ps: seq<Option<Part>>, p: Part)
    ensures Overhead([Some(Content(role, ps + [None]))]) == Overhead([Some(Content(role, ps))])
    ensures Overhead([Some(Content(role, ps + [Some(p)]))]) == Overhead([Some(Content(role, ps))]) + 1
      + (if p.call.Some? then 8 else 0) + (if p.toolCall.Some? then 8 else 0)
      + (if p.response.Some? then 8 + 16 * p.response.value.body.binaries else 0) + (if p.toolResponse.Some? then 8 else 0)
      + (if p.binary then 16 else 0)
  {
    OneContent(Some(Content(role, ps)));
    OneContent(Some(Content(role, ps + [None])));
    OneContent(Some(Content(role, ps + [Some(p)])));
    assert (ps + [None])[..|ps|] == ps && (ps + [Some(p)])[..|ps|] == ps;
  }

  /** The system instruction weighs what a content weighs, and every declared function 12. */
  lemma {:induction false} SetupWeighs(system: Option<Content>, tools: seq<Option<nat>>, declared: nat)
    ensures Frame(None) == 0 && Frame(Some(Setup(system, []))) == Overhead([system])
    ensures Frame(Some(Setup(system, tools + [None]))) == Frame(Some(Setup(system, tools)))
    ensures Frame(Some(Setup(system, tools + [Some(declared)]))) == Frame(Some(Setup(system, tools))) + 12 * declared
  {
    OneContent(system);
    assert (tools + [None])[..|tools|] == tools && (tools + [Some(declared)])[..|tools|] == tools;
  }

  /** Four bytes of the encoded request make a token, the last one begun; framing comes on top. */
  lemma {:induction false} TokensWeigh(enc: Encoder, cs: Contents)
    ensures var bytes := Tokens(enc, cs) - Overhead(cs) - Frame(enc.setup);
      4 * (bytes - 1) < enc.requestBytes(cs) <= 4 * bytes
  {}

  function Calibrated(tokens: nat, factor: real): int { -((-(tokens as real * factor)).Floor) }
}
