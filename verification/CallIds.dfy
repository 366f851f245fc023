/**
 * Function-call IDs: repairing missing and repeated IDs of one response, and matching the tool messages of a chat
 * history to its calls.
 */
module CallIds {
  import opened Wrappers

  // Repair.

  ghost predicate Injective(candidate: nat -> string) {
    forall m: nat, n: nat :: candidate(m) == candidate(n) ==> m == n
  }

  predicate FirstUse(ids: seq<string>, i: nat)
    requires i < |ids|
  {
    ids[i] != "" && ids[i] !in ids[..i]
  }

  predicate Distinct(ids: seq<string>) {
    forall i, j :: 0 <= i < j < |ids| ==> ids[i] != ids[j]
  }

  /** A repair of `ids`: distinct and non-empty, with the first occurrence of every supplied ID kept. */
  predicate IsRepair(ids: seq<string>, result: seq<string>) {
    && |result| == |ids| && Distinct(result) && "" !in result
    && forall i :: 0 <= i < |ids| && FirstUse(ids, i) ==> result[i] == ids[i]
  }

  function Supplied(ids: seq<string>): set<string> { set id | id in ids && id != "" }

  /** The first candidate from `from` on that is not taken. The taken set is finite, so there is one. */
  method FirstFree(candidate: nat -> string, from: nat, taken: set<string>) returns (n: nat)
    requires Injective(candidate)
    ensures from <= n && candidate(n) !in taken
    ensures forall k :: from <= k < n ==> candidate(k) in taken
  {
    n := from;
    ghost var untried := taken;
    while candidate(n) in taken
      invariant from <= n && untried <= taken
      invariant forall k :: from <= k < n ==> candidate(k) in taken
      invariant forall id :: id in taken && id !in untried ==> exists k :: from <= k < n && candidate(k) == id
      decreases |untried|
    {
      assert candidate(n) in untried;
      untried := untried - {candidate(n)};
      n := n + 1;
    }
  }

  /** The state of a repair loop after `i` calls. */
  ghost predicate Repairing(ids: seq<string>, i: nat, result: seq<string>, used: set<string>) {
    && i <= |ids| && |result| == i
    && (forall id :: id in used <==> id in result)
    && IsRepair(ids[..i], result)
    && (forall id :: id in result && id !in ids[..i] ==> id !in Supplied(ids))
  }

  lemma {:induction false} RepairStep(ids: seq<string>, i: nat, result: seq<string>, used: set<string>, id: string)
    requires Repairing(ids, i, result, used) && i < |ids|
    requires if ids[i] == "" || ids[i] in used then id !in Supplied(ids) && id !in used && id != "" else id == ids[i]
    ensures Repairing(ids, i + 1, result + [id], used + {id})
  {
    hide Supplied;
    assert ids[..i + 1] == ids[..i] + [ids[i]];
    DistinctStep(result, id);
    forall j | 0 <= j < i + 1 && FirstUse(ids[..i + 1], j) ensures (result + [id])[j] == ids[j] {
      KeptStep(ids, i, result, used, id, j);
    }
    hide FirstUse;
  }

  lemma {:induction false} DistinctStep(result: seq<string>, id: string)
    requires Distinct(result) && id !in result
    ensures Distinct(result + [id])
  {}

  lemma {:induction false} KeptStep(ids: seq<string>, i: nat, result: seq<string>, used: set<string>, id: string, j: nat)
    requires Repairing(ids, i, result, used) && i < |ids| && j < i + 1 && FirstUse(ids[..i + 1], j)
    requires if ids[i] == "" || ids[i] in used then id !in Supplied(ids) && id !in used && id != "" else id == ids[i]
    ensures (result + [id])[j] == ids[j]
  {
    if j < i {
      assert ids[..i + 1][..j] == ids[..i][..j];
      assert FirstUse(ids[..i], j);
    } else {
      SuppliedIsUnused(ids, i, result, used);
    }
  }

  lemma {:induction false} SuppliedIsUnused(ids: seq<string>, i: nat, result: seq<string>, used: set<string>)
    requires Repairing(ids, i, result, used) && i < |ids| && FirstUse(ids[..i + 1], i)
    ensures ids[i] !in used
  {
    assert ids[..i + 1][..i] == ids[..i] && ids[i] in Supplied(ids);
  }

  lemma {:induction false} RepairStart(ids: seq<string>)
    ensures Repairing(ids, 0, [], {})
  {}

  lemma {:induction false} RepairDone(ids: seq<string>, result: seq<string>, used: set<string>)
    requires Repairing(ids, |ids|, result, used)
    ensures IsRepair(ids, result)
  {
    assert ids[..|ids|] == ids;
  }

  method SuppliedIds(ids: seq<string>) returns (reserved: set<string>)
    ensures reserved == Supplied(ids)
  {
    reserved := {};
    for i := 0 to |ids|
      invariant reserved == Supplied(ids[..i])
    {
      assert ids[..i + 1] == ids[..i] + [ids[i]];
      if ids[i] != "" { reserved := reserved + {ids[i]}; }
    }
    assert ids[..|ids|] == ids;
  }

  /** `normalizeFunctionCallIDs`: one counter for the whole content. */
  method NormalizeFunctionCallIds(ids: seq<string>, candidate: nat -> string) returns (result: seq<string>)
    requires Injective(candidate) && forall n :: candidate(n) != ""
    ensures IsRepair(ids, result) && |result| == |ids|
    ensures Distinct(ids) && "" !in ids ==> result == ids
    ensures forall i :: 0 <= i < |ids| && !FirstUse(ids, i) ==> exists n: nat :: result[i] == candidate(n)
  {
    hide Repairing, IsRepair, Supplied, FirstUse, Distinct, Injective;
    var reserved := SuppliedIds(ids);
    RepairStart(ids);
    var nextId := 1;
    var used: set<string> := {};
    result := [];
    for i := 0 to |ids|
      invariant 1 <= nextId && |result| == i && Repairing(ids, i, result, used)
      invariant forall j :: 0 <= j < i && !FirstUse(ids, j) ==> exists n: nat :: result[j] == candidate(n)
    {
      var id := ids[i];
      if id == "" || id in used {
        var n := FirstFree(candidate, nextId, reserved + used);
        id := candidate(n);
        nextId := n + 1;
      } else {
        UnusedIsFirst(ids, i, result, used);
      }
      RepairStep(ids, i, result, used, id);
      result := result + [id];
      used := used + {id};
    }
    RepairDone(ids, result, used);
    if Distinct(ids) && "" !in ids { RepairOfDistinct(ids, result); }
  }

  lemma {:induction false} UnusedIsFirst(ids: seq<string>, i: nat, result: seq<string>, used: set<string>)
    requires Repairing(ids, i, result, used) && i < |ids| && ids[i] != "" && ids[i] !in used
    ensures FirstUse(ids, i)
  {
    if ids[i] in ids[..i] {
      var j := FirstIndex(ids[..i], ids[i]);
      assert FirstUse(ids[..i], j);
    }
  }

  lemma {:induction false} FirstIndex(ids: seq<string>, id: string) returns (j: nat)
    requires id in ids
    ensures j < |ids| && ids[j] == id && id !in ids[..j]
  {
    j := 0;
    while ids[j] != id
      invariant j < |ids| && id !in ids[..j]
      invariant id in ids[j..]
      decreases |ids| - j
    {
      assert ids[..j + 1] == ids[..j] + [ids[j]];
      assert ids[j..] == [ids[j]] + ids[j + 1..];
      j := j + 1;
    }
  }

  lemma {:induction false} RepairOfDistinct(ids: seq<string>, result: seq<string>)
    requires IsRepair(ids, result) && Distinct(ids) && "" !in ids
    ensures result == ids
  {
    forall i | 0 <= i < |ids| ensures result[i] == ids[i] {
      assert ids[i] in ids;
      assert FirstUse(ids, i);
    }
  }

  /** `normalizeChatResponseCallIDs`: candidates start at the call's own position. The digest is taken to be injective. */
  method NormalizeChatResponseCallIds(ids: seq<string>, candidate: nat -> string) returns (result: seq<string>)
    requires Injective(candidate) && forall n :: candidate(n) != ""
    ensures IsRepair(ids, result) && |result| == |ids|
    ensures Distinct(ids) && "" !in ids ==> result == ids
    ensures forall i :: 0 <= i < |ids| && !FirstUse(ids, i) ==> exists n: nat :: i <= n && result[i] == candidate(n)
  {
    hide Repairing, IsRepair, Supplied, FirstUse, Distinct, Injective;
    var reserved := SuppliedIds(ids);
    RepairStart(ids);
    var used: set<string> := {};
    result := [];
    for i := 0 to |ids|
      invariant |result| == i && Repairing(ids, i, result, used)
      invariant forall j :: 0 <= j < i && !FirstUse(ids, j) ==> exists n: nat :: j <= n && result[j] == candidate(n)
    {
      var id := ids[i];
      if id == "" || id in used {
        var n := FirstFree(candidate, i, reserved + used);
        id := candidate(n);
      } else {
        UnusedIsFirst(ids, i, result, used);
      }
      RepairStep(ids, i, result, used, id);
      result := result + [id];
      used := used + {id};
    }
    RepairDone(ids, result, used);
    if Distinct(ids) && "" !in ids { RepairOfDistinct(ids, result); }
  }

  // Matching.

  datatype Call = Call(id: string, name: string)

  datatype Message = Called(call: Call) | Answered(id: string, name: string)

  predicate IsCallOf(m: Message, id: string) { m.Called? && m.call.id == id }

  predicate IsAnswerOf(m: Message, id: string) { m.Answered? && m.id == id }

  predicate HasAnswer(history: seq<Message>, id: string) { exists j :: 0 <= j < |history| && IsAnswerOf(history[j], id) }

  predicate HasCall(history: seq<Message>, id: string) { exists i :: 0 <= i < |history| && IsCallOf(history[i], id) }

  /** The calls of a history that have no answer yet, in order. */
  function Open(history: seq<Message>): seq<Call> {
    if history == [] then []
    else
      var before, last := Open(history[..|history| - 1]), history[|history| - 1];
      match last
      case Called(call) => before + [call]
      case Answered(id, _) => Without(before, id)
  }

  function Without(calls: seq<Call>, id: string): seq<Call> {
    if calls == [] then []
    else if calls[0].id == id then calls[1..]
    else [calls[0]] + Without(calls[1..], id)
  }

  /** Calls have distinct IDs; every answer answers one earlier call, with its name; no call is answered twice. */
  predicate WellMatched(history: seq<Message>) {
    && (forall i, j :: 0 <= i < j < |history| && history[i].Called? && history[j].Called? ==> history[i].call.id != history[j].call.id)
    && (forall i, j :: 0 <= i < j < |history| && history[i].Answered? && history[j].Answered? ==> history[i].id != history[j].id)
    && (forall j :: 0 <= j < |history| && history[j].Answered? ==>
          exists i :: 0 <= i < j && history[i] == Called(Call(history[j].id, history[j].name)))
  }

  predicate DistinctCalls(calls: seq<Call>) { forall i, j :: 0 <= i < j < |calls| ==> calls[i].id != calls[j].id }

  lemma {:induction false} WithoutIs(calls: seq<Call>, id: string)
    requires DistinctCalls(calls)
    ensures DistinctCalls(Without(calls, id))
    ensures forall c :: c in Without(calls, id) <==> c in calls && c.id != id
  {
    if calls != [] {
      assert calls == [calls[0]] + calls[1..];
      WithoutIs(calls[1..], id);
    }
  }

  /** The open calls are exactly the calls without an answer. */
  lemma {:induction false} OpenIsUnanswered(history: seq<Message>)
    requires WellMatched(history)
    ensures DistinctCalls(Open(history))
    ensures forall c :: c in Open(history) <==> Called(c) in history && !HasAnswer(history, c.id)
  {
    if history != [] {
      var front, last := history[..|history| - 1], history[|history| - 1];
      assert history == front + [last];
      FrontMatched(history);
      OpenIsUnanswered(front);
      if last.Answered? { WithoutIs(Open(front), last.id); }
      forall c ensures c in Open(history) <==> Called(c) in history && !HasAnswer(history, c.id) {
        AnswersGrow(front, last, c.id);
        if last == Called(c) { NotAnsweredBefore(history, c.id); }
      }
    }
  }

  lemma {:induction false} FrontMatched(history: seq<Message>)
    requires WellMatched(history) && history != []
    ensures WellMatched(history[..|history| - 1])
  {}

  lemma {:induction false} AnswersGrow(front: seq<Message>, last: Message, id: string)
    ensures HasAnswer(front + [last], id) <==> HasAnswer(front, id) || IsAnswerOf(last, id)
  {
    if HasAnswer(front, id) {
      var j :| 0 <= j < |front| && IsAnswerOf(front[j], id);
      assert IsAnswerOf((front + [last])[j], id);
    }
    if IsAnswerOf(last, id) { assert IsAnswerOf((front + [last])[|front|], id); }
  }

  lemma {:induction false} NotAnsweredBefore(history: seq<Message>, id: string)
    requires WellMatched(history) && history != [] && IsCallOf(history[|history| - 1], id)
    ensures !HasAnswer(history, id)
  {
    forall j | 0 <= j < |history| ensures !IsAnswerOf(history[j], id) {
      assert history[j].Answered? ==> exists i :: 0 <= i < j && history[i] == Called(Call(history[j].id, history[j].name));
    }
  }

  predicate NamesOne(calls: seq<Call>, name: string, k: nat) {
    && k < |calls| && calls[k].name == name
    && forall j :: 0 <= j < |calls| && calls[j].name == name ==> j == k
  }

  ghost predicate Answers(calls: seq<Call>, id: string, name: string) {
    if id == "" then exists k :: NamesOne(calls, name, k) else Call(id, name) in calls
  }

  /** `chatCallTracker`. `history` is what has been converted so far. */
  class Tracker {
    var used: set<string>
    var pending: seq<Call>
    var next: nat
    ghost var history: seq<Message>

    ghost predicate Valid()
      reads this
    {
      && WellMatched(history) && pending == Open(history)
      && (forall id :: id in used <==> HasCall(history, id))
    }

    constructor ()
      ensures Valid() && history == []
    {
      used, pending, next, history := {}, [], 0, [];
    }

    /** `wellFormed` is false for a blank name or unsupported parts. A call without an ID gets one made from its position. */
    method ConvertCall(id: string, name: string, wellFormed: bool, synthesized: nat -> string) returns (r: Option<string>)
      requires Valid()
      modifies this
      ensures Valid()
      ensures var made := if id == "" then synthesized(old(next)) else id;
        && r == (if wellFormed && made !in old(used) then Some(made) else None)
        && history == if r.Some? then old(history) + [Called(Call(made, name))] else old(history)
    {
      if !wellFormed { return None; }
      var made := if id == "" then synthesized(next) else id;
      next := next + 1;
      if made in used { return None; }
      CallExtends(history, used, Call(made, name));
      used := used + {made};
      pending := pending + [Call(made, name)];
      history := history + [Called(Call(made, name))];
      r := Some(made);
    }

    /** Where the pending call is that a response answers. */
    method FindPending(id: string, name: string) returns (matched: Option<nat>)
      requires DistinctCalls(pending)
      ensures matched.Some? <==> Answers(pending, id, name)
      ensures matched.Some? ==> matched.value < |pending| && pending[matched.value].name == name && (id != "" ==> pending[matched.value].id == id)
    {
      matched := None;
      if id == "" {
        for k := 0 to |pending|
          invariant matched.None? ==> forall j :: 0 <= j < k ==> pending[j].name != name
          invariant matched.Some? ==>
            && matched.value < k && pending[matched.value].name == name
            && forall j :: 0 <= j < k && pending[j].name == name ==> j == matched.value
        {
          if pending[k].name != name { continue; }
          if matched.Some? { return None; }
          matched := Some(k);
        }
        if matched.Some? { assert NamesOne(pending, name, matched.value); }
      } else {
        for k := 0 to |pending|
          invariant forall j :: 0 <= j < k ==> pending[j].id != id
        {
          if pending[k].id == id {
            if pending[k].name != name { return None; }
            return Some(k);
          }
        }
      }
    }

    /** A response answers the pending call with its ID and name, or without an ID the only pending call of its name. */
    method ConvertResponse(id: string, name: string, wellFormed: bool) returns (r: Option<string>)
      requires Valid()
      modifies this
      ensures Valid() && used == old(used)
      ensures r.Some? == (wellFormed && Answers(old(pending), id, name))
      ensures r.Some? && id != "" ==> r.value == id
      ensures r.Some? ==> Call(r.value, name) in old(pending)
      ensures history == if r.Some? then old(history) + [Answered(r.value, name)] else old(history)
    {
      hide WellMatched, Open, HasCall, DistinctCalls;
      if !wellFormed { return None; }
      OpenIsUnanswered(history);
      var matched := FindPending(id, name);
      if matched.None? { return None; }
      var k, answered := matched.value, pending[matched.value];
      assert answered == Call(answered.id, name) && answered in pending;
      AnswerExtends(history, answered);
      WithoutAt(pending, k);
      pending := pending[..k] + pending[k + 1..];
      history := history + [Answered(answered.id, name)];
      r := Some(answered.id);
    }
  }

  lemma {:induction false} WithoutAt(calls: seq<Call>, k: nat)
    requires DistinctCalls(calls) && k < |calls|
    ensures Without(calls, calls[k].id) == calls[..k] + calls[k + 1..]
  {
    if k > 0 {
      WithoutAt(calls[1..], k - 1);
      assert calls[1..][..k - 1] == calls[1..k] && calls[1..][k..] == calls[k + 1..];
      assert [calls[0]] + calls[1..k] == calls[..k];
      assert [calls[0]] + (calls[1..k] + calls[k + 1..]) == calls[..k] + calls[k + 1..];
    }
  }

  lemma {:induction false} CallExtends(history: seq<Message>, used: set<string>, call: Call)
    requires WellMatched(history) && call.id !in used
    requires forall id :: id in used <==> HasCall(history, id)
    ensures WellMatched(history + [Called(call)]) && Open(history + [Called(call)]) == Open(history) + [call]
    ensures forall id :: id in used + {call.id} <==> HasCall(history + [Called(call)], id)
  {
    var longer := history + [Called(call)];
    assert longer[..|history|] == history;
    forall i | 0 <= i < |history| && history[i].Called? ensures history[i].call.id != call.id {
      assert IsCallOf(history[i], history[i].call.id);
    }
    forall j | 0 <= j < |longer| && longer[j].Answered?
      ensures exists i :: 0 <= i < j && longer[i] == Called(Call(longer[j].id, longer[j].name))
    {
      var i :| 0 <= i < j && history[i] == Called(Call(history[j].id, history[j].name));
      assert longer[i] == history[i];
    }
    forall id ensures id in used + {call.id} <==> HasCall(longer, id) {
      if id in used { var i :| 0 <= i < |history| && IsCallOf(history[i], id); assert IsCallOf(longer[i], id); }
      if id == call.id { assert IsCallOf(longer[|history|], id); }
    }
  }

  lemma {:induction false} AnswerExtends(history: seq<Message>, call: Call)
    requires WellMatched(history) && call in Open(history)
    ensures WellMatched(history + [Answered(call.id, call.name)])
    ensures Open(history + [Answered(call.id, call.name)]) == Without(Open(history), call.id)
    ensures forall id :: HasCall(history + [Answered(call.id, call.name)], id) <==> HasCall(history, id)
  {
    OpenIsUnanswered(history);
    var longer := history + [Answered(call.id, call.name)];
    assert longer[..|history|] == history;
    var c :| 0 <= c < |history| && history[c] == Called(call);
    assert longer[c] == Called(Call(call.id, call.name));
    forall i | 0 <= i < |history| && history[i].Answered? ensures history[i].id != call.id {
      assert !IsAnswerOf(history[i], call.id);
    }
    forall j | 0 <= j < |history| && history[j].Answered?
      ensures exists i :: 0 <= i < j && longer[i] == Called(Call(longer[j].id, longer[j].name))
    {
      var i :| 0 <= i < j && history[i] == Called(Call(history[j].id, history[j].name));
      assert longer[i] == history[i];
    }
    forall id ensures HasCall(longer, id) <==> HasCall(history, id) {
      if HasCall(history, id) {
        var i :| 0 <= i < |history| && IsCallOf(history[i], id);
        assert IsCallOf(longer[i], id);
      }
    }
  }
}
