/**
 Progress digests inside one long task (engine/task_digest.py): the task's messages are cut into units, the
 oldest complete units are replaced in the request by one digest, and a digest is used again only if the
 fingerprints it recorded match the messages.
*/
module Digest {
  import opened Common
  import opened Messages

  const TOOL_RESULT_ATTACHMENT := "tool_result_attachment"
  const DIGEST_MESSAGE_TYPE := "task_digest"

  /** A stretch that must not be cut: a round of tool calls with its results, or one other message. */
  datatype Unit = Unit(indices: seq<nat>, fingerprinted: seq<nat>, toolRound: bool, complete: bool)

  datatype Layout = Layout(instruction: Option<nat>, units: seq<Unit>)

  datatype TaskDigest = TaskDigest(taskId: string, text: string, fingerprints: seq<string>, coveredUnits: nat)

  predicate Owned(r: Record, task: string) {
    r.role != "system" && !r.isDynamic && !r.isEphemeral && TaskOf(r) == task
  }

  /** `tool_calls_of` */
  function CallsOf(r: Record): seq<Call> {
    if r.role == "assistant" then r.toolCalls else []
  }

  predicate IsAttachment(r: Record) {
    r.role == "user" && MetaOf(r).messageType == TOOL_RESULT_ATTACHMENT
  }

  function Wanted(r: Record): set<string> {
    set c | c in CallsOf(r) :: c.id
  }

  /** The message belongs to the round whose calls have these ids. */
  predicate Continues(r: Record, wanted: set<string>, task: string) {
    if IsToolResult(r) then r.toolCallId == "" || r.toolCallId in wanted
    else Owned(r, task) && IsAttachment(r)
  }

  /** Where a round ends that has reached `cursor`. */
  function RoundEnd(messages: seq<Record>, cursor: nat, wanted: set<string>, task: string): (end: nat)
    requires cursor <= |messages|
    ensures cursor <= end <= |messages|
    ensures forall k | cursor <= k < end :: Continues(messages[k], wanted, task)
    ensures end < |messages| ==> !Continues(messages[end], wanted, task)
    decreases |messages| - cursor
  {
    if cursor < |messages| && Continues(messages[cursor], wanted, task) then RoundEnd(messages, cursor + 1, wanted, task) else cursor
  }

  function Range(from: nat, until: nat): (r: seq<nat>)
    requires from <= until
    ensures |r| == until - from && forall k | 0 <= k < |r| :: r[k] == from + k
  {
    seq(until - from, k requires 0 <= k => from + k)
  }

  /** The members of a stretch that are stored with the task. */
  function Stamped(messages: seq<Record>, from: nat, until: nat, task: string): seq<nat>
    requires from <= until <= |messages|
  {
    if from == until then []
    else Stamped(messages, from, until - 1, task) + if Owned(messages[until - 1], task) then [until - 1] else []
  }

  /** The ids answered in a stretch, "" for a result without one. */
  function Answered(messages: seq<Record>, from: nat, until: nat): seq<string>
    requires from <= until <= |messages|
  {
    if from == until then []
    else Answered(messages, from, until - 1) + if IsToolResult(messages[until - 1]) then [messages[until - 1].toolCallId] else []
  }

  predicate Complete(calls: seq<Call>, answered: seq<string>) {
    if forall c | c in calls :: c.id != "" then forall c | c in calls :: c.id in answered
    else |answered| >= |calls|
  }

  function UnitEnd(messages: seq<Record>, index: nat, task: string): (end: nat)
    requires index < |messages|
    ensures index < end <= |messages|
  {
    if CallsOf(messages[index]) == [] then index + 1 else RoundEnd(messages, index + 1, Wanted(messages[index]), task)
  }

  /** The unit that starts at an owned message. */
  function UnitAt(messages: seq<Record>, index: nat, task: string): Unit
    requires index < |messages|
  {
    var calls, end := CallsOf(messages[index]), UnitEnd(messages, index, task);
    if calls == [] then Unit([index], [index], false, true)
    else Unit(Range(index, end), Stamped(messages, index, end, task), true, Complete(calls, Answered(messages, index + 1, end)))
  }

  function UnitsFrom(messages: seq<Record>, index: nat, task: string): seq<Unit>
    requires index <= |messages|
    decreases |messages| - index
  {
    if index == |messages| then []
    else if !Owned(messages[index], task) then UnitsFrom(messages, index + 1, task)
    else [UnitAt(messages, index, task)] + UnitsFrom(messages, UnitEnd(messages, index, task), task)
  }

  function FirstOwned(messages: seq<Record>, from: nat, task: string): (first: nat)
    requires from <= |messages|
    ensures from <= first <= |messages| && (first < |messages| ==> Owned(messages[first], task))
    ensures forall k | from <= k < first :: !Owned(messages[k], task)
    decreases |messages| - from
  {
    if from < |messages| && !Owned(messages[from], task) then FirstOwned(messages, from + 1, task) else from
  }

  predicate IsInstruction(r: Record) {
    r.role == "user" && !IsToolResult(r)
  }

  function LayoutOf(messages: seq<Record>, task: string): Layout {
    var first := FirstOwned(messages, 0, task);
    if task == "" || first == |messages| then Layout(None, [])
    else if IsInstruction(messages[first]) then Layout(Some(first), UnitsFrom(messages, first + 1, task))
    else Layout(None, UnitsFrom(messages, first, task))
  }

  lemma RoundStep(messages: seq<Record>, index: nat, cursor: nat, wanted: set<string>, task: string)
    requires index < cursor < |messages|
    ensures Continues(messages[cursor], wanted, task) ==>
              && RoundEnd(messages, cursor, wanted, task) == RoundEnd(messages, cursor + 1, wanted, task)
              && Range(index, cursor + 1) == Range(index, cursor) + [cursor]
              && Stamped(messages, index, cursor + 1, task)
                 == Stamped(messages, index, cursor, task) + (if Owned(messages[cursor], task) then [cursor] else [])
              && Answered(messages, index + 1, cursor + 1)
                 == Answered(messages, index + 1, cursor) + if IsToolResult(messages[cursor]) then [messages[cursor].toolCallId] else []
    ensures !Continues(messages[cursor], wanted, task) ==> RoundEnd(messages, cursor, wanted, task) == cursor
  {
    hide IsToolResult, Owned, IsAttachment;
  }

  lemma RoundStart(messages: seq<Record>, index: nat, task: string)
    requires index < |messages| && Owned(messages[index], task)
    ensures Range(index, index + 1) == [index] && Stamped(messages, index, index + 1, task) == [index]
    ensures Answered(messages, index + 1, index + 1) == []
  {
    hide Owned;
    assert Stamped(messages, index, index, task) == [];
  }

  /** One round: how far it reaches, what of it is stored, and what it answers. */
  method Round(messages: seq<Record>, index: nat, task: string) returns (unit: Unit, next: nat)
    requires index < |messages| && CallsOf(messages[index]) != [] && Owned(messages[index], task)
    ensures unit == UnitAt(messages, index, task) && next == UnitEnd(messages, index, task)
  {
    hide IsToolResult, Owned, IsAttachment, CallsOf, Range, Stamped, Answered, RoundEnd, Complete;
    var calls := CallsOf(messages[index]);
    var wanted := set c | c in calls :: c.id;
    var members, stamped := [index], [index];
    var answered: seq<string> := [];
    var cursor := index + 1;
    RoundStart(messages, index, task);
    while cursor < |messages|
      invariant index < cursor <= |messages|
      invariant members == Range(index, cursor) && stamped == Stamped(messages, index, cursor, task)
      invariant answered == Answered(messages, index + 1, cursor)
      invariant RoundEnd(messages, cursor, wanted, task) == RoundEnd(messages, index + 1, wanted, task)
    {
      RoundStep(messages, index, cursor, wanted, task);
      var candidate := messages[cursor];
      if IsToolResult(candidate) {
        if candidate.toolCallId != "" && candidate.toolCallId !in wanted {
          break;
        }
        answered := answered + [candidate.toolCallId];
      } else if !(Owned(candidate, task) && IsAttachment(candidate)) {
        break;
      }
      members := members + [cursor];
      if Owned(candidate, task) {
        stamped := stamped + [cursor];
      }
      cursor := cursor + 1;
    }
    unit, next := Unit(members, stamped, true, Complete(calls, answered)), cursor;
  }

  /** `task_layout` */
  method TaskLayout(messages: seq<Record>, task: string) returns (layout: Layout)
    ensures layout == LayoutOf(messages, task)
  {
    if task == "" {
      return Layout(None, []);
    }
    var first := FirstOwned(messages, 0, task);
    if first == |messages| {
      return Layout(None, []);
    }
    hide UnitAt, UnitEnd, FirstOwned, Owned, IsInstruction;
    var instruction := if IsInstruction(messages[first]) then Some(first) else None;
    var units: seq<Unit> := [];
    var index := if instruction.Some? then first + 1 else first;
    ghost var start := index;
    while index < |messages|
      invariant start <= index <= |messages|
      invariant units + UnitsFrom(messages, index, task) == UnitsFrom(messages, start, task)
    {
      var message := messages[index];
      if !Owned(message, task) {
        index := index + 1;
        continue;
      }
      if CallsOf(message) == [] {
        PlainUnit(messages, index, task);
        units := units + [Unit([index], [index], false, true)];
        index := index + 1;
        continue;
      }
      var unit, next := Round(messages, index, task);
      units := units + [unit];
      index := next;
    }
    return Layout(instruction, units);
  }

  lemma PlainUnit(messages: seq<Record>, index: nat, task: string)
    requires index < |messages| && CallsOf(messages[index]) == []
    ensures UnitAt(messages, index, task) == Unit([index], [index], false, true) && UnitEnd(messages, index, task) == index + 1
  {
  }

  // ---- the shape of a layout ----

  /** A unit is a stretch of the history that starts at one of its stored members. */
  predicate IsStretch(unit: Unit, from: nat, until: nat) {
    && from < until && unit.indices == Range(from, until) && unit.fingerprinted != []
    && forall k | k in unit.fingerprinted :: k in unit.indices
  }

  predicate InOrder(units: seq<Unit>, from: nat, until: nat) {
    && (forall u | 0 <= u < |units| :: units[u].indices != [] && IsStretch(units[u], Start(units[u]), End(units[u])))
    && (forall u | 0 <= u < |units| :: from <= Start(units[u]) && End(units[u]) <= until)
    && forall u, v | 0 <= u < v < |units| :: End(units[u]) <= Start(units[v])
  }

  function Start(unit: Unit): nat {
    if unit.indices == [] then 0 else unit.indices[0]
  }

  function End(unit: Unit): nat {
    if unit.indices == [] then 0 else unit.indices[|unit.indices| - 1] + 1
  }

  /** The stamped members of a stretch are exactly its owned ones. */
  lemma {:induction false} StampedIsOwned(messages: seq<Record>, from: nat, until: nat, task: string)
    requires from <= until <= |messages|
    ensures forall k :: k in Stamped(messages, from, until, task) <==> from <= k < until && Owned(messages[k], task)
    decreases until
  {
    hide Owned;
    if from != until {
      StampedIsOwned(messages, from, until - 1, task);
    }
  }

  lemma UnitIsStretch(messages: seq<Record>, index: nat, task: string)
    requires index < |messages| && Owned(messages[index], task)
    ensures var unit := UnitAt(messages, index, task);
            IsStretch(unit, index, UnitEnd(messages, index, task)) && unit.indices != [] && Start(unit) == index && End(unit) == UnitEnd(messages, index, task)
  {
    hide Owned, CallsOf, Complete, Answered;
    var end := UnitEnd(messages, index, task);
    StampedIsOwned(messages, index, end, task);
    assert index in Stamped(messages, index, end, task) && Range(index, index + 1) == [index];
    forall k | index <= k < end ensures k in Range(index, end) {
      assert Range(index, end)[k - index] == k;
    }
  }

  lemma {:induction false} UnitsInOrder(messages: seq<Record>, index: nat, task: string)
    requires index <= |messages|
    ensures InOrder(UnitsFrom(messages, index, task), index, |messages|)
    decreases |messages| - index
  {
    hide Owned, UnitAt, UnitEnd, IsStretch, Start, End;
    if index < |messages| {
      if !Owned(messages[index], task) {
        UnitsInOrder(messages, index + 1, task);
      } else {
        UnitsInOrder(messages, UnitEnd(messages, index, task), task);
        UnitIsStretch(messages, index, task);
      }
    }
  }

  /** Every owned message from `index` on is in one of the units. */
  lemma {:induction false} UnitsCover(messages: seq<Record>, index: nat, task: string, k: nat)
    requires index <= k < |messages| && Owned(messages[k], task)
    ensures exists u :: 0 <= u < |UnitsFrom(messages, index, task)| && k in UnitsFrom(messages, index, task)[u].indices
    decreases |messages| - index
  {
    hide Owned, UnitAt, UnitEnd;
    var units := UnitsFrom(messages, index, task);
    if !Owned(messages[index], task) {
      UnitsCover(messages, index + 1, task, k);
    } else {
      var end := UnitEnd(messages, index, task);
      UnitIsStretch(messages, index, task);
      if k < end {
        assert units[0].indices[k - index] == k;
        assert k in units[0].indices;
      } else {
        UnitsCover(messages, end, task, k);
        var u :| 0 <= u < |UnitsFrom(messages, end, task)| && k in UnitsFrom(messages, end, task)[u].indices;
        assert units[u + 1] == UnitsFrom(messages, end, task)[u];
      }
    }
  }

  /** The units are disjoint stretches in order, and together with the instruction they hold every message of the task. */
  lemma LayoutPartitions(messages: seq<Record>, task: string, k: nat)
    requires task != "" && k < |messages|
    ensures var layout := LayoutOf(messages, task);
            && InOrder(layout.units, if layout.instruction.Some? then layout.instruction.value + 1 else 0, |messages|)
            && (layout.instruction.Some? ==> layout.instruction.value < |messages|)
            && (messages[k].role != "system" && !messages[k].isDynamic && !messages[k].isEphemeral && TaskOf(messages[k]) == task ==>
                  layout.instruction == Some(k) || exists u :: 0 <= u < |layout.units| && k in layout.units[u].indices)
            && (layout.instruction == Some(k) ==> Owned(messages[k], task) && messages[k].role == "user" && !IsToolResult(messages[k]))
  {
    assert messages[k].role != "system" && !messages[k].isDynamic && !messages[k].isEphemeral && TaskOf(messages[k]) == task
           <==> Owned(messages[k], task);
    assert forall r: Record :: IsInstruction(r) <==> r.role == "user" && !IsToolResult(r);
    hide Owned, IsInstruction, UnitsFrom, IsStretch;
    var first := FirstOwned(messages, 0, task);
    if first < |messages| {
      var start := if IsInstruction(messages[first]) then first + 1 else first;
      UnitsInOrder(messages, start, task);
      if Owned(messages[k], task) && k >= start {
        UnitsCover(messages, start, task, k);
      }
    }
  }

  // ---- what a unit is, over the messages ----

  /** Position `k` is a tool result of the round. */
  predicate ResultAt(messages: seq<Record>, unit: Unit, k: int) {
    Start(unit) < k < End(unit) && k < |messages| && IsToolResult(messages[k])
  }

  /** Every call of the round has its result in the round; if some call has no id, there are as many results as calls. */
  ghost predicate RoundAnswered(messages: seq<Record>, unit: Unit)
    requires Start(unit) < |messages|
  {
    var calls := messages[Start(unit)].toolCalls;
    if forall i | 0 <= i < |calls| :: calls[i].id != ""
    then forall i | 0 <= i < |calls| :: exists k :: ResultAt(messages, unit, k) && messages[k].toolCallId == calls[i].id
    else |set k: nat | k < |messages| && ResultAt(messages, unit, k)| >= |calls|
  }

  /** The message may stand in a round behind these calls: a result of them, or an attachment of the task. */
  predicate GoesWith(r: Record, calls: seq<Call>, task: string) {
    if IsToolResult(r) then r.toolCallId == "" || exists i :: 0 <= i < |calls| && calls[i].id == r.toolCallId
    else && r.role == "user" && !r.isDynamic && !r.isEphemeral && TaskOf(r) == task
         && r.meta.Some? && r.meta.value.messageType == "tool_result_attachment"
  }

  function ResultsIn(messages: seq<Record>, from: nat, until: nat): set<nat>
    requires until <= |messages|
  {
    set k: nat | from <= k < until && IsToolResult(messages[k])
  }

  /** If some call has no id, a round can be complete by number although the call that has one is not answered. */
  lemma MixedRoundIsComplete(head: Record, result: Record, unit: Unit)
    requires head.toolCalls == [Call("c", "read", ""), Call("", "list", "")]
    requires result.role == "tool" && result.toolCallId == "" && unit.indices == [0, 1, 2]
    ensures RoundAnswered([head, result, result], unit)
    ensures forall k | 0 < k < 3 :: [head, result, result][k].toolCallId != "c"
  {
    var messages := [head, result, result];
    assert messages[0].toolCalls[1].id == "" && Start(unit) == 0 && End(unit) == 3;
    assert (set k: nat | k < |messages| && ResultAt(messages, unit, k)) == {1, 2};
  }

  lemma {:induction false} AnsweredIds(messages: seq<Record>, from: nat, until: nat)
    requires from <= until <= |messages|
    ensures forall id :: id in Answered(messages, from, until) <==> exists k :: from <= k < until && IsToolResult(messages[k]) && messages[k].toolCallId == id
    ensures |Answered(messages, from, until)| == |ResultsIn(messages, from, until)|
    decreases until
  {
    hide IsToolResult;
    if from == until {
      assert ResultsIn(messages, from, until) == {};
    } else {
      AnsweredIds(messages, from, until - 1);
      assert ResultsIn(messages, from, until) == ResultsIn(messages, from, until - 1) + if IsToolResult(messages[until - 1]) then {until - 1} else {};
    }
  }

  lemma CompleteIsAnswered(messages: seq<Record>, index: nat, task: string)
    requires index < |messages| && Owned(messages[index], task) && CallsOf(messages[index]) != []
    ensures var unit := UnitAt(messages, index, task); Start(unit) == index && (unit.complete <==> RoundAnswered(messages, unit))
  {
    var unit, end, calls := UnitAt(messages, index, task), UnitEnd(messages, index, task), messages[index].toolCalls;
    UnitIsStretch(messages, index, task);
    AnsweredIds(messages, index + 1, end);
    hide IsToolResult, Owned, UnitEnd, Stamped, Answered;
    var ids := Answered(messages, index + 1, end);
    assert forall k :: ResultAt(messages, unit, k) <==> index + 1 <= k < end && IsToolResult(messages[k]);
    assert (set k: nat | k < |messages| && ResultAt(messages, unit, k)) == ResultsIn(messages, index + 1, end);
    assert (forall c | c in calls :: c.id != "") <==> forall i | 0 <= i < |calls| :: calls[i].id != "";
    assert (forall c | c in calls :: c.id in ids) <==> forall i | 0 <= i < |calls| :: calls[i].id in ids;
    hide ResultAt;
  }

  /**
   A unit over the messages it is made of: one message without calls, or a round that reaches from its calls to
   the first message that does not go with them, complete exactly if it is answered.
  */
  ghost predicate UnitIs(messages: seq<Record>, unit: Unit, task: string) {
    && Start(unit) < End(unit) <= |messages| && Owned(messages[Start(unit)], task)
    && (forall k :: k in unit.fingerprinted <==> Start(unit) <= k < End(unit) && Owned(messages[k], task))
    && (var r := messages[Start(unit)];
        var calls := if r.role == "assistant" then r.toolCalls else [];
        && (unit.toolRound <==> calls != [])
        && (!unit.toolRound ==> unit.complete && End(unit) == Start(unit) + 1)
        && (unit.toolRound ==>
              && (unit.complete <==> RoundAnswered(messages, unit))
              && (forall k | Start(unit) < k < End(unit) :: GoesWith(messages[k], calls, task))
              && (End(unit) < |messages| ==> !GoesWith(messages[End(unit)], calls, task))))
  }

  lemma UnitAtIs(messages: seq<Record>, index: nat, task: string)
    requires index < |messages| && Owned(messages[index], task)
    ensures UnitIs(messages, UnitAt(messages, index, task), task)
  {
    UnitIsStretch(messages, index, task);
    StampedIsOwned(messages, index, UnitEnd(messages, index, task), task);
    if CallsOf(messages[index]) != [] {
      CompleteIsAnswered(messages, index, task);
      RoundReach(messages, index, task);
    }
    hide Owned, Complete, Answered, RoundAnswered, GoesWith, Stamped, Start, End, RoundEnd;
  }

  lemma RoundReach(messages: seq<Record>, index: nat, task: string)
    requires index < |messages| && CallsOf(messages[index]) != []
    ensures var end := UnitEnd(messages, index, task);
            && (forall k | index < k < end :: GoesWith(messages[k], messages[index].toolCalls, task))
            && (end < |messages| ==> !GoesWith(messages[end], messages[index].toolCalls, task))
  {
    forall r: Record ensures Continues(r, Wanted(messages[index]), task) <==> GoesWith(r, messages[index].toolCalls, task) {
      SameReach(r, messages[index], task);
    }
    hide Continues, GoesWith, Wanted;
  }

  lemma SameReach(r: Record, head: Record, task: string)
    requires CallsOf(head) != []
    ensures Continues(r, Wanted(head), task) <==> GoesWith(r, head.toolCalls, task)
  {
    hide IsToolResult, TaskOf;
    var calls := head.toolCalls;
    assert forall id :: id in Wanted(head) <==> exists i :: 0 <= i < |calls| && calls[i].id == id by {
      forall i | 0 <= i < |calls| ensures calls[i].id in Wanted(head) {
        assert calls[i] in CallsOf(head);
      }
    }
    hide Wanted;
  }

  /** So is every unit of a layout. */
  lemma {:induction false} UnitsAre(messages: seq<Record>, index: nat, task: string, u: nat)
    requires index <= |messages| && u < |UnitsFrom(messages, index, task)|
    ensures UnitIs(messages, UnitsFrom(messages, index, task)[u], task)
    decreases |messages| - index
  {
    hide Owned, UnitAt, UnitEnd, UnitIs;
    if !Owned(messages[index], task) {
      UnitsAre(messages, index + 1, task, u);
    } else if u == 0 {
      UnitAtIs(messages, index, task);
    } else {
      UnitsAre(messages, UnitEnd(messages, index, task), task, u - 1);
    }
  }

  lemma LayoutUnits(messages: seq<Record>, task: string, u: nat)
    requires u < |LayoutOf(messages, task).units|
    ensures UnitIs(messages, LayoutOf(messages, task).units[u], task)
  {
    var first := FirstOwned(messages, 0, task);
    UnitsAre(messages, if IsInstruction(messages[first]) then first + 1 else first, task, u);
    hide UnitIs, UnitsFrom;
  }

  // ---- layouts only grow at their end ----

  lemma {:induction false} RoundEndKept(messages: seq<Record>, more: seq<Record>, cursor: nat, wanted: set<string>,
      task: string)
    requires cursor <= |messages| && RoundEnd(messages, cursor, wanted, task) < |messages|
    ensures RoundEnd(messages + more, cursor, wanted, task) == RoundEnd(messages, cursor, wanted, task)
    decreases |messages| - cursor
  {
    hide Continues;
    if cursor < |messages| && Continues(messages[cursor], wanted, task) {
      RoundEndKept(messages, more, cursor + 1, wanted, task);
    }
  }

  lemma {:induction false} StampedKept(messages: seq<Record>, more: seq<Record>, from: nat, until: nat, task: string)
    requires from <= until <= |messages|
    ensures Stamped(messages + more, from, until, task) == Stamped(messages, from, until, task)
    decreases until
  {
    hide Owned;
    if from != until {
      StampedKept(messages, more, from, until - 1, task);
      assert (messages + more)[until - 1] == messages[until - 1];
    }
  }

  lemma {:induction false} AnsweredKept(messages: seq<Record>, more: seq<Record>, from: nat, until: nat)
    requires from <= until <= |messages|
    ensures Answered(messages + more, from, until) == Answered(messages, from, until)
    decreases until
  {
    hide IsToolResult;
    if from != until {
      AnsweredKept(messages, more, from, until - 1);
      assert (messages + more)[until - 1] == messages[until - 1];
    }
  }

  /** A unit that ends before the end of the history stays as it is whatever is appended. */
  lemma UnitKept(messages: seq<Record>, more: seq<Record>, index: nat, task: string)
    requires index < |messages| && UnitEnd(messages, index, task) < |messages|
    ensures UnitEnd(messages + more, index, task) == UnitEnd(messages, index, task)
    ensures UnitAt(messages + more, index, task) == UnitAt(messages, index, task)
  {
    hide Owned, Complete, IsToolResult, Continues;
    if CallsOf(messages[index]) != [] {
      RoundEndKept(messages, more, index + 1, Wanted(messages[index]), task);
      var end := UnitEnd(messages, index, task);
      StampedKept(messages, more, index, end, task);
      AnsweredKept(messages, more, index + 1, end);
    }
  }

  lemma {:induction false} UnitsKept(messages: seq<Record>, more: seq<Record>, index: nat, task: string)
    requires index <= |messages|
    ensures var units, grown := UnitsFrom(messages, index, task), UnitsFrom(messages + more, index, task);
            |units| <= |grown| && (units != [] ==> grown[..|units| - 1] == units[..|units| - 1])
    decreases |messages| - index
  {
    hide Owned, UnitAt, UnitEnd;
    if index < |messages| {
      if !Owned(messages[index], task) {
        UnitsKept(messages, more, index + 1, task);
      } else {
        var end := UnitEnd(messages, index, task);
        if end < |messages| {
          UnitKept(messages, more, index, task);
          UnitsKept(messages, more, end, task);
        }
      }
    }
  }

  lemma {:induction false} FirstOwnedKept(messages: seq<Record>, more: seq<Record>, from: nat, task: string)
    requires from <= |messages| && FirstOwned(messages, from, task) < |messages|
    ensures FirstOwned(messages + more, from, task) == FirstOwned(messages, from, task)
    decreases |messages| - from
  {
    hide Owned;
    if !Owned(messages[from], task) {
      FirstOwnedKept(messages, more, from + 1, task);
    }
  }

  /** Appending messages changes at most the last unit: every other unit and the instruction depend on the prefix only. */
  lemma LayoutKept(messages: seq<Record>, more: seq<Record>, task: string)
    ensures var layout, grown := LayoutOf(messages, task), LayoutOf(messages + more, task);
            layout.units != [] ==>
              && grown.instruction == layout.instruction && |layout.units| <= |grown.units|
              && grown.units[..|layout.units| - 1] == layout.units[..|layout.units| - 1]
  {
    hide Owned, IsInstruction, UnitsFrom;
    var first := FirstOwned(messages, 0, task);
    if task != "" && first < |messages| {
      FirstOwnedKept(messages, more, 0, task);
      UnitsKept(messages, more, if IsInstruction(messages[first]) then first + 1 else first, task);
    }
  }

  // ---- coverage ----

  /** Only what a reload restores exactly takes part in a fingerprint. */
  function StableRecord(r: Record): Record {
    Record(r.role, r.content, "", "", None, CallsOf(r), r.toolCallId, r.name, false, false, false, false)
  }

  function Marks(messages: seq<Record>, indices: seq<nat>, hash: Record -> string): (r: seq<string>)
    ensures |r| == |indices|
  {
    seq(|indices|, k requires 0 <= k < |indices| => if indices[k] < |messages| then hash(StableRecord(messages[indices[k]])) else "")
  }

  /** The fingerprints of the stored members of some units, in order. */
  function UnitMarks(messages: seq<Record>, units: seq<Unit>, hash: Record -> string): seq<string> {
    if units == [] then []
    else UnitMarks(messages, units[..|units| - 1], hash) + Marks(messages, units[|units| - 1].fingerprinted, hash)
  }

  predicate AllComplete(units: seq<Unit>) {
    forall u | 0 <= u < |units| :: units[u].complete
  }

  /** The digest covers exactly the first `count` units. */
  predicate Covers(messages: seq<Record>, units: seq<Unit>, count: nat, fingerprints: seq<string>, hash: Record -> string) {
    0 < count <= |units| && AllComplete(units[..count]) && UnitMarks(messages, units[..count], hash) == fingerprints
  }

  lemma {:induction false} MarksPrefix(messages: seq<Record>, units: seq<Unit>, a: nat, b: nat, hash: Record -> string)
    requires a <= b <= |units|
    ensures UnitMarks(messages, units[..a], hash) <= UnitMarks(messages, units[..b], hash)
    decreases b
  {
    if a < b {
      MarksPrefix(messages, units, a, b - 1, hash);
      assert units[..b][..b - 1] == units[..b - 1];
    }
  }

  /** `verified_coverage`: the least number of complete units whose fingerprints are exactly the recorded ones. */
  method VerifiedCoverage(messages: seq<Record>, layout: Layout, digest: Option<TaskDigest>, hash: Record -> string)
    returns (coverage: Option<nat>)
    ensures coverage.Some? ==> digest.Some? && digest.value.fingerprints != []
                               && Covers(messages, layout.units, coverage.value, digest.value.fingerprints, hash)
                               && forall c: nat | c < coverage.value :: !Covers(messages, layout.units, c, digest.value.fingerprints, hash)
    ensures coverage.None? && digest.Some? && digest.value.fingerprints != [] ==>
              forall c: nat :: !Covers(messages, layout.units, c, digest.value.fingerprints, hash)
  {
    if digest.None? || digest.value.fingerprints == [] {
      return None;
    }
    var expected, units := digest.value.fingerprints, layout.units;
    var seen: seq<string> := [];
    for count := 0 to |units|
      invariant seen == UnitMarks(messages, units[..count], hash) && AllComplete(units[..count]) && seen < expected
      invariant forall c: nat | c <= count :: !Covers(messages, units, c, expected, hash)
    {
      var unit := units[count];
      assert units[..count + 1][..count] == units[..count] && units[..count + 1][count] == unit;
      if !unit.complete {
        NoLaterCoverage(messages, units, count, expected, hash);
        return None;
      }
      seen := seen + Marks(messages, unit.fingerprinted, hash);
      if |seen| > |expected| || seen != expected[..|seen|] {
        NoLaterMatch(messages, units, count, expected, hash);
        return None;
      }
      if |seen| == |expected| {
        return Some(count + 1);
      }
    }
    return None;
  }

  lemma NoLaterCoverage(messages: seq<Record>, units: seq<Unit>, count: nat, expected: seq<string>, hash: Record -> string)
    requires count < |units| && !units[count].complete && forall c: nat | c <= count :: !Covers(messages, units, c, expected, hash)
    ensures forall c: nat :: !Covers(messages, units, c, expected, hash)
  {
    forall c: nat | count < c <= |units| ensures !AllComplete(units[..c]) {
      assert units[..c][count] == units[count];
    }
  }

  lemma NoLaterMatch(messages: seq<Record>, units: seq<Unit>, count: nat, expected: seq<string>, hash: Record -> string)
    requires count < |units| && !(UnitMarks(messages, units[..count + 1], hash) <= expected)
    requires forall c: nat | c <= count :: !Covers(messages, units, c, expected, hash)
    ensures forall c: nat :: !Covers(messages, units, c, expected, hash)
  {
    forall c: nat | count < c <= |units| ensures UnitMarks(messages, units[..c], hash) != expected {
      MarksPrefix(messages, units, count + 1, c, hash);
    }
  }

  lemma MarksGrow(messages: seq<Record>, units: seq<Unit>, a: nat, b: nat, hash: Record -> string)
    requires a < b <= |units| && forall u | 0 <= u < |units| :: units[u].fingerprinted != []
    ensures |UnitMarks(messages, units[..a], hash)| < |UnitMarks(messages, units[..b], hash)|
  {
    MarksPrefix(messages, units, a + 1, b, hash);
    assert units[..a + 1][..a] == units[..a] && units[..a + 1][a] == units[a];
  }

  /** Since every unit has a stored member, a digest covers one number of units at most. */
  lemma CoverageIsUnique(messages: seq<Record>, units: seq<Unit>, a: nat, b: nat, fingerprints: seq<string>,
      hash: Record -> string)
    requires forall u | 0 <= u < |units| :: units[u].fingerprinted != []
    requires Covers(messages, units, a, fingerprints, hash) && Covers(messages, units, b, fingerprints, hash)
    ensures a == b
  {
    if a < b {
      MarksGrow(messages, units, a, b, hash);
    } else if b < a {
      MarksGrow(messages, units, b, a, hash);
    }
  }

  lemma {:induction false} MarksKept(messages: seq<Record>, more: seq<Record>, units: seq<Unit>, hash: Record -> string)
    requires forall u, k | 0 <= u < |units| && k in units[u].fingerprinted :: k < |messages|
    ensures UnitMarks(messages + more, units, hash) == UnitMarks(messages, units, hash)
  {
    if units != [] {
      var last := units[|units| - 1];
      MarksKept(messages, more, units[..|units| - 1], hash);
      assert forall i | 0 <= i < |last.fingerprinted| :: last.fingerprinted[i] in last.fingerprinted;
      assert Marks(messages + more, last.fingerprinted, hash) == Marks(messages, last.fingerprinted, hash);
    }
  }

  /** The positions whose messages are fingerprinted, in order. */
  function MarkedPositions(units: seq<Unit>): seq<nat> {
    if units == [] then [] else MarkedPositions(units[..|units| - 1]) + units[|units| - 1].fingerprinted
  }

  lemma {:induction false} MarksAt(messages: seq<Record>, units: seq<Unit>, hash: Record -> string)
    ensures UnitMarks(messages, units, hash) == Marks(messages, MarkedPositions(units), hash)
  {
    if units != [] {
      MarksAt(messages, units[..|units| - 1], hash);
    }
  }

  /**
   A digest that covers units of a history was composed from the same messages: position by position they have
   the same role, content, calls, call id and name, if fingerprints are injective.
  */
  lemma OnlyUnchangedIsCovered(messages: seq<Record>, units: seq<Unit>, later: seq<Record>, covered: seq<Unit>, hash: Record -> string, k: nat)
    requires forall a, b :: hash(a) == hash(b) ==> a == b
    requires UnitMarks(messages, units, hash) == UnitMarks(later, covered, hash)
    requires k < |MarkedPositions(units)| && MarkedPositions(units)[k] < |messages|
    ensures |MarkedPositions(units)| == |MarkedPositions(covered)|
    ensures MarkedPositions(covered)[k] < |later| ==>
              var a, b := messages[MarkedPositions(units)[k]], later[MarkedPositions(covered)[k]];
              && a.role == b.role && a.content == b.content && a.toolCallId == b.toolCallId && a.name == b.name
              && (a.role == "assistant" ==> a.toolCalls == b.toolCalls)
  {
    MarksAt(messages, units, hash);
    MarksAt(later, covered, hash);
    hide UnitMarks, MarkedPositions;
    if MarkedPositions(covered)[k] < |later| {
      var a, b := messages[MarkedPositions(units)[k]], later[MarkedPositions(covered)[k]];
      assert Marks(messages, MarkedPositions(units), hash)[k] == hash(StableRecord(a));
      assert Marks(later, MarkedPositions(covered), hash)[k] == hash(StableRecord(b));
    }
  }

  // ---- planning ----

  datatype DigestPlan = DigestPlan(layout: Layout, coveredUnits: nat, targetUnits: nat, totalTokens: nat)

  function Tail(tokens: seq<nat>, from: nat): nat
    requires from <= |tokens|
    decreases |tokens| - from
  {
    if from == |tokens| then 0 else tokens[from] + Tail(tokens, from + 1)
  }

  /** The last units that fit into `keep` stay as they are, the very last one always; `from` is where they begin. */
  predicate KeptFrom(tokens: seq<nat>, keep: int, from: nat) {
    && from < |tokens| && (from == |tokens| - 1 || Tail(tokens, from) <= keep)
    && (from == 0 || Tail(tokens, from - 1) > keep)
  }

  /** The units in front of the kept ones up to the first incomplete one. */
  ghost predicate Coverable(units: seq<Unit>, tokens: seq<nat>, keep: int, target: nat)
    requires |units| == |tokens|
  {
    exists from: nat :: KeptFrom(tokens, keep, from) && target <= from
                        && AllComplete(units[..target]) && (target < from ==> !units[target].complete)
  }

  /** `_coverable_units` */
  method CoverableUnits(units: seq<Unit>, tokens: seq<nat>, keep: int) returns (target: nat)
    requires |units| == |tokens| > 0
    ensures Coverable(units, tokens, keep, target)
  {
    var kept := 1;
    var used := tokens[|tokens| - 1];
    assert used == Tail(tokens, |tokens| - 1);
    while kept < |units|
      invariant 1 <= kept <= |units| && used == Tail(tokens, |units| - kept)
      invariant kept == 1 || used <= keep
    {
      var index := |units| - kept - 1;
      if used + tokens[index] > keep {
        break;
      }
      used := used + tokens[index];
      kept := kept + 1;
    }
    ghost var from := |units| - kept;
    assert KeptFrom(tokens, keep, from);
    target := 0;
    while target < |units| - kept && units[target].complete
      invariant target <= |units| - kept && AllComplete(units[..target])
    {
      target := target + 1;
    }
  }

  function UnitTokens(view: seq<Record>, indices: seq<nat>, tokens: Record -> nat): nat {
    if indices == [] then 0
    else
      var last := indices[|indices| - 1];
      UnitTokens(view, indices[..|indices| - 1], tokens) + if last < |view| then tokens(view[last]) else 0
  }

  function TokensOf(view: seq<Record>, units: seq<Unit>, tokens: Record -> nat): (r: seq<nat>)
    ensures |r| == |units|
  {
    seq(|units|, u requires 0 <= u < |units| => UnitTokens(view, units[u].indices, tokens))
  }

  /** What the task still sends in full: its uncovered units and the instruction. */
  function Uncovered(view: seq<Record>, layout: Layout, covered: nat, tokens: Record -> nat): nat {
    (if covered <= |layout.units| then Tail(TokensOf(view, layout.units, tokens), covered) else 0)
    + match layout.instruction case None => 0 case Some(i) => if i < |view| then tokens(view[i]) else 0
  }

  lemma {:induction false} UnitTokensAdd(view: seq<Record>, a: seq<nat>, b: seq<nat>, tokens: Record -> nat)
    ensures UnitTokens(view, a + b, tokens) == UnitTokens(view, a, tokens) + UnitTokens(view, b, tokens)
    ensures forall i: nat | i < |view| :: UnitTokens(view, [i], tokens) == tokens(view[i])
  {
    if b == [] {
      assert a + b == a;
    } else {
      assert (a + b)[..|a + b| - 1] == a + b[..|b| - 1];
      UnitTokensAdd(view, a, b[..|b| - 1], tokens);
    }
  }

  lemma {:induction false} TailWeighs(view: seq<Record>, units: seq<Unit>, covered: nat, tokens: Record -> nat)
    requires covered <= |units|
    ensures Tail(TokensOf(view, units, tokens), covered) == UnitTokens(view, Positions(units[covered..]), tokens)
    decreases |units| - covered
  {
    if covered < |units| {
      TailWeighs(view, units, covered + 1, tokens);
      assert units[covered..] == [units[covered]] + units[covered + 1..];
      PositionsFirst(units[covered], units[covered + 1..]);
      UnitTokensAdd(view, units[covered].indices, Positions(units[covered + 1..]), tokens);
    }
  }

  /** What is uncovered weighs as much as all its positions together, and positions weigh what their messages do. */
  lemma UncoveredWeighs(view: seq<Record>, layout: Layout, covered: nat, tokens: Record -> nat)
    requires covered <= |layout.units|
    ensures Uncovered(view, layout, covered, tokens) ==
            UnitTokens(view, Positions(layout.units[covered..]) + (if layout.instruction.Some? then [layout.instruction.value] else []), tokens)
    ensures forall i: nat | i < |view| :: UnitTokens(view, [i], tokens) == tokens(view[i])
  {
    TailWeighs(view, layout.units, covered, tokens);
    var instruction := if layout.instruction.Some? then [layout.instruction.value] else [];
    UnitTokensAdd(view, Positions(layout.units[covered..]), instruction, tokens);
  }

  lemma {:induction false} PositionsFirst(unit: Unit, rest: seq<Unit>)
    ensures Positions([unit] + rest) == unit.indices + Positions(rest)
  {
    if rest != [] {
      PositionsFirst(unit, rest[..|rest| - 1]);
      assert ([unit] + rest)[..|rest|] == [unit] + rest[..|rest| - 1];
    } else {
      assert [unit] + rest == [unit] && [unit][..0] == [];
    }
  }

  /** What the plan has to be, given how much is covered and how much may be. */
  ghost predicate PlanFits(messages: seq<Record>, view: seq<Record>, task: string, digest: Option<TaskDigest>,
      trigger: int, keep: int,
                           requireNoDigest: bool, tokens: Record -> nat, hash: Record -> string,
                           covered: nat, target: nat, plan: Option<DigestPlan>) {
    var layout := LayoutOf(messages, task);
    var uncovered := Uncovered(view, layout, covered, tokens);
    && (if covered > 0 then digest.Some? && Covers(messages, layout.units, covered, digest.value.fingerprints, hash)
        else digest.Some? && digest.value.fingerprints != [] ==>
               forall c: nat :: !Covers(messages, layout.units, c, digest.value.fingerprints, hash))
    && Coverable(layout.units, TokensOf(view, layout.units, tokens), keep, target)
    && plan == if (covered > 0 && requireNoDigest) || uncovered <= trigger || target <= covered then None
               else Some(DigestPlan(layout, covered, target, uncovered))
  }

  /** `plan_task_digest`: a plan always covers more complete units than before, and never the last unit. */
  method PlanTaskDigest(messages: seq<Record>, view: seq<Record>, task: string, digest: Option<TaskDigest>,
      trigger: int, keep: int,
                        requireNoDigest: bool, tokens: Record -> nat, hash: Record -> string)
    returns (plan: Option<DigestPlan>)
    ensures if |view| != |messages| || |LayoutOf(messages, task).units| < 2 then plan.None?
            else exists covered: nat, target: nat ::
                   PlanFits(messages, view, task, digest, trigger, keep, requireNoDigest, tokens, hash, covered, target, plan)
    ensures plan.Some? ==> plan.value.layout == LayoutOf(messages, task) && 0 < plan.value.targetUnits < |plan.value.layout.units|
                           && AllComplete(plan.value.layout.units[..plan.value.targetUnits])
    ensures plan.Some? ==> AllAnswered(messages, plan.value.layout.units[..plan.value.targetUnits])
  {
    if |view| != |messages| {
      return None;
    }
    var layout := TaskLayout(messages, task);
    if |layout.units| < 2 {
      return None;
    }
    var coverage := VerifiedCoverage(messages, layout, digest, hash);
    var covered := match coverage case None => 0 case Some(count) => count;
    CoveredInRange(messages, layout.units, coverage, digest, hash);
    hide Covers, Tail, LayoutOf, KeptFrom;
    var target := CoverableUnits(layout.units, TokensOf(view, layout.units, tokens), keep);
    CoverableInRange(layout.units, TokensOf(view, layout.units, tokens), keep, target);
    var total := Uncovered(view, layout, covered, tokens);
    if (covered > 0 && requireNoDigest) || total <= trigger || target <= covered {
      plan := None;
    } else {
      plan := Some(DigestPlan(layout, covered, target, total));
      CompleteAnswered(messages, task, target);
    }
    hide AllAnswered, AllComplete;
    assert PlanFits(messages, view, task, digest, trigger, keep, requireNoDigest, tokens, hash, covered, target, plan);
  }

  /** No round among these units leaves a call without its result. */
  ghost predicate AllAnswered(messages: seq<Record>, units: seq<Unit>) {
    forall u | 0 <= u < |units| && units[u].toolRound :: Start(units[u]) < |messages| && RoundAnswered(messages, units[u])
  }

  lemma CompleteAnswered(messages: seq<Record>, task: string, count: nat)
    ensures count <= |LayoutOf(messages, task).units| && AllComplete(LayoutOf(messages, task).units[..count]) ==>
              AllAnswered(messages, LayoutOf(messages, task).units[..count])
  {
    var units := LayoutOf(messages, task).units;
    hide LayoutOf, RoundAnswered;
    if count <= |units| && AllComplete(units[..count]) {
      forall u | 0 <= u < count && units[..count][u].toolRound
        ensures Start(units[..count][u]) < |messages| && RoundAnswered(messages, units[..count][u])
      {
        LayoutUnits(messages, task, u);
      }
    }
  }

  lemma CoverableInRange(units: seq<Unit>, tokens: seq<nat>, keep: int, target: nat)
    ensures |units| == |tokens| && Coverable(units, tokens, keep, target) ==> target < |units| && AllComplete(units[..target])
  {
  }

  lemma CoveredInRange(messages: seq<Record>, units: seq<Unit>, coverage: Option<nat>, digest: Option<TaskDigest>,
      hash: Record -> string)
    requires coverage.Some? ==> digest.Some? && Covers(messages, units, coverage.value, digest.value.fingerprints, hash)
    ensures coverage.Some? ==> 0 < coverage.value <= |units|
  {
  }

  /** The coverage part of `compose_task_digest`. */
  function Compose(messages: seq<Record>, plan: DigestPlan, task: string, text: string, hash: Record -> string): TaskDigest {
    var units := plan.layout.units;
    TaskDigest(task, text, UnitMarks(messages, if plan.targetUnits <= |units| then units[..plan.targetUnits] else units, hash), plan.targetUnits)
  }

  /**
   A digest made from a plan verifies on the history it was made from and on every longer one, and what it
   covers there is always exactly the units of the plan.
  */
  lemma DigestVerifies(messages: seq<Record>, more: seq<Record>, task: string, text: string, plan: DigestPlan,
      hash: Record -> string, count: nat)
    requires plan.layout == LayoutOf(messages, task) && 0 < plan.targetUnits < |plan.layout.units| && AllComplete(plan.layout.units[..plan.targetUnits])
    ensures Covers(messages + more, LayoutOf(messages + more, task).units, count, Compose(messages, plan, task, text, hash).fingerprints, hash)
            <==> count == plan.targetUnits
    ensures var digest := Compose(messages, plan, task, text, hash);
            digest.fingerprints != [] && digest.text == text && digest.taskId == task && digest.coveredUnits == plan.targetUnits
  {
    hide LayoutOf, UnitMarks;
    var units, grown := plan.layout.units, LayoutOf(messages + more, task).units;
    var target := plan.targetUnits;
    LayoutKept(messages, more, task);
    assert units[..|units| - 1][..target] == units[..target] && grown[..|units| - 1][..target] == grown[..target];
    StoredMembers(messages, task);
    StoredMembers(messages + more, task);
    assert forall u, k | 0 <= u < target && k in units[..target][u].fingerprinted :: k < |messages|;
    MarksKept(messages, more, units[..target], hash);
    var fingerprints := UnitMarks(messages, units[..target], hash);
    assert Covers(messages + more, grown, target, fingerprints, hash);
    if Covers(messages + more, grown, count, fingerprints, hash) {
      CoverageIsUnique(messages + more, grown, count, target, fingerprints, hash);
    }
    SomeMark(messages, units[..target], hash);
  }

  lemma SomeMark(messages: seq<Record>, units: seq<Unit>, hash: Record -> string)
    ensures units != [] && units[|units| - 1].fingerprinted != [] ==> UnitMarks(messages, units, hash) != []
  {
  }

  lemma StoredMembers(messages: seq<Record>, task: string)
    ensures var units := LayoutOf(messages, task).units;
            && (forall u | 0 <= u < |units| :: units[u].fingerprinted != [])
            && forall u, k | 0 <= u < |units| && k in units[u].fingerprinted :: k < |messages|
  {
    if task != "" && messages != [] {
      LayoutPartitions(messages, task, 0);
      hide LayoutOf;
      var units := LayoutOf(messages, task).units;
      forall u, k | 0 <= u < |units| && k in units[u].fingerprinted ensures k < |messages| {
        assert IsStretch(units[u], Start(units[u]), End(units[u]));
      }
    }
  }

  // ---- applying a digest ----

  function DigestMessage(digest: TaskDigest): Record {
    Record("user", digest.text, "", "", Some(NO_META.(taskId := digest.taskId, messageType := DIGEST_MESSAGE_TYPE)), [], "", "",
           false, false, false, false)
  }

  /** One user message with the digest's text and task stands in place of position `first`; from there on the dropped ones are gone. */
  ghost predicate PutsDigest(view: seq<Record>, digest: TaskDigest, first: nat, dropped: set<int>, result: seq<Record>) {
    && first < |view|
    && exists put, rest ::
         && result == view[..first] + [put] + rest && LeavesOut(view, dropped, first + 1, rest)
         && put.role == "user" && put.content == digest.text && TaskOf(put) == digest.taskId && MetaOf(put).messageType == "task_digest"
  }

  /** Hints and receipts of the running time that go with the rounds around them. */
  predicate Stray(r: Record) {
    r.isRetryHint || r.isEphemeral
  }

  predicate InUnits(units: seq<Unit>, count: nat, k: int) {
    exists u :: 0 <= u < |units| && u < count && InUnit(units[u], k)
  }

  predicate InUnit(unit: Unit, k: int) {
    Start(unit) <= k < End(unit)
  }

  /** What goes: the covered units, and strays strictly between the first and the last covered message. */
  function Dropped(messages: seq<Record>, units: seq<Unit>, count: nat): set<int>
    requires 0 < count <= |units|
  {
    set k | 0 <= k < |messages| && (InUnits(units, count, k)
                                    || (Start(units[0]) < k < End(units[count - 1]) - 1 && Stray(messages[k])))
  }

  /**
   Of the messages of the task exactly those of the covered units go; the instruction, every later unit and
   everything before the first covered message stay.
  */
  lemma OnlyCoveredUnitsGo(messages: seq<Record>, task: string, count: nat, k: nat)
    requires task != "" && k < |messages| && 0 < count <= |LayoutOf(messages, task).units|
    ensures var layout := LayoutOf(messages, task);
            var dropped := Dropped(messages, layout.units, count);
            && (InUnits(layout.units, count, k) ==> k in dropped)
            && (Owned(messages[k], task) && k in dropped ==> InUnits(layout.units, count, k))
            && (layout.instruction == Some(k) ==> k !in dropped)
            && (forall u | count <= u < |layout.units| && InUnit(layout.units[u], k) :: k !in dropped)
            && (k < Start(layout.units[0]) ==> k !in dropped)
            && (k in dropped && !InUnits(layout.units, count, k) ==> messages[k].isRetryHint || messages[k].isEphemeral)
            && (Start(layout.units[0]) < k < End(layout.units[count - 1]) - 1 && (messages[k].isRetryHint || messages[k].isEphemeral) ==> k in dropped)
  {
    LayoutPartitions(messages, task, k);
    var layout := LayoutOf(messages, task);
    hide LayoutOf, Owned;
    var units := layout.units;
    assert IsStretch(units[0], Start(units[0]), End(units[0])) && IsStretch(units[count - 1], Start(units[count - 1]), End(units[count - 1]));
    if u :| 0 <= u < |units| && k in units[u].indices {
      assert IsStretch(units[u], Start(units[u]), End(units[u]));
      assert InUnit(units[u], k);
    }
  }

  /** The positions of the covered units, in order. */
  function Positions(units: seq<Unit>): seq<nat> {
    if units == [] then [] else Positions(units[..|units| - 1]) + units[|units| - 1].indices
  }

  lemma LastUnit(units: seq<Unit>, from: nat, until: nat)
    requires InOrder(units, from, until) && units != []
    ensures var n := |units| - 1;
            var init, last := units[..n], units[n];
            && InOrder(init, from, until) && IsStretch(last, Start(last), End(last))
            && (forall k: int :: InUnits(units, n + 1, k) <==> InUnits(init, n, k) || InUnit(last, k))
            && (forall k: int :: InUnits(init, n, k) ==> k < Start(last))
  {
    hide IsStretch, Start, End;
    var n := |units| - 1;
    var init, last := units[..n], units[n];
    forall k: int ensures InUnits(units, n + 1, k) <==> InUnits(init, n, k) || InUnit(last, k) {
      if u :| 0 <= u < n && InUnit(init[u], k) {
        assert InUnit(units[u], k);
      }
      if InUnit(last, k) {
        assert InUnit(units[n], k);
      }
    }
    forall k: int | InUnits(init, n, k) ensures k < Start(last) {
      var u :| 0 <= u < n && InUnit(init[u], k);
      assert End(units[u]) <= Start(units[n]);
    }
  }

  lemma StretchPositions(unit: Unit)
    requires IsStretch(unit, Start(unit), End(unit))
    ensures forall k: int :: k in unit.indices <==> InUnit(unit, k)
    ensures forall i, j | 0 <= i < j < |unit.indices| :: unit.indices[i] < unit.indices[j]
  {
    forall k: int ensures k in unit.indices <==> InUnit(unit, k) {
      assert InUnit(unit, k) ==> unit.indices[k - Start(unit)] == k;
    }
  }

  lemma {:induction false} PositionsAscend(units: seq<Unit>, from: nat, until: nat)
    requires InOrder(units, from, until)
    ensures forall i, j | 0 <= i < j < |Positions(units)| :: Positions(units)[i] < Positions(units)[j]
    ensures forall k: int :: k in Positions(units) <==> InUnits(units, |units|, k)
    ensures units != [] ==> Positions(units) != [] && Positions(units)[0] == Start(units[0])
                            && Positions(units)[|Positions(units)| - 1] == End(units[|units| - 1]) - 1
  {
    if units != [] {
      var n := |units| - 1;
      LastUnit(units, from, until);
      StretchPositions(units[n]);
      hide InOrder, IsStretch, InUnit, InUnits;
      PositionsAscend(units[..n], from, until);
      var before := Positions(units[..n]);
      forall i | 0 <= i < |before| ensures before[i] < Start(units[n]) {
        assert before[i] in before;
      }
    }
  }

  method CoveredPositions(units: seq<Unit>) returns (covered: seq<nat>)
    ensures covered == Positions(units)
  {
    covered := [];
    for u := 0 to |units|
      invariant covered == Positions(units[..u])
    {
      assert units[..u + 1][..u] == units[..u];
      covered := covered + units[u].indices;
    }
    assert units[..|units|] == units;
  }

  method PutDigest(view: seq<Record>, first: nat, dropped: set<int>, digest: TaskDigest) returns (result: seq<Record>)
    requires first < |view| && first in dropped && forall k | k in dropped :: first <= k
    ensures result == view[..first] + [DigestMessage(digest)] + Remaining(view, dropped, first + 1)
    ensures PutsDigest(view, digest, first, dropped, result)
  {
    result := [];
    for index := 0 to |view|
      invariant index <= first ==> result == view[..index]
      invariant index > first ==> result + Remaining(view, dropped, index)
                                  == view[..first] + [DigestMessage(digest)] + Remaining(view, dropped, first + 1)
    {
      if index == first {
        result := result + [DigestMessage(digest)];
      }
      if index !in dropped {
        result := result + [view[index]];
      }
    }
    assert result + Remaining(view, dropped, |view|) == result;
    RemainingIs(view, dropped, first + 1);
    hide LeavesOut;
  }

  /**
   `apply_task_digest`: the digest takes the place of the first covered message, what is covered goes, and
   everything else stays in order.
  */
  method ApplyTaskDigest(messages: seq<Record>, view: seq<Record>, task: string, digest: TaskDigest, hash: Record -> string)
    returns (result: Option<seq<Record>>)
    ensures result.Some? <==>
            && |view| == |messages| && digest.taskId == task && digest.fingerprints != []
            && exists count: nat :: Covers(messages, LayoutOf(messages, task).units, count, digest.fingerprints, hash)
    ensures result.Some? ==>
              var units := LayoutOf(messages, task).units;
              exists count: nat ::
                && Covers(messages, units, count, digest.fingerprints, hash)
                && var first := Start(units[0]);
                   first < |view| && result.value == view[..first] + [DigestMessage(digest)] + Remaining(view, Dropped(messages, units, count), first + 1)
    ensures result.Some? ==>
              var units := LayoutOf(messages, task).units;
              exists count: nat ::
                && Covers(messages, units, count, digest.fingerprints, hash) && AllAnswered(messages, units[..count])
                && PutsDigest(view, digest, Start(units[0]), Dropped(messages, units, count), result.value)
  {
    if |view| != |messages| || digest.taskId != task {
      return None;
    }
    var layout := TaskLayout(messages, task);
    var coverage := VerifiedCoverage(messages, layout, Some(digest), hash);
    CoveredInRange(messages, layout.units, coverage, Some(digest), hash);
    if coverage.None? || coverage.value == 0 {
      return None;
    }
    CoveredShape(messages, task, coverage.value);
    CompleteAnswered(messages, task, coverage.value);
    hide AllAnswered, AllComplete, PutsDigest, DigestMessage;
    hide Covers, LayoutOf, Start, End, Dropped, Positions, Remaining, Stray;
    var covered := CoveredPositions(layout.units[..coverage.value]);
    var first, last := covered[0], covered[|covered| - 1];
    var dropped: set<int> := (set k | k in covered) + set k | first < k < last && Stray(messages[k]);
    assert first in covered;
    var rewritten := PutDigest(view, first, dropped, digest);
    return Some(rewritten);
  }

  lemma LayoutInOrder(messages: seq<Record>, task: string)
    ensures InOrder(LayoutOf(messages, task).units, 0, |messages|)
  {
    hide InOrder;
    assert InOrder([], 0, |messages|) by { NoUnits(|messages|); }
    var first := FirstOwned(messages, 0, task);
    if task != "" && first < |messages| {
      var start := if IsInstruction(messages[first]) then first + 1 else first;
      UnitsInOrder(messages, start, task);
      StartEarlier(UnitsFrom(messages, start, task), start, |messages|);
    }
  }

  lemma NoUnits(until: nat)
    ensures InOrder([], 0, until)
  {
  }

  lemma StartEarlier(units: seq<Unit>, from: nat, until: nat)
    ensures InOrder(units, from, until) ==> InOrder(units, 0, until)
  {
  }

  lemma FirstUnits(units: seq<Unit>, until: nat, count: nat)
    requires InOrder(units, 0, until) && 0 < count <= |units|
    ensures InOrder(units[..count], 0, until) && Start(units[0]) < End(units[count - 1]) <= until
    ensures forall k: int :: InUnits(units, count, k) <==> InUnits(units[..count], count, k)
    ensures forall k: int :: InUnits(units, count, k) ==> k < until
  {
    var front := units[..count];
    assert IsStretch(units[count - 1], Start(units[count - 1]), End(units[count - 1]));
    forall k: int ensures InUnits(units, count, k) <==> InUnits(front, count, k) {
      if u :| 0 <= u < count && InUnit(units[u], k) {
        assert InUnit(front[u], k);
      }
    }
  }

  lemma CoveredShape(messages: seq<Record>, task: string, count: nat)
    requires 0 < count <= |LayoutOf(messages, task).units|
    ensures var all := LayoutOf(messages, task).units;
            var positions := Positions(all[..count]);
            && positions != [] && positions[0] == Start(all[0]) < |messages| && positions[|positions| - 1] < |messages|
            && (forall k | k in positions :: positions[0] <= k <= positions[|positions| - 1])
            && Dropped(messages, all, count) == (set k | k in positions)
                 + set k: int | positions[0] < k < positions[|positions| - 1] && Stray(messages[k])
  {
    LayoutInOrder(messages, task);
    var all := LayoutOf(messages, task).units;
    hide LayoutOf, InOrder, IsStretch, InUnits, Stray, Start, End;
    FirstUnits(all, |messages|, count);
    PositionsAscend(all[..count], 0, |messages|);
    var positions := Positions(all[..count]);
    forall k | k in positions ensures positions[0] <= k <= positions[|positions| - 1] {
      var i :| 0 <= i < |positions| && positions[i] == k;
    }
  }
}
