/**
 Messages as the history-rewriting code of the engine reads them: the fields of a stored or running record
 and the few questions that engine/compaction_plan.py, engine/task_record.py, engine/task_digest.py and
 engine/compact.py ask about it.
*/
module Messages {
  import opened Common

  /** A record's metadata; an empty field stands for an absent key. */
  datatype Meta = Meta(
    taskId: string, messageType: string, toolCallId: string, callIds: seq<string>, compressed: seq<string>,
    other: map<string, string>, mark: Option<string>)

  /** A well-formed entry of `tool_calls`; its id may be missing, which is "". */
  datatype Call = Call(id: string, name: string, arguments: string)

  /** `isDynamic`, `isEphemeral` and `isRetryHint` are running-time flags, `storedEphemeral` is the stored one. */
  datatype Record = Record(
    role: string, content: string, taskId: string, messageType: string, meta: Option<Meta>, toolCalls: seq<Call>,
    toolCallId: string, name: string, isDynamic: bool, isEphemeral: bool, isRetryHint: bool, storedEphemeral: bool)

  const NO_META := Meta("", "", "", [], [], map[], None)
  const COMPACT_SUMMARY := "compact_summary"
  const TEXT_TOOL_RESULT_PREFIX := "Tool result for \""

  function MetaOf(r: Record): Meta {
    match r.meta case None => NO_META case Some(m) => m
  }

  /** `record_task_id` */
  function TaskOf(r: Record): string {
    if r.taskId != "" then r.taskId else MetaOf(r).taskId
  }

  function NonEmpty(ids: seq<string>): (r: seq<string>)
    ensures forall id :: id in r <==> id in ids && id != ""
  {
    if ids == [] then [] else (if ids[0] != "" then [ids[0]] else []) + NonEmpty(ids[1..])
  }

  function IdsOf(calls: seq<Call>): (ids: seq<string>)
    ensures |ids| == |calls| && forall i | 0 <= i < |ids| :: ids[i] == calls[i].id
  {
    seq(|calls|, i requires 0 <= i < |calls| => calls[i].id)
  }

  /** `_tool_call_ids` */
  function CallIds(r: Record): (ids: seq<string>)
    ensures "" !in ids
  {
    if r.role != "assistant" then []
    else if r.toolCalls != [] then NonEmpty(IdsOf(r.toolCalls))
    else NonEmpty(MetaOf(r).callIds)
  }

  /** Exactly the non-empty ids an assistant calls; the metadata speaks only if there are no calls. */
  lemma CallIdsAre(r: Record, id: string)
    ensures id in CallIds(r) <==>
            && r.role == "assistant" && id != ""
            && if r.toolCalls != [] then exists i :: 0 <= i < |r.toolCalls| && r.toolCalls[i].id == id
               else r.meta.Some? && id in r.meta.value.callIds
  {
    var ids := IdsOf(r.toolCalls);
    if i :| 0 <= i < |r.toolCalls| && r.toolCalls[i].id == id {
      assert ids[i] == id;
    }
  }

  /** `is_tool_result_message` */
  predicate IsToolResult(r: Record) {
    || r.role == "tool" || r.messageType == "tool_result" || MetaOf(r).messageType == "tool_result"
    || TEXT_TOOL_RESULT_PREFIX <= r.content
  }

  /** The record as the fingerprint sees it: view marks do not count. */
  function WithoutMark(r: Record): Record {
    match r.meta
    case Some(m) =>
      if m.mark.None? then r
      else if m.(mark := None) == NO_META then r.(meta := None)
      else r.(meta := Some(m.(mark := None)))
    case None => r
  }

  /** Two records differ at most in their view marks; metadata stored as an empty object counts as a difference. */
  predicate SameButMark(a: Record, b: Record) {
    && a.(meta := None) == b.(meta := None) && MetaOf(a).(mark := None) == MetaOf(b).(mark := None)
    && (a.meta == Some(NO_META) <==> b.meta == Some(NO_META))
  }

  /** The fingerprint's view shows everything of a record but the mark. */
  lemma SameView(a: Record, b: Record)
    ensures WithoutMark(a) == WithoutMark(b) <==> SameButMark(a, b)
  {
    ViewOf(a);
    ViewOf(b);
    hide WithoutMark;
    SameRecord(WithoutMark(a), WithoutMark(b));
  }

  lemma ViewOf(r: Record)
    ensures WithoutMark(r).(meta := None) == r.(meta := None)
    ensures WithoutMark(r).meta ==
            match r.meta
            case Some(m) => if m.mark.Some? && m.(mark := None) == NO_META then None else Some(m.(mark := None))
            case None => None
  {
  }

  lemma SameRecord(a: Record, b: Record)
    ensures a == b <==> a.(meta := None) == b.(meta := None) && a.meta == b.meta
  {
    assert a == a.(meta := None).(meta := a.meta) && b == b.(meta := None).(meta := b.meta);
  }

  /** Setting a mark keeps the fingerprint's view of a record exactly if its metadata was absent or not empty. */
  lemma MarkIsInvisible(r: Record, mark: string)
    ensures WithoutMark(r.(meta := Some(MetaOf(r).(mark := Some(mark))))) == WithoutMark(r) <==> r.meta != Some(NO_META)
  {
  }

  /** Nothing that decides about segments and pairing looks at view marks. */
  lemma MarksDoNotMatter(r: Record)
    ensures var plain := WithoutMark(r);
            && TaskOf(plain) == TaskOf(r) && CallIds(plain) == CallIds(r) && plain.role == r.role && plain.toolCallId == r.toolCallId
            && plain.isDynamic == r.isDynamic && plain.isEphemeral == r.isEphemeral && plain.storedEphemeral == r.storedEphemeral
  {
    hide NonEmpty, IdsOf;
    assert MetaOf(WithoutMark(r)).(mark := None) == MetaOf(r).(mark := None);
  }

  function Fingerprint(r: Record, hash: Record -> string): string {
    hash(WithoutMark(r))
  }

  /** The messages from position `from` on that are not selected. */
  function Remaining(history: seq<Record>, selected: set<int>, from: nat): seq<Record>
    decreases |history| - from
  {
    if from >= |history| then []
    else (if from in selected then [] else [history[from]]) + Remaining(history, selected, from + 1)
  }

  /** `rest` is exactly what is not selected from position `from` on, in order. */
  ghost predicate LeavesOut(history: seq<Record>, selected: set<int>, from: nat, rest: seq<Record>) {
    exists ix: seq<nat> :: Selects(history, ix, rest) && forall i: nat | i < |history| :: i in ix <==> from <= i && i !in selected
  }

  lemma {:induction false} RemainingIs(history: seq<Record>, selected: set<int>, from: nat)
    ensures LeavesOut(history, selected, from, Remaining(history, selected, from))
    decreases |history| - from
  {
    if from >= |history| {
      assert Selects(history, [], []);
    } else {
      hide LeavesOut;
      RemainingIs(history, selected, from + 1);
      LeavesOutStep(history, selected, from, Remaining(history, selected, from + 1));
      assert [] + Remaining(history, selected, from + 1) == Remaining(history, selected, from + 1);
    }
  }

  lemma LeavesOutStep(history: seq<Record>, selected: set<int>, from: nat, rest: seq<Record>)
    requires from < |history| && LeavesOut(history, selected, from + 1, rest)
    ensures LeavesOut(history, selected, from, if from in selected then rest else [history[from]] + rest)
  {
    var ix: seq<nat> :| Selects(history, ix, rest) && forall i: nat | i < |history| :: i in ix <==> from + 1 <= i && i !in selected;
    LeavesOutAt(history, selected, from, ix, rest);
  }

  lemma LeavesOutAt(history: seq<Record>, selected: set<int>, from: nat, ix: seq<nat>, rest: seq<Record>)
    requires from < |history| && Selects(history, ix, rest)
    requires forall i: nat | i < |history| :: i in ix <==> from + 1 <= i && i !in selected
    ensures LeavesOut(history, selected, from, if from in selected then rest else [history[from]] + rest)
  {
    forall k | 0 <= k < |ix| ensures from < ix[k] {
      assert ix[k] in ix;
    }
    SelectsFirst(history, from, ix, rest);
    hide Selects;
    if from !in selected {
      assert forall i :: i in [from] + ix <==> i == from || i in ix;
    }
  }
}
