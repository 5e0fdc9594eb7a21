/**
 Snipping old rounds (engine/task_record.py): all messages of a finished round are replaced by one marker
 with its summary, in the running history and in the stored one, and only rounds whose tool calls and
 results go together may be chosen.
*/
module Snip {
  import opened Common
  import opened Messages

  const SNIP_MARKER := "[Task summary — original messages snipped]"
  const SNIP_RETRIEVAL := "Original messages can be retrieved with search_context_archive and read_context_archive."

  datatype TaskRecord = TaskRecord(taskId: string, summary: string)

  function ResultId(r: Record): string {
    if r.toolCallId != "" then r.toolCallId else MetaOf(r).toolCallId
  }

  /** The message cannot be paired: calls without any id, or a tool result without one. */
  predicate IsUnpaired(r: Record) {
    || (r.role == "assistant" && r.toolCalls != [] && CallIds(r) == [])
    || (ResultId(r) == "" && IsToolResult(r))
  }

  predicate Refers(r: Record, id: string) {
    id in CallIds(r) || (id != "" && ResultId(r) == id)
  }

  /** The tasks that make the call `id`, and those that hold a result of it. */
  function CallTasks(messages: seq<Record>, id: string): set<string> {
    set i | 0 <= i < |messages| && id in CallIds(messages[i]) :: TaskOf(messages[i])
  }

  function ResultTasks(messages: seq<Record>, id: string): set<string> {
    set i | 0 <= i < |messages| && id != "" && ResultId(messages[i]) == id :: TaskOf(messages[i])
  }

  function UnpairedTasks(messages: seq<Record>): set<string> {
    set i | 0 <= i < |messages| && IsUnpaired(messages[i]) :: TaskOf(messages[i])
  }

  /** The tasks of a call id are outside the set, or all inside it with both a call and a result. */
  predicate Together(callTasks: set<string>, resultTasks: set<string>, tasks: set<string>) {
    var related := callTasks + resultTasks;
    related !! tasks || (callTasks != {} && resultTasks != {} && "" !in related && related <= tasks)
  }

  /** The tasks may be snipped: they are among those requested, and no pairing is torn apart. */
  ghost predicate Safe(messages: seq<Record>, requested: set<string>, tasks: set<string>) {
    && tasks <= requested && tasks !! UnpairedTasks(messages)
    && forall id :: Together(CallTasks(messages, id), ResultTasks(messages, id), tasks)
  }

  function At(index: map<string, set<string>>, id: string): set<string> {
    if id in index then index[id] else {}
  }

  function AddTo(index: map<string, set<string>>, id: string, task: string): map<string, set<string>> {
    index[id := At(index, id) + {task}]
  }

  /** The two indexes of the scan agree with the messages so far, and list no id that is not there. */
  ghost predicate Indexed(messages: seq<Record>, calls: map<string, set<string>>, results: map<string, set<string>>) {
    && (forall id :: At(calls, id) == CallTasks(messages, id))
    && (forall id :: At(results, id) == ResultTasks(messages, id))
  }

  method AddCalls(calls: map<string, set<string>>, ids: seq<string>, task: string) returns (next: map<string, set<string>>)
    ensures forall id :: At(next, id) == At(calls, id) + if id in ids then {task} else {}
  {
    next := calls;
    for k := 0 to |ids|
      invariant forall id :: At(next, id) == At(calls, id) + if id in ids[..k] then {task} else {}
    {
      assert ids[..k + 1] == ids[..k] + [ids[k]];
      next := AddTo(next, ids[k], task);
    }
    assert ids[..|ids|] == ids;
  }

  lemma TasksSnoc(messages: seq<Record>, r: Record, id: string)
    ensures CallTasks(messages + [r], id) == CallTasks(messages, id) + if id in CallIds(r) then {TaskOf(r)} else {}
    ensures ResultTasks(messages + [r], id) == ResultTasks(messages, id) + if id != "" && ResultId(r) == id then {TaskOf(r)} else {}
  {
    hide CallIds, ResultId, TaskOf;
    var next := messages + [r];
    assert next[|messages|] == r;
    forall i | 0 <= i < |messages| ensures next[i] == messages[i] {}
    forall t | t in CallTasks(messages, id) ensures t in CallTasks(next, id) {
      var i :| 0 <= i < |messages| && id in CallIds(messages[i]) && TaskOf(messages[i]) == t;
      assert id in CallIds(next[i]) && TaskOf(next[i]) == t;
    }
    forall t | t in ResultTasks(messages, id) ensures t in ResultTasks(next, id) {
      var i :| 0 <= i < |messages| && id != "" && ResultId(messages[i]) == id && TaskOf(messages[i]) == t;
      assert ResultId(next[i]) == id && TaskOf(next[i]) == t;
    }
  }

  lemma UnpairedSnoc(messages: seq<Record>, r: Record)
    ensures UnpairedTasks(messages + [r]) == UnpairedTasks(messages) + if IsUnpaired(r) then {TaskOf(r)} else {}
  {
    hide IsUnpaired, TaskOf;
    var next := messages + [r];
    assert next[|messages|] == r;
    forall t | t in UnpairedTasks(messages) ensures t in UnpairedTasks(next) {
      var i :| 0 <= i < |messages| && IsUnpaired(messages[i]) && TaskOf(messages[i]) == t;
      assert IsUnpaired(next[i]) && TaskOf(next[i]) == t;
    }
  }

  /** The scan of `safe_snip_task_ids`. */
  method IndexCalls(messages: seq<Record>)
    returns (calls: map<string, set<string>>, results: map<string, set<string>>, unpaired: set<string>)
    ensures Indexed(messages, calls, results) && unpaired == UnpairedTasks(messages)
  {
    hide CallIds, TaskOf, IsToolResult, CallTasks, ResultTasks, UnpairedTasks;
    calls, results, unpaired := map[], map[], {};
    NothingIndexed();
    for i := 0 to |messages|
      invariant Indexed(messages[..i], calls, results) && unpaired == UnpairedTasks(messages[..i])
    {
      var r := messages[i];
      assert messages[..i + 1] == messages[..i] + [r];
      forall id {
        TasksSnoc(messages[..i], r, id);
      }
      UnpairedSnoc(messages[..i], r);
      var ids := CallIds(r);
      calls := AddCalls(calls, ids, TaskOf(r));
      if r.role == "assistant" && r.toolCalls != [] && ids == [] {
        unpaired := unpaired + {TaskOf(r)};
      }
      var resultId := ResultId(r);
      if resultId != "" {
        results := AddTo(results, resultId, TaskOf(r));
      } else if IsToolResult(r) {
        unpaired := unpaired + {TaskOf(r)};
      }
    }
    assert messages[..|messages|] == messages;
  }

  lemma NothingIndexed()
    ensures Indexed([], map[], map[]) && UnpairedTasks([]) == {}
  {
  }

  /** The tasks that one pass of the loop excludes. */
  function Excluded(calls: map<string, set<string>>, results: map<string, set<string>>, ids: set<string>,
      eligible: set<string>): set<string> {
    set id, t | id in ids && !Together(At(calls, id), At(results, id), eligible) && t in At(calls, id) + At(results, id) && t in eligible :: t
  }

  method OnePass(calls: map<string, set<string>>, results: map<string, set<string>>, eligible: set<string>)
    returns (excluded: set<string>)
    ensures excluded == Excluded(calls, results, calls.Keys + results.Keys, eligible)
  {
    excluded := {};
    var todo := calls.Keys + results.Keys;
    while todo != {}
      invariant todo <= calls.Keys + results.Keys
      invariant excluded == Excluded(calls, results, calls.Keys + results.Keys - todo, eligible)
      decreases todo
    {
      var id :| id in todo;
      todo := todo - {id};
      var callTasks, resultTasks := At(calls, id), At(results, id);
      var related := callTasks + resultTasks;
      if callTasks == {} || resultTasks == {} || "" in related || !(related <= eligible) {
        excluded := excluded + related * eligible;
      }
    }
  }

  /** No set that is safe loses a member in a pass. */
  lemma PassKeepsSafe(messages: seq<Record>, calls: map<string, set<string>>, results: map<string, set<string>>,
      eligible: set<string>,
                      requested: set<string>, tasks: set<string>)
    requires Indexed(messages, calls, results) && Safe(messages, requested, tasks) && tasks <= eligible
    ensures tasks !! Excluded(calls, results, calls.Keys + results.Keys, eligible)
  {
    forall t | t in Excluded(calls, results, calls.Keys + results.Keys, eligible) ensures t !in tasks {
      var id :| id in calls.Keys + results.Keys && !Together(At(calls, id), At(results, id), eligible)
                && t in At(calls, id) + At(results, id) && t in eligible;
      assert Together(CallTasks(messages, id), ResultTasks(messages, id), tasks);
    }
  }

  /** The loop ends at the greatest safe subset of the requested tasks. */
  method SafeSnipTaskIds(messages: seq<Record>, requested: set<string>) returns (eligible: set<string>)
    ensures Safe(messages, requested, eligible)
    ensures forall tasks | Safe(messages, requested, tasks) :: tasks <= eligible
  {
    hide Excluded, Together, CallTasks, ResultTasks, UnpairedTasks;
    var calls, results, unpaired := IndexCalls(messages);
    eligible := requested - unpaired;
    while true
      invariant eligible <= requested - unpaired
      invariant forall tasks | Safe(messages, requested, tasks) :: tasks <= eligible
      decreases eligible
    {
      var excluded := OnePass(calls, results, eligible);
      forall tasks | Safe(messages, requested, tasks) ensures tasks !! excluded {
        PassKeepsSafe(messages, calls, results, eligible, requested, tasks);
      }
      PassExcludes(calls, results, eligible);
      if excluded == {} {
        NothingExcluded(messages, calls, results, eligible);
        return;
      }
      eligible := eligible - excluded;
    }
  }

  lemma PassExcludes(calls: map<string, set<string>>, results: map<string, set<string>>, eligible: set<string>)
    ensures Excluded(calls, results, calls.Keys + results.Keys, eligible) <= eligible
  {
  }

  lemma NothingExcluded(messages: seq<Record>, calls: map<string, set<string>>, results: map<string, set<string>>,
      eligible: set<string>)
    requires Indexed(messages, calls, results) && Excluded(calls, results, calls.Keys + results.Keys, eligible) == {}
    ensures forall id :: Together(CallTasks(messages, id), ResultTasks(messages, id), eligible)
  {
    forall id ensures Together(At(calls, id), At(results, id), eligible) {
      if t :| t in At(calls, id) + At(results, id) && t in eligible {
        assert t !in Excluded(calls, results, calls.Keys + results.Keys, eligible);
      }
    }
  }

  /** Snipping a safe set removes all messages of a call id, its calls and its results, or none of them. */
  lemma AllOrNothing(messages: seq<Record>, requested: set<string>, tasks: set<string>, id: string, i: nat, j: nat)
    requires Safe(messages, requested, tasks) && i < |messages| && j < |messages|
    requires Refers(messages[i], id) && Refers(messages[j], id)
    ensures TaskOf(messages[i]) in tasks <==> TaskOf(messages[j]) in tasks
    ensures TaskOf(messages[i]) in tasks ==>
              (exists k :: 0 <= k < |messages| && id in CallIds(messages[k])) && (exists k :: 0 <= k < |messages| && ResultId(messages[k]) == id)
  {
    assert Together(CallTasks(messages, id), ResultTasks(messages, id), tasks);
    assert TaskOf(messages[i]) in CallTasks(messages, id) + ResultTasks(messages, id);
    assert TaskOf(messages[j]) in CallTasks(messages, id) + ResultTasks(messages, id);
  }

  // ---- the rewritten histories ----

  predicate Blank(text: string) {
    forall c | c in text :: c in " \t\n\r"
  }

  /** `snip_summaries`: the last usable summary of each task. */
  function SnipSummaries(records: seq<TaskRecord>): (summaries: map<string, string>)
    ensures "" !in summaries
  {
    if records == [] then map[]
    else
      var before, last := SnipSummaries(records[..|records| - 1]), records[|records| - 1];
      if last.taskId != "" && !Blank(last.summary) then before[last.taskId := last.summary] else before
  }

  /** A usable summary is not blank; of several for one task the last one counts. */
  lemma {:induction false} SummariesAre(records: seq<TaskRecord>, task: string)
    ensures task in SnipSummaries(records) <==> exists i :: 0 <= i < |records| && LastUsable(records, task, i)
    ensures forall i | 0 <= i < |records| && LastUsable(records, task, i) :: SnipSummaries(records)[task] == records[i].summary
  {
    if records != [] {
      var n := |records| - 1;
      SummariesAre(records[..n], task);
      forall i | 0 <= i < n ensures LastUsable(records, task, i) <==> LastUsable(records[..n], task, i) && !Usable(records[n], task) {
        assert records[..n][i] == records[i];
      }
      assert LastUsable(records, task, n) <==> Usable(records[n], task);
      hide LastUsable;
    }
  }

  predicate Usable(record: TaskRecord, task: string) {
    task != "" && record.taskId == task && exists k :: 0 <= k < |record.summary| && record.summary[k] !in " \t\n\r"
  }

  predicate LastUsable(records: seq<TaskRecord>, task: string, i: nat)
    requires i < |records|
  {
    Usable(records[i], task) && forall j | i < j < |records| :: !Usable(records[j], task)
  }

  function MarkerText(summary: string): string {
    SNIP_MARKER + "\n" + summary + "\n\n" + SNIP_RETRIEVAL
  }

  /** The marker in a running history keeps the metadata of the message it stands for. */
  function HistoryMarker(r: Record, summary: string): Record {
    Record("user", MarkerText(summary), "", "", Some(MetaOf(r).(taskId := TaskOf(r), messageType := "summary")), [], "", "",
           false, false, false, false)
  }

  function StoreMarker(r: Record, summary: string): Record {
    Record("user", MarkerText(summary), TaskOf(r), "summary", Some(MetaOf(r).(messageType := "summary")), [], "", "",
           false, false, false, false)
  }

  /** No earlier message is of the same task. */
  predicate FirstOfTask(messages: seq<Record>, i: nat)
    requires i < |messages|
  {
    forall k | 0 <= k < i :: TaskOf(messages[k]) != TaskOf(messages[i])
  }

  /** What becomes of message `i`: itself, the marker of its task, or nothing. */
  function Rewrite(messages: seq<Record>, i: nat, tasks: set<string>, marker: Record -> Record): seq<Record>
    requires i < |messages|
  {
    if TaskOf(messages[i]) !in tasks then [messages[i]]
    else if FirstOfTask(messages, i) then [marker(messages[i])]
    else []
  }

  function Snipped(messages: seq<Record>, n: nat, tasks: set<string>, marker: Record -> Record): seq<Record>
    requires n <= |messages|
  {
    if n == 0 then [] else Snipped(messages, n - 1, tasks, marker) + Rewrite(messages, n - 1, tasks, marker)
  }

  /** `r` is a marker of the task of `original`, with this summary. */
  predicate MarksTask(r: Record, original: Record, summary: string) {
    && r.role == "user" && TaskOf(r) == TaskOf(original) && r.toolCalls == [] && r.toolCallId == ""
    && r.content == SNIP_MARKER + "\n" + summary + "\n\n" + SNIP_RETRIEVAL
    && MetaOf(r).messageType == "summary"
    && MetaOf(r).(taskId := "", messageType := "") == MetaOf(original).(taskId := "", messageType := "")
  }

  /**
   The first `n` messages without those of the snipped tasks, but with a marker in place of the first one of each:
   `kept` are the messages that stay or are stood for, in order.
  */
  ghost predicate RewritesTo(messages: seq<Record>, n: nat, tasks: set<string>, summaries: map<string, string>, result: seq<Record>) {
    exists ix: seq<nat>, kept ::
      && Selects(messages, ix, kept) && |kept| == |result|
      && (forall i: nat :: i in ix <==> i < n && i < |messages| && StaysAt(messages, tasks, i))
      && forall k | 0 <= k < |kept| :: StandsFor(result[k], kept[k], tasks, summaries)
  }

  /** The message at `i` is not snipped, or no message before it is of its task. */
  predicate StaysAt(messages: seq<Record>, tasks: set<string>, i: nat)
    requires i < |messages|
  {
    TaskOf(messages[i]) !in tasks || forall j | 0 <= j < i :: TaskOf(messages[j]) != TaskOf(messages[i])
  }

  predicate StandsFor(r: Record, original: Record, tasks: set<string>, summaries: map<string, string>) {
    if TaskOf(original) !in tasks then r == original
    else TaskOf(original) in summaries ==> MarksTask(r, original, summaries[TaskOf(original)])
  }

  lemma {:induction false} SnippedIs(messages: seq<Record>, n: nat, tasks: set<string>, summaries: map<string, string>, store: bool)
    requires n <= |messages|
    ensures RewritesTo(messages, n, tasks, summaries, Snipped(messages, n, tasks, Marking(summaries, store)))
  {
    hide RewritesTo, Rewrite;
    if n == 0 {
      NothingRewritten(messages, tasks, summaries);
    } else {
      SnippedIs(messages, n - 1, tasks, summaries, store);
      RewriteStep(messages, n - 1, tasks, summaries, store, Snipped(messages, n - 1, tasks, Marking(summaries, store)));
    }
  }

  lemma NothingRewritten(messages: seq<Record>, tasks: set<string>, summaries: map<string, string>)
    ensures RewritesTo(messages, 0, tasks, summaries, [])
  {
    assert Selects(messages, [], []);
  }

  lemma RewriteStep(messages: seq<Record>, i: nat, tasks: set<string>, summaries: map<string, string>, store: bool, result: seq<Record>)
    requires i < |messages| && RewritesTo(messages, i, tasks, summaries, result)
    ensures RewritesTo(messages, i + 1, tasks, summaries, result + Rewrite(messages, i, tasks, Marking(summaries, store)))
  {
    hide Selects, Rewrite, StandsFor, StaysAt, Marking;
    var ix: seq<nat>, kept :| Selects(messages, ix, kept) && |kept| == |result|
                              && (forall k: nat :: k in ix <==> k < i && k < |messages| && StaysAt(messages, tasks, k))
                              && forall k | 0 <= k < |kept| :: StandsFor(result[k], kept[k], tasks, summaries);
    RewriteIs(messages, i, tasks, summaries, store);
    var more := Rewrite(messages, i, tasks, Marking(summaries, store));
    if more == [] {
      assert result + more == result;
    } else {
      RewriteOne(messages, i, ix, kept, tasks);
      assert forall k | 0 <= k <= |kept| :: StandsFor((result + more)[k], (kept + [messages[i]])[k], tasks, summaries);
    }
  }

  lemma RewriteOne(messages: seq<Record>, i: nat, ix: seq<nat>, kept: seq<Record>, tasks: set<string>)
    requires i < |messages| && Selects(messages, ix, kept) && StaysAt(messages, tasks, i)
    requires forall k: nat :: k in ix <==> k < i && k < |messages| && StaysAt(messages, tasks, k)
    ensures Selects(messages, ix + [i], kept + [messages[i]])
    ensures forall k: nat :: k in ix + [i] <==> k < i + 1 && k < |messages| && StaysAt(messages, tasks, k)
  {
    hide StaysAt;
    forall k | 0 <= k < |ix| ensures ix[k] < i {
      assert ix[k] in ix;
    }
    SelectsMore(messages, ix, kept, i);
    hide Selects;
    assert forall k :: k in ix + [i] <==> k in ix || k == i;
  }

  lemma RewriteIs(messages: seq<Record>, i: nat, tasks: set<string>, summaries: map<string, string>, store: bool)
    requires i < |messages|
    ensures var more := Rewrite(messages, i, tasks, Marking(summaries, store));
            if StaysAt(messages, tasks, i) then |more| == 1 && StandsFor(more[0], messages[i], tasks, summaries) else more == []
  {
    MarkingMarks(messages[i], summaries, store);
    hide Marking, MarksTask, TaskOf;
  }

  /** The stored marker names task and kind in fields of its own, the one in a running history in its metadata. */
  lemma MarkingMarks(r: Record, summaries: map<string, string>, store: bool)
    ensures TaskOf(r) in summaries ==> MarksTask(Marking(summaries, store)(r), r, summaries[TaskOf(r)])
    ensures var m := Marking(summaries, store)(r);
            if store then m.taskId == TaskOf(r) && m.messageType == "summary" && MetaOf(m).taskId == MetaOf(r).taskId
            else m.taskId == "" && m.messageType == "" && MetaOf(m).taskId == TaskOf(r)
  {
  }

  function Present(messages: seq<Record>): set<string> {
    set i | 0 <= i < |messages| :: TaskOf(messages[i])
  }

  function Marking(summaries: map<string, string>, store: bool): Record -> Record {
    (r: Record) =>
      var summary := if TaskOf(r) in summaries then summaries[TaskOf(r)] else "";
      if store then StoreMarker(r, summary) else HistoryMarker(r, summary)
  }

  /** The tasks that `safe_snip_task_ids` returns: the greatest safe set. */
  ghost predicate IsSafest(messages: seq<Record>, requested: set<string>, tasks: set<string>) {
    Safe(messages, requested, tasks) && forall other | Safe(messages, requested, other) :: other <= tasks
  }

  /** The loop that `snip_history_tasks` and `snip_store` share. */
  method Rewritten(messages: seq<Record>, tasks: set<string>, marker: Record -> Record)
    returns (result: seq<Record>, seen: set<string>)
    ensures result == Snipped(messages, |messages|, tasks, marker) && seen == tasks * Present(messages)
  {
    result, seen := [], {};
    for i := 0 to |messages|
      invariant result == Snipped(messages, i, tasks, marker)
      invariant seen == tasks * Present(messages[..i])
    {
      var r := messages[i];
      PresentSnoc(messages, i);
      if TaskOf(r) in tasks {
        if TaskOf(r) !in seen {
          seen := seen + {TaskOf(r)};
          result := result + [marker(r)];
        }
      } else {
        result := result + [r];
      }
    }
    assert messages[..|messages|] == messages;
  }

  lemma PresentSnoc(messages: seq<Record>, i: nat)
    requires i < |messages|
    ensures Present(messages[..i + 1]) == Present(messages[..i]) + {TaskOf(messages[i])}
    ensures TaskOf(messages[i]) in Present(messages[..i]) <==> !FirstOfTask(messages, i)
  {
    hide TaskOf;
    var next := messages[..i + 1];
    assert next[i] == messages[i];
    forall k | 0 <= k < i ensures next[k] == messages[k] == messages[..i][k] {}
    forall t | t in Present(messages[..i]) ensures t in Present(next) {
      var k :| 0 <= k < i && TaskOf(messages[..i][k]) == t;
      assert TaskOf(next[k]) == t;
    }
    if !FirstOfTask(messages, i) {
      var k :| 0 <= k < i && TaskOf(messages[k]) == TaskOf(messages[i]);
      assert TaskOf(messages[..i][k]) == TaskOf(messages[i]);
    }
  }

  /** `snip_history_tasks` */
  method SnipHistoryTasks(messages: seq<Record>, records: seq<TaskRecord>, requested: set<string>)
    returns (result: seq<Record>, seen: set<string>)
    ensures exists safe :: IsSafest(messages, requested * SnipSummaries(records).Keys, safe) && seen == safe * Present(messages)
                           && result == Snipped(messages, |messages|, safe, Marking(SnipSummaries(records), false))
                           && RewritesTo(messages, |messages|, safe, SnipSummaries(records), result)
  {
    hide Safe, RewritesTo;
    var summaries := SnipSummaries(records);
    var safe := SafeSnipTaskIds(messages, requested * summaries.Keys);
    SnippedIs(messages, |messages|, safe, summaries, false);
    assert IsSafest(messages, requested * summaries.Keys, safe);
    result, seen := Rewritten(messages, safe, Marking(summaries, false));
  }

  /** `snip_store` */
  method SnipStore(messages: seq<Record>, records: seq<TaskRecord>, requested: set<string>) returns (result: seq<Record>)
    ensures exists safe :: IsSafest(messages, requested * SnipSummaries(records).Keys, safe)
                           && result == Snipped(messages, |messages|, safe, Marking(SnipSummaries(records), true))
                           && RewritesTo(messages, |messages|, safe, SnipSummaries(records), result)
  {
    hide Safe, RewritesTo;
    var summaries := SnipSummaries(records);
    var safe := SafeSnipTaskIds(messages, requested * summaries.Keys);
    SnippedIs(messages, |messages|, safe, summaries, true);
    assert IsSafest(messages, requested * summaries.Keys, safe);
    var rewritten, _ := Rewritten(messages, safe, Marking(summaries, true));
    result := rewritten;
  }

  predicate SameLook(a: Record, b: Record) {
    a.role == b.role && a.content == b.content && TaskOf(a) == TaskOf(b)
  }

  lemma MarkerLooksAlike(r: Record, summaries: map<string, string>)
    ensures SameLook(Marking(summaries, false)(r), Marking(summaries, true)(r)) && SameLook(r, r)
    ensures TaskOf(Marking(summaries, false)(r)) == TaskOf(r)
  {
  }

  lemma {:induction false} MarkersLookAlike(messages: seq<Record>, n: nat, a: set<string>, b: set<string>,
      summaries: map<string, string>)
    requires n <= |messages| && a * Present(messages) == b * Present(messages)
    ensures var running, stored := Snipped(messages, n, a, Marking(summaries, false)), Snipped(messages, n, b, Marking(summaries, true));
            |running| == |stored| && forall i | 0 <= i < |running| :: SameLook(running[i], stored[i])
  {
    if n > 0 {
      hide SameLook, Marking, TaskOf, FirstOfTask;
      var r := messages[n - 1];
      MarkersLookAlike(messages, n - 1, a, b, summaries);
      MarkerLooksAlike(r, summaries);
      assert TaskOf(r) in Present(messages);
      assert TaskOf(r) in a <==> TaskOf(r) in a * Present(messages);
      assert TaskOf(r) in b <==> TaskOf(r) in b * Present(messages);
    }
  }

  /** Sets of tasks that differ only in tasks without messages are equally safe. */
  lemma SafeWithinPresent(messages: seq<Record>, requested: set<string>, tasks: set<string>, narrower: set<string>)
    requires Safe(messages, requested, tasks) && tasks * Present(messages) <= narrower
    ensures Safe(messages, narrower, tasks * Present(messages))
  {
    forall id ensures Together(CallTasks(messages, id), ResultTasks(messages, id), tasks * Present(messages)) {
      assert Together(CallTasks(messages, id), ResultTasks(messages, id), tasks);
      assert CallTasks(messages, id) + ResultTasks(messages, id) <= Present(messages);
    }
  }

  /**
   The stored history is rewritten with the tasks that the rewrite of the running one reported, and the two
   results agree position by position in role, content and task.
  */
  lemma PersistedRewriteAgrees(messages: seq<Record>, records: seq<TaskRecord>, requested: set<string>,
      safe: set<string>, stored: set<string>)
    requires var summaries := SnipSummaries(records);
             && IsSafest(messages, requested * summaries.Keys, safe)
             && IsSafest(messages, (safe * Present(messages)) * summaries.Keys, stored)
    ensures var summaries := SnipSummaries(records);
            var running := Snipped(messages, |messages|, safe, Marking(summaries, false));
            var persisted := Snipped(messages, |messages|, stored, Marking(summaries, true));
            |running| == |persisted| && forall i | 0 <= i < |running| :: SameLook(running[i], persisted[i])
  {
    var summaries := SnipSummaries(records);
    assert safe <= summaries.Keys;
    assert (safe * Present(messages)) * summaries.Keys == safe * Present(messages);
    SafeWithinPresent(messages, requested * summaries.Keys, safe, safe * Present(messages));
    assert safe * Present(messages) == stored * Present(messages);
    MarkersLookAlike(messages, |messages|, safe, stored, summaries);
  }

  /** Asking again with what was found safe finds the same: one pass is enough. */
  lemma SafestIsStable(messages: seq<Record>, requested: set<string>, tasks: set<string>, again: set<string>)
    requires IsSafest(messages, requested, tasks) && IsSafest(messages, tasks, again)
    ensures again == tasks
  {
    assert Safe(messages, tasks, tasks);
  }

  /** A marker still refers to a call id exactly if the message it stands for carried that id in its metadata. */
  lemma MarkerKeepsMetadataId(r: Record, summary: string, id: string)
    ensures Refers(HistoryMarker(r, summary), id) <==> id != "" && MetaOf(r).toolCallId == id
    ensures Refers(StoreMarker(r, summary), id) <==> id != "" && MetaOf(r).toolCallId == id
  {
  }

  // ---- pairing in the rewritten history ----

  /** The messages that refer to a call id, in order. */
  function Refs(messages: seq<Record>, id: string): seq<Record> {
    if messages == [] then []
    else
      var n := |messages| - 1;
      Refs(messages[..n], id) + if Refers(messages[n], id) then [messages[n]] else []
  }

  /** Message `i` is replaced by the marker of its task and carries the id in its metadata. */
  predicate Carries(messages: seq<Record>, tasks: set<string>, id: string, i: nat)
    requires i < |messages|
  {
    TaskOf(messages[i]) in tasks && FirstOfTask(messages, i) && id != "" && MetaOf(messages[i]).toolCallId == id
  }

  function Carriers(messages: seq<Record>, n: nat, tasks: set<string>, id: string): (count: nat)
    requires n <= |messages|
    ensures count == 0 <==> forall i: nat | i < n :: !Carries(messages, tasks, id, i)
  {
    if n == 0 then 0 else Carriers(messages, n - 1, tasks, id) + if Carries(messages, tasks, id, n - 1) then 1 else 0
  }

  lemma {:induction false} RefsConcat(a: seq<Record>, b: seq<Record>, id: string)
    ensures Refs(a + b, id) == Refs(a, id) + Refs(b, id)
  {
    hide Refers;
    if b == [] {
      assert a + b == a;
    } else {
      var n := |b| - 1;
      assert (a + b)[..|a + b| - 1] == a + b[..n];
      RefsConcat(a, b[..n], id);
    }
  }

  lemma RefsOfOne(r: Record, id: string)
    ensures Refs([r], id) == (if Refers(r, id) then [r] else []) && Refs([], id) == []
  {
    hide Refers;
    assert [r][..0] == [];
  }

  /** The references in what becomes of one message. */
  lemma RefsRewritten(messages: seq<Record>, i: nat, tasks: set<string>, summaries: map<string, string>, store: bool, id: string)
    requires i < |messages|
    ensures Carries(messages, tasks, id, i) ==> TaskOf(messages[i]) in tasks
    ensures var refs, r := Refs(Rewrite(messages, i, tasks, Marking(summaries, store)), id), messages[i];
            if TaskOf(r) !in tasks then refs == (if Refers(r, id) then [r] else [])
            else if Carries(messages, tasks, id, i) then |refs| == 1 && NoCalls(refs) else refs == [] && NoCalls(refs)
  {
    var r := messages[i];
    MarkerKeepsMetadataId(r, if TaskOf(r) in summaries then summaries[TaskOf(r)] else "", id);
    var marker := Marking(summaries, store)(r);
    RefsOfOne(r, id);
    RefsOfOne(marker, id);
    hide Refs, Refers, TaskOf, FirstOfTask;
  }

  lemma RefsStart(messages: seq<Record>, tasks: set<string>, marker: Record -> Record, id: string)
    ensures Refs(Snipped(messages, 0, tasks, marker), id) == [] && Refs(messages[..0], id) == [] && Carriers(messages, 0, tasks, id) == 0
    ensures NoCalls([])
  {
  }

  lemma SnippedRefsStep(messages: seq<Record>, n: nat, tasks: set<string>, marker: Record -> Record, id: string)
    requires n < |messages|
    ensures Refs(Snipped(messages, n + 1, tasks, marker), id)
            == Refs(Snipped(messages, n, tasks, marker), id) + Refs(Rewrite(messages, n, tasks, marker), id)
    ensures Carriers(messages, n + 1, tasks, id) == Carriers(messages, n, tasks, id) + if Carries(messages, tasks, id, n) then 1 else 0
  {
    hide Refs, Refers, Carries, Rewrite;
    RefsConcat(Snipped(messages, n, tasks, marker), Rewrite(messages, n, tasks, marker), id);
  }

  lemma RefsSnoc(messages: seq<Record>, n: nat, id: string)
    requires n < |messages|
    ensures Refs(messages[..n + 1], id) == Refs(messages[..n], id) + if Refers(messages[n], id) then [messages[n]] else []
  {
    hide Refers;
    RefsOfOne(messages[n], id);
    hide Refs;
    RefsConcat(messages[..n], [messages[n]], id);
    assert messages[..n + 1] == messages[..n] + [messages[n]];
  }

  /** If no reference lies in a snipped task, all of them stay and the markers' own ones are added. */
  lemma {:induction false} RefsKept(messages: seq<Record>, n: nat, tasks: set<string>, summaries: map<string, string>, store: bool, id: string)
    requires n <= |messages| && forall i | 0 <= i < n && Refers(messages[i], id) :: TaskOf(messages[i]) !in tasks
    ensures var refs := Refs(Snipped(messages, n, tasks, Marking(summaries, store)), id);
            && |refs| == |Refs(messages[..n], id)| + Carriers(messages, n, tasks, id)
            && (Carriers(messages, n, tasks, id) == 0 ==> refs == Refs(messages[..n], id))
  {
    hide Marking, Rewrite, Refers, TaskOf, Carries, Refs, Snipped, Carriers, NoCalls;
    var marker := Marking(summaries, store);
    if n == 0 {
      RefsStart(messages, tasks, marker, id);
    } else {
      RefsKept(messages, n - 1, tasks, summaries, store, id);
      SnippedRefsStep(messages, n - 1, tasks, marker, id);
      RefsSnoc(messages, n - 1, id);
      RefsRewritten(messages, n - 1, tasks, summaries, store, id);
    }
  }

  /** If every reference lies in a snipped task, only the markers' own ones are left. */
  lemma {:induction false} RefsGone(messages: seq<Record>, n: nat, tasks: set<string>, summaries: map<string, string>, store: bool, id: string)
    requires n <= |messages| && forall i | 0 <= i < n && Refers(messages[i], id) :: TaskOf(messages[i]) in tasks
    ensures var refs := Refs(Snipped(messages, n, tasks, Marking(summaries, store)), id);
            |refs| == Carriers(messages, n, tasks, id) && NoCalls(refs)
  {
    hide Marking, Rewrite, Refers, TaskOf, Carries, Refs, Snipped, Carriers, NoCalls;
    var marker := Marking(summaries, store);
    RefsStart(messages, tasks, marker, id);
    if n > 0 {
      RefsGone(messages, n - 1, tasks, summaries, store, id);
      SnippedRefsStep(messages, n - 1, tasks, marker, id);
      RefsRewritten(messages, n - 1, tasks, summaries, store, id);
      NoCallsConcat(Refs(Snipped(messages, n - 1, tasks, marker), id), Refs(Rewrite(messages, n - 1, tasks, marker), id));
    }
  }

  /** Only user messages, which make no calls. */
  predicate NoCalls(refs: seq<Record>) {
    forall i | 0 <= i < |refs| :: refs[i].role == "user"
  }

  lemma NoCallsConcat(a: seq<Record>, b: seq<Record>)
    ensures NoCalls(a) && NoCalls(b) ==> NoCalls(a + b)
  {
  }

  lemma {:induction false} RefIsRef(messages: seq<Record>, id: string, i: nat)
    requires i < |messages| && Refers(messages[i], id)
    ensures messages[i] in Refs(messages, id)
  {
    if i < |messages| - 1 {
      RefIsRef(messages[..|messages| - 1], id, i);
    }
  }

  /**
   After a safe rewrite the history keeps all references to a call id or none, exactly if no marker stands for
   a message that carries that id in its metadata.
  */
  lemma PairingAfterSnip(messages: seq<Record>, requested: set<string>, tasks: set<string>, summaries: map<string, string>, store: bool, id: string)
    requires Safe(messages, requested, tasks)
    ensures var refs := Refs(Snipped(messages, |messages|, tasks, Marking(summaries, store)), id);
            refs == Refs(messages, id) || refs == [] <==> forall i: nat | i < |messages| :: !Carries(messages, tasks, id, i)
  {
    assert messages[..|messages|] == messages;
    hide Snipped, Marking, Refs, Refers, Carries, TaskOf;
    if i :| 0 <= i < |messages| && Refers(messages[i], id) && TaskOf(messages[i]) in tasks {
      forall j | 0 <= j < |messages| && Refers(messages[j], id) ensures TaskOf(messages[j]) in tasks {
        AllOrNothing(messages, requested, tasks, id, i, j);
      }
      RefsGone(messages, |messages|, tasks, summaries, store, id);
      AllOrNothing(messages, requested, tasks, id, i, i);
      var call :| 0 <= call < |messages| && id in CallIds(messages[call]);
      CallIsAssistant(messages[call], id);
      RefIsRef(messages, id, call);
    } else {
      RefsKept(messages, |messages|, tasks, summaries, store, id);
    }
  }

  lemma CallIsAssistant(r: Record, id: string)
    ensures id in CallIds(r) ==> r.role != "user" && Refers(r, id)
  {
  }

  const CALLING := Record("assistant", "", "a", "", None, [Call("c", "read", "")], "", "", false, false, false, false)
  const ANSWERING := Record("tool", "", "b", "", Some(NO_META.(toolCallId := "c")), [], "", "", false, false, false, false)

  /** A result kept in the metadata of its task's first message stays behind without its call. */
  lemma ResultStaysBehind(summaries: map<string, string>)
    ensures var messages, tasks := [CALLING, ANSWERING], {"a", "b"};
            && Safe(messages, tasks, tasks)
            && |Refs(messages, "c")| == 2 && |Refs(Snipped(messages, 2, tasks, Marking(summaries, true)), "c")| == 1
  {
    var messages, tasks := [CALLING, ANSWERING], {"a", "b"};
    CallsOf(CALLING);
    ExampleIsSafe();
    assert Refers(ANSWERING, "c");
    assert !Carries(messages, tasks, "c", 0) && Carries(messages, tasks, "c", 1);
    assert TaskOf(CALLING) == "a" && TaskOf(ANSWERING) == "b";
    hide Snipped, Refs, Refers, Carries, TaskOf, Safe;
    RefsConcat([CALLING], [ANSWERING], "c");
    RefsOfOne(CALLING, "c");
    RefsOfOne(ANSWERING, "c");
    assert messages == [CALLING] + [ANSWERING];
    RefsGone(messages, 2, tasks, summaries, true, "c");
    assert Carriers(messages, 0, tasks, "c") == 0 && Carriers(messages, 1, tasks, "c") == 0;
  }

  lemma CallsOf(r: Record)
    requires r == CALLING
    ensures CallIds(r) == ["c"] && Refers(r, "c")
  {
    assert IdsOf(r.toolCalls) == ["c"] && ["c"][1..] == [] && NonEmpty(["c"]) == ["c"] + NonEmpty([]);
  }

  lemma ExampleIsSafe()
    ensures Safe([CALLING, ANSWERING], {"a", "b"}, {"a", "b"})
  {
    var messages := [CALLING, ANSWERING];
    CallsOf(CALLING);
    assert CallIds(ANSWERING) == [];
    forall id ensures Together(CallTasks(messages, id), ResultTasks(messages, id), {"a", "b"}) {
      if id == "c" {
        assert "c" in CallIds(messages[0]) && ResultId(messages[1]) == "c";
        assert "a" in CallTasks(messages, id) && "b" in ResultTasks(messages, id);
      } else {
        assert CallTasks(messages, id) == {} && ResultTasks(messages, id) == {};
      }
    }
    assert UnpairedTasks(messages) == {};
  }

  // ---- which tasks are chosen ----

  predicate RealTask(task: string) {
    task != "" && task != COMPACT_SUMMARY
  }

  function RealTasks(messages: seq<Record>): set<string> {
    set t | t in Present(messages) && RealTask(t)
  }

  /** Every task with a message but the nameless one and that of the summaries. */
  lemma RealTasksAre(messages: seq<Record>)
    ensures forall t :: t in RealTasks(messages) <==>
              t != "" && t != COMPACT_SUMMARY && exists i :: 0 <= i < |messages| && TaskOf(messages[i]) == t
  {
    hide TaskOf;
  }

  /** Task `a` has a message after all messages of task `b`. */
  predicate LastsLonger(messages: seq<Record>, a: string, b: string) {
    exists i :: 0 <= i < |messages| && TaskOf(messages[i]) == a && forall k | i <= k < |messages| :: TaskOf(messages[k]) != b
  }

  /** `recent` are the `keep` tasks whose last message is latest. */
  predicate Recent(messages: seq<Record>, keep: int, recent: set<string>) {
    if keep <= 0 then recent == {}
    else
      && recent <= RealTasks(messages)
      && |recent| == (if keep < |RealTasks(messages)| then keep else |RealTasks(messages)|)
      && forall a, b | a in recent && b in RealTasks(messages) - recent :: LastsLonger(messages, a, b)
  }

  function Elements(s: seq<string>): set<string> {
    set x | x in s
  }

  function Without(order: seq<string>, task: string): (r: seq<string>)
    ensures forall x :: x in r <==> x in order && x != task
  {
    if order == [] then []
    else
      var n := |order| - 1;
      assert order == order[..n] + [order[n]];
      if order[n] == task then Without(order[..n], task) else Without(order[..n], task) + [order[n]]
  }

  /** The tasks are listed in the order of their last messages, each once. */
  predicate ByLast(order: seq<string>, last: map<string, int>) {
    && (forall i | 0 <= i < |order| :: order[i] in last)
    && forall i, j | 0 <= i < j < |order| :: last[order[i]] < last[order[j]]
  }

  lemma {:induction false} WithoutByLast(order: seq<string>, task: string, last: map<string, int>, bound: int)
    requires ByLast(order, last) && forall i | 0 <= i < |order| :: last[order[i]] < bound
    ensures var next := Without(order, task) + [task]; ByLast(next, last[task := bound])
  {
    WithoutOrdered(order, task, last);
    var rest := Without(order, task);
    forall i | 0 <= i < |rest| ensures rest[i] != task && last[rest[i]] < bound {
      assert rest[i] in rest;
    }
  }

  lemma {:induction false} WithoutOrdered(order: seq<string>, task: string, last: map<string, int>)
    requires ByLast(order, last)
    ensures ByLast(Without(order, task), last)
  {
    if order != [] {
      var n := |order| - 1;
      WithoutOrdered(order[..n], task, last);
      var rest := Without(order[..n], task);
      forall i | 0 <= i < |rest| ensures last[rest[i]] < last[order[n]] {
        assert rest[i] in rest;
      }
    }
  }

  /** `last` gives the position of the last message of every task. */
  predicate IsLast(messages: seq<Record>, last: map<string, int>) {
    && (forall t | t in last :: 0 <= last[t] < |messages| && TaskOf(messages[last[t]]) == t)
    && forall k | 0 <= k < |messages| && RealTask(TaskOf(messages[k])) :: TaskOf(messages[k]) in last && k <= last[TaskOf(messages[k])]
  }

  predicate Listed(messages: seq<Record>, order: seq<string>, last: map<string, int>) {
    ByLast(order, last) && IsLast(messages, last) && Elements(order) == last.Keys == RealTasks(messages)
  }

  lemma RealTasksSnoc(messages: seq<Record>, r: Record)
    ensures RealTasks(messages + [r]) == RealTasks(messages) + if RealTask(TaskOf(r)) then {TaskOf(r)} else {}
  {
    hide TaskOf, RealTask, FirstOfTask;
    var next := messages + [r];
    assert next[..|messages| + 1] == next && next[..|messages|] == messages;
    PresentSnoc(next, |messages|);
  }

  lemma IsLastStep(messages: seq<Record>, r: Record, last: map<string, int>)
    requires IsLast(messages, last)
    ensures IsLast(messages + [r], if RealTask(TaskOf(r)) then last[TaskOf(r) := |messages|] else last)
    ensures forall t | t in last :: last[t] < |messages|
  {
    hide TaskOf, RealTask;
  }

  lemma ListedStep(messages: seq<Record>, r: Record, order: seq<string>, last: map<string, int>)
    requires Listed(messages, order, last)
    ensures if RealTask(TaskOf(r)) then Listed(messages + [r], Without(order, TaskOf(r)) + [TaskOf(r)], last[TaskOf(r) := |messages|])
            else Listed(messages + [r], order, last)
  {
    RealTasksSnoc(messages, r);
    IsLastStep(messages, r, last);
    hide TaskOf, RealTask, RealTasks, IsLast, ByLast, Elements, Without;
    if RealTask(TaskOf(r)) {
      MovedToEnd(order, TaskOf(r), last, |messages|);
    }
  }

  lemma MovedToEnd(order: seq<string>, task: string, last: map<string, int>, bound: int)
    requires ByLast(order, last) && Elements(order) == last.Keys && forall t | t in last :: last[t] < bound
    ensures var next := Without(order, task) + [task];
            ByLast(next, last[task := bound]) && Elements(next) == last.Keys + {task}
  {
    WithoutByLast(order, task, last, bound);
  }

  /** `recent_task_ids` */
  method RecentTaskIds(messages: seq<Record>, keep: int) returns (recent: set<string>)
    ensures Recent(messages, keep, recent)
  {
    if keep <= 0 {
      return {};
    }
    hide TaskOf, RealTask, Listed;
    var order: seq<string> := [];
    ghost var last: map<string, int> := map[];
    assert Listed([], order, last) by { NothingListed(); }
    for i := 0 to |messages|
      invariant Listed(messages[..i], order, last)
    {
      var task := TaskOf(messages[i]);
      assert messages[..i + 1] == messages[..i] + [messages[i]];
      ListedStep(messages[..i], messages[i], order, last);
      if RealTask(task) {
        order := Without(order, task) + [task];
        last := last[task := i];
      }
    }
    assert messages[..|messages|] == messages;
    var cut := if keep < |order| then |order| - keep else 0;
    recent := Elements(order[cut..]);
    TailIsRecent(messages, order, last, cut);
  }

  lemma NothingListed()
    ensures Listed([], [], map[])
  {
  }

  lemma TailIsRecent(messages: seq<Record>, order: seq<string>, last: map<string, int>, cut: nat)
    requires Listed(messages, order, last) && cut <= |order|
    ensures |RealTasks(messages)| == |order| && |Elements(order[cut..])| == |order| - cut && Elements(order[cut..]) <= RealTasks(messages)
    ensures forall a, b | a in Elements(order[cut..]) && b in RealTasks(messages) - Elements(order[cut..]) :: LastsLonger(messages, a, b)
  {
    TailSize(order, last, cut);
    hide TaskOf, RealTasks, LastsLonger, IsLast, ByLast;
    forall a, b | a in order[cut..] && b in RealTasks(messages) - Elements(order[cut..]) ensures LastsLonger(messages, a, b) {
      var i :| 0 <= i < |order[cut..]| && order[cut..][i] == a;
      var j :| 0 <= j < |order[..cut]| && order[..cut][j] == b;
      LaterTask(messages, order, last, cut + i, j);
    }
  }

  lemma TailSize(order: seq<string>, last: map<string, int>, cut: nat)
    requires ByLast(order, last) && cut <= |order|
    ensures |Elements(order)| == |order| && |Elements(order[cut..])| == |order| - cut
    ensures Elements(order) == Elements(order[..cut]) + Elements(order[cut..])
  {
    DistinctSize(order, last);
    DistinctSize(order[cut..], last);
    assert order == order[..cut] + order[cut..];
  }

  lemma LaterTask(messages: seq<Record>, order: seq<string>, last: map<string, int>, i: nat, j: nat)
    requires Listed(messages, order, last) && j < i < |order|
    ensures LastsLonger(messages, order[i], order[j])
  {
    hide TaskOf;
    assert order[j] in Elements(order);
    assert TaskOf(messages[last[order[i]]]) == order[i];
  }

  lemma {:induction false} DistinctSize(order: seq<string>, last: map<string, int>)
    requires ByLast(order, last)
    ensures |Elements(order)| == |order|
  {
    if order != [] {
      var n := |order| - 1;
      DistinctSize(order[..n], last);
      assert order == order[..n] + [order[n]];
      assert order[n] !in order[..n] && Elements(order) == Elements(order[..n]) + {order[n]};
    }
  }

  predicate IsMarker(r: Record) {
    SNIP_MARKER <= r.content
  }

  /** The tasks a marker stands for, and those an earlier summary says it covers. */
  function MarkedTasks(messages: seq<Record>): set<string> {
    set i | 0 <= i < |messages| && IsMarker(messages[i]) && TaskOf(messages[i]) != "" :: TaskOf(messages[i])
  }

  function AlreadySnipped(messages: seq<Record>): set<string> {
    MarkedTasks(messages) + set i, t | 0 <= i < |messages| && t in MetaOf(messages[i]).compressed :: t
  }

  /** The allowed tasks in the order in which the records first name them. */
  function FirstNamed(records: seq<TaskRecord>, allowed: set<string>): (tasks: seq<string>)
    ensures forall t :: t in tasks ==> t in allowed
    ensures forall t | t in allowed && (exists i :: 0 <= i < |records| && records[i].taskId == t) :: t in tasks
    ensures forall i, j | 0 <= i < j < |tasks| :: tasks[i] != tasks[j]
  {
    if records == [] then []
    else
      var before, last := FirstNamed(records[..|records| - 1], allowed), records[|records| - 1];
      if last.taskId in allowed && last.taskId !in before then before + [last.taskId] else before
  }

  method CollectAlreadySnipped(messages: seq<Record>) returns (snipped: set<string>)
    ensures snipped == AlreadySnipped(messages)
    ensures forall t :: t in snipped <==> exists i ::
              && 0 <= i < |messages|
              && ((t != "" && TaskOf(messages[i]) == t && SNIP_MARKER <= messages[i].content) || t in MetaOf(messages[i]).compressed)
  {
    hide TaskOf, IsMarker;
    snipped := {};
    for i := 0 to |messages|
      invariant snipped == AlreadySnipped(messages[..i])
    {
      assert messages[..i + 1] == messages[..i] + [messages[i]];
      AlreadySnoc(messages[..i], messages[i]);
      if IsMarker(messages[i]) && TaskOf(messages[i]) != "" {
        snipped := snipped + {TaskOf(messages[i])};
      }
      snipped := snipped + set t | t in MetaOf(messages[i]).compressed;
    }
    assert messages[..|messages|] == messages;
    MarkersAndSummaries(messages);
  }

  lemma MarkersAndSummaries(messages: seq<Record>)
    ensures forall t :: t in AlreadySnipped(messages) <==> exists i ::
              && 0 <= i < |messages|
              && ((t != "" && TaskOf(messages[i]) == t && SNIP_MARKER <= messages[i].content) || t in MetaOf(messages[i]).compressed)
  {
    hide TaskOf;
  }

  lemma AlreadySnoc(messages: seq<Record>, r: Record)
    ensures AlreadySnipped(messages + [r]) == AlreadySnipped(messages)
              + (if IsMarker(r) && TaskOf(r) != "" then {TaskOf(r)} else {}) + set t | t in MetaOf(r).compressed
  {
    hide TaskOf, IsMarker, MetaOf;
    var next := messages + [r];
    assert next[|messages|] == r;
    forall i | 0 <= i < |messages| ensures next[i] == messages[i] {}
    forall t | t in AlreadySnipped(messages) ensures t in AlreadySnipped(next) {
      if t in MarkedTasks(messages) {
        var i :| 0 <= i < |messages| && IsMarker(messages[i]) && TaskOf(messages[i]) != "" && TaskOf(messages[i]) == t;
        assert IsMarker(next[i]) && TaskOf(next[i]) == t;
      } else {
        var i :| 0 <= i < |messages| && t in MetaOf(messages[i]).compressed;
        assert t in MetaOf(next[i]).compressed;
      }
    }
  }

  method OldestFirst(records: seq<TaskRecord>, allowed: set<string>) returns (tasks: seq<string>)
    ensures tasks == FirstNamed(records, allowed)
  {
    tasks := [];
    for i := 0 to |records|
      invariant tasks == FirstNamed(records[..i], allowed)
    {
      assert records[..i + 1][..i] == records[..i];
      if records[i].taskId in allowed && records[i].taskId !in tasks {
        tasks := tasks + [records[i].taskId];
      }
    }
    assert records[..|records|] == records;
  }

  /** A slice `[:max]` of `n` elements; a negative end counts from behind. */
  function SliceEnd(n: nat, max: int): (end: nat)
    ensures end <= n && (max >= 0 ==> end <= max) && (max < 0 ==> end <= n + max || end == 0)
  {
    if max >= n then n else if max >= 0 then max else if n + max > 0 then n + max else 0
  }

  /** The tasks that may be snipped: summarized, with messages here, neither recent nor snipped before. */
  function Eligible(messages: seq<Record>, records: seq<TaskRecord>, recent: set<string>): set<string> {
    SnipSummaries(records).Keys * Present(messages) - recent - AlreadySnipped(messages)
  }

  /** The tasks to snip: the oldest ones that are neither recent nor snipped, cut to `maxSnip`. */
  function Oldest(messages: seq<Record>, records: seq<TaskRecord>, recent: set<string>, maxSnip: int): set<string> {
    var named := FirstNamed(records, Eligible(messages, records, recent));
    Elements(named[..SliceEnd(|named|, maxSnip)])
  }

  lemma OldestAreFresh(messages: seq<Record>, records: seq<TaskRecord>, recent: set<string>, maxSnip: int)
    ensures var chosen := Oldest(messages, records, recent, maxSnip);
            && chosen <= SnipSummaries(records).Keys * Present(messages) && chosen !! recent && chosen !! AlreadySnipped(messages)
            && (maxSnip >= 0 ==> |chosen| <= maxSnip)
  {
    hide SnipSummaries, Present, AlreadySnipped;
    var named := FirstNamed(records, SnipSummaries(records).Keys * Present(messages) - recent - AlreadySnipped(messages));
    var cut := named[..SliceEnd(|named|, maxSnip)];
    assert forall t :: t in cut ==> t in named;
    ElementsSize(cut);
  }

  /** The records name task `a` before they first name task `b`. */
  predicate NamedBefore(records: seq<TaskRecord>, a: string, b: string) {
    exists i :: 0 <= i < |records| && records[i].taskId == a && forall j | 0 <= j <= i :: records[j].taskId != b
  }

  lemma NamedBeforeGrows(records: seq<TaskRecord>, a: string, b: string)
    requires records != [] && NamedBefore(records[..|records| - 1], a, b)
    ensures NamedBefore(records, a, b)
  {
    var init := records[..|records| - 1];
    var i :| 0 <= i < |init| && init[i].taskId == a && forall j | 0 <= j <= i :: init[j].taskId != b;
    assert records[i].taskId == a && forall j | 0 <= j <= i :: records[j].taskId == init[j].taskId;
  }

  lemma {:induction false} FirstNamedInOrder(records: seq<TaskRecord>, allowed: set<string>, i: nat, j: nat)
    requires i < j < |FirstNamed(records, allowed)|
    ensures NamedBefore(records, FirstNamed(records, allowed)[i], FirstNamed(records, allowed)[j])
  {
    var init, last := records[..|records| - 1], records[|records| - 1];
    var before := FirstNamed(init, allowed);
    if j < |before| {
      FirstNamedInOrder(init, allowed, i, j);
    } else {
      NamedSomewhere(init, allowed, before[i]);
      var k :| 0 <= k < |init| && init[k].taskId == before[i];
      assert NamedBefore(init, before[i], last.taskId);
    }
    NamedBeforeGrows(records, FirstNamed(records, allowed)[i], FirstNamed(records, allowed)[j]);
  }

  lemma {:induction false} NamedSomewhere(records: seq<TaskRecord>, allowed: set<string>, t: string)
    requires t in FirstNamed(records, allowed)
    ensures exists k :: 0 <= k < |records| && records[k].taskId == t
  {
    var init := records[..|records| - 1];
    if t in FirstNamed(init, allowed) {
      NamedSomewhere(init, allowed, t);
      var k :| 0 <= k < |init| && init[k].taskId == t;
      assert records[k].taskId == t;
    } else {
      assert records[|records| - 1].taskId == t;
    }
  }

  /**
   The chosen tasks are exactly as many as allowed, and each of them is named before every eligible one that is
   left out.
  */
  lemma OldestAreFirst(messages: seq<Record>, records: seq<TaskRecord>, recent: set<string>, maxSnip: int, a: string, b: string)
    ensures var chosen, eligible := Oldest(messages, records, recent, maxSnip), Eligible(messages, records, recent);
            && chosen <= eligible
            && |chosen| == (if maxSnip >= |eligible| then |eligible| else if maxSnip >= 0 then maxSnip
                            else if |eligible| + maxSnip >= 0 then |eligible| + maxSnip else 0)
            && (a in chosen && b in eligible - chosen ==> NamedBefore(records, a, b))
  {
    var eligible := Eligible(messages, records, recent);
    var named := FirstNamed(records, eligible);
    var end := SliceEnd(|named|, maxSnip);
    EligibleAreNamed(messages, records, recent);
    hide Eligible, FirstNamed, NamedBefore;
    OnceEach(named);
    OnceEach(named[..end]);
    CutInOrder(records, eligible, end, a, b);
    hide SliceEnd;
  }

  lemma CutInOrder(records: seq<TaskRecord>, allowed: set<string>, end: nat, a: string, b: string)
    requires end <= |FirstNamed(records, allowed)|
    ensures var named := FirstNamed(records, allowed);
            a in Elements(named[..end]) && b in Elements(named) - Elements(named[..end]) ==> NamedBefore(records, a, b)
  {
    var named := FirstNamed(records, allowed);
    hide NamedBefore, FirstNamed;
    if a in named[..end] && b in named && b !in named[..end] {
      var i, j := AcrossCut(named, end, a, b);
      FirstNamedInOrder(records, allowed, i, j);
    }
  }

  lemma AcrossCut(named: seq<string>, end: nat, a: string, b: string) returns (i: nat, j: nat)
    requires end <= |named| && a in named[..end] && b in named && b !in named[..end]
    ensures i < end <= j < |named| && named[i] == a && named[j] == b
  {
    i :| 0 <= i < |named[..end]| && named[..end][i] == a;
    assert named == named[..end] + named[end..];
    var k :| 0 <= k < |named[end..]| && named[end..][k] == b;
    j := end + k;
  }

  lemma EligibleAreNamed(messages: seq<Record>, records: seq<TaskRecord>, recent: set<string>)
    ensures Elements(FirstNamed(records, Eligible(messages, records, recent))) == Eligible(messages, records, recent)
  {
    var eligible := Eligible(messages, records, recent);
    forall task | task in eligible ensures task in FirstNamed(records, eligible) {
      SummariesAre(records, task);
      var i :| 0 <= i < |records| && LastUsable(records, task, i);
      assert records[i].taskId == task;
    }
  }

  lemma {:induction false} OnceEach(s: seq<string>)
    requires forall i, j | 0 <= i < j < |s| :: s[i] != s[j]
    ensures |Elements(s)| == |s|
  {
    if s != [] {
      OnceEach(s[..|s| - 1]);
      assert s == s[..|s| - 1] + [s[|s| - 1]];
      assert Elements(s) == Elements(s[..|s| - 1]) + {s[|s| - 1]};
    }
  }

  /** `snip_history`: at most `maxSnip` of the oldest tasks that are neither recent nor snipped already. */
  method SnipHistory(messages: seq<Record>, records: seq<TaskRecord>, keepRecent: int, maxSnip: int)
    returns (result: seq<Record>, seen: set<string>)
    ensures exists recent, safe ::
              Recent(messages, keepRecent, recent) && IsSafest(messages, Oldest(messages, records, recent, maxSnip), safe)
              && seen == safe && result == Snipped(messages, |messages|, safe, Marking(SnipSummaries(records), false))
    ensures seen !! AlreadySnipped(messages) && (maxSnip >= 0 ==> |seen| <= maxSnip)
  {
    hide Safe, Recent, AlreadySnipped, Snipped, Present;
    var summaries := SnipSummaries(records);
    var recent := RecentTaskIds(messages, keepRecent);
    var already := CollectAlreadySnipped(messages);
    var oldest := OldestFirst(records, summaries.Keys * Present(messages) - recent - already);
    var chosen := Elements(oldest[..SliceEnd(|oldest|, maxSnip)]);
    assert chosen == Oldest(messages, records, recent, maxSnip);
    OldestAreFresh(messages, records, recent, maxSnip);
    assert chosen * summaries.Keys == chosen;
    result, seen := SnipHistoryTasks(messages, records, chosen);
    ghost var safe :| IsSafest(messages, chosen, safe) && seen == safe * Present(messages)
                      && result == Snipped(messages, |messages|, safe, Marking(summaries, false));
    SafeAmongRequested(messages, chosen, safe);
    assert seen == safe;
    SubsetSize(safe, chosen);
  }

  lemma SafeAmongRequested(messages: seq<Record>, requested: set<string>, safe: set<string>)
    ensures Safe(messages, requested, safe) ==> safe <= requested
  {
  }

  lemma {:induction false} ElementsSize(s: seq<string>)
    ensures |Elements(s)| <= |s|
  {
    if s != [] {
      ElementsSize(s[..|s| - 1]);
      assert s == s[..|s| - 1] + [s[|s| - 1]];
      assert Elements(s) == Elements(s[..|s| - 1]) + {s[|s| - 1]};
    }
  }

  // ---- a snipped task is never snipped again ----

  lemma {:induction false} RewrittenContains(messages: seq<Record>, n: nat, tasks: set<string>,
      marker: Record -> Record, i: nat)
    requires i < n <= |messages|
    ensures forall r :: r in Rewrite(messages, i, tasks, marker) ==> r in Snipped(messages, n, tasks, marker)
  {
    if i < n - 1 {
      RewrittenContains(messages, n - 1, tasks, marker, i);
    }
  }

  lemma MarkedBy(messages: seq<Record>, r: Record)
    requires r in messages && IsMarker(r) && TaskOf(r) != ""
    ensures TaskOf(r) in MarkedTasks(messages)
  {
    var i :| 0 <= i < |messages| && messages[i] == r;
    assert IsMarker(messages[i]) && TaskOf(messages[i]) == TaskOf(r);
  }

  lemma MarkersAreMarkers(r: Record, summaries: map<string, string>, store: bool)
    ensures var m := Marking(summaries, store)(r); IsMarker(m) && TaskOf(m) == TaskOf(r)
  {
  }

  /** Every snipped task is marked afterwards, and so is every task that was marked before. */
  lemma SnippedIsMarked(messages: seq<Record>, tasks: set<string>, summaries: map<string, string>, store: bool, t: string)
    requires t != "" && (t in tasks * Present(messages) || t in MarkedTasks(messages))
    ensures t in MarkedTasks(Snipped(messages, |messages|, tasks, Marking(summaries, store)))
  {
    hide TaskOf, IsMarker, Marking, MarkedTasks;
    var marker := Marking(summaries, store);
    if t in tasks {
      assert t in Present(messages) by {
        if t !in Present(messages) {
          MarkedIsPresent(messages, t);
        }
      }
      var i := FirstIndex(messages, t);
      MarkersAreMarkers(messages[i], summaries, store);
      RewrittenContains(messages, |messages|, tasks, marker, i);
      assert Rewrite(messages, i, tasks, marker) == [marker(messages[i])];
      MarkedBy(Snipped(messages, |messages|, tasks, marker), marker(messages[i]));
    } else {
      var i := MarkerIndex(messages, t);
      RewrittenContains(messages, |messages|, tasks, marker, i);
      assert Rewrite(messages, i, tasks, marker) == [messages[i]];
      MarkedBy(Snipped(messages, |messages|, tasks, marker), messages[i]);
    }
  }

  lemma MarkedIsPresent(messages: seq<Record>, t: string)
    ensures t in MarkedTasks(messages) ==> t in Present(messages)
  {
  }

  lemma MarkerIndex(messages: seq<Record>, t: string) returns (i: nat)
    requires t in MarkedTasks(messages)
    ensures i < |messages| && IsMarker(messages[i]) && TaskOf(messages[i]) == t
  {
    i :| 0 <= i < |messages| && IsMarker(messages[i]) && TaskOf(messages[i]) == t;
  }

  lemma {:induction false} FirstIndex(messages: seq<Record>, t: string) returns (i: nat)
    requires t in Present(messages)
    ensures i < |messages| && TaskOf(messages[i]) == t && FirstOfTask(messages, i)
  {
    var k :| 0 <= k < |messages| && TaskOf(messages[k]) == t;
    i := 0;
    while TaskOf(messages[i]) != t
      invariant i <= k && forall j | 0 <= j < i :: TaskOf(messages[j]) != t
      decreases k - i
    {
      i := i + 1;
    }
  }

  /** One round: messages arrive, then tasks that are not snipped yet are snipped in the running or the stored history. */
  datatype Round = Round(arrived: seq<Record>, tasks: set<string>, summaries: map<string, string>, store: bool)

  ghost predicate Rounds(messages: seq<Record>, rounds: seq<Round>)
    decreases |rounds|
  {
    rounds != [] ==>
      var grown := messages + rounds[0].arrived;
      rounds[0].tasks !! AlreadySnipped(grown)
      && Rounds(Snipped(grown, |grown|, rounds[0].tasks, Marking(rounds[0].summaries, rounds[0].store)), rounds[1..])
  }

  /** Whatever arrives and whatever else is snipped, a task that was replaced by a marker is never chosen again. */
  lemma {:induction false} NeverSnippedAgain(messages: seq<Record>, rounds: seq<Round>, t: string, k: nat)
    requires Rounds(messages, rounds) && t in MarkedTasks(messages) && t != "" && k < |rounds|
    ensures t !in rounds[k].tasks
    decreases |rounds|
  {
    hide TaskOf, IsMarker, Marking;
    var grown := messages + rounds[0].arrived;
    var i := MarkerIndex(messages, t);
    assert grown[i] == messages[i];
    MarkedBy(grown, grown[i]);
    if k > 0 {
      SnippedIsMarked(grown, rounds[0].tasks, rounds[0].summaries, rounds[0].store, t);
      NeverSnippedAgain(Snipped(grown, |grown|, rounds[0].tasks, Marking(rounds[0].summaries, rounds[0].store)), rounds[1..], t, k - 1);
    }
  }
}
