/**
 Compaction plans (engine/compaction_plan.py): cutting a history into segments, gluing segments across which
 a tool call is still unanswered, choosing a stretch of old segments under a character budget, and replacing
 exactly the chosen messages by one summary later, when the history may have grown.
*/
module Compaction {
  import opened Common
  import opened Messages

  /** A message of a history; the program tells messages apart by identity, that is by position. */
  datatype Item = Item(index: nat, record: Record)

  predicate IsHidden(r: Record) {
    r.role == "system" || r.isDynamic || r.isEphemeral || r.storedEphemeral
  }

  predicate IsSummary(r: Record) {
    TaskOf(r) == COMPACT_SUMMARY
  }

  /** The messages that segments are made of. */
  predicate InSegments(r: Record) {
    !IsHidden(r) && !IsSummary(r)
  }

  /** The messages at some positions, in the order of the history. */
  function Pick(history: seq<Record>, keep: set<nat>): (items: seq<Item>)
    ensures forall k | 0 <= k < |items| :: items[k].index < |history| && items[k].index in keep && items[k].record == history[items[k].index]
    ensures forall j, k | 0 <= j < k < |items| :: items[j].index < items[k].index
  {
    if history == [] then []
    else
      var n := |history| - 1;
      Pick(history[..n], keep) + if n in keep then [Item(n, history[n])] else []
  }

  function SummaryPositions(history: seq<Record>): set<nat> {
    set i: nat | i < |history| && !IsHidden(history[i]) && IsSummary(history[i])
  }

  function SegmentPositions(history: seq<Record>): set<nat> {
    set i: nat | i < |history| && InSegments(history[i])
  }

  function OldSummaries(history: seq<Record>): seq<Item> {
    Pick(history, SummaryPositions(history))
  }

  function Candidates(history: seq<Record>): seq<Item> {
    Pick(history, SegmentPositions(history))
  }

  function Flatten<T>(parts: seq<seq<T>>): seq<T> {
    if parts == [] then [] else Flatten(parts[..|parts| - 1]) + parts[|parts| - 1]
  }

  predicate AllNonEmpty<T>(parts: seq<seq<T>>) {
    forall i | 0 <= i < |parts| :: parts[i] != []
  }

  /** `record` starts a segment after `previous`. */
  predicate Opens(previous: Record, record: Record) {
    TaskOf(record) != TaskOf(previous) || (TaskOf(record) == "" && record.role == "user" && record.toolCallId == "")
  }

  /** One more message: in the last segment, or in a new one. */
  function Grow(segments: seq<seq<Item>>, item: Item, opens: bool): seq<seq<Item>> {
    if segments == [] || opens then segments + [[item]]
    else segments[..|segments| - 1] + [segments[|segments| - 1] + [item]]
  }

  function SegmentsOf(items: seq<Item>): seq<seq<Item>> {
    if items == [] then []
    else
      var n := |items|;
      Grow(SegmentsOf(items[..n - 1]), items[n - 1], n > 1 && Opens(items[n - 2].record, items[n - 1].record))
  }

  // ---- when a tool call is answered ----

  predicate Answers(r: Record, id: string) {
    r.toolCallId == id
  }

  /** The call `id` made at position `a` has its result at or after `a`. */
  predicate AnsweredFrom(items: seq<Item>, a: nat, id: string) {
    exists r :: a <= r < |items| && Answers(items[r].record, id)
  }

  /** The id is called somewhere and not answered from there on. */
  predicate Open(items: seq<Item>, id: string) {
    exists a :: 0 <= a < |items| && id in CallIds(items[a].record) && !AnsweredFrom(items, a, id)
  }

  /** Every call is answered. */
  ghost predicate Settled(items: seq<Item>) {
    forall id :: !Open(items, id)
  }

  lemma AnsweredStep(items: seq<Item>, item: Item, a: nat, id: string)
    requires a <= |items|
    ensures AnsweredFrom(items + [item], a, id) <==> AnsweredFrom(items, a, id) || Answers(item.record, id)
  {
    var next := items + [item];
    if r :| a <= r < |items| && Answers(items[r].record, id) {
      assert Answers(next[r].record, id);
    }
    if Answers(item.record, id) {
      assert Answers(next[|items|].record, id);
    }
  }

  lemma OpenStep(items: seq<Item>, item: Item, id: string)
    ensures Open(items + [item], id) <==> (Open(items, id) || id in CallIds(item.record)) && !Answers(item.record, id)
  {
    var next := items + [item];
    if Open(next, id) {
      var a :| 0 <= a < |next| && id in CallIds(next[a].record) && !AnsweredFrom(next, a, id);
      AnsweredStep(items, item, a, id);
    }
    if a :| 0 <= a < |items| && id in CallIds(items[a].record) && !AnsweredFrom(items, a, id) {
      AnsweredStep(items, item, a, id);
      assert next[a] == items[a];
    }
    AnsweredStep(items, item, |items|, id);
    assert next[|items|] == item;
  }

  /** The blocks: a segment starts a new one when everything called before it was answered before it. */
  ghost function Grouped(segments: seq<seq<Item>>): (blocks: seq<seq<Item>>) {
    if segments == [] then []
    else
      var n := |segments|;
      var before := Grouped(segments[..n - 1]);
      if before == [] || Settled(Flatten(segments[..n - 1])) then before + [segments[n - 1]]
      else before[..|before| - 1] + [before[|before| - 1] + segments[n - 1]]
  }

  // ---- the difference array ----

  function Sum(b: seq<int>, n: nat): int
    requires n <= |b|
  {
    if n == 0 then 0 else Sum(b, n - 1) + b[n - 1]
  }

  /** The running sum when segment `i` is reached. */
  function Active(b: seq<int>, i: nat): int
    requires i < |b|
  {
    Sum(b, i + 1)
  }

  lemma {:induction false} SumAdd(b: seq<int>, k: nat, d: int, n: nat)
    requires k < |b| && n <= |b|
    ensures Sum(b[k := b[k] + d], n) == Sum(b, n) + if k < n then d else 0
  {
    if n > 0 {
      SumAdd(b, k, d, n - 1);
    }
  }

  /** How many of the intervals (start, end] contain `i`. */
  function Covering(intervals: seq<(nat, nat)>, i: nat): nat {
    if intervals == [] then 0
    else Covering(intervals[..|intervals| - 1], i)
         + var last := intervals[|intervals| - 1]; if last.0 < i <= last.1 then 1 else 0
  }

  ghost predicate Tallies(b: seq<int>, intervals: seq<(nat, nat)>) {
    forall i: nat | i < |b| :: Active(b, i) == Covering(intervals, i)
  }

  lemma NoTally(b: seq<int>)
    requires forall i | 0 <= i < |b| :: b[i] == 0
    ensures Tallies(b, [])
  {
    forall i: nat | i < |b| ensures Active(b, i) == Covering([], i) {
      ZeroSum(b, i + 1);
    }
  }

  lemma {:induction false} ZeroSum(b: seq<int>, n: nat)
    requires n <= |b| && forall i | 0 <= i < n :: b[i] == 0
    ensures Sum(b, n) == 0
  {
    if n > 0 {
      ZeroSum(b, n - 1);
    }
  }

  lemma TallyAdd(b: seq<int>, intervals: seq<(nat, nat)>, start: nat, end: nat)
    requires Tallies(b, intervals) && start < end && end + 1 < |b|
    ensures var up := b[start + 1 := b[start + 1] + 1];
            Tallies(up[end + 1 := up[end + 1] - 1], intervals + [(start, end)])
  {
    var up := b[start + 1 := b[start + 1] + 1];
    var both := up[end + 1 := up[end + 1] - 1];
    forall i: nat | i < |both| ensures Active(both, i) == Covering(intervals + [(start, end)], i) {
      SumAdd(b, start + 1, 1, i + 1);
      SumAdd(up, end + 1, -1, i + 1);
      assert (intervals + [(start, end)])[..|intervals|] == intervals;
    }
  }

  // ---- what the scan knows ----

  ghost predicate PendingBefore(pending: map<string, nat>, i: nat) {
    exists id :: id in pending && pending[id] < i
  }

  /** Up to segment `index`, a boundary is crossed exactly if an interval or a pending call covers it. */
  ghost predicate Marked(segments: seq<seq<Item>>, index: nat, pending: map<string, nat>, intervals: seq<(nat, nat)>)
    requires index <= |segments|
  {
    forall i: nat | 0 < i <= index ::
      Settled(Flatten(segments[..i])) <==> Covering(intervals, i) == 0 && !PendingBefore(pending, i)
  }

  ghost predicate PendingIsOpen(items: seq<Item>, pending: map<string, nat>, index: nat) {
    && (forall id :: id in pending <==> Open(items, id))
    && forall id | id in pending :: pending[id] <= index
  }

  /** The intervals recorded so far end at or before `index`. */
  predicate EndBy(intervals: seq<(nat, nat)>, index: int) {
    forall k | 0 <= k < |intervals| :: intervals[k].1 <= index
  }

  lemma {:induction false} NotCovered(intervals: seq<(nat, nat)>, i: nat)
    requires EndBy(intervals, i - 1)
    ensures Covering(intervals, i) == 0
  {
    if intervals != [] {
      NotCovered(intervals[..|intervals| - 1], i);
    }
  }

  function WithCalls(pending: map<string, nat>, ids: seq<string>, index: nat): map<string, nat> {
    map id | id in pending.Keys + set k | 0 <= k < |ids| :: ids[k] :: if id in pending then pending[id] else index
  }

  method SetDefaults(pending: map<string, nat>, ids: seq<string>, index: nat) returns (next: map<string, nat>)
    ensures next == WithCalls(pending, ids, index)
  {
    next := pending;
    for k := 0 to |ids|
      invariant next == WithCalls(pending, ids[..k], index)
    {
      assert ids[..k + 1] == ids[..k] + [ids[k]];
      if ids[k] !in next {
        next := next[ids[k] := index];
      }
    }
    assert ids[..|ids|] == ids;
  }

  /** One message: its calls become pending, its result ends the pending call of that id. */
  function AfterMessage(pending: map<string, nat>, r: Record, index: nat): map<string, nat> {
    WithCalls(pending, CallIds(r), index) - {r.toolCallId}
  }

  lemma MessageKeepsPending(items: seq<Item>, item: Item, pending: map<string, nat>, index: nat)
    requires PendingIsOpen(items, pending, index)
    ensures PendingIsOpen(items + [item], AfterMessage(pending, item.record, index), index)
  {
    hide Open, CallIds;
    forall id ensures id in AfterMessage(pending, item.record, index) <==> Open(items + [item], id) {
      OpenStep(items, item, id);
    }
  }

  /** The interval a message closes, if its result ends a call of an earlier segment. */
  function AfterResult(intervals: seq<(nat, nat)>, called: map<string, nat>, r: Record, index: nat): seq<(nat, nat)> {
    if r.toolCallId in called && called[r.toolCallId] < index then intervals + [(called[r.toolCallId], index)] else intervals
  }

  lemma MessageKeepsMarks(segments: seq<seq<Item>>, index: nat, pending: map<string, nat>, intervals: seq<(nat, nat)>,
      r: Record)
    requires index < |segments| && Marked(segments, index, pending, intervals) && forall id | id in pending :: pending[id] <= index
    ensures Marked(segments, index, AfterMessage(pending, r, index),
                   AfterResult(intervals, WithCalls(pending, CallIds(r), index), r, index))
  {
    hide Settled, CallIds;
    var called := WithCalls(pending, CallIds(r), index);
    var next, more := AfterMessage(pending, r, index), AfterResult(intervals, called, r, index);
    forall i: nat | 0 < i <= index
      ensures Settled(Flatten(segments[..i])) <==> Covering(more, i) == 0 && !PendingBefore(next, i)
    {
      if more != intervals {
        assert more[..|intervals|] == intervals;
      }
      if id :| id in pending && pending[id] < i && id != r.toolCallId {
        assert id in next && next[id] < i;
      }
    }
  }

  lemma SegmentKeepsMarks(segments: seq<seq<Item>>, index: nat, pending: map<string, nat>, intervals: seq<(nat, nat)>)
    requires index < |segments| && Marked(segments, index, pending, intervals) && EndBy(intervals, index)
    requires PendingIsOpen(Flatten(segments[..index + 1]), pending, index)
    ensures Marked(segments, index + 1, pending, intervals)
  {
    hide Open;
    NotCovered(intervals, index + 1);
    var items := Flatten(segments[..index + 1]);
    if id :| Open(items, id) {
      assert id in pending && pending[id] < index + 1;
    }
  }

  function AfterBoundaries(b: seq<int>, called: map<string, nat>, r: Record, index: nat): seq<int>
    requires index + 1 < |b|
  {
    if r.toolCallId in called && called[r.toolCallId] < index then
      var up := b[called[r.toolCallId] + 1 := b[called[r.toolCallId] + 1] + 1];
      up[index + 1 := up[index + 1] - 1]
    else b
  }

  /** What holds while segment `index` is scanned, `items` being all messages so far. */
  ghost predicate Scanned(segments: seq<seq<Item>>, index: nat, items: seq<Item>, pending: map<string, nat>, b: seq<int>,
                          intervals: seq<(nat, nat)>) {
    && index <= |segments| && |b| == |segments| + 1
    && Tallies(b, intervals) && EndBy(intervals, index)
    && Marked(segments, index, pending, intervals) && PendingIsOpen(items, pending, index)
    && forall id | id in pending :: pending[id] < |segments|
  }

  lemma ScanStarts(segments: seq<seq<Item>>, b: seq<int>)
    requires |b| == |segments| + 1 && forall i | 0 <= i < |b| :: b[i] == 0
    ensures Scanned(segments, 0, Flatten(segments[..0]), map[], b, [])
  {
    NoTally(b);
  }

  lemma ScanMessage(segments: seq<seq<Item>>, index: nat, items: seq<Item>, pending: map<string, nat>, b: seq<int>,
                    intervals: seq<(nat, nat)>, item: Item)
    requires Scanned(segments, index, items, pending, b, intervals) && index < |segments|
    ensures var r := item.record;
            var called := WithCalls(pending, CallIds(r), index);
            Scanned(segments, index, items + [item], AfterMessage(pending, r, index), AfterBoundaries(b, called, r, index),
                    AfterResult(intervals, called, r, index))
  {
    hide Settled, Open, CallIds, Marked, Tallies;
    var called := WithCalls(pending, CallIds(item.record), index);
    MessageKeepsPending(items, item, pending, index);
    MessageKeepsMarks(segments, index, pending, intervals, item.record);
    if item.record.toolCallId in called && called[item.record.toolCallId] < index {
      TallyAdd(b, intervals, called[item.record.toolCallId], index);
    }
  }

  /** Ids are never empty, so looking up an absent result id finds nothing. */
  lemma NoEmptyId(segments: seq<seq<Item>>, index: nat, items: seq<Item>, pending: map<string, nat>, b: seq<int>,
                  intervals: seq<(nat, nat)>)
    ensures Scanned(segments, index, items, pending, b, intervals) ==> "" !in pending
  {
  }

  lemma ScanSegment(segments: seq<seq<Item>>, index: nat, pending: map<string, nat>, b: seq<int>, intervals: seq<(nat, nat)>)
    requires index < |segments| && Scanned(segments, index, Flatten(segments[..index + 1]), pending, b, intervals)
    ensures Scanned(segments, index + 1, Flatten(segments[..index + 1]), pending, b, intervals)
  {
    hide Settled, Open, Tallies, Marked;
    SegmentKeepsMarks(segments, index, pending, intervals);
  }

  lemma ScanOver(segments: seq<seq<Item>>, items: seq<Item>, pending: map<string, nat>, b: seq<int>,
      intervals: seq<(nat, nat)>)
    requires Scanned(segments, |segments|, items, pending, b, intervals)
    ensures forall i: nat | 0 < i < |segments| ::
              Settled(Flatten(segments[..i])) <==> Active(b, i) == 0 && !PendingBefore(pending, i)
    ensures forall i: nat | 0 < i < |segments| :: Active(b, i) >= 0
    ensures forall id | id in pending :: pending[id] < |segments|
  {
    hide Settled, Open;
  }

  /** The least segment with a pending call. */
  method MinPending(pending: map<string, nat>) returns (first: nat)
    requires pending != map[]
    ensures exists id :: id in pending && pending[id] == first
    ensures forall id | id in pending :: first <= pending[id]
  {
    var id :| id in pending;
    first := pending[id];
    var todo := pending.Keys - {id};
    while todo != {}
      invariant todo <= pending.Keys
      invariant exists id :: id in pending && pending[id] == first
      invariant forall id | id in pending.Keys - todo :: first <= pending[id]
      decreases todo
    {
      id :| id in todo;
      todo := todo - {id};
      if pending[id] < first {
        first := pending[id];
      }
    }
  }

  lemma StillOpen(b: seq<int>, pending: map<string, nat>, first: nat)
    requires first + 1 < |b| && (exists id :: id in pending && pending[id] == first) && forall id | id in pending :: first <= pending[id]
    ensures forall i: nat | i < |b| :: Active(b[first + 1 := b[first + 1] + 1], i) == Active(b, i) + if PendingBefore(pending, i) then 1 else 0
  {
    var more := b[first + 1 := b[first + 1] + 1];
    forall i: nat | i < |b| ensures Active(more, i) == Active(b, i) + if PendingBefore(pending, i) then 1 else 0 {
      SumAdd(b, first + 1, 1, i + 1);
    }
  }

  lemma NothingOpen(pending: map<string, nat>)
    ensures pending == map[] ==> forall i: nat :: !PendingBefore(pending, i)
  {
  }

  /** One message of the scan. */
  method ScanRecord(boundaries: array<int>, pending: map<string, nat>, r: Record, index: nat) returns (next: map<string, nat>)
    requires index + 1 < boundaries.Length && "" !in pending
    modifies boundaries
    ensures next == AfterMessage(pending, r, index)
    ensures boundaries[..] == AfterBoundaries(old(boundaries[..]), WithCalls(pending, CallIds(r), index), r, index)
  {
    next := SetDefaults(pending, CallIds(r), index);
    if r.toolCallId != "" && r.toolCallId in next {
      var start := next[r.toolCallId];
      if start < index {
        boundaries[start + 1] := boundaries[start + 1] + 1;
        boundaries[index + 1] := boundaries[index + 1] - 1;
      }
      next := next - {r.toolCallId};
    }
  }

  /**
   The scan of `_join_tool_segments`: the running sum at a boundary between segments is zero exactly when
   nothing called before it is still open there.
  */
  method Boundaries(segments: seq<seq<Item>>) returns (boundaries: array<int>)
    ensures fresh(boundaries) && boundaries.Length == |segments| + 1
    ensures forall i: nat | 0 < i < |segments| :: Active(boundaries[..], i) == 0 <==> Settled(Flatten(segments[..i]))
  {
    hide Scanned, Settled, CallIds, PendingBefore, Sum, WithCalls, AfterMessage, AfterBoundaries;
    var n := |segments|;
    boundaries := new int[n + 1](i => 0);
    var pending: map<string, nat> := map[];
    ghost var intervals: seq<(nat, nat)> := [];
    ScanStarts(segments, boundaries[..]);
    for index := 0 to n
      invariant Scanned(segments, index, Flatten(segments[..index]), pending, boundaries[..], intervals)
    {
      ghost var before := Flatten(segments[..index]);
      var segment := segments[index];
      assert before + segment[..0] == before;
      for j := 0 to |segment|
        invariant Scanned(segments, index, before + segment[..j], pending, boundaries[..], intervals)
      {
        var r := segment[j].record;
        ScanMessage(segments, index, before + segment[..j], pending, boundaries[..], intervals, segment[j]);
        NoEmptyId(segments, index, before + segment[..j], pending, boundaries[..], intervals);
        assert before + segment[..j + 1] == before + segment[..j] + [segment[j]];
        intervals := AfterResult(intervals, WithCalls(pending, CallIds(r), index), r, index);
        pending := ScanRecord(boundaries, pending, r, index);
      }
      assert before + segment[..|segment|] == Flatten(segments[..index + 1]) by {
        assert segments[..index + 1][..index] == segments[..index] && segment[..|segment|] == segment;
      }
      ScanSegment(segments, index, pending, boundaries[..], intervals);
    }
    ScanOver(segments, Flatten(segments[..n]), pending, boundaries[..], intervals);
    if pending != map[] {
      var first := MinPending(pending);
      StillOpen(boundaries[..], pending, first);
      boundaries[first + 1] := boundaries[first + 1] + 1;
    } else {
      assert forall i: nat :: !PendingBefore(pending, i) by { NothingOpen(pending); }
    }
  }

  /** `_join_tool_segments` */
  lemma GroupedStart(segments: seq<seq<Item>>)
    ensures Grouped(segments[..0]) == [] && forall b: seq<int> :: Sum(b, 0) == 0
  {
  }

  lemma GroupedNext(segments: seq<seq<Item>>, index: nat, b: seq<int>)
    requires index < |segments| && |b| == |segments| + 1
    requires index > 0 ==> (Active(b, index) == 0 <==> Settled(Flatten(segments[..index])))
    requires Grouped(segments[..index]) == [] <==> index == 0
    ensures Sum(b, index + 1) == Sum(b, index) + b[index]
    ensures var before := Grouped(segments[..index]);
            Grouped(segments[..index + 1]) == if before == [] || Sum(b, index + 1) == 0 then before + [segments[index]]
                                              else before[..|before| - 1] + [before[|before| - 1] + segments[index]]
  {
    hide Settled;
    assert segments[..index + 1][..index] == segments[..index];
  }

  method JoinToolSegments(segments: seq<seq<Item>>) returns (merged: seq<seq<Item>>)
    ensures merged == Grouped(segments)
  {
    hide Settled, Grouped, Sum;
    merged := [];
    GroupedStart(segments);
    if segments == [] {
      return;
    }
    var boundaries := Boundaries(segments);
    ghost var b := boundaries[..];
    var active := 0;
    for index := 0 to |segments|
      invariant boundaries[..] == b && active == Sum(b, index) && merged == Grouped(segments[..index])
      invariant merged == [] <==> index == 0
    {
      GroupedNext(segments, index, b);
      active := active + boundaries[index];
      if merged == [] || active == 0 {
        merged := merged + [segments[index]];
      } else {
        merged := merged[..|merged| - 1] + [merged[|merged| - 1] + segments[index]];
      }
    }
    assert segments[..|segments|] == segments;
  }

  // ---- the blocks ----

  lemma FlattenSnoc<T>(parts: seq<seq<T>>, part: seq<T>)
    ensures Flatten(parts + [part]) == Flatten(parts) + part
  {
    assert (parts + [part])[..|parts|] == parts;
  }

  /** The blocks hold the same messages in the same order. */
  lemma {:induction false} GroupedFlattens(segments: seq<seq<Item>>)
    ensures Flatten(Grouped(segments)) == Flatten(segments)
    ensures AllNonEmpty(segments) ==> AllNonEmpty(Grouped(segments))
    ensures segments != [] ==> Grouped(segments) != []
  {
    hide Settled;
    if segments != [] {
      var init, last := segments[..|segments| - 1], segments[|segments| - 1];
      GroupedFlattens(init);
      var before := Grouped(init);
      FlattenSnoc(before, last);
      if before != [] {
        FlattenSnoc(before[..|before| - 1], before[|before| - 1] + last);
        assert Flatten(before[..|before| - 1]) + (before[|before| - 1] + last) == Flatten(before) + last;
      }
    }
  }

  /** No block starts while a call is open. */
  lemma {:induction false} BlocksStartSettled(segments: seq<seq<Item>>, j: nat)
    requires 0 < j < |Grouped(segments)|
    ensures Settled(Flatten(Grouped(segments)[..j]))
  {
    hide Settled;
    var init := segments[..|segments| - 1];
    var before := Grouped(init);
    GroupedFlattens(init);
    if j == |before| {
      assert Grouped(segments)[..j] == before;
    } else {
      assert Grouped(segments)[..j] == before[..j];
      BlocksStartSettled(init, j);
    }
  }

  lemma {:induction false} SettledStartsBlock(segments: seq<seq<Item>>, k: nat)
    requires 0 < k < |segments| && Settled(Flatten(segments[..k]))
    ensures 0 < |Grouped(segments[..k])| < |Grouped(segments)|
    ensures Grouped(segments)[..|Grouped(segments[..k])|] == Grouped(segments[..k])
  {
    hide Settled;
    var init := segments[..|segments| - 1];
    GroupedFlattens(segments[..k]);
    if k < |segments| - 1 {
      assert init[..k] == segments[..k];
      SettledStartsBlock(init, k);
    }
  }

  /** The blocks cut between two segments exactly where no call is open: no finer division keeps calls and results together. */
  lemma FinestBlocks(segments: seq<seq<Item>>, k: nat)
    requires 0 < k < |segments| && AllNonEmpty(segments)
    ensures (exists j :: 0 < j < |Grouped(segments)| && Flatten(Grouped(segments)[..j]) == Flatten(segments[..k]))
            <==> Settled(Flatten(segments[..k]))
  {
    hide Settled;
    if Settled(Flatten(segments[..k])) {
      SettledStartsBlock(segments, k);
      GroupedFlattens(segments[..k]);
      assert Flatten(Grouped(segments)[..|Grouped(segments[..k])|]) == Flatten(segments[..k]);
    }
    if j :| 0 < j < |Grouped(segments)| && Flatten(Grouped(segments)[..j]) == Flatten(segments[..k]) {
      BlocksStartSettled(segments, j);
    }
  }

  // ---- segments ----

  function Last<T>(s: seq<T>): T
    requires s != []
  {
    s[|s| - 1]
  }

  predicate OneTask(segment: seq<Item>) {
    segment != [] && forall i | 0 <= i < |segment| :: TaskOf(segment[i].record) == TaskOf(segment[0].record)
  }

  predicate EachOneTask(segments: seq<seq<Item>>) {
    forall s | 0 <= s < |segments| :: OneTask(segments[s])
  }

  lemma GrowKeeps(segments: seq<seq<Item>>, item: Item, opens: bool)
    requires EachOneTask(segments) && (segments != [] && !opens ==> TaskOf(Last(Last(segments)).record) == TaskOf(item.record))
    ensures var grown := Grow(segments, item, opens);
            Flatten(grown) == Flatten(segments) + [item] && EachOneTask(grown) && grown != [] && Last(Last(grown)) == item
  {
    hide TaskOf;
    FlattenSnoc(segments, [item]);
    if segments != [] {
      var last := Last(segments);
      FlattenSnoc(segments[..|segments| - 1], last + [item]);
      assert Flatten(segments[..|segments| - 1]) + (last + [item]) == Flatten(segments) + [item];
      assert OneTask(last);
      if !opens {
        assert TaskOf(last[|last| - 1].record) == TaskOf(last[0].record);
        assert OneTask(last + [item]);
      }
    }
  }

  /** Segments are the candidates in order, each of one task. */
  lemma {:induction false} SegmentsFlatten(items: seq<Item>)
    ensures Flatten(SegmentsOf(items)) == items && EachOneTask(SegmentsOf(items)) && AllNonEmpty(SegmentsOf(items))
    ensures items != [] ==> SegmentsOf(items) != [] && Last(Last(SegmentsOf(items))) == items[|items| - 1]
  {
    hide OneTask, Grow, TaskOf;
    if items != [] {
      var n := |items|;
      SegmentsFlatten(items[..n - 1]);
      assert !(n > 1 && Opens(items[n - 2].record, items[n - 1].record)) && n > 1 ==>
          TaskOf(items[n - 2].record) == TaskOf(items[n - 1].record);
      GrowKeeps(SegmentsOf(items[..n - 1]), items[n - 1], n > 1 && Opens(items[n - 2].record, items[n - 1].record));
    }
    SegmentsNonEmpty(SegmentsOf(items));
  }

  lemma SegmentsNonEmpty(segments: seq<seq<Item>>)
    requires EachOneTask(segments)
    ensures AllNonEmpty(segments)
  {
    assert forall s | 0 <= s < |segments| :: OneTask(segments[s]);
  }

  lemma SegmentsStep(items: seq<Item>, item: Item)
    ensures SegmentsOf(items + [item]) == Grow(SegmentsOf(items), item, items != [] && Opens(Last(items).record, item.record))
  {
    assert (items + [item])[..|items|] == items;
  }

  /** `_segments`, without the final gluing. */
  method Segments(history: seq<Record>) returns (summaries: seq<Item>, segments: seq<seq<Item>>)
    ensures summaries == OldSummaries(history) && segments == SegmentsOf(Candidates(history))
  {
    summaries, segments := [], [];
    var previous := "";
    ghost var kept: seq<Item> := [];
    hide IsHidden, IsSummary, TaskOf, SegmentsOf, OneTask;
    NoSegments();
    for i := 0 to |history|
      invariant summaries == Pick(history[..i], SummaryPositions(history)) && kept == Pick(history[..i], SegmentPositions(history))
      invariant segments == SegmentsOf(kept)
      invariant kept != [] ==> previous == TaskOf(Last(kept).record)
    {
      var r := history[i];
      assert history[..i + 1][..i] == history[..i];
      if IsHidden(r) {
        continue;
      }
      if IsSummary(r) {
        summaries := summaries + [Item(i, r)];
        continue;
      }
      SegmentsFlatten(kept);
      NoSegments();
      SegmentsStep(kept, Item(i, r));
      assert (segments + [[]])[..|segments|] == segments && [] + [Item(i, r)] == [Item(i, r)];
      kept := kept + [Item(i, r)];
      if segments == [] || TaskOf(r) != previous || (TaskOf(r) == "" && r.role == "user" && r.toolCallId == "") {
        segments := segments + [[]];
      }
      segments := segments[..|segments| - 1] + [Last(segments) + [Item(i, r)]];
      previous := TaskOf(r);
    }
    assert history[..|history|] == history;
  }

  lemma NoSegments()
    ensures SegmentsOf([]) == []
  {
  }

  /** A segment starts at position `k` of the candidates. */
  predicate StartsSegment(segments: seq<seq<Item>>, k: nat) {
    exists s: nat :: s < |segments| && |Flatten(segments[..s])| == k
  }

  lemma {:induction false} ShorterFront(segments: seq<seq<Item>>, s: nat)
    requires AllNonEmpty(segments) && s < |segments|
    ensures |Flatten(segments[..s])| < |Flatten(segments)|
  {
    var n := |segments| - 1;
    if s < n {
      ShorterFront(segments[..n], s);
      assert segments[..n][..s] == segments[..s];
    }
  }

  lemma GrowStarts(segments: seq<seq<Item>>, item: Item, opens: bool, k: nat)
    requires AllNonEmpty(segments)
    ensures var size := |Flatten(segments)|;
            StartsSegment(Grow(segments, item, opens), k) <==>
            if segments == [] || opens then k == size || StartsSegment(segments, k) else StartsSegment(segments, k)
  {
    var grown := Grow(segments, item, opens);
    assert segments[..|segments|] == segments;
    forall s: nat | s < |segments| ensures s < |grown| && grown[..s] == segments[..s] {
    }
    hide Flatten;
    if segments == [] || opens {
      assert grown[..|segments|] == segments;
    }
  }

  /** Segments are cut exactly where the task changes, and in front of a user's message outside all tasks. */
  lemma {:induction false} SegmentCuts(items: seq<Item>, k: nat)
    requires k < |items|
    ensures StartsSegment(SegmentsOf(items), k) <==>
            k == 0 || TaskOf(items[k - 1].record) != TaskOf(items[k].record)
            || (TaskOf(items[k].record) == "" && items[k].record.role == "user" && items[k].record.toolCallId == "")
  {
    hide TaskOf, StartsSegment, Grow, Flatten;
    var n := |items| - 1;
    var before := SegmentsOf(items[..n]);
    SegmentsFlatten(items[..n]);
    GrowStarts(before, items[n], n > 0 && Opens(items[n - 1].record, items[n].record), k);
    if k < n {
      SegmentCuts(items[..n], k);
    } else {
      NoStartAtEnd(before, k);
    }
  }

  lemma NoStartAtEnd(segments: seq<seq<Item>>, k: nat)
    requires AllNonEmpty(segments) && k == |Flatten(segments)|
    ensures !StartsSegment(segments, k)
  {
    forall s: nat | s < |segments| ensures |Flatten(segments[..s])| != k {
      ShorterFront(segments, s);
    }
  }

  /** What a plan may cover, read off the fields of the messages. */
  lemma WhatIsVisible(history: seq<Record>, i: nat)
    requires i < |history|
    ensures var r := history[i];
            var task := if r.taskId != "" then r.taskId else match r.meta case None => "" case Some(m) => m.taskId;
            var shown := r.role != "system" && !r.isDynamic && !r.isEphemeral && !r.storedEphemeral;
            && (i in IndexSet(Candidates(history)) <==> shown && task != "compact_summary")
            && (i in IndexSet(OldSummaries(history)) <==> shown && task == "compact_summary")
  {
    PickPositions(history, SegmentPositions(history));
    PickPositions(history, SummaryPositions(history));
    hide Pick, IndexSet;
  }

  // ---- rendering ----

  function Render(items: seq<Item>, json: Record -> string): string {
    if items == [] then ""
    else
      var n := |items| - 1;
      (if n == 0 then "" else Render(items[..n], json) + "\n") + json(items[n].record)
  }

  function Weight(items: seq<Item>, json: Record -> string): nat {
    if items == [] then 0 else Weight(items[..|items| - 1], json) + |json(items[|items| - 1].record)| + 1
  }

  lemma {:induction false} RenderLength(items: seq<Item>, json: Record -> string)
    ensures |Render(items, json)| == if items == [] then 0 else Weight(items, json) - 1
  {
    if items != [] {
      RenderLength(items[..|items| - 1], json);
    }
  }

  lemma {:induction false} WeightConcat(a: seq<Item>, b: seq<Item>, json: Record -> string)
    ensures Weight(a + b, json) == Weight(a, json) + Weight(b, json)
  {
    if b == [] {
      assert a + b == a;
    } else {
      assert (a + b)[..|a + b| - 1] == a + b[..|b| - 1];
      WeightConcat(a, b[..|b| - 1], json);
    }
  }

  /** A newline joins two renderings, and one message renders as its JSON; the program's running counter follows. */
  lemma {:induction false} RenderedTogether(a: seq<Item>, b: seq<Item>, json: Record -> string)
    requires b != []
    ensures Render(a + b, json) == if a == [] then Render(b, json) else Render(a, json) + "\n" + Render(b, json)
    ensures |b| == 1 ==> Render(b, json) == json(b[0].record)
  {
    var n := |b| - 1;
    RenderLast(a + b, json);
    RenderLast(b, json);
    hide Render;
    assert (a + b)[..|a + b| - 1] == a + b[..n];
    if a == [] {
      assert a + b == b;
    } else if n == 0 {
      assert a + b[..n] == a;
    } else {
      RenderedTogether(a, b[..n], json);
      Regroup(Render(a, json), Render(b[..n], json), json(b[n].record));
    }
  }

  lemma Regroup(x: string, y: string, z: string)
    ensures (x + "\n" + y) + "\n" + z == x + "\n" + (y + "\n" + z)
  {
  }

  lemma RenderLast(items: seq<Item>, json: Record -> string)
    requires items != []
    ensures var n := |items| - 1;
            Render(items, json) == (if n == 0 then "" else Render(items[..n], json) + "\n") + json(items[n].record)
  {
  }

  lemma RenderedLength(a: seq<Item>, b: seq<Item>, json: Record -> string)
    requires b != []
    ensures |Render(a + b, json)| == |Render(a, json)| + |Render(b, json)| + if a != [] then 1 else 0
  {
    RenderedTogether(a, b, json);
    hide Render;
  }

  lemma WeightPickStep(history: seq<Record>, keep: set<nat>, json: Record -> string)
    requires history != []
    ensures var n := |history| - 1;
            Weight(Pick(history, keep), json) == Weight(Pick(history[..n], keep), json) + if n in keep then |json(history[n])| + 1 else 0
  {
    var n := |history| - 1;
    var before := Pick(history[..n], keep);
    if n in keep {
      assert Pick(history, keep) == before + [Item(n, history[n])];
      assert (before + [Item(n, history[n])])[..|before|] == before;
    } else {
      assert Pick(history, keep) == before;
    }
  }

  lemma {:induction false} WeightPick(history: seq<Record>, a: set<nat>, b: set<nat>, json: Record -> string)
    requires a !! b
    ensures Weight(Pick(history, a + b), json) == Weight(Pick(history, a), json) + Weight(Pick(history, b), json)
  {
    if history != [] {
      hide Pick, Weight;
      WeightPick(history[..|history| - 1], a, b, json);
      WeightPickStep(history, a, json);
      WeightPickStep(history, b, json);
      WeightPickStep(history, a + b, json);
    }
  }

  /** Putting the selection back into the order of the history does not change the length of its text. */
  lemma ReorderedLength(history: seq<Record>, a: set<nat>, b: set<nat>, json: Record -> string)
    requires a !! b
    ensures |Render(Pick(history, a + b), json)| == |Render(Pick(history, a) + Pick(history, b), json)|
  {
    WeightPick(history, a, b, json);
    WeightConcat(Pick(history, a), Pick(history, b), json);
    RenderLength(Pick(history, a + b), json);
    RenderLength(Pick(history, a) + Pick(history, b), json);
    PickEmpty(history, a);
    PickEmpty(history, b);
    PickEmpty(history, a + b);
  }

  lemma {:induction false} PickEmpty(history: seq<Record>, keep: set<nat>)
    ensures Pick(history, keep) == [] <==> forall i | 0 <= i < |history| :: i !in keep
  {
    if history != [] {
      PickEmpty(history[..|history| - 1], keep);
    }
  }

  // ---- what is chosen ----

  predicate Fits(base: seq<Item>, parts: seq<seq<Item>>, m: nat, maxChars: int, json: Record -> string)
    requires m <= |parts|
  {
    |Render(base + Flatten(parts[..m]), json)| <= maxChars
  }

  /** As many parts as fit behind `base`, from the front. */
  predicate Greedy(base: seq<Item>, parts: seq<seq<Item>>, m: nat, maxChars: int, json: Record -> string) {
    && m <= |parts| && (m > 0 ==> Fits(base, parts, m, maxChars, json))
    && (m < |parts| ==> !Fits(base, parts, m + 1, maxChars, json))
  }

  function Singletons(items: seq<Item>): (parts: seq<seq<Item>>)
    ensures |parts| == |items| && forall i | 0 <= i < |items| :: parts[i] == [items[i]]
  {
    seq(|items|, i requires 0 <= i < |items| => [items[i]])
  }

  /** `m` old blocks are taken whole, or, if not even the first one fits, `m` sub-blocks of it. */
  ghost predicate Choice(base: seq<Item>, earlier: seq<seq<Item>>, partial: bool, m: nat, maxChars: int,
      json: Record -> string) {
    if earlier == [] then m == 0 && !partial
    else if !partial then
      Greedy(base, earlier, m, maxChars, json) && (m == 0 ==> Greedy(base, Grouped(Singletons(earlier[0])), 0, maxChars, json))
    else
      m > 0 && Greedy(base, earlier, 0, maxChars, json) && Greedy(base, Grouped(Singletons(earlier[0])), m, maxChars, json)
  }

  /** The items of the first `m` old blocks, or of the first `m` sub-blocks of the oldest one. */
  ghost function Taken(earlier: seq<seq<Item>>, partial: bool, m: nat): seq<Item> {
    if earlier == [] then []
    else if partial then var parts := Grouped(Singletons(earlier[0])); if m <= |parts| then Flatten(parts[..m]) else []
    else if m <= |earlier| then Flatten(earlier[..m]) else []
  }

  method TakeFitting(base: seq<Item>, parts: seq<seq<Item>>, maxChars: int, json: Record -> string)
    returns (selected: seq<Item>, m: nat)
    requires AllNonEmpty(parts)
    ensures Greedy(base, parts, m, maxChars, json) && selected == base + Flatten(parts[..m])
  {
    hide Render;
    selected, m := base, 0;
    var size := |Render(selected, json)|;
    assert base + Flatten(parts[..0]) == base;
    while m < |parts|
      invariant m <= |parts| && selected == base + Flatten(parts[..m]) && size == |Render(selected, json)|
      invariant m > 0 ==> Fits(base, parts, m, maxChars, json)
    {
      RenderedLength(selected, parts[m], json);
      assert parts[..m + 1][..m] == parts[..m];
      assert selected + parts[m] == base + Flatten(parts[..m + 1]);
      var candidate := size + |Render(parts[m], json)| + if selected != [] then 1 else 0;
      if candidate > maxChars {
        return;
      }
      selected := selected + parts[m];
      size := candidate;
      m := m + 1;
    }
  }

  /** The selection loop: whole old blocks while they fit; sub-blocks of the first one if even that does not. */
  method Choose(base: seq<Item>, earlier: seq<seq<Item>>, maxChars: int, json: Record -> string)
    returns (selected: seq<Item>, count: nat, partial: bool, ghost m: nat)
    requires AllNonEmpty(earlier)
    ensures Choice(base, earlier, partial, m, maxChars, json) && selected == base + Taken(earlier, partial, m)
    ensures count == if partial then 1 else m
    ensures count == 0 <==> Taken(earlier, partial, m) == []
    ensures count > 0 ==> |Render(selected, json)| <= maxChars
  {
    hide Fits, Render;
    selected, count := TakeFitting(base, earlier, maxChars, json);
    m, partial := count, false;
    if count == 0 && earlier != [] {
      var parts := JoinToolSegments(Singletons(earlier[0]));
      GroupedFlattens(Singletons(earlier[0]));
      var k;
      selected, k := TakeFitting(base, parts, maxChars, json);
      if k > 0 {
        count, partial, m := 1, true, k;
        TakenFits(base, parts, k, maxChars, json);
      }
    } else if count > 0 {
      TakenFits(base, earlier, count, maxChars, json);
    }
  }

  lemma TakenFits(base: seq<Item>, parts: seq<seq<Item>>, m: nat, maxChars: int, json: Record -> string)
    requires AllNonEmpty(parts) && 0 < m <= |parts| && Fits(base, parts, m, maxChars, json)
    ensures |Render(base + Flatten(parts[..m]), json)| <= maxChars && Flatten(parts[..m]) != []
  {
    assert parts[..m][m - 1] == parts[m - 1] != [];
  }

  // ---- the selection keeps calls and results together ----

  lemma {:induction false} FlattenPrefix<T>(parts: seq<seq<T>>, m: nat)
    requires m <= |parts|
    ensures Flatten(parts) == Flatten(parts[..m]) + Flatten(parts[m..])
  {
    if m < |parts| {
      var n := |parts| - 1;
      assert parts[..n][..m] == parts[..m] && parts[m..][..n - m] == parts[..n][m..];
      FlattenPrefix(parts[..n], m);
    } else {
      assert parts[..m] == parts;
    }
  }

  lemma WholeBlocksAreSettled(segments: seq<seq<Item>>, m: nat)
    requires m < |Grouped(segments)|
    ensures Flatten(Grouped(segments)[..m]) <= Flatten(segments) && Settled(Flatten(Grouped(segments)[..m]))
  {
    hide Settled;
    GroupedFlattens(segments);
    FlattenPrefix(Grouped(segments), m);
    if m == 0 {
      NothingSettled();
    } else {
      BlocksStartSettled(segments, m);
    }
  }

  lemma SubBlocksAreSettled(items: seq<Item>, m: nat)
    requires Settled(items) && m <= |Grouped(Singletons(items))|
    ensures Flatten(Grouped(Singletons(items))[..m]) <= items && Settled(Flatten(Grouped(Singletons(items))[..m]))
  {
    hide Settled;
    var parts := Singletons(items);
    FlattenSingletons(items);
    GroupedFlattens(parts);
    if m < |Grouped(parts)| {
      WholeBlocksAreSettled(parts, m);
    } else {
      assert Grouped(parts)[..m] == Grouped(parts);
    }
  }

  /** Whatever is taken is a front stretch of the candidates in which every call is answered. */
  lemma TakenIsSettledPrefix(items: seq<Item>, keep: nat, partial: bool, m: nat)
    requires keep >= 1
    ensures var taken := Taken(Earlier(Grouped(SegmentsOf(items)), keep), partial, m);
            taken <= items && Settled(taken)
  {
    hide Settled, SegmentsOf, Grouped;
    SegmentsFlatten(items);
    var blocks := Grouped(SegmentsOf(items));
    var earlier := Earlier(blocks, keep);
    NothingSettled();
    if earlier != [] {
      if !partial {
        if m <= |earlier| {
          assert earlier[..m] == blocks[..m];
          WholeBlocksAreSettled(SegmentsOf(items), m);
        }
      } else if m <= |Grouped(Singletons(earlier[0]))| {
        WholeBlocksAreSettled(SegmentsOf(items), 1);
        assert blocks[..1][..0] == [] && Flatten(blocks[..1]) == [] + blocks[0] == blocks[0];
        SubBlocksAreSettled(blocks[0], m);
      }
    }
  }

  lemma NothingSettled()
    ensures Settled([])
  {
  }

  lemma {:induction false} FlattenSingletons(items: seq<Item>)
    ensures Flatten(Singletons(items)) == items
  {
    if items != [] {
      var n := |items| - 1;
      FlattenSingletons(items[..n]);
      assert Singletons(items)[..n] == Singletons(items[..n]);
    }
  }

  /** The blocks before the last `keep` ones. */
  function Earlier(blocks: seq<seq<Item>>, keep: nat): seq<seq<Item>> {
    if keep <= |blocks| then blocks[..|blocks| - keep] else []
  }

  /**
   Of the blocks the last `keep` ones stay, or all of them; of the others the first `m` are taken whole, or else
   `m` sub-blocks from the front of the oldest one. Taken and left items together are all items in order.
  */
  lemma TakenInFront(blocks: seq<seq<Item>>, keep: nat, partial: bool, m: nat)
    ensures var earlier := Earlier(blocks, keep);
            earlier <= blocks && if keep <= |blocks| then |blocks[|earlier|..]| == keep else earlier == []
    ensures !partial && keep + m <= |blocks| ==>
              Taken(Earlier(blocks, keep), partial, m) + Flatten(blocks[m..]) == Flatten(blocks)
    ensures partial && keep < |blocks| && m <= |Grouped(Singletons(blocks[0]))| ==>
              Taken(Earlier(blocks, keep), partial, m) + Flatten(Grouped(Singletons(blocks[0]))[m..]) == blocks[0]
  {
    if !partial && keep + m <= |blocks| {
      assert Earlier(blocks, keep)[..m] == blocks[..m];
      FlattenPrefix(blocks, m);
    } else if partial && keep < |blocks| && m <= |Grouped(Singletons(blocks[0]))| {
      GroupedFlattens(Singletons(blocks[0]));
      FlattenSingletons(blocks[0]);
      FlattenPrefix(Grouped(Singletons(blocks[0])), m);
    }
  }

  /** The result at `r` is the one that answers the call of `id` at `a`. */
  predicate Pair(items: seq<Item>, a: nat, r: nat, id: string) {
    && a <= r < |items| && id in CallIds(items[a].record) && Answers(items[r].record, id)
    && forall k | a <= k < r :: !Answers(items[k].record, id)
  }

  /** A settled front stretch holds a call exactly if it holds its result, and never an unanswered call. */
  lemma PairsStayTogether(items: seq<Item>, c: nat, a: nat, r: nat, id: string)
    requires c <= |items| && Settled(items[..c])
    ensures Pair(items, a, r, id) ==> (a < c <==> r < c)
    ensures a < c && id in CallIds(items[a].record) ==> AnsweredFrom(items, a, id)
  {
    if a < c && id in CallIds(items[a].record) {
      assert items[..c][a] == items[a] && !Open(items[..c], id);
      var k :| a <= k < c && Answers(items[..c][k].record, id);
      assert Answers(items[k].record, id);
    }
  }

  // ---- the plan ----

  datatype Plan = Plan(
    version: int, fingerprints: seq<string>, sourceLength: int, indexed: seq<(int, string)>,
    totalSegments: nat, compressedSegments: nat, partialSegment: bool, fullTaskIds: set<string>)

  function CompressedIn(r: Record): set<string> {
    (if TaskOf(r) != "" && TaskOf(r) != COMPACT_SUMMARY then {TaskOf(r)} else {})
    + set id | id in MetaOf(r).compressed && id != ""
  }

  /** Tasks named by the selected messages of which nothing remains outside the selection. */
  function FullTasks(history: seq<Record>, positions: set<nat>): set<string> {
    set i: nat, id | i < |history| && i in positions && id in CompressedIn(history[i])
                     && (forall k: nat | k < |history| && k !in positions :: TaskOf(history[k]) != id) :: id
  }

  /** The message at position `i` stands for task `id`: it belongs to it, or it is a summary that names it. */
  predicate Names(history: seq<Record>, i: nat, id: string) {
    && i < |history| && id != ""
    && ((TaskOf(history[i]) == id && id != COMPACT_SUMMARY) || id in MetaOf(history[i]).compressed)
  }

  /**
   A plan lists the selected positions once each, in order and with their fingerprints; its full tasks are those
   a selected message stands for and no other message belongs to.
  */
  ghost predicate PlanLists(history: seq<Record>, selected: set<nat>, hash: Record -> string, plan: Plan) {
    && plan.version == 1 && plan.sourceLength == |history| && |plan.fingerprints| == |plan.indexed|
    && (forall k | 0 <= k < |plan.indexed| :: 0 <= plan.indexed[k].0 < |history| && plan.indexed[k].0 in selected
            && plan.indexed[k].1 == plan.fingerprints[k] == Fingerprint(history[plan.indexed[k].0], hash))
    && (forall j, k | 0 <= j < k < |plan.indexed| :: plan.indexed[j].0 < plan.indexed[k].0)
    && (forall i | i in selected && i < |history| :: exists k :: 0 <= k < |plan.indexed| && plan.indexed[k].0 == i)
    && forall id :: id in plan.fullTaskIds <==>
         (exists i: nat :: i in selected && Names(history, i, id))
         && forall k: nat | k < |history| && k !in selected :: TaskOf(history[k]) != id
  }

  lemma PlanListsSelection(history: seq<Record>, positions: set<nat>, hash: Record -> string, total: nat, count: nat, partial: bool)
    ensures PlanLists(history, positions, hash, PlanOf(history, positions, hash, total, count, partial))
  {
    var plan := PlanOf(history, positions, hash, total, count, partial);
    var items := Pick(history, positions);
    PickPositions(history, positions);
    hide Pick, Fingerprint, TaskOf;
    assert IndexSet(items) == set i: nat | i < |history| && i in positions;
    forall i | i in positions && i < |history| ensures exists k :: 0 <= k < |plan.indexed| && plan.indexed[k].0 == i {
      assert i in IndexSet(items);
      var k :| 0 <= k < |items| && items[k].index == i;
      assert plan.indexed[k].0 == i;
    }
    forall id ensures id in plan.fullTaskIds <==>
         (exists i: nat :: i in positions && Names(history, i, id))
         && forall k: nat | k < |history| && k !in positions :: TaskOf(history[k]) != id
    {
      assert forall i: nat | i < |history| :: id in CompressedIn(history[i]) <==> Names(history, i, id);
      assert forall i: nat | Names(history, i, id) :: id in CompressedIn(history[i]);
    }
  }

  function Indexed(items: seq<Item>, hash: Record -> string): (indexed: seq<(int, string)>)
    ensures |indexed| == |items|
    ensures forall k | 0 <= k < |items| :: indexed[k] == (items[k].index, Fingerprint(items[k].record, hash))
  {
    seq(|items|, k requires 0 <= k < |items| => (items[k].index, Fingerprint(items[k].record, hash)))
  }

  function Fingerprints(indexed: seq<(int, string)>): (r: seq<string>)
    ensures |r| == |indexed| && forall k | 0 <= k < |indexed| :: r[k] == indexed[k].1
  {
    seq(|indexed|, k requires 0 <= k < |indexed| => indexed[k].1)
  }

  function PlanOf(history: seq<Record>, positions: set<nat>, hash: Record -> string, total: nat, count: nat,
      partial: bool): Plan {
    var indexed := Indexed(Pick(history, positions), hash);
    Plan(1, Fingerprints(indexed), |history|, indexed, total, count, partial, FullTasks(history, positions))
  }

  function IndexSet(items: seq<Item>): set<nat> {
    set k | 0 <= k < |items| :: items[k].index
  }

  /** Some messages of the history, in its order. */
  predicate Listed(history: seq<Record>, items: seq<Item>) {
    && (forall k | 0 <= k < |items| :: items[k].index < |history| && items[k].record == history[items[k].index])
    && forall j, k | 0 <= j < k < |items| :: items[j].index < items[k].index
  }

  lemma ListedInit(history: seq<Record>, items: seq<Item>)
    requires Listed(history, items) && history != []
    ensures var n := |history| - 1;
            if items != [] && items[|items| - 1].index == n then Listed(history[..n], items[..|items| - 1])
            else Listed(history[..n], items) && n !in IndexSet(items)
  {
    assert forall k | 0 <= k < |items| - 1 :: items[k].index < items[|items| - 1].index;
  }

  lemma {:induction false} PickListed(history: seq<Record>, items: seq<Item>)
    requires Listed(history, items)
    ensures Pick(history, IndexSet(items)) == items
  {
    if history != [] {
      var n := |history| - 1;
      ListedInit(history, items);
      if items != [] && items[|items| - 1].index == n {
        var init, last := items[..|items| - 1], items[|items| - 1];
        PickListed(history[..n], init);
        assert items == init + [last];
        IndexSetSnoc(init, last);
        PickBelow(history[..n], IndexSet(init), IndexSet(items));
      } else {
        PickListed(history[..n], items);
      }
    }
  }

  lemma IndexSetSnoc(items: seq<Item>, item: Item)
    ensures IndexSet(items + [item]) == IndexSet(items) + {item.index}
  {
    var next := items + [item];
    assert next[|items|] == item;
    assert forall k | 0 <= k < |items| :: next[k] == items[k];
    forall i | i in IndexSet(items) ensures i in IndexSet(next) {
      var k :| 0 <= k < |items| && items[k].index == i;
      assert next[k].index == i;
    }
  }

  /** Positions beyond the end do not matter. */
  lemma {:induction false} PickBelow(history: seq<Record>, a: set<nat>, b: set<nat>)
    requires forall i: nat | i < |history| :: i in a <==> i in b
    ensures Pick(history, a) == Pick(history, b)
  {
    if history != [] {
      PickBelow(history[..|history| - 1], a, b);
    }
  }

  // ---- building the plan ----

  function Tokens(items: seq<Item>, tokens: Record -> nat): nat {
    if items == [] then 0 else Tokens(items[..|items| - 1], tokens) + tokens(items[|items| - 1].record)
  }

  /** The tokens of the last `k` blocks. */
  function TailTokens(blocks: seq<seq<Item>>, k: nat, tokens: Record -> nat): nat
    requires k <= |blocks|
  {
    if k == 0 then 0 else TailTokens(blocks, k - 1, tokens) + Tokens(blocks[|blocks| - k], tokens)
  }

  lemma {:induction false} TokensAdd(a: seq<Item>, b: seq<Item>, tokens: Record -> nat)
    ensures Tokens(a + b, tokens) == Tokens(a, tokens) + Tokens(b, tokens)
    ensures |b| == 1 ==> Tokens(b, tokens) == tokens(b[0].record)
  {
    if b == [] {
      assert a + b == a;
    } else {
      assert (a + b)[..|a + b| - 1] == a + b[..|b| - 1];
      TokensAdd(a, b[..|b| - 1], tokens);
    }
  }

  /** The last `k` blocks weigh what all their messages weigh together. */
  lemma {:induction false} TailWeighs(blocks: seq<seq<Item>>, k: nat, tokens: Record -> nat)
    requires k <= |blocks|
    ensures TailTokens(blocks, k, tokens) == Tokens(Flatten(blocks[|blocks| - k..]), tokens)
  {
    if k > 0 {
      TailWeighs(blocks, k - 1, tokens);
      var first, rest := blocks[|blocks| - k], blocks[|blocks| - k + 1..];
      assert blocks[|blocks| - k..] == [first] + rest;
      FlattenFirst(first, rest);
      TokensAdd(first, Flatten(rest), tokens);
    }
  }

  lemma {:induction false} FlattenFirst<T>(part: seq<T>, parts: seq<seq<T>>)
    ensures Flatten([part] + parts) == part + Flatten(parts)
  {
    if parts == [] {
      assert [part] + parts == [part] && [part][..0] == [];
    } else {
      FlattenFirst(part, parts[..|parts| - 1]);
      assert ([part] + parts)[..|parts|] == [part] + parts[..|parts| - 1];
    }
  }

  /** As many of the last blocks as the budget allows, but at least the last one. */
  predicate WithinBudget(blocks: seq<seq<Item>>, budget: int, tokens: Record -> nat, kept: nat) {
    && 1 <= kept <= |blocks| && (kept == 1 || TailTokens(blocks, kept, tokens) <= budget)
    && (kept < |blocks| ==> TailTokens(blocks, kept + 1, tokens) > budget)
  }

  /** `segments_within_token_budget` of engine/compact.py. */
  method SegmentsWithinTokenBudget(blocks: seq<seq<Item>>, budget: int, tokens: Record -> nat) returns (kept: nat)
    ensures if budget <= 0 || blocks == [] then kept == 0 else WithinBudget(blocks, budget, tokens, kept)
  {
    if budget <= 0 || blocks == [] {
      return 0;
    }
    var used := 0;
    kept := 0;
    while kept < |blocks|
      invariant kept <= |blocks| && used == TailTokens(blocks, kept, tokens) <= budget
    {
      var segment := blocks[|blocks| - kept - 1];
      var segmentTokens := 0;
      for j := 0 to |segment|
        invariant segmentTokens == Tokens(segment[..j], tokens)
      {
        assert segment[..j + 1][..j] == segment[..j];
        segmentTokens := segmentTokens + tokens(segment[j].record);
      }
      assert segment[..|segment|] == segment;
      if used + segmentTokens > budget {
        break;
      }
      used := used + segmentTokens;
      kept := kept + 1;
    }
    if kept == 0 {
      kept := 1;
      assert TailTokens(blocks, 1, tokens) > budget;
    }
  }

  predicate Keeps(blocks: seq<seq<Item>>, keepRecent: int, keepRecentTokens: int, tokens: Record -> nat, keep: nat) {
    if keepRecentTokens <= 0 then keep == if keepRecent > 1 then keepRecent else 1
    else if blocks == [] then keep == 1
    else WithinBudget(blocks, keepRecentTokens, tokens, keep)
  }

  /** `plan` and `text` belong to this choice of what to keep, and of how many blocks or sub-blocks to take. */
  ghost predicate Planned(history: seq<Record>, taken: seq<Item>, partial: bool, m: nat, json: Record -> string,
      hash: Record -> string,
                          plan: Option<Plan>, text: string) {
    var blocks := Grouped(SegmentsOf(Candidates(history)));
    var positions := SummaryPositions(history) + IndexSet(taken);
    if taken == [] then plan.None? && text == ""
    else plan == Some(PlanOf(history, positions, hash, |blocks|, if partial then 1 else m, partial))
         && PlanLists(history, positions, hash, plan.value) && plan.value.totalSegments == |blocks|
         && plan.value.compressedSegments == (if partial then 1 else m) && plan.value.partialSegment == partial
         && text == Render(Pick(history, positions), json)
  }

  /**
   `build_compaction_plan`: the old summaries and a greedy front stretch of the blocks before the last `keep`
   ones, in the order of the history; the text never exceeds the budget, however long the summaries are.
  */
  method BuildCompactionPlan(history: seq<Record>, keepRecent: int, keepRecentTokens: int, maxChars: int,
                             json: Record -> string, hash: Record -> string, tokens: Record -> nat)
    returns (plan: Option<Plan>, text: string)
    ensures var blocks := Grouped(SegmentsOf(Candidates(history)));
            exists keep, partial, m ::
              && Keeps(blocks, keepRecent, keepRecentTokens, tokens, keep)
              && Choice(OldSummaries(history), Earlier(blocks, keep), partial, m, maxChars, json)
              && Planned(history, Taken(Earlier(blocks, keep), partial, m), partial, m, json, hash, plan, text)
    ensures plan.Some? ==> |text| <= maxChars
  {
    hide Choice, Taken, Keeps, Grouped, SegmentsOf, Render;
    var summaries, raw := Segments(history);
    var blocks := JoinToolSegments(raw);
    var kept := keepRecent;
    if keepRecentTokens > 0 {
      kept := SegmentsWithinTokenBudget(blocks, keepRecentTokens, tokens);
    }
    var keep: nat := if kept > 1 then kept else 1;
    KeepsLemma(blocks, keepRecent, keepRecentTokens, tokens, keep);
    BlocksNonEmpty(history);
    var earlier := if keep <= |blocks| then blocks[..|blocks| - keep] else [];
    var selected, count, partial, m := Choose(summaries, earlier, maxChars, json);
    assert earlier == Earlier(blocks, keep);
    ghost var taken := Taken(Earlier(blocks, keep), partial, m);
    if count == 0 {
      plan, text := None, "";
      assert Planned(history, taken, partial, m, json, hash, plan, text);
      return;
    }
    TakenIsSettledPrefix(Candidates(history), keep, partial, m);
    ghost var positions := SummaryPositions(history) + IndexSet(taken);
    InHistoryOrder(history, taken, json);
    var wanted := IndexSet(selected);
    SelectedPositions(history, taken);
    var ordered: seq<Item> := [];
    for index := 0 to |history|
      invariant ordered == Pick(history[..index], positions)
    {
      assert history[..index + 1][..index] == history[..index];
      if index in wanted {
        ordered := ordered + [Item(index, history[index])];
      }
    }
    assert history[..|history|] == history;
    var indexed := Indexed(ordered, hash);
    plan := Some(Plan(1, Fingerprints(indexed), |history|, indexed, |blocks|, count, partial, FullTasks(history, wanted)));
    text := Render(ordered, json);
    PlanListsSelection(history, positions, hash, |blocks|, count, partial);
    hide PlanLists;
    assert Planned(history, taken, partial, m, json, hash, plan, text);
  }

  lemma KeepsLemma(blocks: seq<seq<Item>>, keepRecent: int, keepRecentTokens: int, tokens: Record -> nat, keep: nat)
    requires keepRecentTokens <= 0 ==> keep == if keepRecent > 1 then keepRecent else 1
    requires keepRecentTokens > 0 ==> if blocks == [] then keep == 1 else WithinBudget(blocks, keepRecentTokens, tokens, keep)
    ensures Keeps(blocks, keepRecent, keepRecentTokens, tokens, keep)
  {
  }

  lemma BlocksNonEmpty(history: seq<Record>)
    ensures AllNonEmpty(Grouped(SegmentsOf(Candidates(history))))
  {
    SegmentsFlatten(Candidates(history));
    GroupedFlattens(SegmentsOf(Candidates(history)));
  }

  lemma SelectedPositions(history: seq<Record>, taken: seq<Item>)
    ensures IndexSet(OldSummaries(history) + taken) == IndexSet(OldSummaries(history)) + IndexSet(taken)
    ensures IndexSet(OldSummaries(history)) == SummaryPositions(history)
  {
    IndexSetConcat(OldSummaries(history), taken);
    PickPositions(history, SummaryPositions(history));
  }

  lemma {:induction false} IndexSetConcat(a: seq<Item>, b: seq<Item>)
    ensures IndexSet(a + b) == IndexSet(a) + IndexSet(b)
  {
    if b == [] {
      assert a + b == a;
    } else {
      var n := |b| - 1;
      IndexSetConcat(a, b[..n]);
      assert a + b == (a + b[..n]) + [b[n]] && b == b[..n] + [b[n]];
      IndexSetSnoc(a + b[..n], b[n]);
      IndexSetSnoc(b[..n], b[n]);
    }
  }

  lemma {:induction false} PickPositions(history: seq<Record>, keep: set<nat>)
    ensures IndexSet(Pick(history, keep)) == set i: nat | i < |history| && i in keep
  {
    if history != [] {
      var n := |history| - 1;
      PickPositions(history[..n], keep);
      IndexSetSnoc(Pick(history[..n], keep), Item(n, history[n]));
      var before := set i: nat | i < n && i in keep;
      assert (set i: nat | i < |history| && i in keep) == if n in keep then before + {n} else before;
      assert Pick(history, keep) == if n in keep then Pick(history[..n], keep) + [Item(n, history[n])] else Pick(history[..n], keep);
    }
  }

  /** The text of the selection has the length the running counter says. */
  lemma InHistoryOrder(history: seq<Record>, taken: seq<Item>, json: Record -> string)
    requires taken <= Candidates(history)
    ensures |Render(Pick(history, SummaryPositions(history) + IndexSet(taken)), json)| == |Render(OldSummaries(history) + taken, json)|
  {
    var items := Candidates(history);
    assert forall k | 0 <= k < |taken| :: taken[k] == items[k];
    PickListed(history, taken);
    ReorderedLength(history, SummaryPositions(history), IndexSet(taken), json);
  }

  // ---- applying the plan later ----

  /** `plan` fits `history`: it is well formed and every message it names is still what it was. */
  predicate Applies(history: seq<Record>, plan: Plan, hash: Record -> string) {
    && plan.version == 1 && plan.fingerprints != [] && |plan.indexed| == |plan.fingerprints| && plan.sourceLength >= 1
    && (forall k | 0 <= k < |plan.indexed| :: AppliesAt(history, plan, hash, k))
    && forall j, k | 0 <= j < k < |plan.indexed| :: plan.indexed[j].0 < plan.indexed[k].0
  }

  predicate AppliesAt(history: seq<Record>, plan: Plan, hash: Record -> string, k: nat)
    requires k < |plan.indexed| == |plan.fingerprints|
  {
    var (index, fingerprint) := plan.indexed[k];
    && fingerprint == plan.fingerprints[k] && 0 <= index < plan.sourceLength && index < |history|
    && Fingerprint(history[index], hash) == fingerprint
  }

  /**
   A plan is refused exactly if its version is not 1, it names nothing, its two lists differ in length or in a
   fingerprint, a position is out of range or not above the one before, or a message there has changed.
  */
  lemma AppliesIs(history: seq<Record>, plan: Plan, hash: Record -> string)
    ensures Applies(history, plan, hash) <==>
            && plan.version == 1 && plan.fingerprints != [] && |plan.indexed| == |plan.fingerprints| && plan.sourceLength >= 1
            && (forall k | 0 <= k < |plan.indexed| ::
                  && 0 <= plan.indexed[k].0 < plan.sourceLength && plan.indexed[k].0 < |history|
                  && plan.indexed[k].1 == plan.fingerprints[k] == Fingerprint(history[plan.indexed[k].0], hash))
            && forall j, k | 0 <= j < k < |plan.indexed| :: plan.indexed[j].0 < plan.indexed[k].0
    ensures |Covered(plan)| == |plan.indexed| && forall k | 0 <= k < |plan.indexed| :: Covered(plan)[k] == plan.indexed[k].0
  {
    hide Fingerprint;
    if |plan.indexed| == |plan.fingerprints| {
      assert forall k | 0 <= k < |plan.indexed| :: AppliesAt(history, plan, hash, k) <==>
          && 0 <= plan.indexed[k].0 < plan.sourceLength && plan.indexed[k].0 < |history|
          && plan.indexed[k].1 == plan.fingerprints[k] == Fingerprint(history[plan.indexed[k].0], hash);
    }
  }

  function Covered(plan: Plan): seq<int> {
    seq(|plan.indexed|, k requires 0 <= k < |plan.indexed| => plan.indexed[k].0)
  }

  /** `covered_indices` */
  method CoveredIndices(history: seq<Record>, plan: Plan, hash: Record -> string) returns (indices: Option<seq<int>>)
    ensures indices == if Applies(history, plan, hash) then Some(Covered(plan)) else None
  {
    if plan.version != 1 || plan.fingerprints == [] || |plan.indexed| != |plan.fingerprints| || plan.sourceLength < 1 {
      return None;
    }
    var found: seq<int> := [];
    for k := 0 to |plan.indexed|
      invariant found == Covered(plan)[..k]
      invariant forall i | 0 <= i < k :: AppliesAt(history, plan, hash, i)
      invariant forall i, j | 0 <= i < j < k :: plan.indexed[i].0 < plan.indexed[j].0
    {
      var (index, fingerprint) := plan.indexed[k];
      if fingerprint != plan.fingerprints[k] || index < 0 || index >= plan.sourceLength || index >= |history| {
        assert !AppliesAt(history, plan, hash, k);
        return None;
      }
      if found != [] && index <= found[|found| - 1] {
        assert plan.indexed[k].0 <= plan.indexed[k - 1].0;
        return None;
      }
      if Fingerprint(history[index], hash) != fingerprint {
        assert !AppliesAt(history, plan, hash, k);
        return None;
      }
      found := found + [index];
    }
    assert Covered(plan)[..|plan.indexed|] == Covered(plan);
    return Some(found);
  }

  /** The result is the history without these positions, which ascend, and with the summary in place of the first. */
  ghost predicate Replaces(history: seq<Record>, indices: seq<int>, summary: Record, result: seq<Record>) {
    && indices != [] && 0 <= indices[0] < |history|
    && exists rest ::
         result == history[..indices[0]] + [summary] + rest && LeavesOut(history, (set i | i in indices), indices[0] + 1, rest)
  }

  lemma RemainingStep(history: seq<Record>, selected: set<int>, index: nat, before: seq<Record>)
    requires index < |history|
    ensures before + Remaining(history, selected, index)
            == (if index in selected then before else before + [history[index]]) + Remaining(history, selected, index + 1)
  {
  }

  lemma RemainingOver(history: seq<Record>, selected: set<int>, before: seq<Record>)
    ensures before + Remaining(history, selected, |history|) == before
  {
  }

  /**
   `replace_covered`: everything in front of the first covered message, the summary in its place, and then
   exactly the messages that are not covered.
  */
  method ReplaceCovered(history: seq<Record>, plan: Plan, summary: Record, hash: Record -> string)
    returns (result: Option<seq<Record>>)
    ensures result.Some? <==> Applies(history, plan, hash)
    ensures Applies(history, plan, hash) ==>
              var indices := Covered(plan);
              assert AppliesAt(history, plan, hash, 0);
              result.value == history[..indices[0]] + [summary] + Remaining(history, (set i | i in indices), indices[0] + 1)
    ensures result.Some? ==> Replaces(history, Covered(plan), summary, result.value)
  {
    var indices := CoveredIndices(history, plan, hash);
    if indices.None? {
      return None;
    }
    var selected := set i | i in indices.value;
    var first := indices.value[0];
    assert AppliesAt(history, plan, hash, 0);
    assert forall i | i in selected :: first <= i;
    assert first in selected;
    RemainingIs(history, selected, first + 1);
    hide Applies, AppliesAt, Fingerprint, Remaining, LeavesOut;
    ghost var goal := history[..first] + [summary] + Remaining(history, selected, first + 1);
    var rewritten: seq<Record> := [];
    for index := 0 to |history|
      invariant index <= first ==> rewritten == history[..index]
      invariant index > first ==> rewritten + Remaining(history, selected, index) == goal
    {
      ghost var before := rewritten;
      RemainingStep(history, selected, index, before);
      if index == first {
        rewritten := rewritten + [summary];
      }
      if index !in selected {
        rewritten := rewritten + [history[index]];
      }
    }
    RemainingOver(history, selected, rewritten);
    return Some(rewritten);
  }

  /**
   A plan made from `history` still names exactly the same messages after anything was appended and any
   view marks were changed.
  */
  lemma PlanSurvivesGrowth(history: seq<Record>, positions: set<nat>, hash: Record -> string, total: nat, count: nat,
      partial: bool,
                           later: seq<Record>)
    requires (exists i :: i in positions && i < |history|) && |history| <= |later|
    requires forall i | 0 <= i < |history| :: SameButMark(later[i], history[i])
    ensures var plan := PlanOf(history, positions, hash, total, count, partial);
            Applies(later, plan, hash) && (forall i: int :: i in Covered(plan) <==> 0 <= i < |history| && i in positions)
  {
    var items := Pick(history, positions);
    var plan := PlanOf(history, positions, hash, total, count, partial);
    PickEmpty(history, positions);
    PickPositions(history, positions);
    forall i | 0 <= i < |history| ensures WithoutMark(later[i]) == WithoutMark(history[i]) {
      SameView(later[i], history[i]);
    }
    hide WithoutMark, SameButMark;
    forall i: int ensures i in Covered(plan) <==> 0 <= i < |history| && i in positions {
      if 0 <= i < |history| && i in positions {
        assert i in IndexSet(items);
        var k :| 0 <= k < |items| && items[k].index == i;
        assert Covered(plan)[k] == i;
      }
    }
  }

  /** On any history a plan that applies names only messages that are, view marks aside, the ones it was made from. */
  lemma OnlyUnchangedAreReplaced(history: seq<Record>, positions: set<nat>, hash: Record -> string, total: nat,
      count: nat, partial: bool,
                                 later: seq<Record>, i: int)
    requires forall a, b :: hash(a) == hash(b) ==> a == b
    requires var plan := PlanOf(history, positions, hash, total, count, partial); Applies(later, plan, hash) && i in Covered(plan)
    ensures 0 <= i < |history| && i < |later| && i in positions
    ensures later[i].(meta := None) == history[i].(meta := None) && MetaOf(later[i]).(mark := None) == MetaOf(history[i]).(mark := None)
  {
    var plan := PlanOf(history, positions, hash, total, count, partial);
    var k :| 0 <= k < |plan.indexed| && plan.indexed[k].0 == i;
    assert AppliesAt(later, plan, hash, k);
    SameView(later[i], history[i]);
  }

  /** The same messages, view marks aside. */
  predicate Alike(a: seq<Item>, b: seq<Item>) {
    |a| == |b| && forall k | 0 <= k < |a| :: a[k].index == b[k].index && SameButMark(a[k].record, b[k].record)
  }

  lemma AlikeBack(a: seq<Item>, b: seq<Item>)
    requires Alike(a, b)
    ensures Alike(b, a)
  {
  }

  lemma SameUpToMarks(a: Record, b: Record)
    requires SameButMark(a, b)
    ensures InSegments(a) == InSegments(b) && CallIds(a) == CallIds(b) && a.toolCallId == b.toolCallId
  {
    SameView(a, b);
    hide WithoutMark, TaskOf, CallIds, SameButMark;
    MarksDoNotMatter(a);
    MarksDoNotMatter(b);
  }

  lemma CandidatesSnoc(history: seq<Record>)
    requires history != []
    ensures var n := |history| - 1;
            Candidates(history) == Candidates(history[..n]) + if InSegments(history[n]) then [Item(n, history[n])] else []
  {
    var n := |history| - 1;
    PickBelow(history[..n], SegmentPositions(history), SegmentPositions(history[..n]));
  }

  lemma {:induction false} SameCandidates(history: seq<Record>, later: seq<Record>)
    requires |history| == |later| && forall i | 0 <= i < |history| :: SameButMark(later[i], history[i])
    ensures Alike(Candidates(history), Candidates(later))
  {
    if history == [] {
      assert Candidates(history) == [] && Candidates(later) == [];
    } else {
      hide SameButMark, Candidates, InSegments, CallIds;
      var n := |later| - 1;
      SameCandidates(history[..n], later[..n]);
      CandidatesSnoc(history);
      CandidatesSnoc(later);
      SameUpToMarks(history[n], later[n]);
    }
  }

  lemma {:induction false} MoreCandidates(history: seq<Record>, later: seq<Record>)
    requires history <= later
    ensures Candidates(history) <= Candidates(later)
  {
    if |later| == |history| {
      assert later == history;
    } else {
      hide Candidates, InSegments;
      MoreCandidates(history, later[..|later| - 1]);
      CandidatesSnoc(later);
    }
  }

  lemma GrownCandidates(history: seq<Record>, later: seq<Record>)
    requires |history| <= |later| && forall i | 0 <= i < |history| :: SameButMark(later[i], history[i])
    ensures |Candidates(history)| <= |Candidates(later)|
    ensures Alike(Candidates(history), Candidates(later)[..|Candidates(history)|])
  {
    hide SameButMark, Candidates;
    SameCandidates(history, later[..|history|]);
    MoreCandidates(later[..|history|], later);
  }

  lemma AnsweredAlike(a: seq<Item>, b: seq<Item>, at: nat, id: string)
    requires Alike(a, b) && AnsweredFrom(b, at, id)
    ensures AnsweredFrom(a, at, id)
  {
    hide SameButMark, CallIds;
    var r :| at <= r < |b| && Answers(b[r].record, id);
    SameUpToMarks(a[r].record, b[r].record);
    assert Answers(a[r].record, id);
  }

  lemma OpenAlike(a: seq<Item>, b: seq<Item>, id: string)
    requires Alike(a, b) && Open(a, id)
    ensures Open(b, id)
  {
    hide SameButMark, CallIds;
    var at :| 0 <= at < |a| && id in CallIds(a[at].record) && !AnsweredFrom(a, at, id);
    SameUpToMarks(a[at].record, b[at].record);
    if AnsweredFrom(b, at, id) {
      AnsweredAlike(a, b, at, id);
    }
  }

  /**
   Calls and results stay together even on the history a plan is finally applied to: what the plan takes of
   the candidates there is again a front stretch in which every call is answered.
  */
  lemma CoveredStaysPaired(history: seq<Record>, keep: nat, partial: bool, m: nat, later: seq<Record>, a: nat, r: nat,
      id: string)
    requires keep >= 1 && |history| <= |later| && forall i | 0 <= i < |history| :: SameButMark(later[i], history[i])
    ensures var taken := Taken(Earlier(Grouped(SegmentsOf(Candidates(history))), keep), partial, m);
            var items := Candidates(later);
            && |taken| <= |items| && IndexSet(taken) == IndexSet(items[..|taken|])
            && (Pair(items, a, r, id) ==> (items[a].index in IndexSet(taken) <==> items[r].index in IndexSet(taken)))
            && (a < |items| && id in CallIds(items[a].record) && items[a].index in IndexSet(taken) ==> AnsweredFrom(items, a, id))
  {
    hide Grouped, SegmentsOf, Taken, SameButMark, CallIds, Candidates;
    var taken := Taken(Earlier(Grouped(SegmentsOf(Candidates(history))), keep), partial, m);
    TakenIsSettledPrefix(Candidates(history), keep, partial, m);
    GrownCandidates(history, later);
    var items := Candidates(later);
    var front := items[..|taken|];
    assert Alike(taken, front);
    AlikeBack(taken, front);
    forall id ensures !Open(front, id) {
      if Open(front, id) {
        OpenAlike(front, taken, id);
      }
    }
    PairsStayTogether(items, |taken|, a, r, id);
    FrontIndices(later, |taken|, a);
    FrontIndices(later, |taken|, r);
    assert forall k | 0 <= k < |taken| :: taken[k].index == front[k].index;
  }

  /** A candidate is in a front stretch exactly if its position is. */
  lemma FrontIndices(history: seq<Record>, c: nat, a: nat)
    requires c <= |Candidates(history)|
    ensures a < |Candidates(history)| ==> (Candidates(history)[a].index in IndexSet(Candidates(history)[..c]) <==> a < c)
  {
    var items := Candidates(history);
    if a < c {
      assert items[..c][a] == items[a];
    }
  }
}
