/**
 Delivery lanes (clonoth_sdk/delivery_lanes.py): one queue and one worker per conversation. The event loop
 switches only while a worker waits for its job, so each method below is one uninterrupted stretch of the
 program. A lane's queue is an object that the worker keeps hold of, hence `deques` and the indirection in
 `queues`; a worker is a task that is created, runs, and is done.
*/
module Lanes {
  import opened Common

  type Lane = string

  datatype Entry = Entry(key: string, job: nat)

  /** Created: scheduled, body not entered. Running: waits for the job at the head of its queue. */
  datatype Phase = Created | Running(queue: nat) | Done
  datatype Task = Task(lane: Lane, phase: Phase)

  /** How an entry left its queue: after its job was started, or dropped unstarted when the worker was cancelled. */
  datatype Left = Left(entry: Entry, started: bool)

  datatype State = State(
    queues: map<Lane, nat>,
    workers: map<Lane, nat>,
    keys: set<string>,
    deques: seq<seq<Entry>>,
    tasks: seq<Task>,
    // history
    accepted: map<Lane, seq<Entry>>,
    retired: map<Lane, seq<Left>>)

  function Queue(s: State, lane: Lane): seq<Entry> {
    if lane in s.queues && s.queues[lane] < |s.deques| then s.deques[s.queues[lane]] else []
  }

  function Live(task: Task): bool {
    !task.phase.Done?
  }

  function Accepted(s: State, lane: Lane): seq<Entry> {
    if lane in s.accepted then s.accepted[lane] else []
  }

  function Retired(s: State, lane: Lane): seq<Left> {
    if lane in s.retired then s.retired[lane] else []
  }

  function Entries(left: seq<Left>): (r: seq<Entry>)
    ensures |r| == |left|
  {
    seq(|left|, i requires 0 <= i < |left| => left[i].entry)
  }

  function Dropped(entries: seq<Entry>): (r: seq<Left>)
    ensures |r| == |entries| && Entries(r) == entries
  {
    seq(|entries|, i requires 0 <= i < |entries| => Left(entries[i], false))
  }

  function KeysOf(entries: seq<Entry>): set<string> {
    set i | 0 <= i < |entries| :: entries[i].key
  }

  // ---- the steps ----

  function SubmitTo(s: State, lane: Lane, entry: Entry): State {
    if entry.key in s.keys then s
    else
      var id := if lane in s.queues then s.queues[lane] else |s.deques|;
      var deques := if lane in s.queues then s.deques else s.deques + [[]];
      var needed := lane !in s.workers || s.workers[lane] >= |s.tasks| || !Live(s.tasks[s.workers[lane]]);
      s.(keys := s.keys + {entry.key},
         queues := s.queues[lane := id],
         deques := if id < |deques| then deques[id := deques[id] + [entry]] else deques,
         workers := if needed then s.workers[lane := |s.tasks|] else s.workers,
         tasks := if needed then s.tasks + [Task(lane, Created)] else s.tasks,
         accepted := s.accepted[lane := Accepted(s, lane) + [entry]])
  }

  /** The worker's body is entered: it takes hold of the lane's queue and starts the job at its head. */
  function BeginOf(s: State, t: nat): State
    requires t < |s.tasks| && s.tasks[t].lane in s.queues
  {
    s.(tasks := s.tasks[t := s.tasks[t].(phase := Running(s.queues[s.tasks[t].lane]))])
  }

  /** `popleft` and `discard` after the job at the head ended, well or badly. */
  function Popped(s: State, t: nat): State
    requires AtHead(s, t)
  {
    var id, lane := s.tasks[t].phase.queue, s.tasks[t].lane;
    s.(keys := s.keys - {s.deques[id][0].key}, deques := s.deques[id := s.deques[id][1..]],
       retired := s.retired[lane := Retired(s, lane) + [Left(s.deques[id][0], true)]])
  }

  /**
   The worker is over: what is still queued is dropped, and it removes its queue and itself if they are
   still the registered ones.
  */
  function Leaving(s: State, t: nat): State
    requires t < |s.tasks| && s.tasks[t].phase.Running? && s.tasks[t].phase.queue < |s.deques|
  {
    var id, lane := s.tasks[t].phase.queue, s.tasks[t].lane;
    s.(keys := s.keys - KeysOf(s.deques[id]), deques := s.deques[id := []],
       retired := s.retired[lane := Retired(s, lane) + Dropped(s.deques[id])],
       tasks := s.tasks[t := Task(lane, Done)],
       queues := if lane in s.queues && s.queues[lane] == id then s.queues - {lane} else s.queues,
       workers := if lane in s.workers && s.workers[lane] == t then s.workers - {lane} else s.workers)
  }

  /** The worker waits for the job at the head of its queue. */
  predicate AtHead(s: State, t: nat) {
    t < |s.tasks| && s.tasks[t].phase.Running? && s.tasks[t].phase.queue < |s.deques| && s.deques[s.tasks[t].phase.queue] != []
  }

  /** The job is over; the next one starts or the worker is over. */
  function JobOver(s: State, t: nat): State
    requires AtHead(s, t)
  {
    var popped := Popped(s, t);
    if popped.deques[s.tasks[t].phase.queue] != [] then popped else Leaving(popped, t)
  }

  /** Cancelling a worker that waits for a job drops everything behind it; one that never ran just ends. */
  function CancelOf(s: State, t: nat): State
    requires t < |s.tasks| && (s.tasks[t].phase.Running? ==> AtHead(s, t))
  {
    match s.tasks[t].phase
    case Created => s.(tasks := s.tasks[t := s.tasks[t].(phase := Done)])
    case Done => s
    case Running(_) => Leaving(Popped(s, t), t)
  }

  datatype Step = Submit(lane: Lane, entry: Entry) | Begin(t: nat) | End(t: nat) | Cancel(t: nat)

  predicate Enabled(s: State, step: Step) {
    match step
    case Submit(_, _) => true
    case Begin(t) => t < |s.tasks| && s.tasks[t].phase.Created?
    case End(t) => t < |s.tasks| && s.tasks[t].phase.Running?
    case Cancel(t) => t < |s.tasks| && Live(s.tasks[t])
  }

  function Apply(s: State, step: Step): State
    requires Inv(s) && Enabled(s, step)
  {
    match step
    case Submit(lane, entry) => SubmitTo(s, lane, entry)
    case Begin(t) => assert Registered(s, t); BeginOf(s, t)
    case End(t) => assert Registered(s, t); JobOver(s, t)
    case Cancel(t) => assert Registered(s, t); CancelOf(s, t)
  }

  const INIT := State(map[], map[], {}, [], [], map[], map[])

  // ---- what every step keeps ----

  /** A live worker is the registered one of its lane and works on the registered queue. */
  predicate Registered(s: State, t: nat)
    requires t < |s.tasks|
  {
    var lane := s.tasks[t].lane;
    Live(s.tasks[t]) ==>
      && lane in s.workers && s.workers[lane] == t && lane in s.queues
      && (s.tasks[t].phase.Running? ==> s.tasks[t].phase.queue == s.queues[lane])
      && s.queues[lane] < |s.deques| && s.deques[s.queues[lane]] != []
  }

  /** A registered queue is not empty and has a registered worker. */
  predicate LaneOk(s: State, lane: Lane) {
    && (lane in s.queues <==> lane in s.workers)
    && (lane in s.queues ==> && s.queues[lane] < |s.deques| && s.deques[s.queues[lane]] != []
                             && s.workers[lane] < |s.tasks| && s.tasks[s.workers[lane]].lane == lane)
    && Accepted(s, lane) == Entries(Retired(s, lane)) + Queue(s, lane)
  }

  /** Position `i` of the lane's queue holds an entry with this key. */
  predicate At(s: State, lane: Lane, i: int, key: string) {
    0 <= i < |Queue(s, lane)| && Queue(s, lane)[i].key == key
  }

  /** Two positions of registered queues never hold the same key. */
  ghost predicate DistinctKeys(s: State) {
    forall a, b, i, j, key | At(s, a, i, key) && At(s, b, j, key) :: a == b && i == j
  }

  /** The key set is the union of the keys in the registered queues. */
  ghost predicate ExactKeys(s: State) {
    forall key :: key in s.keys <==> exists lane, i :: At(s, lane, i, key)
  }

  ghost predicate Inv(s: State) {
    && (forall t: nat | t < |s.tasks| :: Registered(s, t))
    && (forall lane :: LaneOk(s, lane))
    && DistinctKeys(s) && ExactKeys(s)
  }

  /** Only this lane's queue changes. */
  ghost predicate OnlyLane(s: State, t: State, lane: Lane) {
    && (forall l | l != lane :: Queue(t, l) == Queue(s, l))
    && (forall l | l != lane :: (l in t.queues <==> l in s.queues) && (l in t.workers <==> l in s.workers))
    && (forall l | l != lane && l in s.queues && l in t.queues :: t.queues[l] == s.queues[l])
    && (forall l | l != lane && l in s.workers && l in t.workers :: t.workers[l] == s.workers[l])
    && (forall l | l != lane :: Accepted(t, l) == Accepted(s, l) && Retired(t, l) == Retired(s, l))
  }

  lemma Appended(s: State, t: State, lane: Lane, entry: Entry)
    requires DistinctKeys(s) && ExactKeys(s) && OnlyLane(s, t, lane)
    requires Queue(t, lane) == Queue(s, lane) + [entry] && entry.key !in s.keys && t.keys == s.keys + {entry.key}
    ensures DistinctKeys(t) && ExactKeys(t)
  {
    var n := |Queue(s, lane)|;
    forall l, i, key ensures At(t, l, i, key) <==> At(s, l, i, key) || (l == lane && i == n && key == entry.key) {
    }
    assert !At(s, lane, n, entry.key) && At(t, lane, n, entry.key);
    hide At, OnlyLane;
    forall key ensures key in t.keys <==> exists l, i :: At(t, l, i, key) {
      if l, i :| At(s, l, i, key) {
        assert At(t, l, i, key);
      }
    }
  }

  lemma FrontKeys(s: State, lane: Lane, n: nat)
    requires n <= |Queue(s, lane)|
    ensures forall key :: key in KeysOf(Queue(s, lane)[..n]) <==> exists i :: i < n && At(s, lane, i, key)
  {
    forall key ensures key in KeysOf(Queue(s, lane)[..n]) <==> exists i :: i < n && At(s, lane, i, key) {
      if i :| i < n && At(s, lane, i, key) {
        assert Queue(s, lane)[..n][i].key == key;
      }
      if i :| 0 <= i < n && Queue(s, lane)[..n][i].key == key {
        assert At(s, lane, i, key);
      }
    }
  }

  lemma DroppedFront(s: State, t: State, lane: Lane, n: nat)
    requires DistinctKeys(s) && ExactKeys(s) && OnlyLane(s, t, lane)
    requires n <= |Queue(s, lane)| && Queue(t, lane) == Queue(s, lane)[n..] && t.keys == s.keys - KeysOf(Queue(s, lane)[..n])
    ensures DistinctKeys(t) && ExactKeys(t)
  {
    Shifted(s, t, lane, n);
    FrontKeys(s, lane, n);
    hide At, OnlyLane, KeysOf, Queue;
    assert DistinctKeys(t) by {
      hide ExactKeys;
    }
    assert ExactKeys(t) by {
      forall key ensures key in t.keys <==> exists l, i :: At(t, l, i, key) {
        if l, i :| At(s, l, i, key) && !(l == lane && i < n) {
          assert At(t, l, if l == lane then i - n else i, key);
        }
      }
    }
  }

  lemma Shifted(s: State, t: State, lane: Lane, n: nat)
    requires n <= |Queue(s, lane)| && Queue(t, lane) == Queue(s, lane)[n..] && forall l | l != lane :: Queue(t, l) == Queue(s, l)
    ensures forall l, i, key :: At(t, l, i, key) <==> i >= 0 && At(s, l, if l == lane then i + n else i, key)
    ensures forall l, i, key | At(s, l, i, key) :: i >= 0
  {
    hide Queue;
  }

  /** Different lanes never share a queue object. */
  lemma QueueIsOwn(s: State, a: Lane, b: Lane)
    requires DistinctKeys(s) && LaneOk(s, a) && a in s.queues && b in s.queues && s.queues[a] == s.queues[b]
    ensures a == b
  {
    assert At(s, a, 0, Queue(s, a)[0].key) && At(s, b, 0, Queue(s, a)[0].key);
  }

  lemma LanesKept(s: State, t: State, lane: Lane)
    requires (forall l :: LaneOk(s, l)) && OnlyLane(s, t, lane) && LaneOk(t, lane) && |s.deques| <= |t.deques|
    requires |s.tasks| <= |t.tasks| && forall i | 0 <= i < |s.tasks| :: t.tasks[i].lane == s.tasks[i].lane
    ensures forall l :: LaneOk(t, l)
  {
    forall l ensures LaneOk(t, l) {
      if l != lane {
        assert LaneOk(s, l);
        assert Queue(t, l) == Queue(s, l);
        assert l in s.queues ==> s.deques[s.queues[l]] == Queue(s, l) && t.deques[t.queues[l]] == Queue(t, l);
      }
    }
  }

  /** Where the entry of a submission goes, and what it does to the other lanes' queues. */
  lemma SubmitQueue(s: State, lane: Lane, entry: Entry, l: Lane)
    requires DistinctKeys(s) && LaneOk(s, lane) && LaneOk(s, l) && entry.key !in s.keys
    ensures Queue(SubmitTo(s, lane, entry), l) == if l == lane then Queue(s, lane) + [entry] else Queue(s, l)
  {
    hide DistinctKeys, At, Accepted, Retired;
    if l != lane && l in s.queues && lane in s.queues && s.queues[l] == s.queues[lane] {
      QueueIsOwn(s, l, lane);
    }
  }

  lemma SubmitQueues(s: State, lane: Lane, entry: Entry)
    requires DistinctKeys(s) && (forall l :: LaneOk(s, l)) && entry.key !in s.keys
    ensures OnlyLane(s, SubmitTo(s, lane, entry), lane)
    ensures Queue(SubmitTo(s, lane, entry), lane) == Queue(s, lane) + [entry]
  {
    hide DistinctKeys, LaneOk, Queue;
    forall l ensures Queue(SubmitTo(s, lane, entry), l) == if l == lane then Queue(s, lane) + [entry] else Queue(s, l) {
      assert LaneOk(s, lane) && LaneOk(s, l);
      SubmitQueue(s, lane, entry, l);
    }
  }

  lemma SubmitLaneOk(s: State, lane: Lane, entry: Entry)
    requires DistinctKeys(s) && LaneOk(s, lane) && entry.key !in s.keys
    ensures LaneOk(SubmitTo(s, lane, entry), lane)
  {
    SubmitQueue(s, lane, entry, lane);
    hide DistinctKeys, At;
    assert Entries(Retired(s, lane)) + Queue(s, lane) + [entry] == Entries(Retired(s, lane)) + (Queue(s, lane) + [entry]);
  }

  lemma SubmitTasks(s: State, lane: Lane, entry: Entry)
    ensures var t := SubmitTo(s, lane, entry);
            |s.deques| <= |t.deques| && |s.tasks| <= |t.tasks| && forall i | 0 <= i < |s.tasks| :: t.tasks[i] == s.tasks[i]
  {
    hide Accepted;
  }

  lemma SubmitRegisters(s: State, lane: Lane, entry: Entry, w: nat)
    requires entry.key !in s.keys && LaneOk(s, lane) && w < |SubmitTo(s, lane, entry).tasks|
    requires w < |s.tasks| ==> Registered(s, w) && LaneOk(s, s.tasks[w].lane)
    ensures Registered(SubmitTo(s, lane, entry), w)
  {
    hide Accepted, Retired;
  }

  lemma SubmitKeeps(s: State, lane: Lane, entry: Entry)
    requires Inv(s)
    ensures Inv(SubmitTo(s, lane, entry))
  {
    if entry.key !in s.keys {
      var t := SubmitTo(s, lane, entry);
      assert t.keys == s.keys + {entry.key};
      hide SubmitTo, LaneOk, Registered, DistinctKeys, ExactKeys, OnlyLane, Queue;
      assert LaneOk(s, lane);
      SubmitQueues(s, lane, entry);
      Appended(s, t, lane, entry);
      SubmitLaneOk(s, lane, entry);
      SubmitTasks(s, lane, entry);
      LanesKept(s, t, lane);
      forall w: nat | w < |t.tasks| ensures Registered(t, w) {
        if w < |s.tasks| {
          assert LaneOk(s, s.tasks[w].lane);
        }
        SubmitRegisters(s, lane, entry, w);
      }
    }
  }

  lemma BeginKeeps(s: State, w: nat)
    requires Inv(s) && Enabled(s, Begin(w))
    ensures Registered(s, w) && Inv(BeginOf(s, w))
  {
    hide DistinctKeys, ExactKeys;
    assert Registered(s, w);
    var t := BeginOf(s, w);
    SameQueues(s, t);
    forall l ensures LaneOk(t, l) {
      assert LaneOk(s, l) && Queue(t, l) == Queue(s, l);
    }
    forall v: nat | v < |t.tasks| ensures Registered(t, v) {
      assert Registered(s, v);
    }
  }

  lemma SameQueues(s: State, t: State)
    requires DistinctKeys(s) && ExactKeys(s) && t.queues == s.queues && t.deques == s.deques && t.keys == s.keys
    ensures DistinctKeys(t) && ExactKeys(t)
  {
    assert forall l, i, key :: At(t, l, i, key) == At(s, l, i, key);
  }

  /** The first `n` entries of a running worker's queue are removed; the worker is over when none is left. */
  ghost predicate Removal(s: State, t: State, w: nat, n: nat) {
    && w < |s.tasks| && s.tasks[w].phase.Running?
    && var lane, id := s.tasks[w].lane, s.tasks[w].phase.queue;
       && 0 < n <= |Queue(s, lane)|
       && t.keys == s.keys - KeysOf(Queue(s, lane)[..n]) && id < |s.deques| && t.deques == s.deques[id := Queue(s, lane)[n..]]
       && Entries(Retired(t, lane)) == Entries(Retired(s, lane)) + Queue(s, lane)[..n] && t.accepted == s.accepted
       && (forall l | l != lane :: Retired(t, l) == Retired(s, l))
       && if n < |Queue(s, lane)| then t.tasks == s.tasks && t.queues == s.queues && t.workers == s.workers
          else t.tasks == s.tasks[w := Task(lane, Done)] && t.queues == s.queues - {lane} && t.workers == s.workers - {lane}
  }

  lemma RemovalQueues(s: State, t: State, w: nat, n: nat)
    requires Inv(s) && Removal(s, t, w, n)
    ensures OnlyLane(s, t, s.tasks[w].lane) && Queue(t, s.tasks[w].lane) == Queue(s, s.tasks[w].lane)[n..]
  {
    var lane := s.tasks[w].lane;
    assert Registered(s, w) && LaneOk(s, lane);
    forall l | l != lane ensures Queue(t, l) == Queue(s, l) {
      assert LaneOk(s, l);
      if l in s.queues && s.queues[l] == s.queues[lane] {
        QueueIsOwn(s, l, lane);
      }
    }
    hide DistinctKeys, ExactKeys;
  }

  lemma RemovalRegisters(s: State, t: State, w: nat, n: nat, v: nat)
    requires Removal(s, t, w, n) && v < |t.tasks| && Registered(s, v) && Registered(s, w)
    requires LaneOk(s, s.tasks[v].lane) && LaneOk(s, s.tasks[w].lane) && LaneOk(t, s.tasks[v].lane)
    ensures Registered(t, v)
  {
    hide Accepted, Retired, Entries, KeysOf;
  }

  lemma RemovalKeeps(s: State, t: State, w: nat, n: nat)
    requires Inv(s) && Removal(s, t, w, n)
    ensures Inv(t) && OnlyLane(s, t, s.tasks[w].lane)
  {
    var lane := s.tasks[w].lane;
    assert Registered(s, w) && LaneOk(s, lane);
    RemovalQueues(s, t, w, n);
    DroppedFront(s, t, lane, n);
    assert Queue(s, lane) == Queue(s, lane)[..n] + Queue(s, lane)[n..];
    assert LaneOk(t, lane);
    LanesKept(s, t, lane);
    hide DistinctKeys, ExactKeys, OnlyLane, Queue, LaneOk, Registered;
    forall v: nat | v < |t.tasks| ensures Registered(t, v) {
      assert Registered(s, v) && LaneOk(s, s.tasks[v].lane) && LaneOk(t, s.tasks[v].lane);
      RemovalRegisters(s, t, w, n, v);
    }
  }

  lemma EndKeeps(s: State, w: nat)
    requires Inv(s) && Enabled(s, End(w))
    ensures Registered(s, w) && Inv(JobOver(s, w)) && OnlyLane(s, JobOver(s, w), s.tasks[w].lane)
  {
    assert Registered(s, w) && LaneOk(s, s.tasks[w].lane);
    var queue := Queue(s, s.tasks[w].lane);
    assert KeysOf(queue[..1]) == {queue[0].key} by {
      assert queue[..1][0] == queue[0];
    }
    hide DistinctKeys, ExactKeys;
    var t := JobOver(s, w);
    assert Retired(t, s.tasks[w].lane) == Retired(s, s.tasks[w].lane) + [Left(queue[0], true)];
    RemovalKeeps(s, t, w, 1);
  }

  lemma CancelUnstarted(s: State, w: nat)
    requires Inv(s) && w < |s.tasks| && s.tasks[w].phase.Created?
    ensures Inv(CancelOf(s, w)) && OnlyLane(s, CancelOf(s, w), s.tasks[w].lane)
  {
    hide DistinctKeys, ExactKeys;
    var t := CancelOf(s, w);
    SameQueues(s, t);
    forall l ensures LaneOk(t, l) {
      assert LaneOk(s, l) && Queue(t, l) == Queue(s, l);
    }
    forall v: nat | v < |t.tasks| ensures Registered(t, v) {
      assert Registered(s, v);
    }
  }

  lemma CancelRunning(s: State, w: nat)
    requires Inv(s) && AtHead(s, w) && Registered(s, w) && LaneOk(s, s.tasks[w].lane)
    ensures Inv(CancelOf(s, w)) && OnlyLane(s, CancelOf(s, w), s.tasks[w].lane)
  {
    hide DistinctKeys, ExactKeys, Inv;
    var t, lane := CancelOf(s, w), s.tasks[w].lane;
    var queue := Queue(s, lane);
    assert queue[..|queue|] == [queue[0]] + queue[1..] && queue[|queue|..] == [];
    KeysOfCons(queue[0], queue[1..]);
    assert Entries(Dropped(queue[1..])) == queue[1..];
    assert Entries(Retired(t, lane)) == Entries(Retired(s, lane)) + queue;
    RemovalKeeps(s, t, w, |queue|);
  }

  lemma CancelKeeps(s: State, w: nat)
    requires Inv(s) && Enabled(s, Cancel(w))
    ensures Registered(s, w) && Inv(CancelOf(s, w)) && OnlyLane(s, CancelOf(s, w), s.tasks[w].lane)
  {
    assert Registered(s, w) && LaneOk(s, s.tasks[w].lane);
    hide Inv, OnlyLane, CancelOf;
    if s.tasks[w].phase.Created? {
      CancelUnstarted(s, w);
    } else {
      CancelRunning(s, w);
    }
  }

  lemma KeysOfCons(entry: Entry, rest: seq<Entry>)
    ensures KeysOf([entry] + rest) == {entry.key} + KeysOf(rest)
  {
    forall key | key in KeysOf(rest) ensures key in KeysOf([entry] + rest) {
      var i :| 0 <= i < |rest| && rest[i].key == key;
      assert ([entry] + rest)[i + 1].key == key;
    }
    assert ([entry] + rest)[0] == entry;
  }

  lemma StepKeeps(s: State, step: Step)
    requires Inv(s) && Enabled(s, step)
    ensures Inv(Apply(s, step))
  {
    hide Inv, SubmitTo, BeginOf, JobOver, CancelOf;
    match step
    case Submit(lane, entry) => SubmitKeeps(s, lane, entry);
    case Begin(w) => BeginKeeps(s, w);
    case End(w) => EndKeeps(s, w);
    case Cancel(w) => CancelKeeps(s, w);
  }

  // ---- what each step does ----

  /** A submission is refused or goes last in its lane, for which a worker is live afterwards; the others go on as before. */
  lemma SubmitIs(s: State, lane: Lane, entry: Entry)
    requires Inv(s)
    ensures var t := Apply(s, Submit(lane, entry));
            if entry.key in s.keys then t == s
            else && Queue(t, lane) == Queue(s, lane) + [entry] && t.keys == s.keys + {entry.key} && OnlyLane(s, t, lane)
                 && Accepted(t, lane) == Accepted(s, lane) + [entry] && Retired(t, lane) == Retired(s, lane)
                 && lane in t.workers && t.workers[lane] < |t.tasks| && Live(t.tasks[t.workers[lane]])
                 && t.tasks == if lane in s.workers && s.workers[lane] < |s.tasks| && Live(s.tasks[s.workers[lane]]) then s.tasks
                               else s.tasks + [Task(lane, Created)]
  {
    if entry.key !in s.keys {
      SubmitQueues(s, lane, entry);
      hide Inv, OnlyLane, Queue;
    }
  }

  /** A worker's body takes hold of the lane's queue, and nothing else happens. */
  lemma BeginIs(s: State, w: nat)
    requires Inv(s) && Enabled(s, Begin(w))
    ensures var t, lane := Apply(s, Begin(w)), s.tasks[w].lane;
            && lane in s.queues && t.tasks == s.tasks[w := Task(lane, Running(s.queues[lane]))] && t == s.(tasks := t.tasks)
  {
    assert Registered(s, w);
  }

  /** The end of a job takes exactly the head of the queue; the worker goes on with the next entry if there is one. */
  lemma EndIs(s: State, w: nat)
    requires Inv(s) && Enabled(s, End(w))
    ensures var t, lane := Apply(s, End(w)), s.tasks[w].lane;
            var queue := Queue(s, lane);
            && queue != [] && Queue(t, lane) == queue[1..] && t.keys == s.keys - {queue[0].key} && OnlyLane(s, t, lane)
            && Retired(t, lane) == Retired(s, lane) + [Left(queue[0], true)]
            && if |queue| > 1 then t.tasks == s.tasks && t.queues == s.queues && t.workers == s.workers
               else t.tasks == s.tasks[w := Task(lane, Done)] && t.queues == s.queues - {lane} && t.workers == s.workers - {lane}
  {
    EndKeeps(s, w);
    assert LaneOk(s, s.tasks[w].lane);
    hide Inv, OnlyLane;
  }

  /**
   A cancelled worker is over. If it was on a job, that one counts as started, everything behind it is dropped
   unstarted, and the lane is gone; if it had not begun, nothing else happens.
  */
  lemma CancelIs(s: State, w: nat)
    requires Inv(s) && Enabled(s, Cancel(w))
    ensures var t, lane := Apply(s, Cancel(w)), s.tasks[w].lane;
            && t.tasks == s.tasks[w := Task(lane, Done)] && OnlyLane(s, t, lane)
            && var queue := Queue(s, lane);
               if s.tasks[w].phase.Created? then t == s.(tasks := t.tasks)
               else && queue != [] && Queue(t, lane) == [] && t.queues == s.queues - {lane} && t.workers == s.workers - {lane}
                    && |Retired(t, lane)| == |Retired(s, lane)| + |queue| && Retired(s, lane) <= Retired(t, lane)
                    && (forall i | 0 <= i < |queue| :: Retired(t, lane)[|Retired(s, lane)| + i] == Left(queue[i], i == 0))
                    && forall key :: key in t.keys <==> key in s.keys && forall i | 0 <= i < |queue| :: queue[i].key != key
  {
    CancelKeeps(s, w);
    assert LaneOk(s, s.tasks[w].lane);
    hide Inv, OnlyLane, LaneOk;
    if !s.tasks[w].phase.Created? {
      assert Queue(s, s.tasks[w].lane) == s.deques[s.tasks[w].phase.queue];
      CancelTakesAll(s, w);
    }
  }

  lemma CancelTakesAll(s: State, w: nat)
    requires AtHead(s, w) && Registered(s, w)
    ensures var t, lane, queue := CancelOf(s, w), s.tasks[w].lane, s.deques[s.tasks[w].phase.queue];
            && Retired(t, lane) == Retired(s, lane) + [Left(queue[0], true)] + Dropped(queue[1..])
            && Queue(t, lane) == [] && t.queues == s.queues - {lane} && t.workers == s.workers - {lane} && t.tasks == s.tasks[w := Task(lane, Done)]
            && forall key :: key in t.keys <==> key in s.keys && forall i | 0 <= i < |queue| :: queue[i].key != key
  {
    var queue := s.deques[s.tasks[w].phase.queue];
    assert queue == [queue[0]] + queue[1..];
    KeysOfCons(queue[0], queue[1..]);
    assert CancelOf(s, w).keys == s.keys - KeysOf(queue);
  }

  /** `t` is reached from `s` by these steps, in any interleaving of submitters, workers and cancellations. */
  ghost predicate Run(s: State, steps: seq<Step>, t: State)
    requires Inv(s)
    decreases |steps|
  {
    if steps == [] then s == t
    else Enabled(s, steps[0]) && (StepKeeps(s, steps[0]); Run(Apply(s, steps[0]), steps[1..], t))
  }

  lemma InitInv()
    ensures Inv(INIT)
  {
    assert forall lane :: Queue(INIT, lane) == [];
  }

  lemma {:induction false} RunKeeps(s: State, steps: seq<Step>, t: State)
    requires Inv(s) && Run(s, steps, t)
    ensures Inv(t)
    decreases |steps|
  {
    hide Inv, Apply, Enabled;
    if steps != [] {
      StepKeeps(s, steps[0]);
      RunKeeps(Apply(s, steps[0]), steps[1..], t);
    }
  }

  /** The state after these steps from no lanes at all. */
  ghost predicate Reached(steps: seq<Step>, s: State) {
    InitInv();
    Run(INIT, steps, s)
  }

  /**
   Under any interleaving a lane has at most one live worker; what was accepted is what has left the lane
   followed by what is queued, in the order of submission; and a running worker is on the first entry that
   has not left.
  */
  lemma LanesInOrder(steps: seq<Step>, s: State, v: nat, w: nat)
    requires Reached(steps, s) && v < |s.tasks| && w < |s.tasks|
    ensures Live(s.tasks[v]) && Live(s.tasks[w]) && s.tasks[v].lane == s.tasks[w].lane ==> v == w
    ensures forall lane :: Accepted(s, lane) == Entries(Retired(s, lane)) + Queue(s, lane)
    ensures s.tasks[w].phase.Running? ==>
              var lane, id := s.tasks[w].lane, s.tasks[w].phase.queue;
              && id < |s.deques| && s.deques[id] == Queue(s, lane) != []
              && |Retired(s, lane)| < |Accepted(s, lane)| && Queue(s, lane)[0] == Accepted(s, lane)[|Retired(s, lane)|]
  {
    InitInv();
    RunKeeps(INIT, steps, s);
    assert Registered(s, v) && Registered(s, w) && LaneOk(s, s.tasks[w].lane);
    hide Run, Reached, DistinctKeys, ExactKeys;
    forall lane ensures Accepted(s, lane) == Entries(Retired(s, lane)) + Queue(s, lane) {
      assert LaneOk(s, lane);
    }
  }

  /**
   Under any interleaving the key set is the duplicate-free union of the keys in all queues, so a submission
   is refused exactly while its key is queued somewhere, the running head included.
  */
  lemma RefusedWhileQueued(steps: seq<Step>, s: State, lane: Lane, entry: Entry)
    requires Reached(steps, s)
    ensures entry.key in s.keys <==> exists l, i :: At(s, l, i, entry.key)
    ensures forall a, b, i, j | At(s, a, i, entry.key) && At(s, b, j, entry.key) :: a == b && i == j
    ensures SubmitTo(s, lane, entry) == s <==> exists l, i :: At(s, l, i, entry.key)
  {
    InitInv();
    RunKeeps(INIT, steps, s);
  }

  /**
   A worker cancelled before it ever ran leaves its queue behind with nobody working on it. Nothing but an
   accepted submission to that lane changes this queue, and that submission brings a new worker.
  */
  lemma StalledLaneWaitsForSubmit(s: State, lane: Lane, step: Step)
    requires Inv(s) && Enabled(s, step) && lane in s.workers
    requires assert LaneOk(s, lane); !Live(s.tasks[s.workers[lane]])
    ensures var t := Apply(s, step);
            if step.Submit? && step.lane == lane && step.entry.key !in s.keys
            then Queue(t, lane) == Queue(s, lane) + [step.entry] && t.tasks[t.workers[lane]] == Task(lane, Created)
            else Queue(t, lane) == Queue(s, lane) && lane in t.workers && t.workers[lane] == s.workers[lane]
                 && t.tasks[t.workers[lane]] == s.tasks[s.workers[lane]]
  {
    assert LaneOk(s, lane);
    match step
    case Submit(l, entry) =>
      if entry.key !in s.keys {
        SubmitQueues(s, l, entry);
      }
    case Begin(w) => assert Registered(s, w);
    case End(w) => assert Registered(s, w); EndKeeps(s, w);
    case Cancel(w) => assert Registered(s, w); CancelKeeps(s, w);
  }

  class DeliveryLanes {
    var queues: map<Lane, nat>
    var workers: map<Lane, nat>
    var keys: set<string>
    var deques: seq<seq<Entry>>
    var tasks: seq<Task>
    ghost var accepted: map<Lane, seq<Entry>>
    ghost var retired: map<Lane, seq<Left>>

    ghost function Snapshot(): State
      reads this
    {
      State(queues, workers, keys, deques, tasks, accepted, retired)
    }

    ghost predicate Valid()
      reads this
    {
      Inv(Snapshot())
    }

    constructor ()
      ensures Valid() && Snapshot() == INIT
    {
      queues, workers, keys, deques, tasks, accepted, retired := map[], map[], {}, [], [], map[], map[];
      new;
      InitInv();
    }

    /** `submit`: to the end of the lane's queue, with a new worker if the lane has none that is still to run. */
    method Submit(lane: Lane, key: string, job: nat) returns (ok: bool)
      requires Valid()
      modifies this
      ensures Valid() && Snapshot() == SubmitTo(old(Snapshot()), lane, Entry(key, job))
      ensures ok <==> key !in old(keys)
    {
      ghost var after := SubmitTo(Snapshot(), lane, Entry(key, job));
      SubmitKeeps(Snapshot(), lane, Entry(key, job));
      KnownLane(Snapshot(), lane);
      hide Inv, Queue, Retired, Accepted;
      if key in keys {
        return false;
      }
      keys := keys + {key};
      accepted := accepted[lane := Accepted(Snapshot(), lane) + [Entry(key, job)]];
      PutLast(lane, Entry(key, job));
      EnsureWorker(lane);
      assert Snapshot() == after;
      return true;
    }

    method PutLast(lane: Lane, entry: Entry)
      requires lane in queues ==> queues[lane] < |deques|
      modifies this`queues, this`deques
      ensures queues == old(queues)[lane := if lane in old(queues) then old(queues)[lane] else |old(deques)|]
      ensures var known := if lane in old(queues) then old(deques) else old(deques) + [[]];
              queues[lane] < |known| && deques == known[queues[lane] := known[queues[lane]] + [entry]]
    {
      if lane !in queues {
        queues := queues[lane := |deques|];
        deques := deques + [[]];
      }
      deques := deques[queues[lane] := deques[queues[lane]] + [entry]];
    }

    method EnsureWorker(lane: Lane)
      requires lane in workers ==> workers[lane] < |tasks|
      modifies this`workers, this`tasks
      ensures if lane in old(workers) && Live(old(tasks)[old(workers)[lane]]) then workers == old(workers) && tasks == old(tasks)
              else workers == old(workers)[lane := |old(tasks)|] && tasks == old(tasks) + [Task(lane, Created)]
    {
      if lane !in workers || !Live(tasks[workers[lane]]) {
        workers := workers[lane := |tasks|];
        tasks := tasks + [Task(lane, Created)];
      }
    }

    /** The start of `_drain`, up to the first wait for a job. */
    method Begin(t: nat)
      requires Valid() && Enabled(Snapshot(), Step.Begin(t))
      modifies this
      ensures Valid() && Snapshot() == Apply(old(Snapshot()), Step.Begin(t))
    {
      BeginKeeps(Snapshot(), t);
      hide Inv;
      tasks := tasks[t := tasks[t].(phase := Running(queues[tasks[t].lane]))];
    }

    /** The job at the head ended or failed: `popleft`, `discard`, then the next job or the end of the worker. */
    method JobEnds(t: nat)
      requires Valid() && Enabled(Snapshot(), Step.End(t))
      modifies this
      ensures Valid() && Snapshot() == Apply(old(Snapshot()), Step.End(t))
    {
      EndKeeps(Snapshot(), t);
      hide Inv;
      PopHead(t);
      if deques[tasks[t].phase.queue] == [] {
        Leave(t);
      }
    }

    method PopHead(t: nat)
      requires AtHead(Snapshot(), t)
      modifies this`deques, this`keys, this`retired
      ensures Snapshot() == Popped(old(Snapshot()), t)
    {
      var id := tasks[t].phase.queue;
      retired := retired[tasks[t].lane := Retired(Snapshot(), tasks[t].lane) + [Left(deques[id][0], true)]];
      keys := keys - {deques[id][0].key};
      deques := deques[id := deques[id][1..]];
    }

    /** The outer `finally` of `_drain`: what is still queued is dropped, then the lane is taken down. */
    method Leave(t: nat)
      requires t < |tasks| && tasks[t].phase.Running? && tasks[t].phase.queue < |deques|
      modifies this
      ensures Snapshot() == Leaving(old(Snapshot()), t)
    {
      var lane, id := tasks[t].lane, tasks[t].phase.queue;
      var i := 0;
      while i < |deques[id]|
        invariant queues == old(queues) && workers == old(workers) && deques == old(deques) && tasks == old(tasks)
        invariant accepted == old(accepted) && retired == old(retired)
        invariant i <= |deques[id]| && keys == old(keys) - KeysOf(deques[id][..i])
      {
        assert deques[id][..i + 1] == deques[id][..i] + [deques[id][i]];
        KeysOfSnoc(deques[id][..i], deques[id][i]);
        keys := keys - {deques[id][i].key};
        i := i + 1;
      }
      assert deques[id][..i] == deques[id];
      retired := retired[lane := Retired(Snapshot(), lane) + Dropped(deques[id])];
      deques := deques[id := []];
      if lane in queues && queues[lane] == id {
        queues := queues - {lane};
      }
      if lane in workers && workers[lane] == t {
        workers := workers - {lane};
      }
      tasks := tasks[t := Task(lane, Done)];
    }

    /** Cancellation reaches a worker: in the middle of a job, or before its body was ever entered. */
    method CancelWorker(t: nat)
      requires Valid() && Enabled(Snapshot(), Step.Cancel(t))
      modifies this
      ensures Valid() && Snapshot() == Apply(old(Snapshot()), Step.Cancel(t))
    {
      CancelKeeps(Snapshot(), t);
      hide Inv;
      if tasks[t].phase.Created? {
        tasks := tasks[t := tasks[t].(phase := Done)];
        return;
      }
      PopHead(t);
      Leave(t);
    }

    /** `close`: afterwards nobody works, and only lanes whose worker never started still hold keys. */
    method Close()
      requires Valid()
      modifies this
      ensures Valid() && forall w: nat | w < |tasks| :: !Live(tasks[w])
      ensures keys <= old(keys)
      ensures forall lane | lane in queues ::
                lane in old(workers) && old(workers)[lane] < |old(tasks)| && !old(tasks)[old(workers)[lane]].phase.Running?
    {
      hide Inv;
      var w := 0;
      while w < |tasks|
        invariant Valid() && w <= |tasks| == |old(tasks)|
        invariant forall v: nat | v < w :: !Live(tasks[v])
        invariant forall v: nat | w <= v < |tasks| :: tasks[v] == old(tasks)[v]
        invariant keys <= old(keys)
        invariant forall lane | lane in workers :: lane in old(workers) && workers[lane] == old(workers)[lane]
        invariant forall v: nat, lane | v < w && lane in workers && workers[lane] == v :: !old(tasks)[v].phase.Running?
      {
        if Live(tasks[w]) {
          CancelShrinks(Snapshot(), w);
          CancelWorker(w);
        }
        w := w + 1;
      }
      forall lane | lane in queues ensures lane in workers && workers[lane] < |tasks| {
        InvLane(Snapshot(), lane);
      }
    }
  }

  lemma KeysOfSnoc(entries: seq<Entry>, entry: Entry)
    ensures KeysOf(entries + [entry]) == KeysOf(entries) + {entry.key}
  {
    forall key | key in KeysOf(entries) ensures key in KeysOf(entries + [entry]) {
      var i :| 0 <= i < |entries| && entries[i].key == key;
      assert (entries + [entry])[i].key == key;
    }
    assert (entries + [entry])[|entries|] == entry;
  }

  lemma KnownLane(s: State, lane: Lane)
    requires Inv(s)
    ensures lane in s.queues <==> lane in s.workers
    ensures lane in s.queues ==> s.queues[lane] < |s.deques| && s.workers[lane] < |s.tasks|
  {
    assert LaneOk(s, lane);
  }

  lemma InvLane(s: State, lane: Lane)
    requires Inv(s)
    ensures LaneOk(s, lane)
  {
  }

  lemma CancelShrinks(s: State, w: nat)
    requires Inv(s) && Enabled(s, Step.Cancel(w))
    ensures var t := Apply(s, Step.Cancel(w));
            && |t.tasks| == |s.tasks| && !Live(t.tasks[w]) && (forall v: nat | v < |s.tasks| && v != w :: t.tasks[v] == s.tasks[v])
            && t.keys <= s.keys
            && (forall lane | lane in t.workers :: lane in s.workers && t.workers[lane] == s.workers[lane])
            && (s.tasks[w].phase.Running? ==> forall lane | lane in t.workers :: t.workers[lane] != w)
  {
    CancelKeeps(s, w);
    forall lane | lane in s.workers && s.workers[lane] == w ensures lane == s.tasks[w].lane {
      assert LaneOk(s, lane);
    }
  }
}
