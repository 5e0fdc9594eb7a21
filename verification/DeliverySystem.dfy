/**
 Several processes over one outbox: they receive the server's log through replayable connections
 (clonoth_sdk/event_router.py), deliver rows under leases, acknowledge, prune, crash and reconnect in any
 order. Each step is one transaction of Outbox.dfy or one action of the environment.
*/
module DeliverySystem {
  import opened Common
  import opened Outbox

  /**
   A connection that asked for everything above `from` and was served `handled` so far, up to number
   `position`; `unadvanced` is the number of an event persisted while the receive cursor is not moved yet.
  */
  datatype Connection = Connection(from: int, position: int, handled: set<Key>, unadvanced: Option<int>) {
    /** Event `k` has still to be supplied. */
    predicate Lacks(log: map<Key, Event>, k: Key) { k in log && from < log[k].seqNo && k !in handled }
  }

  datatype State = State(
    db: Db,
    now: Time,
    /** What was issued up to here is not promised: the cursor first written, or the last connection without one. */
    base: int,
    /** The server's durable events so far, by identity, and an upper bound of everything it has issued. */
    log: map<Key, Event>,
    head: int,
    connections: map<nat, Connection>,
    /** Deliveries in progress: which claim each process holds for a row. */
    inflight: map<(string, Key), nat>,
    // history
    nextClaim: nat,
    latest: map<Key, (string, nat)>,
    /** Acknowledged rows that nobody forced to be replayed since. */
    settled: set<Key>,
    pruned: set<Key>,
    sent: multiset<(Key, nat)>)

  datatype Action =
    | Claim(owner: string, leaseSeconds: Time)
    | Heartbeat(owner: string, leaseSeconds: Time)
    | Finish(owner: string, outcome: Outcome)
    | ForceReplay

  datatype Step =
    | Issue(event: Event)
    | Pass(seqNo: int)
    | Connect(c: nat)
    | Disconnect(c: nat)
    | Persist(c: nat, k: Key, delivery: map<string, string>)
    | Skip(c: nat, k: Key)
    | Advance(c: nat)
    | Checkpoint(c: nat, at: int)
    | OnRow(k: Key, action: Action)
    | Crash(owner: string)
    | Prune(removed: set<Key>)
    | Tick(elapsed: Time)

  function EnqueueDb(db: Db, event: Event, delivery: map<string, string>): Db {
    var k := KeyOf(event);
    if k in db.rows then db.(rows := db.rows[k := db.rows[k].(delivery := Merge(db.rows[k].delivery, delivery))])
    else db.(rows := db.rows[k := NewRow(event, delivery)])
  }

  predicate RowEnabled(s: State, k: Key, action: Action) {
    match action
    case Claim(owner, _) => owner != "" && k in s.db.rows && (owner, k) !in s.inflight && Claimable(s.db.rows[k], s.now)
    case Heartbeat(owner, _) => owner != "" && (owner, k) in s.inflight
    case Finish(owner, _) => owner != "" && (owner, k) in s.inflight
    case ForceReplay => Replayable(s.db.rows, k, s.now)
  }

  function RowDb(s: State, k: Key, action: Action): Db {
    match action
    case Claim(owner, leaseSeconds) => ClaimDb(s.db, k, owner, leaseSeconds, s.now)
    case Heartbeat(owner, leaseSeconds) => HeartbeatDb(s.db, k, owner, leaseSeconds, s.now)
    case Finish(owner, outcome) => OutcomeDb(s.db, k, owner, if k in s.db.rows then s.db.rows[k].seqNo else 0, outcome, s.now)
    case ForceReplay => ForceReplayDb(s.db, k, s.now)
  }

  /** The delivery of row `k` by its current owner has just been acknowledged. */
  predicate Acknowledges(s: State, k: Key, action: Action) {
    action.Finish? && action.outcome.Delivered? && OwnedBy(s.db.rows, k, action.owner)
  }

  function ApplyRow(s: State, k: Key, action: Action): State {
    s.(db := RowDb(s, k, action),
       inflight := match action
                   case Claim(owner, _) => s.inflight[(owner, k) := s.nextClaim]
                   case Finish(owner, _) => s.inflight - {(owner, k)}
                   case _ => s.inflight,
       latest := if action.Claim? then s.latest[k := (action.owner, s.nextClaim)] else s.latest,
       nextClaim := if action.Claim? then s.nextClaim + 1 else s.nextClaim,
       settled := if Acknowledges(s, k, action) then s.settled + {k} else if action.ForceReplay? then s.settled - {k} else s.settled,
       sent := if Acknowledges(s, k, action) then s.sent + multiset{(k, s.db.rows[k].generation)} else s.sent)
  }

  /** The server has still to supply event `k` on connection `c`. */
  predicate Owes(s: State, c: nat, k: Key) {
    c in s.connections && s.connections[c].Lacks(s.log, k)
  }

  /** No other durable event has the number of `k`. */
  ghost predicate Alone(s: State, k: Key) {
    k in s.log && forall l | l in s.log && s.log[l].seqNo == s.log[k].seqNo :: l == k
  }

  /** Numbers go up; events of different types may share one in recovery, an identity never comes twice. */
  ghost predicate Issuable(s: State, event: Event) {
    && KeyOf(event) !in s.log
    && (forall l | l in s.log :: s.log[l].recordType != event.recordType || s.log[l].seqNo != event.seqNo)
    && (event.seqNo > s.head || (event.seqNo == s.head && exists l :: l in s.log && s.log[l].seqNo == s.head))
  }

  ghost predicate Enabled(s: State, step: Step) {
    match step
    case Issue(event) => Issuable(s, event)
    case Pass(seqNo) => seqNo > s.head
    case Connect(c) => c !in s.connections
    case Disconnect(c) => c in s.connections
    case Persist(c, k, _) =>
      // the server's promise: everything above the requested cursor, in order
      && Owes(s, c, k) && s.connections[c].unadvanced.None?
      && forall l | Owes(s, c, l) :: s.log[k].seqNo <= s.log[l].seqNo
    case Skip(c, k) =>
      // the server leaves out an event whose number it has passed, at a page's end or while streaming
      Owes(s, c, k) && s.log[k].seqNo <= s.connections[c].position
    case Advance(c) => c in s.connections && s.connections[c].unadvanced.Some?
    case Checkpoint(c, at) =>
      // the server's promise: a checkpoint only after everything below it
      && c in s.connections && s.connections[c].unadvanced.None? && s.connections[c].position <= at <= s.head
      && forall l | Owes(s, c, l) :: at < s.log[l].seqNo
    case OnRow(k, action) => RowEnabled(s, k, action)
    case Crash(owner) => true
    case Prune(removed) => removed <= Prunable(s.db)
    case Tick(elapsed) => elapsed >= 0.0
  }

  /** A connection starts from the receive cursor, or from now on if there is none yet. */
  function Start(s: State): int {
    match s.db.received case Some(r) => r case None => s.head
  }

  ghost function Apply(s: State, step: Step): State
    requires Enabled(s, step)
  {
    match step
    case Issue(event) => s.(log := s.log[KeyOf(event) := event], head := event.seqNo)
    case Pass(seqNo) => s.(head := seqNo)
    case Connect(c) =>
      s.(connections := s.connections[c := Connection(Start(s), Start(s), {}, None)],
         base := if s.db.received.None? then s.head else s.base)
    case Disconnect(c) => s.(connections := s.connections - {c})
    case Persist(c, k, delivery) =>
      var q := s.log[k].seqNo;
      s.(db := if s.log[k].owned then EnqueueDb(s.db, s.log[k], delivery) else s.db,
         connections := s.connections[c := s.connections[c].(position := q, handled := s.connections[c].handled + {k}, unadvanced := Some(q))])
    case Skip(c, k) => s.(connections := s.connections[c := s.connections[c].(handled := s.connections[c].handled + {k})])
    case Advance(c) =>
      s.(db := AdvanceReceivedDb(s.db, s.connections[c].unadvanced.value),
         connections := s.connections[c := s.connections[c].(unadvanced := None)])
    case Checkpoint(c, at) =>
      s.(db := AdvanceReceivedDb(s.db, at), connections := s.connections[c := s.connections[c].(position := at)])
    case OnRow(k, action) => ApplyRow(s, k, action)
    case Crash(owner) => s.(inflight := map p | p in s.inflight && p.0 != owner :: s.inflight[p])
    case Prune(removed) => s.(db := s.db.(rows := s.db.rows - removed), pruned := s.pruned + removed)
    case Tick(elapsed) => s.(now := s.now + elapsed)
  }

  /** `t` is reached from `s` by these steps. */
  ghost predicate Run(s: State, steps: seq<Step>, t: State)
    decreases |steps|
  {
    if steps == [] then s == t
    else Enabled(s, steps[0]) && Run(Apply(s, steps[0]), steps[1..], t)
  }

  /** An outbox without rows; its cursor, if there is one, says what was handled before. */
  ghost predicate Init(s: State) {
    && s.db.rows == map[] && s.log == map[] && s.base == ReceivedSeq(s.db) && 0 <= s.base <= s.head && 0.0 <= s.now
    && s.connections == map[] && s.inflight == map[] && s.latest == map[]
    && s.settled == {} && s.pruned == {} && s.sent == multiset{}
  }

  // ---- what every step keeps ----

  ghost predicate LogOk(s: State) {
    && 0 <= s.head && 0.0 <= s.now
    && (forall k | k in s.log :: KeyOf(s.log[k]) == k && 0 < s.log[k].seqNo <= s.head)
    && (forall k, l | k in s.log && l in s.log && s.log[k].recordType == s.log[l].recordType && s.log[k].seqNo == s.log[l].seqNo :: k == l)
  }

  /** Every row stores an owned event of the log under its own identity, and leases are consistent. */
  predicate RowOk(log: map<Key, Event>, k: Key, row: Row) {
    && k in log && log[k].owned && row.recordType == log[k].recordType && row.eventId == log[k].eventId && row.seqNo == log[k].seqNo
    && (row.status == Delivering <==> row.owner != "")
  }

  ghost predicate RowsOk(s: State) {
    forall k | k in s.db.rows :: RowOk(s.log, k, s.db.rows[k])
  }

  /** Every owned event above the base up to `limit` that has its number to itself is in the outbox or was pruned. */
  ghost predicate Covered(s: State, limit: int) {
    forall k | k in s.log && s.log[k].owned && s.base < s.log[k].seqNo <= limit && Alone(s, k) :: k in s.db.rows || k in s.pruned
  }

  /** A connection is served in order: what it lacks lies above its position, unless a number is shared. */
  ghost predicate ServedOk(s: State, c: nat)
    requires c in s.connections
  {
    var conn := s.connections[c];
    && conn.from <= conn.position <= s.head
    && (conn.unadvanced.Some? ==> conn.unadvanced.value == conn.position)
    && (forall k | k in conn.handled :: k in s.log && s.log[k].seqNo <= conn.position)
    && (forall k | Owes(s, c, k) :: conn.position < s.log[k].seqNo || (conn.position == s.log[k].seqNo && !Alone(s, k)))
  }

  ghost predicate CursorsOk(s: State) {
    && 0 <= ReceivedSeq(s.db) <= s.head && Covered(s, ReceivedSeq(s.db))
    && forall c | c in s.connections :: ServedOk(s, c) && Covered(s, s.connections[c].position)
  }

  /** Only sent rows are pruned. */
  ghost predicate SentOk(s: State) {
    && (forall k | k in s.db.rows && s.db.rows[k].status == Sent :: (k, s.db.rows[k].generation) in s.sent)
    && (forall k | k in s.pruned :: k in s.log && exists g: nat :: (k, g) in s.sent)
  }

  /** A delivering row belongs to its latest claim, and a process that still owns it holds that claim. */
  ghost predicate ClaimsOk(s: State) {
    forall k | k in s.db.rows && s.db.rows[k].status == Delivering :: ClaimOk(s, k)
  }

  ghost predicate ClaimOk(s: State, k: Key)
    requires k in s.db.rows
  {
    && k in s.latest && s.latest[k].0 == s.db.rows[k].owner
    && ((s.db.rows[k].owner, k) in s.inflight ==> s.inflight[(s.db.rows[k].owner, k)] == s.latest[k].1)
  }

  ghost predicate Inv(s: State) {
    LogOk(s) && RowsOk(s) && CursorsOk(s) && SentOk(s) && ClaimsOk(s)
  }

  /** A step on one row keeps its identity, its lease consistent, and everything else in the tables. */
  ghost predicate RowChange(before: Db, after: Db, k: Key) {
    && after.received == before.received
    && (after.rows == before.rows
        || (&& k in before.rows && k in after.rows && after.rows == before.rows[k := after.rows[k]]
            && after.rows[k].recordType == before.rows[k].recordType && after.rows[k].eventId == before.rows[k].eventId
            && after.rows[k].seqNo == before.rows[k].seqNo
            && (after.rows[k].status == Delivering <==> after.rows[k].owner != "")))
  }

  lemma RowStep(s: State, k: Key, action: Action)
    ensures RowEnabled(s, k, action) ==> RowChange(s.db, RowDb(s, k, action), k)
  {
  }

  /** These steps leave the log, the connections and the cursor alone and add no row. */
  predicate Local(step: Step) {
    step.OnRow? || step.Crash? || step.Prune? || step.Tick?
  }

  lemma LocalStep(s: State, step: Step)
    requires Enabled(s, step) && Local(step)
    ensures var t := Apply(s, step);
            && t.log == s.log && t.head == s.head && t.base == s.base && t.connections == s.connections
            && t.db.received == s.db.received && t.db.rows.Keys <= s.db.rows.Keys
  {
    if step.OnRow? {
      RowStep(s, step.k, step.action);
    }
    hide RowDb, RowEnabled, Prunable, Acknowledges;
  }

  lemma LogStep(s: State, step: Step)
    requires LogOk(s) && Enabled(s, step)
    ensures LogOk(Apply(s, step))
  {
    hide RowDb, RowEnabled, AdvanceReceivedDb, EnqueueDb;
  }

  lemma RowsStep(s: State, step: Step)
    requires LogOk(s) && RowsOk(s) && Enabled(s, step)
    ensures RowsOk(Apply(s, step))
  {
    if step.OnRow? {
      hide RowDb, Enabled, Apply, LogOk;
      EnabledOnRow(s, step);
      RowStep(s, step.k, step.action);
    } else if step.Persist? {
      hide RowDb, RowEnabled, ApplyRow, PruneCursor, Prunable, Merge;
    } else {
      hide RowDb, RowEnabled, ApplyRow, PruneCursor, Prunable, EnqueueDb;
    }
  }

  lemma CursorsStep(s: State, step: Step)
    requires LogOk(s) && CursorsOk(s) && Enabled(s, step)
    ensures CursorsOk(Apply(s, step))
  {
    var t := Apply(s, step);
    ReceivedStep(s, step);
    forall c | c in t.connections ensures ServedOk(t, c) && Covered(t, t.connections[c].position) {
      ConnectionStep(s, step, c);
    }
    hide Enabled, Apply, Covered, ServedOk, LogOk, ReceivedSeq;
  }

  lemma ReceivedStep(s: State, step: Step)
    requires LogOk(s) && CursorsOk(s) && Enabled(s, step)
    ensures var t := Apply(s, step); 0 <= ReceivedSeq(t.db) <= t.head && Covered(t, ReceivedSeq(t.db))
  {
    var t := Apply(s, step);
    hide Covered;
    CoveredStep(s, step, ReceivedSeq(s.db));
    if step.OnRow? {
      RowStep(s, step.k, step.action);
    } else if step.Advance? {
      CoveredStep(s, step, s.connections[step.c].position);
      assert ServedOk(s, step.c);
    } else if step.Checkpoint? {
      CoveredNext(s, step);
    }
    hide RowDb, RowEnabled, Leased, Acknowledges, LogOk, Owes, EnqueueDb;
  }

  lemma ConnectionStep(s: State, step: Step, c: nat)
    requires LogOk(s) && CursorsOk(s) && Enabled(s, step) && c in Apply(s, step).connections
    ensures var t := Apply(s, step); ServedOk(t, c) && Covered(t, t.connections[c].position)
  {
    ConnectionMoves(s, step, c);
    if c in s.connections {
      CoveredStep(s, step, s.connections[c].position);
      if (step.Persist? || step.Checkpoint?) && step.c == c {
        CoveredNext(s, step);
      }
      ServedStep(s, step, c);
    } else {
      StartServed(s, c);
    }
    hide Enabled, Apply, LogOk, ServedOk, Covered;
  }

  /** Only its own frames move a connection. */
  lemma ConnectionMoves(s: State, step: Step, c: nat)
    requires LogOk(s) && CursorsOk(s) && Enabled(s, step) && c in Apply(s, step).connections
    ensures if c !in s.connections then step == Connect(c)
            else && s.connections[c].position <= s.head
                 && Apply(s, step).connections[c].position ==
                    if step.Persist? && step.c == c then s.log[step.k].seqNo
                    else if step.Checkpoint? && step.c == c then step.at else s.connections[c].position
  {
    assert c in s.connections ==> ServedOk(s, c);
    hide RowDb, RowEnabled, EnqueueDb, AdvanceReceivedDb, Covered, Owes, LogOk, Alone;
  }

  lemma StartServed(s: State, c: nat)
    requires LogOk(s) && CursorsOk(s) && c !in s.connections
    ensures var t := Apply(s, Connect(c)); ServedOk(t, c) && Covered(t, t.connections[c].position)
  {
    var t := Apply(s, Connect(c));
    CoveredStep(s, Connect(c), ReceivedSeq(s.db));
    hide Alone;
  }

  /** The log only grows; a number that is still alone among the old ones was alone before. */
  lemma AloneStep(s: State, step: Step, k: Key)
    requires LogOk(s) && Enabled(s, step)
    ensures s.log.Keys <= Apply(s, step).log.Keys && forall l | l in s.log :: Apply(s, step).log[l] == s.log[l]
    ensures Alone(Apply(s, step), k) && Apply(s, step).log[k].seqNo <= s.head ==> Alone(s, k)
  {
    hide RowDb, RowEnabled, AdvanceReceivedDb, EnqueueDb, Prunable, Owes;
    var t := Apply(s, step);
    if step.Issue? && step.event.seqNo == s.head {
      var l :| l in s.log && s.log[l].seqNo == s.head;
      assert t.log[l].seqNo == s.head;
    }
  }

  /** The connection's own bookkeeping. */
  lemma ServedStep(s: State, step: Step, c: nat)
    requires LogOk(s) && c in s.connections && ServedOk(s, c) && Enabled(s, step) && c in Apply(s, step).connections
    ensures ServedOk(Apply(s, step), c)
  {
    var t := Apply(s, step);
    forall k | Owes(t, c, k)
      ensures t.connections[c].position < t.log[k].seqNo || (t.connections[c].position == t.log[k].seqNo && !Alone(t, k))
    {
      OwedAbove(s, step, c, k);
    }
    hide RowDb, RowEnabled, AdvanceReceivedDb, EnqueueDb, Prunable, ApplyRow, Alone;
  }

  lemma OwedAbove(s: State, step: Step, c: nat, k: Key)
    requires LogOk(s) && c in s.connections && ServedOk(s, c) && Enabled(s, step) && Owes(Apply(s, step), c, k)
    ensures var t := Apply(s, step);
            t.connections[c].position < t.log[k].seqNo || (t.connections[c].position == t.log[k].seqNo && !Alone(t, k))
  {
    AloneStep(s, step, k);
    if Local(step) {
      LocalStep(s, step);
      hide Enabled, Apply, LogOk;
      assert Owes(s, c, k);
    } else {
      hide RowDb, RowEnabled, AdvanceReceivedDb, EnqueueDb, Prunable, ApplyRow;
    }
  }

  /** No step uncovers an event; a new event is above everything handled so far, or shares its number. */
  lemma CoveredStep(s: State, step: Step, limit: int)
    requires LogOk(s) && Covered(s, limit) && limit <= s.head && Enabled(s, step)
    ensures Covered(Apply(s, step), limit)
  {
    hide RowDb, RowEnabled, Leased, Acknowledges, Owes, Prunable;
    if step.OnRow? {
      RowStep(s, step.k, step.action);
    }
    var t := Apply(s, step);
    forall k | k in t.log && t.log[k].owned && t.base < t.log[k].seqNo <= limit && Alone(t, k) ensures k in t.db.rows || k in t.pruned {
      AloneStep(s, step, k);
    }
  }

  /** Handling the next event or checkpoint of a connection covers everything up to it. */
  lemma CoveredNext(s: State, step: Step)
    requires LogOk(s) && Enabled(s, step) && (step.Persist? || step.Checkpoint?)
    requires ServedOk(s, step.c) && Covered(s, s.connections[step.c].position)
    ensures Covered(Apply(s, step), if step.Persist? then s.log[step.k].seqNo else step.at)
  {
    var t := Apply(s, step);
    var limit := if step.Persist? then s.log[step.k].seqNo else step.at;
    forall k | k in t.log && t.log[k].owned && t.base < t.log[k].seqNo <= limit && Alone(t, k) ensures k in t.db.rows || k in t.pruned {
      assert Alone(s, k);
      if s.log[k].seqNo > s.connections[step.c].position {
        assert Owes(s, step.c, k);
        assert step.Persist? && k == step.k;
      }
    }
  }

  lemma SentStep(s: State, step: Step)
    requires LogOk(s) && RowsOk(s) && SentOk(s) && Enabled(s, step)
    ensures SentOk(Apply(s, step))
  {
    if step.OnRow? {
      hide Leased;
      SentRow(s, step.k, step.action);
    } else {
      var t := Apply(s, step);
      OtherFrame(s, step);
      forall k | k in t.db.rows && t.db.rows[k].status == Sent ensures (k, t.db.rows[k].generation) in t.sent {
        SentBefore(s, step, k);
      }
      forall k | k in t.pruned ensures k in t.log && exists g: nat :: (k, g) in t.sent {
        if k !in s.pruned {
          assert RowOk(s.log, k, s.db.rows[k]);
        }
        AloneStep(s, step, k);
      }
      hide Enabled, Apply, LogOk;
    }
  }

  /** A step that is not on a row makes no row sent. */
  lemma SentBefore(s: State, step: Step, k: Key)
    requires Enabled(s, step) && !step.OnRow? && k in Apply(s, step).db.rows && Apply(s, step).db.rows[k].status == Sent
    ensures k in s.db.rows && s.db.rows[k].status == Sent && s.db.rows[k].generation == Apply(s, step).db.rows[k].generation
  {
    hide RowDb, RowEnabled, ApplyRow, Prunable, Owes, Merge;
  }

  lemma SentRow(s: State, k: Key, action: Action)
    requires SentOk(s) && RowEnabled(s, k, action)
    ensures SentOk(ApplyRow(s, k, action))
  {
    hide Leased;
    var t := ApplyRow(s, k, action);
    forall l | l in t.pruned ensures l in t.log && exists g: nat :: (l, g) in t.sent {
      var g: nat :| (l, g) in s.sent;
      assert (l, g) in t.sent;
    }
  }

  lemma ClaimsStep(s: State, step: Step)
    requires LogOk(s) && RowsOk(s) && ClaimsOk(s) && Enabled(s, step)
    ensures ClaimsOk(Apply(s, step))
  {
    if step.OnRow? {
      hide Leased, Enabled, Apply;
      EnabledOnRow(s, step);
      RowStep(s, step.k, step.action);
      ClaimsRow(s, step.k, step.action);
    } else {
      hide RowDb, RowEnabled, Acknowledges, Leased, ApplyRow, PruneCursor;
    }
  }

  lemma EnabledOnRow(s: State, step: Step)
    ensures Enabled(s, step) && step.OnRow? ==> RowEnabled(s, step.k, step.action) && Apply(s, step) == ApplyRow(s, step.k, step.action)
  {
  }

  lemma ClaimsRow(s: State, k: Key, action: Action)
    requires Leased(s.db.rows) && ClaimsOk(s) && RowEnabled(s, k, action)
    ensures ClaimsOk(ApplyRow(s, k, action))
  {
    RowStep(s, k, action);
    var t := ApplyRow(s, k, action);
    forall l | l in t.db.rows && t.db.rows[l].status == Delivering ensures ClaimOk(t, l) {
      if l != k {
        assert ClaimOk(s, l);
      } else {
        assert s.db.rows[l].status == Delivering ==> ClaimOk(s, l);
      }
    }
  }

  lemma InvStep(s: State, step: Step)
    requires Inv(s) && Enabled(s, step)
    ensures Inv(Apply(s, step))
  {
    hide LogOk, RowsOk, CursorsOk, SentOk, ClaimsOk, Enabled, Apply;
    LogStep(s, step);
    RowsStep(s, step);
    CursorsStep(s, step);
    SentStep(s, step);
    ClaimsStep(s, step);
  }

  lemma InvLog(s: State)
    ensures Inv(s) ==> LogOk(s) && RowsOk(s)
  {
  }

  // ---- nothing received is lost ----

  lemma {:induction false} RunKeepsInv(s: State, steps: seq<Step>, t: State)
    requires Inv(s) && Run(s, steps, t)
    ensures Inv(t)
    decreases |steps|
  {
    hide Inv, Enabled, Apply;
    if steps != [] {
      InvStep(s, steps[0]);
      RunKeepsInv(Apply(s, steps[0]), steps[1..], t);
    }
  }

  lemma InitInv(s: State)
    ensures Init(s) ==> Inv(s) && Settled(s)
  {
  }

  /**
   However receiving, delivering, pruning, crashing and reconnecting interleave: every owned event above the
   base and at or below the receive cursor whose number is not shared is in the outbox, or was sent and pruned.
  */
  lemma NothingReceivedIsLost(s: State, steps: seq<Step>, t: State, k: Key)
    requires Init(s) && Run(s, steps, t)
    requires k in t.log && t.log[k].owned && t.base < t.log[k].seqNo <= ReceivedSeq(t.db) && Alone(t, k)
    ensures k in t.db.rows || (k in t.pruned && exists g: nat :: (k, g) in t.sent)
  {
    InitInv(s);
    RunKeepsInv(s, steps, t);
  }

  /** Event `k` was received as far as the cursor tells, but it is nowhere and no connection will supply it. */
  ghost predicate Lost(s: State, k: Key) {
    k !in s.db.rows && k !in s.pruned && Harmless(s, k)
  }

  /** The server issued both events under one number and an empty outbox connected. */
  lemma SharedNumberIssued(s: State, first: Event, second: Event) returns (s1: State, s2: State, s3: State)
    requires Init(s) && s.db.received.Some? && s.head < first.seqNo == second.seqNo && first.recordType != second.recordType
    ensures Enabled(s, Issue(first)) && s1 == Apply(s, Issue(first))
    ensures Enabled(s1, Issue(second)) && s2 == Apply(s1, Issue(second))
    ensures Enabled(s2, Connect(0)) && s3 == Apply(s2, Connect(0))
    ensures s3 == s.(log := map[KeyOf(first) := first, KeyOf(second) := second], head := first.seqNo,
                     connections := map[0 := Connection(s.base, s.base, {}, None)])
  {
    hide RowDb, RowEnabled, Prunable;
    s1 := Apply(s, Issue(first));
    assert KeyOf(first) in s1.log && s1.log[KeyOf(first)].seqNo == s1.head;
    s2 := Apply(s1, Issue(second));
    s3 := Apply(s2, Connect(0));
  }

  /**
   Where a number is shared that fails: the receiver stops between the two events, and the second one is never
   asked for again. `first` and `second` are any two events the server may issue under one number.
  */
  lemma SharedNumberIsLost(s: State, first: Event, second: Event) returns (steps: seq<Step>, t: State)
    requires Init(s) && s.db.received.Some? && s.head < first.seqNo == second.seqNo && first.recordType != second.recordType
    ensures Run(s, steps, t) && t.base == s.base && t.log == map[KeyOf(first) := first, KeyOf(second) := second]
    ensures Lost(t, KeyOf(second)) && t.base < second.seqNo
  {
    var k := KeyOf(first);
    var s1, s2, s3 := SharedNumberIssued(s, first, second);
    hide RowDb, RowEnabled, Prunable, Merge;
    steps, t := Extend(s, [], s, Issue(first));
    steps, t := Extend(s, steps, t, Issue(second));
    steps, t := Extend(s, steps, t, Connect(0));
    steps, t := Extend(s, steps, t, Persist(0, k, map[]));
    steps, t := Extend(s, steps, t, Advance(0));
    steps, t := Extend(s, steps, t, Disconnect(0));
  }

  /**
   So does an event that arrives between two connections made while no cursor exists yet: the second one
   starts above it and its first checkpoint is all that remains when the first one breaks.
  */
  lemma SecondStartLoses(s: State, event: Event) returns (steps: seq<Step>, t: State)
    requires Init(s) && s.db.received.None? && s.head < event.seqNo
    ensures Run(s, steps, t) && t.log == map[KeyOf(event) := event] && Lost(t, KeyOf(event)) && t.base == event.seqNo
  {
    hide RowDb, RowEnabled, Prunable, Merge;
    steps, t := [], s;
    steps, t := Extend(s, steps, t, Connect(0));
    steps, t := Extend(s, steps, t, Issue(event));
    steps, t := Extend(s, steps, t, Connect(1));
    assert !Owes(t, 1, KeyOf(event));
    steps, t := Extend(s, steps, t, Checkpoint(1, event.seqNo));
    steps, t := Extend(s, steps, t, Disconnect(0));
  }

  /** One more step at the end of a run. */
  lemma Extend(s: State, steps: seq<Step>, u: State, step: Step) returns (more: seq<Step>, t: State)
    requires Run(s, steps, u) && Enabled(u, step)
    ensures more == steps + [step] && t == Apply(u, step) && Run(s, more, t)
  {
    more, t := steps + [step], Apply(u, step);
    hide Enabled, Apply;
    assert Run(t, [], t) && [step][1..] == [];
    RunConcat(s, steps, u, [step], t);
  }

  lemma {:induction false} RunConcat(s: State, first: seq<Step>, u: State, rest: seq<Step>, t: State)
    requires Run(s, first, u) && Run(u, rest, t)
    ensures Run(s, first + rest, t)
    decreases |first|
  {
    hide Enabled, Apply;
    if first == [] {
      assert first + rest == rest;
    } else {
      RunConcat(Apply(s, first[0]), first[1..], u, rest, t);
      assert (first + rest)[1..] == first[1..] + rest;
    }
  }

  // ---- a pruned event comes back exactly when a connection lags behind it ----

  /** Row `k` is gone and neither a live connection nor a new one will supply its event again. */
  ghost predicate Harmless(s: State, k: Key) {
    && k in s.log && k !in s.db.rows && s.db.received.Some? && s.log[k].seqNo <= ReceivedSeq(s.db)
    && forall c | c in s.connections :: !Owes(s, c, k)
  }

  /** A sender can claim the row now. */
  predicate Claimable'(s: State, k: Key) {
    k in s.db.rows && Claimable(s.db.rows[k], s.now)
  }

  lemma HarmlessStep(s: State, k: Key, step: Step)
    requires Harmless(s, k) && LogOk(s) && Enabled(s, step)
    ensures Harmless(Apply(s, step), k)
  {
    if Local(step) {
      LocalStep(s, step);
      hide Enabled, Apply, LogOk;
      assert forall c :: Owes(Apply(s, step), c, k) <==> Owes(s, c, k);
    } else {
      hide RowDb, RowEnabled, ApplyRow, PruneCursor, Prunable, Merge;
    }
  }

  /** A row that is gone and owed to nobody never comes back, in any later run. */
  lemma {:induction false} HarmlessRun(s: State, k: Key, steps: seq<Step>, t: State)
    requires Harmless(s, k) && LogOk(s) && Run(s, steps, t)
    ensures Harmless(t, k) && !Claimable'(t, k)
    decreases |steps|
  {
    hide LogOk, Enabled, Apply, Owes;
    if steps != [] {
      HarmlessStep(s, k, steps[0]);
      LogStep(s, steps[0]);
      HarmlessRun(Apply(s, steps[0]), k, steps[1..], t);
    }
  }

  /** What a connection still has to be supplied with up to `limit`. */
  ghost function Owed(s: State, c: nat, limit: int): set<Key> {
    set k | k in s.log && Owes(s, c, k) && s.log[k].seqNo <= limit
  }

  /** The server can always go on to one of the events with the least number owed. */
  lemma {:induction false} NextOwed(s: State, c: nat, k: Key) returns (next: Key)
    requires Owes(s, c, k)
    ensures Owes(s, c, next) && s.log[next].seqNo <= s.log[k].seqNo
    ensures forall l | Owes(s, c, l) :: s.log[next].seqNo <= s.log[l].seqNo
    decreases |Owed(s, c, s.log[k].seqNo)|
  {
    if l :| Owes(s, c, l) && s.log[l].seqNo < s.log[k].seqNo {
      assert k in Owed(s, c, s.log[k].seqNo) && k !in Owed(s, c, s.log[l].seqNo);
      ProperSubsetSize(Owed(s, c, s.log[l].seqNo), Owed(s, c, s.log[k].seqNo));
      next := NextOwed(s, c, l);
    } else {
      next := k;
    }
  }

  lemma ProperSubsetSize<T>(a: set<T>, b: set<T>)
    requires a < b
    ensures |a| < |b|
  {
    var rest := b - a;
    assert b == a + rest && rest != {};
  }

  /** One step of a lagging connection towards supplying `k` again. */
  ghost predicate Nearer(s: State, t: State, k: Key, c: nat)
    requires k in s.log && c in s.connections
  {
    && t.log == s.log && k !in t.db.rows && Owes(t, c, k)
    && (s.connections[c].unadvanced.None? ==> Owed(t, c, s.log[k].seqNo) < Owed(s, c, s.log[k].seqNo))
    && (s.connections[c].unadvanced.Some? ==>
          t.connections[c].unadvanced.None? && Owed(t, c, s.log[k].seqNo) == Owed(s, c, s.log[k].seqNo))
  }

  lemma LaggardPersists(s: State, k: Key, c: nat, next: Key)
    requires LogOk(s) && Owes(s, c, k) && s.log[k].owned && k !in s.db.rows && s.connections[c].unadvanced.None?
    requires Owes(s, c, next) && forall l | Owes(s, c, l) :: s.log[next].seqNo <= s.log[l].seqNo
    ensures Enabled(s, Persist(c, next, map[]))
    ensures var t := Apply(s, Persist(c, next, map[])); if next == k then Claimable'(t, k) else Nearer(s, t, k, c)
  {
    hide RowDb, RowEnabled, ApplyRow, PruneCursor, Prunable, Merge;
    if next != k {
      assert next in Owed(s, c, s.log[k].seqNo) && next !in Owed(Apply(s, Persist(c, next, map[])), c, s.log[k].seqNo);
    }
  }

  lemma LaggardStep(s: State, k: Key, c: nat) returns (step: Step)
    requires LogOk(s) && Owes(s, c, k) && s.log[k].owned && k !in s.db.rows
    ensures Enabled(s, step) && (step.Persist? || step.Advance?)
    ensures Claimable'(Apply(s, step), k) || Nearer(s, Apply(s, step), k, c)
  {
    if s.connections[c].unadvanced.Some? {
      hide RowDb, RowEnabled, ApplyRow, PruneCursor, Prunable, Merge;
      step := Advance(c);
    } else {
      var next := NextOwed(s, c, k);
      LaggardPersists(s, k, c, next);
      step := Persist(c, next, map[]);
    }
  }

  /** A lagging connection supplies everything it still lacks, and the event is stored anew. */
  lemma {:induction false} LaggardResends(s: State, k: Key, c: nat) returns (steps: seq<Step>, t: State)
    requires Inv(s) && Owes(s, c, k) && s.log[k].owned && k !in s.db.rows
    ensures Run(s, steps, t) && Claimable'(t, k) && (forall step | step in steps :: step.Persist? || step.Advance?)
    decreases |Owed(s, c, s.log[k].seqNo)|, s.connections[c].unadvanced.Some?
  {
    hide RowsOk, CursorsOk, SentOk, ClaimsOk, Enabled, Apply, Claimable', LogOk, Owed;
    var step := LaggardStep(s, k, c);
    var u := Apply(s, step);
    InvStep(s, step);
    if Claimable'(u, k) {
      steps, t := [step], u;
      assert Run(u, [], u);
    } else {
      if s.connections[c].unadvanced.None? {
        ProperSubsetSize(Owed(u, c, s.log[k].seqNo), Owed(s, c, s.log[k].seqNo));
      }
      var rest;
      rest, t := LaggardResends(u, k, c);
      steps := [step] + rest;
      assert steps[1..] == rest;
    }
  }

  /** Some later run makes the row claimable. */
  ghost predicate ComesBack(s: State, k: Key) {
    exists steps, t :: Run(s, steps, t) && Claimable'(t, k)
  }

  /**
   Pruning the tombstone of an acknowledged event is safe exactly when the server owes the event to no live
   connection: otherwise some later run makes it claimable again without `force_replay`.
  */
  lemma PrunedComesBackIffLaggard(s: State, removed: set<Key>, k: Key)
    requires Inv(s) && Enabled(s, Prune(removed)) && k in removed
    ensures ComesBack(Apply(s, Prune(removed)), k) <==> exists c :: Owes(s, c, k)
  {
    var pruned := Apply(s, Prune(removed));
    InvStep(s, Prune(removed));
    PruneOutcome(s, removed, k);
    hide Run, Inv, Claimable', Enabled, Apply, Harmless, Owes;
    if c :| Owes(s, c, k) {
      var steps, t := LaggardResends(pruned, k, c);
    } else if ComesBack(pruned, k) {
      var steps, t :| Run(pruned, steps, t) && Claimable'(t, k);
      InvLog(pruned);
      HarmlessRun(pruned, k, steps, t);
      assert false;
    }
  }

  lemma PruneOutcome(s: State, removed: set<Key>, k: Key)
    requires Inv(s) && Enabled(s, Prune(removed)) && k in removed
    ensures var t := Apply(s, Prune(removed));
            && k in s.log && s.log[k].owned && k !in t.db.rows && (forall c :: Owes(t, c, k) <==> Owes(s, c, k))
            && ((forall c :: !Owes(s, c, k)) ==> Harmless(t, k))
  {
    hide SentOk, ClaimsOk, Covered, ServedOk;
    assert RowOk(s.log, k, s.db.rows[k]);
  }

  lemma TwoConnected(s: State, event: Event) returns (steps: seq<Step>, t: State)
    requires Init(s) && s.db.received.Some? && s.head < event.seqNo
    ensures Run(s, steps, t)
    ensures var start := Connection(s.base, s.base, {}, None);
            t == s.(log := map[KeyOf(event) := event], head := event.seqNo, connections := map[0 := start, 1 := start])
  {
    hide RowDb, RowEnabled, Prunable, ApplyRow, KeyOf;
    steps, t := Extend(s, [], s, Issue(event));
    steps, t := Extend(s, steps, t, Connect(0));
    steps, t := Extend(s, steps, t, Connect(1));
  }

  /** Two receivers wait for one event, and the first one has stored it. */
  lemma OneOfTwoStored(s: State, event: Event) returns (steps: seq<Step>, t: State)
    requires Init(s) && s.db.received.Some? && s.head < event.seqNo && event.owned
    ensures var k := KeyOf(event);
            && Run(s, steps, t) && t.inflight == map[] && t.log == map[k := event] && t.db.received == Some(event.seqNo)
            && t.db.rows == map[k := NewRow(event, map[])] && Owes(t, 1, k) && t.connections[1].unadvanced.None? && 0.0 <= t.now
  {
    var k := KeyOf(event);
    steps, t := TwoConnected(s, event);
    hide RowDb, RowEnabled, Prunable, ApplyRow, Run;
    steps, t := Extend(s, steps, t, Persist(0, k, map[]));
    steps, t := Extend(s, steps, t, Advance(0));
  }

  lemma ClaimNew(s: State, k: Key, event: Event)
    requires s.inflight == map[] && s.db.rows == map[k := NewRow(event, map[])] && 0.0 <= s.now
    ensures var claim := Claim("receiver", 60.0);
            && RowEnabled(s, k, claim)
            && var t := ApplyRow(s, k, claim);
               && t == s.(db := t.db, inflight := t.inflight, latest := t.latest, nextClaim := t.nextClaim)
               && t.db == s.db.(rows := t.db.rows) && t.db.rows.Keys == {k} && t.db.rows[k].seqNo == event.seqNo
               && OwnedBy(t.db.rows, k, "receiver") && ("receiver", k) in t.inflight
  {
  }

  lemma FinishOwned(s: State, k: Key)
    requires OwnedBy(s.db.rows, k, "receiver") && ("receiver", k) in s.inflight && s.db.rows.Keys == {k}
    requires 0 < s.db.rows[k].seqNo && s.db.received == Some(s.db.rows[k].seqNo)
    ensures var finish := Finish("receiver", Delivered);
            && RowEnabled(s, k, finish)
            && var t := ApplyRow(s, k, finish);
               && t == s.(db := t.db, inflight := t.inflight, settled := t.settled, sent := t.sent)
               && {k} <= Prunable(t.db) && t.db.rows.Keys == {k} && k in t.settled
  {
  }

  lemma ExtendRow(s: State, steps: seq<Step>, u: State, k: Key, action: Action) returns (more: seq<Step>, t: State)
    requires Run(s, steps, u) && RowEnabled(u, k, action)
    ensures t == ApplyRow(u, k, action) && Run(s, more, t)
  {
    hide Run, RowEnabled, ApplyRow;
    more, t := Extend(s, steps, u, OnRow(k, action));
  }

  lemma PruneEnabled(s: State, removed: set<Key>)
    ensures removed <= Prunable(s.db) ==> Enabled(s, Prune(removed))
  {
  }

  /** Its delivery is acknowledged while the second receiver is still owed it. */
  lemma AcknowledgedOnce(s: State, steps: seq<Step>, u: State, k: Key, event: Event) returns (more: seq<Step>, t: State)
    requires Run(s, steps, u) && u.inflight == map[] && u.db.rows == map[k := NewRow(event, map[])] && 0.0 <= u.now
    requires 0 < event.seqNo && u.db.received == Some(event.seqNo)
    ensures Run(s, more, t) && Enabled(t, Prune({k})) && k in t.settled && t.db.rows.Keys == {k}
    ensures t.log == u.log && t.connections == u.connections && t.now == u.now
  {
    ClaimNew(u, k, event);
    hide Run, RowEnabled, ApplyRow, Prunable, Enabled, Apply;
    more, t := ExtendRow(s, steps, u, k, Claim("receiver", 60.0));
    FinishOwned(t, k);
    more, t := ExtendRow(s, more, t, k, Finish("receiver", Delivered));
    PruneEnabled(t, {k});
  }

  /**
   Two receivers are enough: any owned event can be acknowledged and pruned while the other connection is still
   owed it, and is claimable again although nobody forced a replay.
  */
  lemma LaggardIsReachable(s: State, event: Event) returns (before: seq<Step>, laggard: State, steps: seq<Step>, t: State)
    requires Init(s) && s.db.received.Some? && s.head < event.seqNo && event.owned
    ensures Run(s, before, laggard) && Enabled(laggard, Prune({KeyOf(event)})) && Owes(laggard, 1, KeyOf(event))
    ensures before <= steps && Run(s, steps, t) && KeyOf(event) in t.settled && Claimable'(t, KeyOf(event))
  {
    var k := KeyOf(event);
    before, laggard := OneOfTwoStored(s, event);
    hide Init, Run, KeyOf;
    before, laggard := AcknowledgedOnce(s, before, laggard, k, event);
    steps, t := Extend(s, before, laggard, Prune({k}));
    assert k !in t.db.rows;
    steps, t := Extend(s, steps, t, Persist(1, k, map[]));
    assert t.db.rows[k] == NewRow(event, map[]);
  }

  // ---- an acknowledged event is never delivered again unless it is pruned too early ----

  /** A tombstone is pruned only when the server owes its event to no live connection. */
  ghost predicate Careful(s: State, step: Step) {
    step.Prune? ==> forall k, c | k in step.removed && c in s.connections :: !Owes(s, c, k)
  }

  ghost predicate CarefulRun(s: State, steps: seq<Step>, t: State)
    decreases |steps|
  {
    if steps == [] then s == t
    else Enabled(s, steps[0]) && Careful(s, steps[0]) && CarefulRun(Apply(s, steps[0]), steps[1..], t)
  }

  /**
   Settled rows are sent or pruned, pruned rows stay away, and a generation that was sent is either the
   current one of a sent row, an older one, or one of a pruned row.
  */
  ghost predicate Settled(s: State) {
    && (forall k | k in s.pruned :: Harmless(s, k))
    && (forall k | k in s.settled :: k in s.pruned || (k in s.db.rows && s.db.rows[k].status == Sent))
    && (forall k, g: nat :: s.sent[(k, g)] <= 1)
    && (forall k, g: nat | (k, g) in s.sent :: k in s.pruned || OldGeneration(s, k, g))
  }

  predicate OldGeneration(s: State, k: Key, g: nat) {
    k in s.db.rows && (g < s.db.rows[k].generation || (g == s.db.rows[k].generation && s.db.rows[k].status == Sent))
  }

  lemma SettledRow(s: State, k: Key, action: Action)
    requires Settled(s) && RowsOk(s) && RowEnabled(s, k, action)
    ensures Settled(ApplyRow(s, k, action))
  {
    hide Leased, RowDb;
    RowStep(s, k, action);
    SettledRowItself(s, k, action);
    var t := ApplyRow(s, k, action);
    forall l | l in t.pruned ensures Harmless(t, l) {
      assert Harmless(s, l);
    }
    forall l, g: nat ensures t.sent[(l, g)] <= 1 {
      if Acknowledges(s, k, action) && (l, g) == (k, s.db.rows[k].generation) {
        assert (l, g) in s.sent ==> OldGeneration(s, l, g);
      }
    }
    forall l, g: nat | (l, g) in t.sent && l !in t.pruned ensures OldGeneration(t, l, g) {
      assert (l, g) in s.sent ==> OldGeneration(s, l, g);
    }
  }

  lemma SettledRowItself(s: State, k: Key, action: Action)
    requires RowEnabled(s, k, action)
    ensures k in s.db.rows ==> k in RowDb(s, k, action).rows
    ensures k in s.db.rows ==>
            var row, next := s.db.rows[k], RowDb(s, k, action).rows[k];
            && row.generation <= next.generation
            && (action.ForceReplay? <==> row.generation < next.generation)
            && (row.status == Sent && !action.ForceReplay? ==> next.status == Sent)
            && (Acknowledges(s, k, action) ==> row.status != Sent && next.status == Sent)
  {
  }

  /** The row keeps its status and generation, or is pruned. */
  ghost predicate Keeps(s: State, t: State, k: Key)
    requires k in s.db.rows
  {
    if k in t.db.rows then t.db.rows[k].status == s.db.rows[k].status && t.db.rows[k].generation == s.db.rows[k].generation
    else k in t.pruned
  }

  /** Steps that are not on a row keep every row's status and generation, or prune the row. */
  lemma KeptRow(s: State, step: Step, k: Key)
    requires Enabled(s, step) && !step.OnRow? && k in s.db.rows
    ensures Keeps(s, Apply(s, step), k)
  {
    hide RowDb, RowEnabled, ApplyRow, Merge, PruneCursor;
  }

  lemma OtherFrame(s: State, step: Step)
    requires Enabled(s, step) && !step.OnRow?
    ensures var t := Apply(s, step);
            && t.sent == s.sent && t.settled == s.settled && s.pruned <= t.pruned
            && forall k | k in t.pruned && k !in s.pruned ::
                 step.Prune? && k in step.removed && k in s.db.rows && s.db.rows[k].status == Sent
  {
    hide RowDb, RowEnabled, ApplyRow, Merge, PruneCursor, EnqueueDb, AdvanceReceivedDb, Owes;
  }

  lemma PrunedStayHarmless(s: State, step: Step, k: Key)
    requires Inv(s) && Enabled(s, step) && Careful(s, step) && (k in s.pruned ==> Harmless(s, k))
    requires k in s.pruned || (step.Prune? && k in step.removed)
    ensures Harmless(Apply(s, step), k)
  {
    InvLog(s);
    hide Inv, Harmless, Apply, Enabled, LogOk;
    if k in s.pruned {
      HarmlessStep(s, k, step);
    } else {
      PruneOutcome(s, step.removed, k);
    }
  }

  lemma SettledKept(s: State, t: State)
    requires Settled(s) && t.sent == s.sent && t.settled == s.settled && s.pruned <= t.pruned
    requires forall k | k in t.pruned :: Harmless(t, k)
    requires forall k | k in s.db.rows :: Keeps(s, t, k)
    ensures Settled(t)
  {
    hide Harmless;
    forall k, g: nat | (k, g) in t.sent && k !in t.pruned ensures OldGeneration(t, k, g) {
      assert OldGeneration(s, k, g) && Keeps(s, t, k);
    }
    forall k | k in t.settled && k !in t.pruned ensures k in t.db.rows && t.db.rows[k].status == Sent {
      assert Keeps(s, t, k);
    }
  }

  lemma SettledOther(s: State, step: Step)
    requires Inv(s) && Settled(s) && Enabled(s, step) && Careful(s, step) && !step.OnRow?
    ensures Settled(Apply(s, step))
  {
    var t := Apply(s, step);
    OtherFrame(s, step);
    forall k | k in t.pruned ensures Harmless(t, k) {
      assert k in s.pruned ==> Harmless(s, k);
      PrunedStayHarmless(s, step, k);
    }
    hide Inv, Careful, Harmless, Apply, Enabled, OldGeneration;
    forall k | k in s.db.rows ensures Keeps(s, t, k) {
      KeptRow(s, step, k);
    }
    hide Keeps;
    SettledKept(s, t);
  }

  lemma {:induction false} CarefulRunKeeps(s: State, steps: seq<Step>, t: State)
    requires Inv(s) && Settled(s) && CarefulRun(s, steps, t)
    ensures Inv(t) && Settled(t)
    decreases |steps|
  {
    hide Inv, Enabled, Apply, Careful, Settled;
    if steps != [] {
      InvStep(s, steps[0]);
      if steps[0].OnRow? {
        EnabledOnRow(s, steps[0]);
        InvLog(s);
        SettledRow(s, steps[0].k, steps[0].action);
      } else {
        SettledOther(s, steps[0]);
      }
      CarefulRunKeeps(Apply(s, steps[0]), steps[1..], t);
    }
  }

  lemma SettledStays(s: State, k: Key, g: nat)
    requires Settled(s)
    ensures k in s.settled ==> !Claimable'(s, k)
    ensures s.sent[(k, g)] <= 1
  {
    assert k in s.pruned ==> Harmless(s, k);
  }

  /**
   With any number of receivers, in every state reachable without pruning an event some connection is still
   owed: an acknowledged event that nobody forced to be replayed is not claimable, and each replay generation
   of each row was sent at most once.
  */
  lemma AcknowledgedStaysAcknowledged(s: State, steps: seq<Step>, t: State, k: Key, g: nat)
    requires Init(s) && CarefulRun(s, steps, t)
    ensures k in t.settled ==> !Claimable'(t, k)
    ensures t.sent[(k, g)] <= 1
  {
    InitInv(s);
    CarefulRunKeeps(s, steps, t);
    SettledStays(t, k, g);
  }

  /** What was acknowledged stays so until somebody forces a replay of it. */
  lemma {:induction false} SettledUntilReplay(s: State, steps: seq<Step>, t: State, k: Key)
    requires Run(s, steps, t) && k in s.settled && OnRow(k, ForceReplay) !in steps
    ensures k in t.settled
    decreases |steps|
  {
    if steps != [] {
      SettledKeeps(s, steps[0], k);
      hide Enabled, Apply;
      SettledUntilReplay(Apply(s, steps[0]), steps[1..], t, k);
    }
  }

  lemma SettledKeeps(s: State, step: Step, k: Key)
    requires Enabled(s, step) && k in s.settled && step != OnRow(k, ForceReplay)
    ensures k in Apply(s, step).settled
  {
    hide RowDb, RowEnabled, EnqueueDb, AdvanceReceivedDb, Prunable, Acknowledges;
  }

  // ---- one receiver at a time ----

  /** A process connects only when no other connection to this outbox is live. */
  predicate SoloStep(s: State, step: Step) {
    step.Connect? ==> s.connections == map[]
  }

  ghost predicate SoloRun(s: State, steps: seq<Step>, t: State)
    decreases |steps|
  {
    if steps == [] then s == t
    else Enabled(s, steps[0]) && SoloStep(s, steps[0]) && SoloRun(Apply(s, steps[0]), steps[1..], t)
  }

  /** At most one connection is live, and it has passed everything received. */
  ghost predicate Solo(s: State) {
    && (forall c, d | c in s.connections && d in s.connections :: c == d)
    && forall c | c in s.connections :: ReceivedSeq(s.db) <= s.connections[c].position
  }

  /** No two events share a number. */
  ghost predicate Distinct(s: State) {
    forall k | k in s.log :: Alone(s, k)
  }

  lemma SoloKept(s: State, step: Step)
    requires CursorsOk(s) && Solo(s) && Enabled(s, step) && SoloStep(s, step)
    ensures Solo(Apply(s, step))
  {
    if Local(step) {
      LocalStep(s, step);
      hide Enabled, Apply, ServedOk, Covered;
    } else {
      assert forall c | c in s.connections :: ServedOk(s, c);
      hide RowDb, RowEnabled, ApplyRow, PruneCursor, Prunable, Merge, Covered, Owes, Alone;
    }
  }

  lemma SoloIsCareful(s: State, step: Step)
    requires Inv(s) && Solo(s) && Distinct(s) && Enabled(s, step)
    ensures Careful(s, step)
  {
    hide SentOk, ClaimsOk, Covered, Owes;
    if step.Prune? {
      forall k, c | k in step.removed && c in s.connections ensures !Owes(s, c, k) {
        assert RowOk(s.log, k, s.db.rows[k]) && ServedOk(s, c);
      }
    }
  }

  lemma DistinctBefore(s: State, step: Step)
    requires LogOk(s) && Enabled(s, step) && Distinct(Apply(s, step))
    ensures Distinct(s)
  {
    forall k | k in s.log ensures Alone(s, k) {
      AloneStep(s, step, k);
    }
    hide Apply, Enabled, Alone;
  }

  /** With one receiver at a time, and no shared numbers, pruning is always careful. */
  lemma {:induction false} SoloRunIsCareful(s: State, steps: seq<Step>, t: State)
    requires Inv(s) && Solo(s) && SoloRun(s, steps, t) && Distinct(t)
    ensures CarefulRun(s, steps, t) && Distinct(s)
    decreases |steps|
  {
    hide LogOk, RowsOk, SentOk, ClaimsOk, CursorsOk, Enabled, Apply, Careful, Solo, SoloStep, Distinct;
    if steps != [] {
      InvStep(s, steps[0]);
      SoloKept(s, steps[0]);
      SoloRunIsCareful(Apply(s, steps[0]), steps[1..], t);
      DistinctBefore(s, steps[0]);
      SoloIsCareful(s, steps[0]);
    }
  }

  /** So one receiver at a time never delivers an acknowledged event again. */
  lemma OneReceiverAtATime(s: State, steps: seq<Step>, t: State, k: Key, g: nat)
    requires Init(s) && SoloRun(s, steps, t) && Distinct(t)
    ensures k in t.settled ==> !Claimable'(t, k)
    ensures t.sent[(k, g)] <= 1
  {
    InitInv(s);
    hide Inv, Run, Claimable';
    SoloRunIsCareful(s, steps, t);
    AcknowledgedStaysAcknowledged(s, steps, t, k, g);
  }

  // ---- leases ----

  /** No two deliveries under way come from the same claim, and the next claim is a new one. */
  ghost predicate ClaimsDistinct(s: State) {
    && (forall p | p in s.inflight :: s.inflight[p] < s.nextClaim)
    && (forall p, q | p in s.inflight && q in s.inflight && s.inflight[p] == s.inflight[q] :: p == q)
    && forall k | k in s.latest :: s.latest[k].1 < s.nextClaim
  }

  /** A claim is newer than every other one, and a finished delivery is under way no more. */
  lemma ClaimIsNew(s: State, step: Step)
    requires ClaimsDistinct(s) && Enabled(s, step)
    ensures ClaimsDistinct(Apply(s, step))
    ensures step.OnRow? && step.action.Claim? ==>
              var t, owner := Apply(s, step), step.action.owner;
              && (owner, step.k) in t.inflight && step.k in t.latest && t.latest[step.k] == (owner, t.inflight[(owner, step.k)])
              && (forall p | p in s.inflight :: s.inflight[p] < t.latest[step.k].1)
              && forall k | k in s.latest :: s.latest[k].1 < t.latest[step.k].1
    ensures step.OnRow? && step.action.Finish? ==> Apply(s, step).inflight == s.inflight - {(step.action.owner, step.k)}
  {
    hide Issuable, Owes, RowDb, RowEnabled, Prunable, EnqueueDb, AdvanceReceivedDb, Acknowledges;
  }

  lemma {:induction false} ClaimsDistinctInEveryRun(s: State, steps: seq<Step>, t: State)
    requires Init(s) || ClaimsDistinct(s)
    requires Run(s, steps, t)
    ensures ClaimsDistinct(t)
    decreases |steps|
  {
    hide Enabled, Apply;
    if steps != [] {
      ClaimIsNew(s, steps[0]);
      ClaimsDistinctInEveryRun(Apply(s, steps[0]), steps[1..], t);
    }
  }

  /**
   Whoever finishes a delivery with effect holds the row's latest claim: a process whose lease was taken
   over cannot acknowledge, fail, defer, release or bury the row any more.
  */
  lemma FinishNeedsLatestClaim(s: State, k: Key, action: Action)
    requires Inv(s) && RowEnabled(s, k, action) && action.Finish?
    ensures RowDb(s, k, action) != s.db ==> k in s.latest && s.latest[k] == (action.owner, s.inflight[(action.owner, k)])
    ensures RowDb(s, k, action) == s.db ==> !OwnedBy(s.db.rows, k, action.owner)
    ensures ClaimsDistinct(s) && RowDb(s, k, action) != s.db ==>
              forall p | p in s.inflight && s.inflight[p] == s.latest[k].1 :: p == (action.owner, k)
  {
    if OwnedBy(s.db.rows, k, action.owner) {
      assert ClaimOk(s, k);
      assert RowDb(s, k, action).rows[k].status != Delivering;
    }
  }

  predicate By(step: Step, owner: string, k: Key) {
    step.OnRow? && step.k == k && !step.action.ForceReplay? && step.action.owner == owner
  }

  /** While its lease runs, only its owner changes a row in delivery. */
  lemma LeaseHolds(s: State, step: Step, owner: string, k: Key)
    requires Inv(s) && Enabled(s, step) && OwnedBy(s.db.rows, k, owner) && s.now < s.db.rows[k].leaseUntil
    requires !By(step, owner, k)
    ensures OwnedBy(Apply(s, step).db.rows, k, owner)
    ensures Apply(s, step).db.rows[k].leaseUntil == s.db.rows[k].leaseUntil
  {
    if step.OnRow? {
      hide LogOk, CursorsOk, SentOk, ClaimsOk, Leased, Enabled, Apply;
      EnabledOnRow(s, step);
      LeaseHoldsRow(s, step.k, step.action, owner, k);
    } else {
      hide LogOk, CursorsOk, SentOk, ClaimsOk, Leased, RowDb, RowEnabled, ApplyRow, PruneCursor;
    }
  }

  lemma LeaseHoldsRow(s: State, l: Key, action: Action, owner: string, k: Key)
    requires RowEnabled(s, l, action) && OwnedBy(s.db.rows, k, owner) && s.now < s.db.rows[k].leaseUntil
    requires l == k ==> action.ForceReplay? || action.owner != owner
    ensures k in RowDb(s, l, action).rows && RowDb(s, l, action).rows[k] == s.db.rows[k]
  {
  }

  /** Every heartbeat of `owner` comes before its lease runs out, and it does not finish. */
  ghost predicate OnTime(s: State, steps: seq<Step>, owner: string, k: Key)
    decreases |steps|
  {
    && k in s.db.rows && s.now < s.db.rows[k].leaseUntil
    && (steps != [] ==>
          && Enabled(s, steps[0]) && (By(steps[0], owner, k) ==> steps[0].action.Heartbeat?)
          && OnTime(Apply(s, steps[0]), steps[1..], owner, k))
  }

  /** With heartbeats on time nobody else ever gets the row. */
  lemma {:induction false} HeartbeatsKeepTheRow(s: State, steps: seq<Step>, t: State, owner: string, k: Key)
    requires Inv(s) && Run(s, steps, t) && OwnedBy(s.db.rows, k, owner) && OnTime(s, steps, owner, k)
    ensures OwnedBy(t.db.rows, k, owner)
    decreases |steps|
  {
    hide Inv, Enabled, Apply;
    if steps != [] {
      InvStep(s, steps[0]);
      if By(steps[0], owner, k) {
        EnabledOnRow(s, steps[0]);
      } else {
        LeaseHolds(s, steps[0], owner, k);
      }
      HeartbeatsKeepTheRow(Apply(s, steps[0]), steps[1..], t, owner, k);
    }
  }

  // ---- the steps are the transactions of the outbox ----

  /**
   On reachable rows `_find` recognizes an event exactly by its stable key, that is, by its type and its id, or
   among events without an id by their number.
  */
  lemma FoundByKey(s: State, k: Key, l: Key)
    requires Inv(s) && k in s.log
    ensures FoundAt(s.db.rows, s.log[k], l) <==> l == k && k in s.db.rows
    ensures l in s.log ==>
              var a, b := s.log[k], s.log[l];
              l == k <==> a.recordType == b.recordType && a.eventId == b.eventId && (a.eventId == "" ==> a.seqNo == b.seqNo)
    ensures ValidDb(s.db)
  {
    if FoundAt(s.db.rows, s.log[k], l) {
      assert RowOk(s.log, l, s.db.rows[l]);
    }
  }
}
