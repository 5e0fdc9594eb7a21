/**
 The durable part of clonoth_sdk/event_router.py: receiving frames from the server's stream, and delivering
 one row at a time. RunWs is proved against a fold over the frames, and that fold is a run of
 DeliverySystem.dfy, so everything proved there about all runs holds of what the router does.
*/
module Router {
  import opened Common
  import opened Outbox
  import opened DeliverySystem

  /** What the socket yields; `persists` is false when the store raises while the event is written. */
  datatype Frame =
    | Ping
    | ReplayGap
    | CheckpointFrame(seqNo: int)
    | Transient(seqNo: int)
    | Durable(event: Event, delivery: map<string, string>, persists: bool)

  /** The row `_find` returns for an event. */
  ghost function KnownAs(rows: map<Key, Row>, event: Event): Option<Key> {
    if exists k :: FoundAt(rows, event, k) then var k :| FoundAt(rows, event, k); Some(k) else None
  }

  /** Writing one owned event, or nothing if the table refuses it. */
  ghost function StoreDb(db: Db, event: Event, delivery: map<string, string>): Option<Db> {
    match KnownAs(db.rows, event)
    case Some(k) =>
      if k in db.rows then Some(db.(rows := db.rows[k := db.rows[k].(delivery := Merge(db.rows[k].delivery, delivery))])) else None
    case None =>
      if KeyOf(event) in db.rows then None else Some(db.(rows := db.rows[KeyOf(event) := NewRow(event, delivery)]))
  }

  /** What one frame does to the store; None when the event could not be made durable. */
  ghost function Handle(db: Db, frame: Frame): Option<Db> {
    match frame
    case CheckpointFrame(seqNo) => Some(AdvanceReceivedDb(db, seqNo))
    case Durable(event, delivery, persists) =>
      if !event.owned then Some(AdvanceReceivedDb(db, event.seqNo))
      else if !persists then None
      else (match StoreDb(db, event, delivery) case None => None case Some(stored) => Some(AdvanceReceivedDb(stored, event.seqNo)))
    case _ => Some(db)
  }

  /** The store after the frames up to the first one that could not be made durable. */
  ghost function Folded(db: Db, frames: seq<Frame>): Db
    decreases |frames|
  {
    if frames == [] then db
    else match Handle(db, frames[0]) case None => db case Some(next) => Folded(next, frames[1..])
  }

  ghost function Consumed(db: Db, frames: seq<Frame>): (n: nat)
    ensures n <= |frames|
    decreases |frames|
  {
    if frames == [] then 0
    else match Handle(db, frames[0]) case None => 0 case Some(next) => 1 + Consumed(next, frames[1..])
  }

  /** The row an event is stored in. */
  ghost function StoredAt(rows: map<Key, Row>, event: Event): Key {
    match KnownAs(rows, event) case Some(k) => k case None => KeyOf(event)
  }

  /** The row that may be delivered right away after an owned event was stored: not sent yet, and due. */
  function Offer(rows: map<Key, Row>, k: Key, now: Time): seq<Key> {
    if k in rows && rows[k].status != Status.Sent && rows[k].nextRetry <= now then [k] else []
  }

  /** What the frames put into the delivery lanes, in order. */
  ghost function Offered(db: Db, frames: seq<Frame>, now: Time): seq<Key>
    decreases |frames|
  {
    if frames == [] then []
    else match Handle(db, frames[0])
      case None => []
      case Some(next) => OfferOf(db, next, frames[0], now) + Offered(next, frames[1..], now)
  }

  ghost function OfferOf(db: Db, next: Db, frame: Frame, now: Time): seq<Key> {
    if frame.Durable? && frame.event.owned then Offer(next.rows, StoredAt(db.rows, frame.event), now) else []
  }

  /** After frame `i` its event is stored in row `k`, which is not sent yet and due. */
  ghost predicate OfferedBy(db: Db, frames: seq<Frame>, i: nat, k: Key, now: Time)
    requires i < |frames|
  {
    var before, after := Folded(db, frames[..i]), Folded(db, frames[..i + 1]);
    && frames[i].Durable? && frames[i].event.owned && k == StoredAt(before.rows, frames[i].event)
    && k in after.rows && after.rows[k].status != Status.Sent && after.rows[k].nextRetry <= now
  }

  /** Exactly the rows of consumed events that could be delivered when they were stored go into the lanes. */
  lemma {:induction false} OfferedAre(db: Db, frames: seq<Frame>, now: Time, k: Key)
    ensures k in Offered(db, frames, now) <==> exists i: nat :: i < Consumed(db, frames) && OfferedBy(db, frames, i, k, now)
    decreases |frames|
  {
    hide StoredAt, Handle;
    if frames != [] && Handle(db, frames[0]).Some? {
      var next, rest := Handle(db, frames[0]).value, frames[1..];
      OfferedAre(next, rest, now, k);
      assert frames[..0] == [] && frames[..1] == [frames[0]] && frames[..1][1..] == [];
      assert Folded(db, frames[..1]) == next;
      assert OfferedBy(db, frames, 0, k, now) <==> k in OfferOf(db, next, frames[0], now);
      forall i: nat | i < |rest| ensures OfferedBy(db, frames, i + 1, k, now) <==> OfferedBy(next, rest, i, k, now) {
        FoldedFirst(db, frames, next, i);
        FoldedFirst(db, frames, next, i + 1);
      }
      if i: nat :| i < Consumed(next, rest) && OfferedBy(next, rest, i, k, now) {
        assert OfferedBy(db, frames, i + 1, k, now);
      }
      if i: nat :| 0 < i < Consumed(db, frames) && OfferedBy(db, frames, i, k, now) {
        assert OfferedBy(next, rest, i - 1, k, now);
      }
    }
  }

  lemma FoldedFirst(db: Db, frames: seq<Frame>, next: Db, n: nat)
    requires n < |frames| && Handle(db, frames[0]) == Some(next)
    ensures Folded(db, frames[..n + 1]) == Folded(next, frames[1..][..n])
  {
    assert frames[..n + 1][1..] == frames[1..][..n];
  }

  function FrameSeq(frame: Frame): Option<int> {
    match frame
    case CheckpointFrame(seqNo) => Some(seqNo)
    case Transient(seqNo) => Some(seqNo)
    case Durable(event, _, _) => Some(event.seqNo)
    case _ => None
  }

  /** `_after_seq`: the highest sequence number among the frames that were consumed. */
  function Highest(after: int, frames: seq<Frame>): int {
    if frames == [] then after
    else
      var before := Highest(after, frames[..|frames| - 1]);
      match FrameSeq(frames[|frames| - 1]) case None => before case Some(q) => MaxInt(before, q)
  }

  lemma {:induction false} HighestIsHighest(after: int, frames: seq<Frame>)
    ensures after <= Highest(after, frames)
    ensures forall i | 0 <= i < |frames| && FrameSeq(frames[i]).Some? :: FrameSeq(frames[i]).value <= Highest(after, frames)
    ensures Highest(after, frames) == after || exists i :: 0 <= i < |frames| && FrameSeq(frames[i]) == Some(Highest(after, frames))
  {
    if frames != [] {
      var init := frames[..|frames| - 1];
      HighestIsHighest(after, init);
      assert forall i | 0 <= i < |init| :: init[i] == frames[i];
    }
  }

  /** The frames as the server promises them above a cursor: durable events and checkpoints only go up. */
  predicate Ascending(cursor: int, frames: seq<Frame>)
    decreases |frames|
  {
    frames == [] ||
    match frames[0]
    case CheckpointFrame(seqNo) => cursor <= seqNo && Ascending(seqNo, frames[1..])
    case Durable(event, _, _) => cursor < event.seqNo && Ascending(event.seqNo, frames[1..])
    case _ => Ascending(cursor, frames[1..])
  }

  /**
   Consumption stops at the first event that could not be made durable, and the cursor the next connection
   asks from is still below that event: it will be supplied again.
  */
  lemma {:induction false} RefusedEventIsAskedForAgain(db: Db, frames: seq<Frame>)
    requires db.received.Some? && 0 <= ReceivedSeq(db) && Ascending(ReceivedSeq(db), frames)
    requires Consumed(db, frames) < |frames|
    ensures var refused := frames[Consumed(db, frames)];
            var after := Folded(db, frames);
            && refused.Durable? && refused.event.owned && ReceivedSeq(db) <= ReceivedSeq(after) < refused.event.seqNo
    ensures forall i | 0 <= i < Consumed(db, frames) && frames[i].Durable? ::
              frames[i].event.seqNo <= ReceivedSeq(Folded(db, frames))
    decreases |frames|
  {
    var next := Handle(db, frames[0]);
    if next.Some? {
      RefusedEventIsAskedForAgain(next.value, frames[1..]);
      forall i | 0 <= i < Consumed(db, frames) && frames[i].Durable?
        ensures frames[i].event.seqNo <= ReceivedSeq(Folded(db, frames))
      {
        if i > 0 {
          assert frames[i] == frames[1..][i - 1];
        }
      }
    }
  }

  /** The sequence number a consumed frame moves the receive cursor to. */
  function CursorSeq(frame: Frame): Option<int> {
    match frame
    case CheckpointFrame(seqNo) => Some(seqNo)
    case Durable(event, _, _) => Some(event.seqNo)
    case _ => None
  }

  predicate KeepsBelow(frame: Frame, limit: int) {
    CursorSeq(frame).Some? ==> CursorSeq(frame).value < limit
  }

  lemma {:induction false} CursorBelow(db: Db, frames: seq<Frame>, limit: int)
    requires db.received.Some? && 0 < limit
    ensures Folded(db, frames).received.Some?
    ensures ReceivedSeq(Folded(db, frames)) < limit <==>
            ReceivedSeq(db) < limit && forall i | 0 <= i < Consumed(db, frames) :: KeepsBelow(frames[i], limit)
    decreases |frames|
  {
    if frames != [] && Handle(db, frames[0]).Some? {
      var next := Handle(db, frames[0]).value;
      CursorBelow(next, frames[1..], limit);
      assert forall i | 0 < i < Consumed(db, frames) :: frames[i] == frames[1..][i - 1];
      assert forall i | 0 <= i < Consumed(next, frames[1..]) :: frames[1..][i] == frames[i + 1];
    }
  }

  /**
   On any stream, promises kept or not: the refused event is asked for again exactly if everything consumed
   before it, and the cursor, lies below its sequence number. Of two events that share a number the second one
   is therefore lost when it cannot be made durable after the first.
  */
  lemma {:induction false} AskedForAgainIff(db: Db, frames: seq<Frame>)
    requires db.received.Some? && Consumed(db, frames) < |frames| && frames[Consumed(db, frames)].Durable?
    requires 0 < frames[Consumed(db, frames)].event.seqNo
    ensures var refused := frames[Consumed(db, frames)].event.seqNo;
            ReceivedSeq(Folded(db, frames)) < refused <==>
            ReceivedSeq(db) < refused && forall i | 0 <= i < Consumed(db, frames) :: KeepsBelow(frames[i], refused)
  {
    CursorBelow(db, frames, frames[Consumed(db, frames)].event.seqNo);
  }

  /** Two events under one number, and the second one is not made durable: nobody asks for it again. */
  lemma SharedNumberNotAskedForAgain(first: Event, second: Event, persists: bool)
    requires first.owned && second.owned && 0 < first.seqNo == second.seqNo && first.recordType != second.recordType
    ensures var frames, db := [Durable(first, map[], true), Durable(second, map[], false)], Db(map[], 0, Some(first.seqNo - 1));
            Consumed(db, frames) == 1 && ReceivedSeq(Folded(db, frames)) == second.seqNo
  {
    var frames, db := [Durable(first, map[], true), Durable(second, map[], false)], Db(map[], 0, Some(first.seqNo - 1));
    assert forall k :: !FoundAt(db.rows, first, k);
    var next := Handle(db, frames[0]);
    assert frames[1..][0] == frames[1] && Handle(next.value, frames[1]).None?;
  }

  /** The server's promise for the next frame of a connection. */
  ghost predicate Offers(log: map<Key, Event>, head: int, conn: Connection, frame: Frame) {
    match frame
    case CheckpointFrame(at) => conn.position <= at <= head && forall l | conn.Lacks(log, l) :: at < log[l].seqNo
    case Durable(event, _, _) =>
      && conn.Lacks(log, KeyOf(event)) && log[KeyOf(event)] == event
      && forall l | conn.Lacks(log, l) :: event.seqNo <= log[l].seqNo
    case _ => true
  }

  function Moved(conn: Connection, frame: Frame): Connection {
    match frame
    case CheckpointFrame(at) => conn.(position := at)
    case Durable(event, _, _) => conn.(position := event.seqNo, handled := conn.handled + {KeyOf(event)})
    case _ => conn
  }

  ghost predicate Served(log: map<Key, Event>, head: int, conn: Connection, frames: seq<Frame>)
    decreases |frames|
  {
    frames == [] || (Offers(log, head, conn, frames[0]) && Served(log, head, Moved(conn, frames[0]), frames[1..]))
  }

  /** Unless numbers are shared, frames served in order ascend. */
  lemma {:induction false} ServedAscends(log: map<Key, Event>, head: int, conn: Connection, frames: seq<Frame>)
    requires Served(log, head, conn, frames) && forall l | conn.Lacks(log, l) :: conn.position < log[l].seqNo
    requires forall k, l | k in log && l in log && log[k].seqNo == log[l].seqNo :: k == l
    ensures Ascending(conn.position, frames)
    decreases |frames|
  {
    if frames != [] {
      ServedAscends(log, head, Moved(conn, frames[0]), frames[1..]);
    }
  }

  /** On reachable rows writing an event is the Persist step, and the table never refuses. */
  lemma StoreIsEnqueue(s: State, k: Key, delivery: map<string, string>)
    requires Inv(s) && k in s.log
    ensures StoreDb(s.db, s.log[k], delivery) == Some(EnqueueDb(s.db, s.log[k], delivery))
  {
    forall l ensures FoundAt(s.db.rows, s.log[k], l) <==> l == k && k in s.db.rows {
      FoundByKey(s, k, l);
    }
    if k in s.db.rows {
      assert FoundAt(s.db.rows, s.log[k], k);
    }
  }

  // ---- what the router does among other processes ----

  /** What the others do before the router takes a frame, and between its two transactions on it. */
  datatype Others = Others(before: seq<Step>, between: seq<Step>)

  /** A run; if `careful`, one that prunes nothing a connection is still owed. */
  ghost predicate Goes(s: State, steps: seq<Step>, t: State, careful: bool) {
    Run(s, steps, t) && (careful ==> CarefulRun(s, steps, t))
  }

  /** The step is not the router's own work on its connection. */
  predicate Leaves(step: Step, c: nat) {
    (step.Persist? || step.Advance? || step.Checkpoint? || step.Disconnect?) ==> step.c != c
  }

  ghost predicate OthersGo(s: State, c: nat, steps: seq<Step>, t: State, careful: bool) {
    Goes(s, steps, t, careful) && forall step | step in steps :: Leaves(step, c)
  }

  /** The router has written the event of the frame, but not yet moved the receive cursor. */
  ghost predicate Writes(s: State, c: nat, event: Event, delivery: map<string, string>, persists: bool, t: State)
    requires c in s.connections
  {
    && (event.owned ==> persists && StoreDb(s.db, event, delivery) == Some(t.db)) && (!event.owned ==> t.db == s.db)
    && t == s.(db := t.db,
               connections := s.connections[c := Moved(s.connections[c], Durable(event, delivery, persists)).(unadvanced := Some(event.seqNo))])
  }

  /** The router consumes one frame; the others act between its transactions. */
  ghost predicate Turn(s: State, c: nat, frame: Frame, between: seq<Step>, t: State, careful: bool) {
    && c in s.connections && Offers(s.log, s.head, s.connections[c], frame)
    && match frame
       case CheckpointFrame(at) =>
         t == s.(db := AdvanceReceivedDb(s.db, at), connections := s.connections[c := Moved(s.connections[c], frame)])
       case Durable(event, delivery, persists) => exists u, v ::
         && Writes(s, c, event, delivery, persists, u) && OthersGo(u, c, between, v, careful) && c in v.connections
         && t == v.(db := AdvanceReceivedDb(v.db, event.seqNo), connections := v.connections[c := v.connections[c].(unadvanced := None)])
       case _ => t == s
  }

  /** The router consumes the frames while the others act in between. */
  ghost predicate Interleaved(s: State, c: nat, frames: seq<Frame>, others: seq<Others>, t: State, careful: bool)
    decreases |frames|
  {
    if frames == [] then s == t
    else
      && others != []
      && exists u, v ::
        && OthersGo(s, c, others[0].before, u, careful) && Turn(u, c, frames[0], others[0].between, v, careful)
        && Interleaved(v, c, frames[1..], others[1..], t, careful)
  }

  lemma {:induction false} GoesConcat(s: State, first: seq<Step>, u: State, rest: seq<Step>, t: State, careful: bool)
    requires Goes(s, first, u, careful) && Goes(u, rest, t, careful)
    ensures Goes(s, first + rest, t, careful)
    decreases |first|
  {
    hide Enabled, Apply, Careful;
    if first == [] {
      assert first + rest == rest;
    } else {
      GoesConcat(Apply(s, first[0]), first[1..], u, rest, t, careful);
      assert (first + rest)[1..] == first[1..] + rest;
    }
  }

  lemma {:induction false} GoesOne(s: State, step: Step, careful: bool)
    requires Enabled(s, step) && !step.Prune?
    ensures Goes(s, [step], Apply(s, step), careful)
  {
    var t := Apply(s, step);
    hide Enabled, Apply;
    assert Run(t, [], t) && CarefulRun(t, [], t) && [step][1..] == [];
  }

  lemma LeftAlone(s: State, c: nat, step: Step)
    requires c in s.connections && Enabled(s, step) && Leaves(step, c)
    ensures c in Apply(s, step).connections && Apply(s, step).connections[c].unadvanced == s.connections[c].unadvanced
  {
    hide RowDb, RowEnabled, EnqueueDb, AdvanceReceivedDb, Prunable;
  }

  lemma {:induction false} OthersLeave(s: State, c: nat, steps: seq<Step>, t: State, careful: bool)
    requires Inv(s) && c in s.connections && OthersGo(s, c, steps, t, careful)
    ensures Inv(t) && c in t.connections && t.connections[c].unadvanced == s.connections[c].unadvanced
    decreases |steps|
  {
    hide Inv, Enabled, Apply, Careful;
    if steps != [] {
      InvStep(s, steps[0]);
      LeftAlone(s, c, steps[0]);
      OthersLeave(Apply(s, steps[0]), c, steps[1..], t, careful);
    }
  }

  /** On reachable tables the router's write is the Persist step. */
  lemma {:induction false} WriteIsPersist(s: State, c: nat, event: Event, delivery: map<string, string>, persists: bool, t: State)
    requires Inv(s) && c in s.connections && s.connections[c].unadvanced.None?
    requires Offers(s.log, s.head, s.connections[c], Durable(event, delivery, persists)) && Writes(s, c, event, delivery, persists, t)
    ensures Enabled(s, Persist(c, KeyOf(event), delivery)) && Apply(s, Persist(c, KeyOf(event), delivery)) == t
  {
    StoreIsEnqueue(s, KeyOf(event), delivery);
    hide Inv, StoreDb, EnqueueDb;
  }

  lemma CursorIsAdvance(s: State, c: nat)
    requires c in s.connections && s.connections[c].unadvanced.Some?
    ensures Enabled(s, Advance(c))
    ensures Apply(s, Advance(c)) == s.(db := AdvanceReceivedDb(s.db, s.connections[c].unadvanced.value),
                                       connections := s.connections[c := s.connections[c].(unadvanced := None)])
  {
  }

  /** One frame is one or two steps of the system with the others' steps in between, or none. */
  lemma {:induction false} TurnIsSteps(s: State, c: nat, frame: Frame, between: seq<Step>, t: State, careful: bool) returns (steps: seq<Step>)
    requires Inv(s) && Turn(s, c, frame, between, t, careful) && s.connections[c].unadvanced.None?
    ensures Goes(s, steps, t, careful) && Inv(t) && c in t.connections && t.connections[c].unadvanced.None?
  {
    hide Inv, StoreDb, AdvanceReceivedDb, EnqueueDb;
    match frame
    case CheckpointFrame(at) =>
      hide RowEnabled, ApplyRow;
      steps := [Checkpoint(c, at)];
      InvStep(s, steps[0]);
      GoesOne(s, steps[0], careful);
    case Durable(event, delivery, persists) =>
      var u, v :| Writes(s, c, event, delivery, persists, u) && OthersGo(u, c, between, v, careful) && c in v.connections
        && t == v.(db := AdvanceReceivedDb(v.db, event.seqNo), connections := v.connections[c := v.connections[c].(unadvanced := None)]);
      var persist := Persist(c, KeyOf(event), delivery);
      WriteIsPersist(s, c, event, delivery, persists, u);
      InvStep(s, persist);
      GoesOne(s, persist, careful);
      OthersLeave(u, c, between, v, careful);
      CursorIsAdvance(v, c);
      InvStep(v, Advance(c));
      GoesOne(v, Advance(c), careful);
      hide Goes, Enabled, Apply;
      GoesConcat(s, [persist], u, between, v, careful);
      GoesConcat(s, [persist] + between, v, [Advance(c)], t, careful);
      steps := [persist] + between + [Advance(c)];
    case _ =>
      steps := [];
  }

  /**
   Whatever other processes do between the frames, and between writing an event and moving the cursor: what the
   router consumes from a stream the server keeps its promises on is part of a run of the system.
  */
  lemma {:induction false} InterleavedIsARun(s: State, c: nat, frames: seq<Frame>, others: seq<Others>, t: State, careful: bool)
    returns (steps: seq<Step>)
    requires Inv(s) && c in s.connections && s.connections[c].unadvanced.None? && Interleaved(s, c, frames, others, t, careful)
    ensures Goes(s, steps, t, careful)
    decreases |frames|
  {
    hide Inv, Turn, Enabled, Apply;
    if frames == [] {
      steps := [];
    } else {
      hide Goes;
      var u, v :| OthersGo(s, c, others[0].before, u, careful) && Turn(u, c, frames[0], others[0].between, v, careful)
        && Interleaved(v, c, frames[1..], others[1..], t, careful);
      OthersLeave(s, c, others[0].before, u, careful);
      var turn := TurnIsSteps(u, c, frames[0], others[0].between, v, careful);
      var rest := InterleavedIsARun(v, c, frames[1..], others[1..], t, careful);
      GoesConcat(s, others[0].before, u, turn, v, careful);
      GoesConcat(s, others[0].before + turn, v, rest, t, careful);
      steps := others[0].before + turn + rest;
    }
  }

  /** So an acknowledged event stays acknowledged while routers receive side by side, if pruning is careful. */
  lemma {:induction false} ReceivingKeepsAcknowledged(start: State, steps: seq<Step>, s: State, c: nat, frames: seq<Frame>,
      others: seq<Others>, t: State, k: Key, g: nat)
    requires Init(start) && CarefulRun(start, steps, s) && c in s.connections && s.connections[c].unadvanced.None?
    requires Interleaved(s, c, frames, others, t, true)
    ensures k in t.settled ==> !Claimable'(t, k)
    ensures t.sent[(k, g)] <= 1
  {
    hide Inv, Interleaved, Claimable', Enabled, Apply, Careful, CarefulRun, Settled;
    InitInv(start);
    CarefulRunKeeps(start, steps, s);
    var more := InterleavedIsARun(s, c, frames, others, t, true);
    CarefulRunKeeps(s, more, t);
    SettledStays(t, k, g);
  }

  // ---- delivering among other processes ----

  /**
   A delivery is a run of the system: `BeginDelivery` claims row `k`, the others act in any way while the platform
   is asked, and `EndDelivery` writes the answer. The sequence number of the claimed record is still the row's.
  */
  lemma DeliveryIsARun(s: State, k: Key, owner: string, leaseSeconds: Time, between: seq<Step>, u: State, outcome: Outcome, careful: bool)
    requires Inv(s) && RowEnabled(s, k, Claim(owner, leaseSeconds))
    requires Goes(ApplyRow(s, k, Claim(owner, leaseSeconds)), between, u, careful) && (owner, k) in u.inflight
    ensures var claim, finish := Claim(owner, leaseSeconds), Finish(owner, outcome);
            && Goes(s, [OnRow(k, claim)] + between + [OnRow(k, finish)], ApplyRow(u, k, finish), careful)
            && ApplyRow(u, k, finish).db == OutcomeDb(u.db, k, owner, ClaimDb(s.db, k, owner, leaseSeconds, s.now).rows[k].seqNo, outcome, u.now)
            && (outcome.Delivered? && OwnedBy(u.db.rows, k, owner) ==> k in ApplyRow(u, k, finish).settled)
  {
    var claim, finish := OnRow(k, Claim(owner, leaseSeconds)), OnRow(k, Finish(owner, outcome));
    var s1 := ApplyRow(s, k, claim.action);
    RowStepEnabled(s, k, claim.action);
    RowStepEnabled(u, k, finish.action);
    GoesOne(s, claim, careful);
    GoesOne(u, finish, careful);
    InvStep(s, claim);
    GoesConcat(s, [claim], s1, between, u, careful);
    GoesConcat(s, [claim] + between, u, [finish], ApplyRow(u, k, finish.action), careful);
    SameNumber(s, k, claim.action, between, u);
    hide Inv, Goes, Enabled, Apply;
  }

  lemma RowStepEnabled(s: State, k: Key, action: Action)
    requires RowEnabled(s, k, action)
    ensures Enabled(s, OnRow(k, action)) && Apply(s, OnRow(k, action)) == ApplyRow(s, k, action)
  {
  }

  /** A row that is there again, or still, has the number of its event. */
  lemma SameNumber(s: State, k: Key, action: Action, steps: seq<Step>, t: State)
    requires Inv(s) && RowEnabled(s, k, action) && action.Claim? && Run(ApplyRow(s, k, action), steps, t)
    ensures k in s.db.rows && (k in t.db.rows ==> t.db.rows[k].seqNo == RowDb(s, k, action).rows[k].seqNo)
  {
    RowStepEnabled(s, k, action);
    InvStep(s, OnRow(k, action));
    RunKeepsInv(ApplyRow(s, k, action), steps, t);
    LogStays(ApplyRow(s, k, action), steps, t, k);
    assert RowOk(s.log, k, s.db.rows[k]);
    assert k in t.db.rows ==> RowOk(t.log, k, t.db.rows[k]);
  }

  lemma {:induction false} LogStays(s: State, steps: seq<Step>, t: State, k: Key)
    requires Inv(s) && Run(s, steps, t) && k in s.log
    ensures k in t.log && t.log[k] == s.log[k]
    decreases |steps|
  {
    if steps != [] {
      InvLog(s);
      InvStep(s, steps[0]);
      AloneStep(s, steps[0], k);
      hide Inv, Enabled, Apply;
      LogStays(Apply(s, steps[0]), steps[1..], t, k);
    }
  }

  /** After the answer `Sent` was written under ownership the row is never due again without a forced replay. */
  lemma SentIsNeverDueAgain(start: State, steps: seq<Step>, u: State, k: Key, owner: string, later: seq<Step>, t: State)
    requires Init(start) && CarefulRun(start, steps, u) && RowEnabled(u, k, Finish(owner, Delivered)) && OwnedBy(u.db.rows, k, owner)
    requires Goes(ApplyRow(u, k, Finish(owner, Delivered)), later, t, true) && OnRow(k, ForceReplay) !in later
    ensures k !in Due(t.db.rows, t.now)
  {
    var finish := OnRow(k, Finish(owner, Delivered));
    InitInv(start);
    CarefulRunKeeps(start, steps, u);
    RowStepEnabled(u, k, finish.action);
    SettledUntilReplay(ApplyRow(u, k, finish.action), later, t, k);
    CarefulStep(u, finish, later, t);
    hide Inv, Enabled, Apply, Settled, Goes;
    CarefulRunKeeps(u, [finish] + later, t);
    SettledStays(t, k, 0);
  }

  lemma CarefulStep(s: State, step: Step, later: seq<Step>, t: State)
    requires Enabled(s, step) && Careful(s, step) && CarefulRun(Apply(s, step), later, t)
    ensures CarefulRun(s, [step] + later, t)
  {
    hide Enabled, Apply, Careful;
    assert ([step] + later)[1..] == later;
  }

  /** One frame on its own, as `Handle` says. */
  lemma {:induction false} FrameIsSteps(s: State, c: nat, frames: seq<Frame>) returns (steps: seq<Step>, t: State)
    requires Inv(s) && c in s.connections && s.connections[c].unadvanced.None?
    requires frames != [] && Served(s.log, s.head, s.connections[c], frames)
    requires Handle(s.db, frames[0]).Some?
    ensures Run(s, steps, t) && Inv(t) && Some(t.db) == Handle(s.db, frames[0])
    ensures t.log == s.log && t.head == s.head && c in t.connections && t.connections[c] == Moved(s.connections[c], frames[0])
  {
    hide Inv, StoreDb, AdvanceReceivedDb, Offers;
    t := s.(db := Handle(s.db, frames[0]).value, connections := s.connections[c := Moved(s.connections[c], frames[0])]);
    match frames[0] {
      case Durable(event, delivery, persists) =>
        var stored := if event.owned then StoreDb(s.db, event, delivery).value else s.db;
        var u := s.(db := stored, connections := s.connections[c := Moved(s.connections[c], frames[0]).(unadvanced := Some(event.seqNo))]);
        assert Writes(s, c, event, delivery, persists, u) && OthersGo(u, c, [], u, false);
      case _ =>
    }
    hide Handle, Moved, Writes;
    steps := TurnIsSteps(s, c, frames[0], [], t, false);
  }

  /**
   Whatever the router consumes from a stream the server keeps its promises on is a run of the system,
   taken by its own connection and ending in the store the router leaves behind.
  */
  lemma {:induction false} ConsumptionIsARun(s: State, c: nat, frames: seq<Frame>) returns (steps: seq<Step>, t: State)
    requires Inv(s) && c in s.connections && s.connections[c].unadvanced.None?
    requires Served(s.log, s.head, s.connections[c], frames)
    ensures Run(s, steps, t) && t.db == Folded(s.db, frames)
    decreases frames
  {
    hide Inv, Handle, Enabled, Apply, Offers;
    if frames == [] || Handle(s.db, frames[0]).None? {
      steps, t := [], s;
    } else {
      var first, u := FrameIsSteps(s, c, frames);
      var rest;
      rest, t := ConsumptionIsARun(u, c, frames[1..]);
      RunConcat(s, first, u, rest, t);
      steps := first + rest;
    }
  }

  /** What `Enqueue` promises, in terms of storing and offering. */
  lemma EnqueueStores(before: Db, event: Event, delivery: map<string, string>, rows: map<Key, Row>, result: Enqueued, now: Time)
    requires Indexed(before.rows)
    requires forall k | FoundAt(before.rows, event, k) ::
               && rows == before.rows[k := before.rows[k].(delivery := Merge(before.rows[k].delivery, delivery))]
               && result == if before.rows[k].status == Status.Sent then AlreadySent else Stored(k, rows[k])
    requires (forall k :: !FoundAt(before.rows, event, k)) ==>
               if KeyOf(event) in before.rows then result == IntegrityError && rows == before.rows
               else rows == before.rows[KeyOf(event) := NewRow(event, delivery)] && result == Stored(KeyOf(event), rows[KeyOf(event)])
    ensures StoreDb(before, event, delivery) == if result == IntegrityError then None else Some(before.(rows := rows))
    ensures result == IntegrityError ==> rows == before.rows
    ensures Keeping(before.rows, rows)
    ensures result != IntegrityError ==>
              Offer(rows, StoredAt(before.rows, event), now) == if result.Stored? && result.row.nextRetry <= now then [result.key] else []
    ensures result != IntegrityError ==>
              OffersStored(rows, event, if result.Stored? && result.row.nextRetry <= now then Some(result.key) else None, now)
  {
    hide Indexed, Merge;
    if k :| FoundAt(before.rows, event, k) {
      KnownOnce(before.rows, event, k);
    }
  }

  /** The event has a row, which is offered exactly if it is not sent yet and due. */
  ghost predicate OffersStored(rows: map<Key, Row>, event: Event, record: Option<Key>, now: Time) {
    exists k ::
      && k in rows && (k == KeyOf(event) || SameSeq(rows[k], event.recordType, event.seqNo))
      && record == if rows[k].status != Status.Sent && rows[k].nextRetry <= now then Some(k) else None
  }

  /** No row goes, and none changes its status. */
  predicate Keeping(before: map<Key, Row>, after: map<Key, Row>) {
    forall k | k in before :: k in after && after[k].status == before[k].status
  }

  lemma KnownOnce(rows: map<Key, Row>, event: Event, k: Key)
    requires Indexed(rows) && FoundAt(rows, event, k)
    ensures KnownAs(rows, event) == Some(k) && k in rows
  {
    FoundOnce(rows, event, k);
  }

  /** How the platform answered one attempt. */
  datatype Answer = Sent | Deferred(retryAfter: Time) | Permanent(error: string) | Retryable(error: string) | Cancelled

  /**
   What is left of the claimed row `was` after an answer: nothing but these columns changes. `record` is the
   row as it was claimed, and a retry waits at least the minimal delay.
  */
  predicate Written(answer: Answer, was: Row, record: Row, row: Row, now: Time) {
    && row.owner == "" && row.leaseUntil == 0.0
    && was.(status := row.status, owner := "", leaseUntil := 0.0, attempt := row.attempt, lastError := row.lastError,
            nextRetry := row.nextRetry, sentAt := row.sentAt) == row
    && match answer
       case Sent => row.status == Status.Sent && row.sentAt == now && row.attempt == was.attempt && row.nextRetry == 0.0
       case Deferred(retryAfter) =>
         && row.status == Pending && row.attempt == was.attempt && row.lastError == "deferred:quiet" && row.sentAt == was.sentAt
         && now + 0.05 <= row.nextRetry && now + retryAfter <= row.nextRetry && (retryAfter >= 0.05 ==> row.nextRetry == now + retryAfter)
       case Permanent(error) =>
         && row.status == DeadLetter && row.attempt == record.attempt + 1 && row.lastError == error && row.sentAt == was.sentAt
         && row.nextRetry == 0.0
       case Retryable(error) =>
         && row.status == Pending && row.attempt == record.attempt + 1 && row.lastError == error && row.sentAt == was.sentAt
         && now + 0.05 <= row.nextRetry
       case Cancelled =>
         && row.status == Pending && row.attempt == was.attempt && row.lastError == was.lastError
         && row.nextRetry == was.nextRetry && row.sentAt == was.sentAt
  }

  class EventRouter {
    const store: OutboundStore
    const owner: string
    const leaseSeconds: Time
    const retryInitial: Time
    const retryMax: Time
    const pruneInterval: Time
    const sentTtl: Time
    const sentMaxRows: int
    var afterSeq: int
    var inflight: set<Key>
    var lastPrune: Time

    constructor (store: OutboundStore, owner: string, leaseSeconds: Time, retryInitial: Time, retryMax: Time,
                 pruneInterval: Time, sentTtl: Time, sentMaxRows: int, afterSeq: int)
      requires store.Valid() && owner != ""
      ensures Valid() && this.store == store && inflight == {}
    {
      this.store, this.owner, this.leaseSeconds := store, owner, leaseSeconds;
      this.retryInitial, this.retryMax := retryInitial, retryMax;
      this.pruneInterval, this.sentTtl, this.sentMaxRows := pruneInterval, sentTtl, sentMaxRows;
      this.afterSeq, this.inflight, this.lastPrune := afterSeq, {}, 0.0;
    }

    ghost predicate Valid()
      reads this, store
    {
      store.Valid() && owner != ""
    }

    /** What an answer does to the row, as one of the outcomes of DeliverySystem. */
    function OutcomeOf(answer: Answer, rows: map<Key, Row>, k: Key, record: Row, now: Time): Outcome {
      match answer
      case Sent => Outcome.Delivered
      case Deferred(retryAfter) =>
        Retry(if k in rows then rows[k].attempt else 0, DEFERRED_QUIET, now + MaxTime(0.05, retryAfter))
      case Permanent(error) => Dead(record.attempt + 1, error)
      case Retryable(error) =>
        var initial := MaxTime(0.05, retryInitial);
        Retry(record.attempt + 1, error, now + Backoff(record.attempt + 1, initial, MaxTime(initial, retryMax)))
      case Cancelled => Released
    }

    /** What becomes of the row, of the others and of the processed cursor. */
    lemma OutcomeIsWritten(db: Db, k: Key, record: Row, answer: Answer, now: Time)
      ensures var after := OutcomeDb(db, k, owner, record.seqNo, OutcomeOf(answer, db.rows, k, record, now), now);
              if OwnedBy(db.rows, k, owner) then
                && after.rows.Keys == db.rows.Keys && (forall l | l in db.rows && l != k :: after.rows[l] == db.rows[l])
                && Written(answer, db.rows[k], record, after.rows[k], now)
                && after.processed == (if answer.Sent? && record.seqNo > 0 && record.seqNo > db.processed then record.seqNo else db.processed)
              else after == db
    {
      hide Doubled;
    }

    /** `_maybe_prune_outbound_sent`. */
    method MaybePrune(force: bool, now: Time) returns (removed: set<Key>)
      requires Valid()
      modifies store`rows, this`lastPrune
      ensures Valid() && removed <= Prunable(old(store.Snapshot())) && store.rows == old(store.rows) - removed
      ensures !force && (now < old(lastPrune) + 1.0 || now < old(lastPrune) + pruneInterval) ==> removed == {} && lastPrune == old(lastPrune)
      ensures force || (now >= old(lastPrune) + 1.0 && now >= old(lastPrune) + pruneInterval) ==>
                && lastPrune == now
                && (forall k | k in Prunable(old(store.Snapshot())) && 0.0 < old(store.rows)[k].sentAt <= now && old(store.rows)[k].sentAt <= now - sentTtl :: k in removed)
                && (sentMaxRows > 0 ==> |SentRows(store.rows)| <= sentMaxRows || Prunable(store.Snapshot()) == {})
    {
      hide Indexed, Leased;
      removed := {};
      if !force && now - lastPrune < MaxTime(1.0, pruneInterval) {
        return;
      }
      var expired, excess := store.PruneSent(MaxTime(0.0, sentTtl), MaxInt(0, sentMaxRows), now);
      removed := expired + excess;
      lastPrune := now;
    }

    /** The first half of `_deliver_outbound_record`: one row is never taken twice by this process. */
    method BeginDelivery(k: Key, now: Time) returns (claimed: Option<Row>)
      requires Valid()
      modifies store`rows, this`inflight
      ensures Valid()
      ensures store.Snapshot() == if k in old(inflight) then old(store.Snapshot())
                                  else ClaimDb(old(store.Snapshot()), k, owner, leaseSeconds, now)
      ensures claimed == if k !in old(inflight) && k in Due(old(store.rows), now) then Some(store.rows[k]) else None
      ensures inflight == if claimed.Some? then old(inflight) + {k} else old(inflight)
      ensures claimed.Some? ==> OwnedBy(store.rows, k, owner)
    {
      hide Indexed, Leased;
      if k in inflight {
        return None;
      }
      var result := store.Claim(k, owner, leaseSeconds, now);
      match result
      case NotClaimed => claimed := None;
      case Claimed(row) =>
        inflight := inflight + {k};
        claimed := Some(row);
    }

    /** The second half: the answer is written only if the claim is still ours, and the row leaves `inflight` anyway. */
    method EndDelivery(k: Key, record: Row, answer: Answer, now: Time) returns (removed: set<Key>)
      requires Valid()
      modifies store`rows, store`processed, this`inflight, this`lastPrune
      ensures Valid() && inflight == old(inflight) - {k}
      ensures var after := OutcomeDb(old(store.Snapshot()), k, owner, record.seqNo,
                                     OutcomeOf(answer, old(store.rows), k, record, now), now);
              store.Snapshot() == after.(rows := after.rows - removed) && removed <= Prunable(after)
      ensures !OwnedBy(old(store.rows), k, owner) ==> removed == {} && store.Snapshot() == old(store.Snapshot())
      ensures OwnedBy(old(store.rows), k, owner) ==>
                && (k in store.rows || (answer.Sent? && k in removed))
                && (k in store.rows ==> Written(answer, old(store.rows)[k], record, store.rows[k], now))
      ensures forall l | l in old(store.rows) && l != k :: l in store.rows.Keys + removed && (l in store.rows ==> store.rows[l] == old(store.rows)[l])
      ensures OwnedBy(old(store.rows), k, owner) && answer.Sent? && record.seqNo > old(store.processed) && record.seqNo > 0 ==>
                store.processed == record.seqNo
      ensures !answer.Sent? || record.seqNo <= old(store.processed) ==> store.processed == old(store.processed) && (answer.Sent? || removed == {})
    {
      ghost var before := store.Snapshot();
      OutcomeIsWritten(before, k, record, answer, now);
      hide Indexed, Leased, OutcomeDb, OutcomeOf, Written, Prunable;
      removed := {};
      inflight := inflight - {k};
      var kept := WriteAnswer(k, record, answer, now);
      NoneRemoved(store.Snapshot());
      if answer.Sent? && kept {
        removed := MaybePrune(false, now);
      }
    }

    /** The one transaction that an answer causes. */
    method WriteAnswer(k: Key, record: Row, answer: Answer, now: Time) returns (kept: bool)
      requires Valid()
      modifies store`rows, store`processed
      ensures Valid() && (kept <==> OwnedBy(old(store.rows), k, owner))
      ensures store.Snapshot() == OutcomeDb(old(store.Snapshot()), k, owner, record.seqNo,
                                            OutcomeOf(answer, old(store.rows), k, record, now), now)
    {
      hide Indexed, Leased, Backoff, Prunable;
      var result;
      match answer {
        case Sent =>
          result := store.Acknowledge(k, record.seqNo, owner, now);
        case Deferred(retryAfter) =>
          result := store.Defer(k, owner, retryAfter, now);
        case Permanent(error) =>
          result := store.MarkDeadLetter(k, record.attempt, error, owner);
        case Retryable(error) =>
          var initial := MaxTime(0.05, retryInitial);
          var failed, _ := store.MarkFailed(k, record.attempt, error, owner, initial, MaxTime(initial, retryMax), now);
          result := failed;
        case Cancelled =>
          result := store.ReleaseClaim(k, owner);
      }
      return result.Kept?;
    }

    /** `_receive` of a reply: durable first; a record is returned only if it may be delivered right away. */
    method Receive(event: Event, delivery: map<string, string>, persists: bool, now: Time)
      returns (accepted: bool, record: Option<Key>)
      requires Valid()
      modifies store`rows
      ensures Valid()
      ensures accepted <==> !event.owned || (persists && StoreDb(old(store.Snapshot()), event, delivery).Some?)
      ensures Some(store.Snapshot()) ==
              if event.owned && accepted then StoreDb(old(store.Snapshot()), event, delivery) else Some(old(store.Snapshot()))
      ensures Keeping(old(store.rows), store.rows)
      ensures (match record case Some(k) => [k] case None => [])
              == if event.owned && accepted then Offer(store.rows, StoredAt(old(store.rows), event), now) else []
      ensures event.owned && accepted ==> OffersStored(store.rows, event, record, now)
      ensures !event.owned ==> record == None && store.rows == old(store.rows)
    {
      record := None;
      if !event.owned {
        return true, None;
      }
      if !persists {
        return false, None;
      }
      ghost var before := store.Snapshot();
      var result := store.Enqueue(event, delivery);
      EnqueueStores(before, event, delivery, store.rows, result, now);
      hide Indexed, Leased, Merge, FoundAt, StoreDb, StoredAt, Offer, Keeping, OffersStored;
      match result
      case IntegrityError => return false, None;
      case AlreadySent => return true, None;
      case Stored(key, row) =>
        if row.nextRetry <= now {
          record := Some(key);
        }
        return true, record;
    }

    /** One frame of the stream; `ok` is false if an event could not be made durable. */
    method HandleFrame(frame: Frame, now: Time) returns (ok: bool, offer: seq<Key>)
      requires Valid()
      modifies store`rows, store`received, this`afterSeq
      ensures Valid() && (ok <==> Handle(old(store.Snapshot()), frame).Some?)
      ensures store.Snapshot() == match Handle(old(store.Snapshot()), frame) case Some(next) => next case None => old(store.Snapshot())
      ensures offer == if ok then OfferOf(old(store.Snapshot()), store.Snapshot(), frame, now) else []
      ensures afterSeq == if ok then Highest(old(afterSeq), [frame]) else old(afterSeq)
      ensures ok ==> afterSeq == match frame
                                 case CheckpointFrame(seqNo) => MaxInt(old(afterSeq), seqNo)
                                 case Transient(seqNo) => MaxInt(old(afterSeq), seqNo)
                                 case Durable(event, _, _) => MaxInt(old(afterSeq), event.seqNo)
                                 case _ => old(afterSeq)
      ensures if ok && frame.Durable? && frame.event.owned
              then OffersStored(store.rows, frame.event, if offer == [] then None else Some(offer[0]), now) && |offer| <= 1
              else offer == []
    {
      hide Indexed, Leased, StoreDb, StoredAt, Merge;
      ok, offer := true, [];
      assert [frame][..0] == [];
      match frame {
        case Ping =>
        case ReplayGap =>
        case CheckpointFrame(seqNo) =>
          store.AdvanceReceivedSeq(seqNo);
          afterSeq := MaxInt(afterSeq, seqNo);
        case Transient(seqNo) =>
          afterSeq := MaxInt(afterSeq, seqNo);
        case Durable(event, delivery, persists) =>
          var accepted, record := Receive(event, delivery, persists, now);
          if !accepted {
            return false, [];
          }
          store.AdvanceReceivedSeq(event.seqNo);
          offer := match record case Some(k) => [k] case None => [];
          afterSeq := MaxInt(afterSeq, event.seqNo);
      }
    }

    /**
     `_run_ws`: frames are handled in order until one event cannot be made durable; the connection is then
     given up before anything behind that event moves the cursor.
    */
    method RunWs(frames: seq<Frame>, now: Time) returns (handled: nat, offered: seq<Key>)
      requires Valid()
      modifies store`rows, store`received, this`afterSeq
      ensures Valid() && store.Snapshot() == Folded(old(store.Snapshot()), frames)
      ensures handled == Consumed(old(store.Snapshot()), frames)
      ensures offered == Offered(old(store.Snapshot()), frames, now)
      ensures afterSeq == Highest(old(afterSeq), frames[..handled])
    {
      hide Indexed, Leased, Handle, OfferOf, ValidDb;
      handled, offered := 0, [];
      while handled < |frames|
        invariant handled <= |frames| && Valid()
        invariant Folded(store.Snapshot(), frames[handled..]) == Folded(old(store.Snapshot()), frames)
        invariant handled + Consumed(store.Snapshot(), frames[handled..]) == Consumed(old(store.Snapshot()), frames)
        invariant offered + Offered(store.Snapshot(), frames[handled..], now) == Offered(old(store.Snapshot()), frames, now)
        invariant afterSeq == Highest(old(afterSeq), frames[..handled])
      {
        assert frames[handled..][1..] == frames[handled + 1..] && frames[..handled + 1][..handled] == frames[..handled];
        HighestStep(afterSeq, frames[handled]);
        var ok, offer := HandleFrame(frames[handled], now);
        if !ok {
          return;
        }
        offered := offered + offer;
        handled := handled + 1;
      }
    }
  }

  lemma HighestStep(after: int, frame: Frame)
    ensures Highest(after, [frame]) == match FrameSeq(frame) case None => after case Some(q) => MaxInt(after, q)
  {
    assert [frame][..0] == [];
  }

}
