/**
 The durable outbox (clonoth_sdk/outbound_store.py): rows with delivery leases, the receive cursor and
 the tombstones of sent rows. Every method is one SQL transaction. The functions on `Db` say what each
 transaction does; DeliverySystem.dfy builds runs of many processes out of them.
*/
module Outbox {
  import opened Common

  type Time = real

  datatype Event = Event(recordType: string, eventId: string, seqNo: int, owned: bool)

  datatype Identity = ById(id: string) | BySeq(seqNo: int)
  datatype Key = Key(recordType: string, identity: Identity)

  datatype Status = Pending | Delivering | DeadLetter | Sent

  datatype Row = Row(
    recordType: string, eventId: string, seqNo: int, attempt: nat, lastError: string, nextRetry: Time,
    delivery: map<string, string>, status: Status, owner: string, leaseUntil: Time, generation: nat, sentAt: Time)

  datatype Db = Db(rows: map<Key, Row>, processed: int, received: Option<int>)

  const DEFERRED_QUIET := "deferred:quiet"
  const CONVERSATION_KEY := "conversation_key"

  function MaxInt(a: int, b: int): int { if a < b then b else a }
  function MinInt(a: int, b: int): int { if a < b then a else b }
  function MaxTime(a: Time, b: Time): Time { if a < b then b else a }
  function MinTime(a: Time, b: Time): Time { if a < b then a else b }

  /** `stable_key`: the identity is the event id if there is one, else the sequence number. */
  function StableKey(recordType: string, eventId: string, seqNo: int): Key {
    Key(recordType, if eventId != "" then ById(eventId) else BySeq(seqNo))
  }

  function KeyOf(event: Event): Key {
    StableKey(event.recordType, event.eventId, event.seqNo)
  }

  /** The key is the stable key of its row, and the unique index on (record_type, seqNo) holds. */
  ghost predicate Indexed(rows: map<Key, Row>) {
    && (forall k | k in rows :: k == StableKey(rows[k].recordType, rows[k].eventId, rows[k].seqNo))
    && (forall k, l | k in rows && l in rows && rows[k].recordType == rows[l].recordType && rows[k].seqNo == rows[l].seqNo && rows[k].seqNo > 0 :: k == l)
  }

  /** A row is being delivered exactly when somebody owns it. */
  ghost predicate Leased(rows: map<Key, Row>) {
    forall k | k in rows :: rows[k].status == Delivering <==> rows[k].owner != ""
  }

  ghost predicate ValidDb(db: Db) {
    Indexed(db.rows) && Leased(db.rows)
  }

  // ---- what each transaction does ----

  predicate SameSeq(row: Row, recordType: string, seqNo: int) {
    seqNo > 0 && row.recordType == recordType && row.seqNo == seqNo
  }

  /** `_find`: by event id first, then by sequence number. */
  ghost predicate FoundAt(rows: map<Key, Row>, event: Event, k: Key) {
    && k in rows
    && if event.eventId != "" && KeyOf(event) in rows then k == KeyOf(event)
       else SameSeq(rows[k], event.recordType, event.seqNo)
  }

  function NewRow(event: Event, delivery: map<string, string>): Row {
    Row(event.recordType, event.eventId, event.seqNo, 0, "", 0.0, delivery, Pending, "", 0.0, 0, 0.0)
  }

  predicate Claimable(row: Row, now: Time) {
    (row.status == Pending && row.nextRetry <= now) || (row.status == Delivering && row.leaseUntil <= now)
  }

  predicate OwnedBy(rows: map<Key, Row>, k: Key, owner: string) {
    k in rows && rows[k].status == Delivering && rows[k].owner == owner
  }

  function Lease(now: Time, leaseSeconds: Time): Time {
    now + MaxTime(1.0, leaseSeconds)
  }

  function ClaimDb(db: Db, k: Key, owner: string, leaseSeconds: Time, now: Time): Db {
    if k in db.rows && Claimable(db.rows[k], now)
    then db.(rows := db.rows[k := db.rows[k].(status := Delivering, owner := owner, leaseUntil := Lease(now, leaseSeconds))])
    else db
  }

  function HeartbeatDb(db: Db, k: Key, owner: string, leaseSeconds: Time, now: Time): Db {
    if OwnedBy(db.rows, k, owner) then db.(rows := db.rows[k := db.rows[k].(leaseUntil := Lease(now, leaseSeconds))]) else db
  }

  function ReleaseDb(db: Db, k: Key, owner: string): Db {
    if OwnedBy(db.rows, k, owner) then db.(rows := db.rows[k := db.rows[k].(status := Pending, owner := "", leaseUntil := 0.0)]) else db
  }

  /** The sent row and the processed cursor are committed together. */
  function AcknowledgeDb(db: Db, k: Key, owner: string, seqNo: int, now: Time): Db {
    if OwnedBy(db.rows, k, owner)
    then db.(rows := db.rows[k := db.rows[k].(status := Sent, owner := "", leaseUntil := 0.0, nextRetry := 0.0, sentAt := now)],
             processed := if seqNo > 0 then MaxInt(db.processed, seqNo) else db.processed)
    else db
  }

  /** `defer` and `mark_failed`: back to pending with a later retry. */
  function RetryDb(db: Db, k: Key, owner: string, attempt: nat, lastError: string, nextRetry: Time): Db {
    if OwnedBy(db.rows, k, owner)
    then db.(rows := db.rows[k := db.rows[k].(status := Pending, owner := "", leaseUntil := 0.0, attempt := attempt,
                                              lastError := lastError, nextRetry := nextRetry)])
    else db
  }

  function DeadLetterDb(db: Db, k: Key, owner: string, attempt: nat, lastError: string): Db {
    if OwnedBy(db.rows, k, owner)
    then db.(rows := db.rows[k := db.rows[k].(status := DeadLetter, owner := "", leaseUntil := 0.0, attempt := attempt,
                                              lastError := lastError, nextRetry := 0.0)])
    else db
  }

  /** An active delivery cannot be replayed by force. */
  predicate Replayable(rows: map<Key, Row>, k: Key, now: Time) {
    k in rows && !(rows[k].status == Delivering && rows[k].leaseUntil > now)
  }

  function ForceReplayDb(db: Db, k: Key, now: Time): Db {
    if Replayable(db.rows, k, now)
    then db.(rows := db.rows[k := db.rows[k].(status := Pending, owner := "", leaseUntil := 0.0, nextRetry := 0.0, lastError := "",
                                              generation := db.rows[k].generation + 1)])
    else db
  }

  function AdvanceReceivedDb(db: Db, seqNo: int): Db {
    db.(received := Some(match db.received case None => MaxInt(0, seqNo) case Some(r) => MaxInt(r, MaxInt(0, seqNo))))
  }

  function ReceivedSeq(db: Db): int {
    match db.received case None => 0 case Some(r) => r
  }

  /** The highest sequence number whose tombstone may go. */
  function PruneCursor(db: Db): int {
    MinInt(db.processed, ReceivedSeq(db))
  }

  function Prunable(db: Db): (keys: set<Key>)
    ensures keys <= db.rows.Keys
  {
    set k | k in db.rows && db.rows[k].status == Sent && db.rows[k].seqNo <= PruneCursor(db)
  }

  function SentRows(rows: map<Key, Row>): set<Key> {
    set k | k in rows && rows[k].status == Sent
  }

  predicate Older(a: Row, b: Row) {
    a.sentAt < b.sentAt || (a.sentAt == b.sentAt && a.seqNo <= b.seqNo)
  }

  /** How a delivery attempt ends. */
  datatype Outcome = Delivered | Retry(attempt: nat, lastError: string, nextRetry: Time) | Dead(attempts: nat, error: string) | Released

  function OutcomeDb(db: Db, k: Key, owner: string, seqNo: int, outcome: Outcome, now: Time): Db {
    match outcome
    case Delivered => AcknowledgeDb(db, k, owner, seqNo, now)
    case Retry(attempt, lastError, nextRetry) => RetryDb(db, k, owner, attempt, lastError, nextRetry)
    case Dead(attempts, error) => DeadLetterDb(db, k, owner, attempts, error)
    case Released => ReleaseDb(db, k, owner)
  }

  /** `resume_deferred` brings the deferred rows of a conversation forward. */
  predicate Resumes(row: Row, conversation: string) {
    && row.status == Pending && row.lastError == DEFERRED_QUIET
    && CONVERSATION_KEY in row.delivery && row.delivery[CONVERSATION_KEY] == conversation
  }

  function Doubled(x: Time, times: nat): (r: Time)
    ensures x >= 0.0 ==> r >= x
  {
    if times == 0 then x else 2.0 * Doubled(x, times - 1)
  }

  /** Exponential backoff, capped by `maxDelay` and at thirty doublings. */
  function Backoff(attempt: nat, initialDelay: Time, maxDelay: Time): Time
    requires attempt > 0
  {
    MaxTime(0.05, MinTime(maxDelay, Doubled(initialDelay, if attempt - 1 < 30 then attempt - 1 else 30)))
  }

  /** Delays start at the initial one and double until they reach the greatest or have doubled thirty times. */
  lemma BackoffDoubles(attempt: nat, initialDelay: Time, maxDelay: Time)
    requires 0 < attempt && 0.05 <= initialDelay <= maxDelay
    ensures Backoff(1, initialDelay, maxDelay) == initialDelay
    ensures var delay := Backoff(attempt, initialDelay, maxDelay);
            Backoff(attempt + 1, initialDelay, maxDelay) == if attempt <= 30 && 2.0 * delay < maxDelay then 2.0 * delay
                                                            else if attempt <= 30 then maxDelay else delay
  {
  }

  /** `due`: the rows a scanner offers for delivery. */
  function Due(rows: map<Key, Row>, now: Time): set<Key> {
    set k | k in rows && Claimable(rows[k], now)
  }

  /** A row the scanner offers can be claimed at once, which takes it out of everybody's sight until the lease ends. */
  lemma ClaimHidesFromScanners(db: Db, k: Key, owner: string, leaseSeconds: Time, now: Time, later: Time)
    requires now <= later < Lease(now, leaseSeconds)
    ensures k in Due(db.rows, now) ==>
              var claimed := ClaimDb(db, k, owner, leaseSeconds, now);
              OwnedBy(claimed.rows, k, owner) && Due(claimed.rows, later) == Due(db.rows, later) - {k}
    ensures k !in Due(db.rows, now) ==> ClaimDb(db, k, owner, leaseSeconds, now) == db
  {
  }

  lemma FoundOnce(rows: map<Key, Row>, event: Event, k: Key)
    ensures Indexed(rows) && FoundAt(rows, event, k) ==> forall l | FoundAt(rows, event, l) :: l == k
  {
  }

  lemma InsertKeepsIndex(rows: map<Key, Row>, event: Event, delivery: map<string, string>)
    requires ValidDb(Db(rows, 0, None)) && KeyOf(event) !in rows && forall k :: !FoundAt(rows, event, k)
    ensures ValidDb(Db(rows[KeyOf(event) := NewRow(event, delivery)], 0, None))
  {
    forall k | k in rows ensures !SameSeq(rows[k], event.recordType, event.seqNo) {
      assert !FoundAt(rows, event, k);
    }
  }

  /** Identity and status survive a change of the other columns; fewer rows are still well indexed. */
  lemma UpdateKeepsIndex(rows: map<Key, Row>, k: Key, row: Row)
    requires ValidDb(Db(rows, 0, None)) && k in rows
    requires row.recordType == rows[k].recordType && row.eventId == rows[k].eventId && row.seqNo == rows[k].seqNo
    requires row.status == Delivering <==> row.owner != ""
    ensures ValidDb(Db(rows[k := row], 0, None))
  {
  }

  predicate SameIdentity(a: Row, b: Row) {
    a.recordType == b.recordType && a.eventId == b.eventId && a.seqNo == b.seqNo && a.status == b.status && a.owner == b.owner
  }

  lemma SameIdentitiesKeepValid(rows: map<Key, Row>, next: map<Key, Row>)
    requires Indexed(rows) && Leased(rows) && next.Keys == rows.Keys && forall k | k in rows :: SameIdentity(rows[k], next[k])
    ensures Indexed(next) && Leased(next)
  {
    assert forall k | k in next :: SameIdentity(rows[k], next[k]);
  }

  lemma KnownRow(rows: map<Key, Row>, k: Key)
    ensures Leased(rows) && k in rows ==> (rows[k].status == Delivering <==> rows[k].owner != "")
  {
  }

  lemma RemoveKeepsValid(db: Db, removed: set<Key>)
    ensures ValidDb(db) ==> ValidDb(db.(rows := db.rows - removed))
  {
  }

  lemma RemoveKeepsIndex(rows: map<Key, Row>, removed: set<Key>)
    ensures ValidDb(Db(rows, 0, None)) ==> ValidDb(Db(rows - removed, 0, None))
  {
  }

  /** `removed` are prunable rows, each of them at least as old as every prunable row that stays. */
  ghost predicate OldestRemoved(db: Db, removed: set<Key>) {
    && removed <= Prunable(db)
    && Prunable(db.(rows := db.rows - removed)) == Prunable(db) - removed
    && forall k, l | k in removed && l in Prunable(db) - removed :: Older(db.rows[k], db.rows[l])
  }

  /** Removed are sent rows at or below both cursors, none of them younger than such a row that stays. */
  lemma OldestArePrunable(db: Db, removed: set<Key>)
    ensures OldestRemoved(db, removed) ==>
              forall k | k in removed :: k in db.rows && db.rows[k].status == Sent && db.rows[k].seqNo <= db.processed && db.rows[k].seqNo <= ReceivedSeq(db)
    ensures OldestRemoved(db, removed) ==> forall k, l | k in removed && k in db.rows && l in db.rows && l !in removed
                && db.rows[l].status == Sent && db.rows[l].seqNo <= db.processed && db.rows[l].seqNo <= ReceivedSeq(db) ::
              db.rows[k].sentAt < db.rows[l].sentAt || (db.rows[k].sentAt == db.rows[l].sentAt && db.rows[k].seqNo <= db.rows[l].seqNo)
  {
  }

  lemma NoneRemoved(db: Db)
    ensures OldestRemoved(db, {}) && db.rows - {} == db.rows
  {
    assert db.(rows := db.rows - {}) == db;
  }

  lemma RemoveOldest(db: Db, removed: set<Key>, oldest: Key)
    requires OldestRemoved(db, removed)
    requires var now := db.(rows := db.rows - removed);
             oldest in Prunable(now) && forall k | k in Prunable(now) :: Older(now.rows[oldest], now.rows[k])
    ensures OldestRemoved(db, removed + {oldest})
    ensures db.rows - removed - {oldest} == db.rows - (removed + {oldest})
    ensures |SentRows(db.rows - removed - {oldest})| == |SentRows(db.rows - removed)| - 1
  {
    assert db.rows - removed - {oldest} == db.rows - (removed + {oldest});
    assert SentRows(db.rows - removed - {oldest}) == SentRows(db.rows - removed) - {oldest};
    assert Prunable(db.(rows := db.rows - (removed + {oldest}))) == Prunable(db) - (removed + {oldest});
  }

  datatype Enqueued = Stored(key: Key, row: Row) | AlreadySent | IntegrityError
  datatype Claimed = Claimed(row: Row) | NotClaimed
  datatype Owned = Kept | OwnershipLost
  datatype Replay = Replayed(row: Row) | NotFound | Ambiguous | IdentityRequired | ActiveDelivery

  /** Without a record type either half of the identity is enough. */
  predicate Matches(row: Row, eventId: string, seqNo: int) {
    (eventId != "" && row.eventId == eventId) || (seqNo != 0 && row.seqNo == seqNo)
  }

  /** The one row a forced replay is about. */
  ghost predicate Identified(rows: map<Key, Row>, recordType: string, eventId: string, seqNo: int, k: Key) {
    if recordType != "" then FoundAt(rows, Event(recordType, eventId, seqNo, false), k)
    else k in rows && Matches(rows[k], eventId, seqNo) && forall l | l in rows && Matches(rows[l], eventId, seqNo) :: l == k
  }

  lemma IdentifiedOnce(rows: map<Key, Row>, recordType: string, eventId: string, seqNo: int, k: Key)
    requires Indexed(rows) && Identified(rows, recordType, eventId, seqNo, k)
    ensures k in rows && forall l | Identified(rows, recordType, eventId, seqNo, l) :: l == k
  {
  }

  class OutboundStore {
    var rows: map<Key, Row>
    var processed: int
    var received: Option<int>

    function Snapshot(): Db
      reads this
    {
      Db(rows, processed, received)
    }

    ghost predicate Valid()
      reads this
    {
      ValidDb(Snapshot())
    }

    constructor ()
      ensures Valid() && Snapshot() == Db(map[], 0, None)
    {
      rows, processed, received := map[], 0, None;
    }

    method AdvanceReceivedSeq(seqNo: int)
      modifies this`received
      ensures Snapshot() == AdvanceReceivedDb(old(Snapshot()), seqNo)
      ensures received.Some? && received.value >= 0 && received.value >= seqNo && (old(received).Some? ==> received.value >= old(received).value)
      ensures received == old(received) || received.value == seqNo || (received.value == 0 && seqNo <= 0)
    {
      var floor := MaxInt(0, seqNo);
      received := match received case None => Some(floor) case Some(r) => Some(MaxInt(r, floor));
    }

    method Find(event: Event) returns (found: Option<Key>)
      requires Valid()
      ensures found.Some? ==> FoundAt(rows, event, found.value)
      ensures found.None? ==> forall k :: !FoundAt(rows, event, k)
    {
      if event.eventId != "" && KeyOf(event) in rows {
        return Some(KeyOf(event));
      }
      var matches := set k | k in rows && SameSeq(rows[k], event.recordType, event.seqNo);
      if matches == {} {
        assert forall k | k in rows :: SameSeq(rows[k], event.recordType, event.seqNo) ==> k in matches;
        return None;
      }
      var k :| k in matches;
      return Some(k);
    }

    /**
     `enqueue`: a known event is never stored twice; it only contributes delivery details that were
     still missing. A sent row answers a replay with nothing to deliver.
    */
    method Enqueue(event: Event, delivery: map<string, string>) returns (result: Enqueued)
      requires Valid()
      modifies this`rows
      ensures Valid()
      ensures forall k | FoundAt(old(rows), event, k) ::
                && rows.Keys == old(rows).Keys
                && rows == old(rows)[k := old(rows)[k].(delivery := Merge(old(rows)[k].delivery, delivery))]
                && result == if old(rows)[k].status == Sent then AlreadySent else Stored(k, rows[k])
      ensures (forall k :: !FoundAt(old(rows), event, k)) ==>
                if KeyOf(event) in old(rows) then result == IntegrityError && rows == old(rows)
                else rows == old(rows)[KeyOf(event) := NewRow(event, delivery)] && result == Stored(KeyOf(event), rows[KeyOf(event)])
      ensures forall k | k in rows && k !in old(rows) ::
                && rows[k].recordType == event.recordType && rows[k].eventId == event.eventId && rows[k].seqNo == event.seqNo
                && rows[k].delivery == delivery && rows[k].status == Pending && rows[k].nextRetry == 0.0
                && rows[k].attempt == 0 && rows[k].generation == 0 && rows[k].lastError == "" && rows[k].sentAt == 0.0
    {
      hide Indexed, Leased, Merge;
      var found := Find(event);
      if found.Some? {
        var k := found.value;
        FoundOnce(rows, event, k);
        KnownRow(rows, k);
        UpdateKeepsIndex(rows, k, rows[k].(delivery := Merge(rows[k].delivery, delivery)));
        rows := rows[k := rows[k].(delivery := Merge(rows[k].delivery, delivery))];
        return if rows[k].status == Sent then AlreadySent else Stored(k, rows[k]);
      }
      if KeyOf(event) in rows {
        return IntegrityError;
      }
      InsertKeepsIndex(rows, event, delivery);
      rows := rows[KeyOf(event) := NewRow(event, delivery)];
      return Stored(KeyOf(event), rows[KeyOf(event)]);
    }

    method Claim(k: Key, owner: string, leaseSeconds: Time, now: Time) returns (result: Claimed)
      requires Valid()
      modifies this`rows
      ensures owner != "" ==> Valid()
      ensures Snapshot() == ClaimDb(old(Snapshot()), k, owner, leaseSeconds, now)
      ensures result == if k in old(rows) && Claimable(old(rows)[k], now) then Claimed(rows[k]) else NotClaimed
      ensures result.Claimed? ==>
                && k in old(rows) && old(rows)[k].(status := Delivering, owner := owner, leaseUntil := result.row.leaseUntil) == result.row
                && result.row.leaseUntil == (if leaseSeconds < 1.0 then now + 1.0 else now + leaseSeconds)
                && (if old(rows)[k].status == Pending then old(rows)[k].nextRetry <= now
                    else old(rows)[k].status == Delivering && old(rows)[k].leaseUntil <= now)
    {
      hide Indexed, Leased;
      if k !in rows || !Claimable(rows[k], now) {
        return NotClaimed;
      }
      var updated := rows[k].(status := Delivering, owner := owner, leaseUntil := now + MaxTime(1.0, leaseSeconds));
      if owner != "" {
        UpdateKeepsIndex(rows, k, updated);
      }
      rows := rows[k := updated];
      return Claimed(rows[k]);
    }

    method Heartbeat(k: Key, owner: string, leaseSeconds: Time, now: Time) returns (result: Owned)
      requires Valid()
      modifies this`rows
      ensures Valid() && Snapshot() == HeartbeatDb(old(Snapshot()), k, owner, leaseSeconds, now)
      ensures result == Kept ==>
                && k in old(rows) && old(rows)[k].owner == owner && old(rows)[k].status == Delivering
                && rows == old(rows)[k := old(rows)[k].(leaseUntil := if leaseSeconds < 1.0 then now + 1.0 else now + leaseSeconds)]
      ensures result == if OwnedBy(old(rows), k, owner) then Kept else OwnershipLost
    {
      hide Indexed, Leased;
      if !OwnedBy(rows, k, owner) {
        return OwnershipLost;
      }
      KnownRow(rows, k);
      var updated := rows[k].(leaseUntil := now + MaxTime(1.0, leaseSeconds));
      UpdateKeepsIndex(rows, k, updated);
      rows := rows[k := updated];
      return Kept;
    }

    method ReleaseClaim(k: Key, owner: string) returns (result: Owned)
      requires Valid()
      modifies this`rows
      ensures Valid() && Snapshot() == ReleaseDb(old(Snapshot()), k, owner)
      ensures result == if OwnedBy(old(rows), k, owner) then Kept else OwnershipLost
    {
      hide Indexed, Leased;
      if !OwnedBy(rows, k, owner) {
        return OwnershipLost;
      }
      var updated := rows[k].(status := Pending, owner := "", leaseUntil := 0.0);
      UpdateKeepsIndex(rows, k, updated);
      rows := rows[k := updated];
      return Kept;
    }

    method Acknowledge(k: Key, seqNo: int, owner: string, now: Time) returns (result: Owned)
      requires Valid()
      modifies this`rows, this`processed
      ensures Valid() && Snapshot() == AcknowledgeDb(old(Snapshot()), k, owner, seqNo, now)
      ensures result == if OwnedBy(old(rows), k, owner) then Kept else OwnershipLost
    {
      hide Indexed, Leased;
      if !OwnedBy(rows, k, owner) {
        return OwnershipLost;
      }
      var updated := rows[k].(status := Sent, owner := "", leaseUntil := 0.0, nextRetry := 0.0, sentAt := now);
      UpdateKeepsIndex(rows, k, updated);
      rows := rows[k := updated];
      if seqNo > 0 {
        processed := MaxInt(processed, seqNo);
      }
      return Kept;
    }

    method Defer(k: Key, owner: string, retryAfter: Time, now: Time) returns (result: Owned)
      requires Valid()
      modifies this`rows
      ensures Valid()
      ensures OwnedBy(old(rows), k, owner) ==>
                && Snapshot() == RetryDb(old(Snapshot()), k, owner, old(rows)[k].attempt, DEFERRED_QUIET, now + MaxTime(0.05, retryAfter))
                && !Claimable(rows[k], now)
      ensures result == if OwnedBy(old(rows), k, owner) then Kept else OwnershipLost
      ensures result == OwnershipLost ==> rows == old(rows)
    {
      hide Indexed, Leased;
      if !OwnedBy(rows, k, owner) {
        return OwnershipLost;
      }
      var updated := rows[k].(status := Pending, owner := "", leaseUntil := 0.0, lastError := DEFERRED_QUIET,
                                 nextRetry := now + MaxTime(0.05, retryAfter));
      UpdateKeepsIndex(rows, k, updated);
      rows := rows[k := updated];
      return Kept;
    }

    /** `resume_deferred`: exactly the quietly deferred rows of this conversation become due at once. */
    method ResumeDeferred(conversation: string) returns (count: nat)
      requires Valid()
      modifies this`rows
      ensures Valid() && rows.Keys == old(rows).Keys
      ensures forall k | k in rows ::
                rows[k] == if && old(rows)[k].status == Pending && old(rows)[k].lastError == "deferred:quiet"
                              && Lookup(old(rows)[k].delivery, "conversation_key") == Some(conversation)
                           then old(rows)[k].(nextRetry := 0.0) else old(rows)[k]
      ensures count == |set k | k in old(rows) && Resumes(old(rows)[k], conversation)|
    {
      hide Indexed, Leased;
      var keys := set k | k in rows && Resumes(rows[k], conversation);
      count := |keys|;
      rows := map k | k in rows :: if k in keys then rows[k].(nextRetry := 0.0) else rows[k];
      SameIdentitiesKeepValid(old(rows), rows);
    }

    /** `mark_failed`: `attempt` is the number of failed attempts the claimed record knew of. */
    method MarkFailed(k: Key, attempt: nat, error: string, owner: string, initialDelay: Time, maxDelay: Time, now: Time)
      returns (result: Owned, delay: Time)
      requires Valid()
      modifies this`rows
      ensures Valid()
      ensures delay == Backoff(attempt + 1, initialDelay, maxDelay) && delay >= 0.05
      ensures Snapshot() == RetryDb(old(Snapshot()), k, owner, attempt + 1, error, now + delay)
      ensures result == if OwnedBy(old(rows), k, owner) then Kept else OwnershipLost
    {
      hide Indexed, Leased;
      delay := Backoff(attempt + 1, initialDelay, maxDelay);
      if !OwnedBy(rows, k, owner) {
        return OwnershipLost, delay;
      }
      var updated := rows[k].(status := Pending, owner := "", leaseUntil := 0.0, attempt := attempt + 1, lastError := error,
                                 nextRetry := now + delay);
      UpdateKeepsIndex(rows, k, updated);
      rows := rows[k := updated];
      return Kept, delay;
    }

    method MarkDeadLetter(k: Key, attempt: nat, error: string, owner: string) returns (result: Owned)
      requires Valid()
      modifies this`rows
      ensures Valid() && Snapshot() == DeadLetterDb(old(Snapshot()), k, owner, attempt + 1, error)
      ensures result == if OwnedBy(old(rows), k, owner) then Kept else OwnershipLost
    {
      hide Indexed, Leased;
      if !OwnedBy(rows, k, owner) {
        return OwnershipLost;
      }
      var updated := rows[k].(status := DeadLetter, owner := "", leaseUntil := 0.0, attempt := attempt + 1,
                                 lastError := error, nextRetry := 0.0);
      UpdateKeepsIndex(rows, k, updated);
      rows := rows[k := updated];
      return Kept;
    }

    /** The lookup of `force_replay`. Without a record type any number of rows may match. */
    method FindReplay(recordType: string, eventId: string, seqNo: int) returns (found: Option<Key>, refusal: Replay)
      requires Valid()
      ensures found.Some? ==> Identified(rows, recordType, eventId, seqNo, found.value)
      ensures found.None? ==> forall k :: !Identified(rows, recordType, eventId, seqNo, k)
      ensures recordType == "" ==> forall k :: found == Some(k) <==>
                k in rows && forall l | l in rows ::
                  l == k <==> (eventId != "" && rows[l].eventId == eventId) || (seqNo != 0 && rows[l].seqNo == seqNo)
      ensures refusal ==
              if recordType == "" && eventId == "" && seqNo == 0 then IdentityRequired
              else if recordType == "" && found.None? && exists k :: k in rows && Matches(rows[k], eventId, seqNo) then Ambiguous
              else NotFound
    {
      hide Indexed, Leased;
      refusal := NotFound;
      if recordType != "" {
        found := Find(Event(recordType, eventId, seqNo, false));
        return;
      }
      if eventId == "" && seqNo == 0 {
        return None, IdentityRequired;
      }
      var matches := set k | k in rows && Matches(rows[k], eventId, seqNo);
      if |matches| > 1 {
        var k :| k in matches;
        if forall l | l in rows && Matches(rows[l], eventId, seqNo) :: l == k {
          assert matches == {k};
        }
        return None, Ambiguous;
      }
      if matches == {} {
        assert forall k | k in rows && Matches(rows[k], eventId, seqNo) :: k in matches;
        return None, NotFound;
      }
      var k :| k in matches;
      assert |matches - {k}| == 0;
      assert forall l | l in rows && Matches(rows[l], eventId, seqNo) :: l in matches;
      return Some(k), NotFound;
    }

    /** `force_replay`; `now` decides whether a delivery is still active. */
    method ForceReplay(recordType: string, eventId: string, seqNo: int, now: Time) returns (result: Replay)
      requires Valid()
      modifies this`rows
      ensures Valid()
      ensures forall k | Identified(old(rows), recordType, eventId, seqNo, k) ::
                && Snapshot() == ForceReplayDb(old(Snapshot()), k, now)
                && (k in old(rows) ==>
                      result == if old(rows)[k].status == Delivering && old(rows)[k].leaseUntil > now then ActiveDelivery else Replayed(rows[k]))
      ensures result.Replayed? ==> exists k ::
                && k in old(rows) && rows == old(rows)[k := result.row] && result.row.generation == old(rows)[k].generation + 1
                && result.row == old(rows)[k].(status := Pending, owner := "", leaseUntil := 0.0, nextRetry := 0.0, lastError := "",
                                               generation := result.row.generation)
                && (old(rows)[k].status == Delivering ==> old(rows)[k].leaseUntil <= now)
      ensures (forall k :: !Identified(old(rows), recordType, eventId, seqNo, k)) ==>
                && rows == old(rows)
                && result ==
                   if recordType == "" && eventId == "" && seqNo == 0 then IdentityRequired
                   else if recordType == "" && exists k :: k in old(rows) && Matches(old(rows)[k], eventId, seqNo) then Ambiguous
                   else NotFound
    {
      var found, refusal := FindReplay(recordType, eventId, seqNo);
      if found.None? {
        return refusal;
      }
      var k := found.value;
      IdentifiedOnce(rows, recordType, eventId, seqNo, k);
      hide Indexed, Leased, Identified, Matches;
      if !Replayable(rows, k, now) {
        return ActiveDelivery;
      }
      var updated := rows[k].(status := Pending, owner := "", leaseUntil := 0.0, nextRetry := 0.0, lastError := "",
                                 generation := rows[k].generation + 1);
      UpdateKeepsIndex(rows, k, updated);
      rows := rows[k := updated];
      return Replayed(rows[k]);
    }

    /** `next_retry_at`: the first moment at which a scanner finds anything. */
    method NextRetryAt() returns (at: Option<Time>)
      ensures at.None? ==> forall now: Time :: Due(rows, now) == {}
      ensures at.Some? ==> Due(rows, at.value) != {} && forall now: Time | now < at.value :: Due(rows, now) == {}
    {
      at := None;
      var todo := rows.Keys;
      while todo != {}
        invariant todo <= rows.Keys
        invariant at.None? ==> forall k | k in rows.Keys - todo :: rows[k].status != Pending && rows[k].status != Delivering
        invariant at.Some? ==> exists k :: k in rows && Claimable(rows[k], at.value)
        invariant at.Some? ==> forall k, now: Time | k in rows.Keys - todo && now < at.value :: !Claimable(rows[k], now)
        decreases todo
      {
        var k :| k in todo;
        todo := todo - {k};
        var row := rows[k];
        if row.status == Pending || row.status == Delivering {
          var candidate := if row.status == Pending then row.nextRetry else row.leaseUntil;
          assert Claimable(row, candidate) && forall now: Time | now < candidate :: !Claimable(row, now);
          if at.None? || candidate < at.value {
            at := Some(candidate);
          }
        }
      }
      if at.Some? {
        var k :| k in rows && Claimable(rows[k], at.value);
        assert k in Due(rows, at.value);
      }
    }

    /** The least of some sent rows by sending time and sequence number. */
    method Oldest(candidates: set<Key>) returns (oldest: Key)
      requires candidates != {} && candidates <= rows.Keys
      ensures oldest in candidates && forall k | k in candidates :: Older(rows[oldest], rows[k])
    {
      oldest :| oldest in candidates;
      var todo := candidates - {oldest};
      while todo != {}
        invariant todo <= candidates && oldest in candidates
        invariant forall k | k in candidates - todo :: Older(rows[oldest], rows[k])
        decreases todo
      {
        var k :| k in todo;
        todo := todo - {k};
        if !Older(rows[oldest], rows[k]) {
          oldest := k;
        }
      }
    }

    /** The second half of `prune_sent`: while too many sent rows remain, the oldest prunable one goes. */
    method PruneExcess(maxRows: int) returns (removed: set<Key>)
      requires Valid() && maxRows > 0
      modifies this`rows
      ensures Valid() && rows == old(rows) - removed
      ensures OldestRemoved(old(Snapshot()), removed)
      ensures |SentRows(rows)| <= maxRows || Prunable(Snapshot()) == {}
      ensures removed != {} ==> |SentRows(rows)| >= maxRows
    {
      hide Prunable, SentRows, OldestRemoved, ValidDb;
      removed := {};
      NoneRemoved(Snapshot());
      while |SentRows(rows)| > maxRows && Prunable(Snapshot()) != {}
        invariant rows == old(rows) - removed
        invariant OldestRemoved(old(Snapshot()), removed)
        invariant removed != {} ==> |SentRows(rows)| >= maxRows
        decreases |rows|
      {
        var oldest := Oldest(Prunable(Snapshot()));
        RemoveOldest(old(Snapshot()), removed, oldest);
        rows := rows - {oldest};
        removed := removed + {oldest};
      }
      RemoveKeepsValid(old(Snapshot()), removed);
    }

    /**
     `prune_sent`: first the tombstones past their time to live, then, while more than `maxRows` sent rows
     remain, the oldest ones. Only sent rows at or below both cursors ever go.
    */
    method PruneSent(ttl: Time, maxRows: int, now: Time) returns (expired: set<Key>, excess: set<Key>)
      requires Valid()
      modifies this`rows
      ensures Valid() && rows == old(rows) - expired - excess
      ensures expired == set k | k in Prunable(old(Snapshot())) && 0.0 < old(rows)[k].sentAt <= now - MaxTime(0.0, ttl)
      ensures forall k | k in old(rows) && old(rows)[k].status == Sent && old(rows)[k].seqNo <= processed
                         && old(rows)[k].seqNo <= ReceivedSeq(Snapshot()) && 0.0 < old(rows)[k].sentAt <= now - MaxTime(0.0, ttl) :: k in expired
      ensures maxRows > 0 ==>
                || |set k | k in rows && rows[k].status == Sent| <= maxRows
                || forall k | k in rows && rows[k].status == Sent :: rows[k].seqNo > processed || rows[k].seqNo > ReceivedSeq(Snapshot())
      ensures OldestRemoved(old(Snapshot()).(rows := old(rows) - expired), excess)
      ensures forall k | k in expired + excess ::
                k in old(rows) && old(rows)[k].status == Sent && old(rows)[k].seqNo <= processed && old(rows)[k].seqNo <= ReceivedSeq(Snapshot())
      ensures if maxRows <= 0 then excess == {} else |SentRows(rows)| <= maxRows || Prunable(Snapshot()) == {}
      ensures excess != {} ==> |SentRows(rows)| >= maxRows
    {
      hide Indexed, Leased, OldestRemoved;
      var cutoff := now - MaxTime(0.0, ttl);
      expired := set k | k in Prunable(Snapshot()) && 0.0 < rows[k].sentAt <= cutoff;
      excess := {};
      RemoveKeepsIndex(rows, expired);
      rows := rows - expired;
      NoneRemoved(Snapshot());
      if maxRows > 0 {
        excess := PruneExcess(maxRows);
      }
      OldestArePrunable(old(Snapshot()).(rows := old(rows) - expired), excess);
    }
  }

  /** Delivery details already known win over new ones; empty new values are ignored. */
  function Merge(known: map<string, string>, offered: map<string, string>): (merged: map<string, string>)
    ensures known.Keys <= merged.Keys <= known.Keys + offered.Keys && forall name | name in known :: merged[name] == known[name]
    ensures forall name | name in offered && name !in known ::
              (name in merged <==> offered[name] != "") && (name in merged ==> merged[name] == offered[name])
  {
    map name | name in known.Keys + offered.Keys && (name in known || offered[name] != "") ::
      if name in known then known[name] else offered[name]
  }
}
