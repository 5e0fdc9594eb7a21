/**
 Channel watermarks (clonoth_sdk/state.py): how much of a channel's history was sent with an accepted inbound
 message. Registration and acceptance of a message arrive in either order, and a context reset starts over.
*/
module Watermark {
  import opened Common

  type Time = real
  type Channel = string

  const EARLY_LIMIT := 2048
  const EARLY_TTL: Time := 600.0

  datatype Pending = Pending(channel: Channel, mark: int)

  /** `accepted` lists seqs with the time of their acceptance, oldest first, each once. */
  datatype State = State(
    pending: map<int, Pending>, high: map<Channel, int>, accepted: seq<(int, Time)>, generations: map<Channel, nat>)

  datatype Op =
    | Register(inboundSeq: int, channel: Channel, mark: int, generation: Option<nat>, now: Time)
    | Accept(inboundSeq: int, now: Time)
    | Advance(channel: Channel, mark: int)
    | Reset(channel: Channel)
    | Drop(inboundSeq: int)

  const INIT := State(map[], map[], [], map[])

  function High(s: State, channel: Channel): int {
    if channel in s.high then s.high[channel] else -1
  }

  function Generation(s: State, channel: Channel): nat {
    if channel in s.generations then s.generations[channel] else 0
  }

  predicate Accepted(s: State, inboundSeq: int) {
    exists i :: 0 <= i < |s.accepted| && s.accepted[i].0 == inboundSeq
  }

  function Pruned(accepted: seq<(int, Time)>, now: Time): seq<(int, Time)> {
    if accepted == [] || (|accepted| <= EARLY_LIMIT && accepted[0].1 >= now - EARLY_TTL) then accepted
    else Pruned(accepted[1..], now)
  }

  /** `OrderedDict` assignment followed by `move_to_end`. */
  function Without(accepted: seq<(int, Time)>, inboundSeq: int): (r: seq<(int, Time)>)
    ensures |r| <= |accepted|
  {
    if accepted == [] then []
    else
      var n := |accepted| - 1;
      Without(accepted[..n], inboundSeq) + if accepted[n].0 == inboundSeq then [] else [accepted[n]]
  }

  function Raised(s: State, channel: Channel, mark: int): State {
    s.(high := s.high[channel := if High(s, channel) < mark then mark else High(s, channel)])
  }

  function Apply(s: State, op: Op): State {
    match op
    case Register(inboundSeq, channel, mark, generation, now) =>
      var kept := s.(accepted := Pruned(s.accepted, now));
      if generation.Some? && generation.value != Generation(s, channel) then kept
      else if Accepted(kept, inboundSeq) then Raised(kept, channel, mark)
      else kept.(pending := s.pending[inboundSeq := Pending(channel, mark)])
    case Accept(inboundSeq, now) =>
      if inboundSeq <= 0 then s
      else
        var known := s.(accepted := Pruned(Without(s.accepted, inboundSeq) + [(inboundSeq, now)], now));
        if inboundSeq !in s.pending then known
        else Raised(known.(pending := s.pending - {inboundSeq}), s.pending[inboundSeq].channel, s.pending[inboundSeq].mark)
    case Advance(channel, mark) => Raised(s, channel, mark)
    case Drop(inboundSeq) => s.(pending := s.pending - {inboundSeq})
    case Reset(channel) =>
      s.(high := s.high - {channel}, generations := s.generations[channel := Generation(s, channel) + 1],
         pending := map q | q in s.pending && s.pending[q].channel != channel :: s.pending[q])
  }

  function Run(ops: seq<Op>): State {
    if ops == [] then INIT else Apply(Run(ops[..|ops| - 1]), ops[|ops| - 1])
  }

  // ---- what holds in every run ----

  /** The `n` oldest acceptances go: each while too many are left or it is too old itself, and the next one need not. */
  predicate Evicts(accepted: seq<(int, Time)>, now: Time, n: nat) {
    && n <= |accepted|
    && (forall m | 0 <= m < n :: |accepted| - m > 2048 || accepted[m].1 < now - 600.0)
    && (n < |accepted| ==> |accepted| - n <= 2048 && accepted[n].1 >= now - 600.0)
  }

  lemma {:induction false} PrunedEvicts(accepted: seq<(int, Time)>, now: Time) returns (n: nat)
    ensures Evicts(accepted, now, n) && Pruned(accepted, now) == accepted[n..]
    decreases |accepted|
  {
    n := 0;
    if accepted != [] && !(|accepted| <= EARLY_LIMIT && accepted[0].1 >= now - EARLY_TTL) {
      var rest := PrunedEvicts(accepted[1..], now);
      n := rest + 1;
      assert forall m | 0 < m <= rest :: accepted[1..][m - 1] == accepted[m];
    }
  }

  lemma {:induction false} PrunedIsSuffix(accepted: seq<(int, Time)>, now: Time)
    ensures forall e :: e in Pruned(accepted, now) ==> e in accepted
    ensures |Pruned(accepted, now)| <= EARLY_LIMIT
    ensures forall i | 0 <= i < |Pruned(accepted, now)| :: exists j :: 0 <= j < |accepted| && accepted[j] == Pruned(accepted, now)[i]
    decreases |accepted|
  {
    if !(accepted == [] || (|accepted| <= EARLY_LIMIT && accepted[0].1 >= now - EARLY_TTL)) {
      PrunedIsSuffix(accepted[1..], now);
    }
  }

  lemma {:induction false} WithoutElements(accepted: seq<(int, Time)>, inboundSeq: int)
    ensures forall e :: e in Without(accepted, inboundSeq) <==> e in accepted && e.0 != inboundSeq
  {
    if accepted != [] {
      var n := |accepted| - 1;
      WithoutElements(accepted[..n], inboundSeq);
      assert accepted == accepted[..n] + [accepted[n]];
    }
  }

  /** No inbound message is both waiting for its acceptance and already accepted. */
  ghost predicate Apart(s: State) {
    forall q | q in s.pending :: !Accepted(s, q)
  }

  lemma AcceptedMember(s: State, inboundSeq: int)
    ensures Accepted(s, inboundSeq) <==> exists e :: e in s.accepted && e.0 == inboundSeq
  {
    if i :| 0 <= i < |s.accepted| && s.accepted[i].0 == inboundSeq {
      assert s.accepted[i] in s.accepted;
    }
  }

  /** Who counts as accepted after an operation was accepted before, or is the one just accepted. */
  lemma AcceptedBefore(s: State, op: Op, q: int)
    requires Accepted(Apply(s, op), q)
    ensures Accepted(s, q) || (op.Accept? && op.inboundSeq == q && q > 0)
  {
    AcceptedMember(Apply(s, op), q);
    AcceptedMember(s, q);
    hide Accepted;
    if op.Register? {
      PrunedIsSuffix(s.accepted, op.now);
    } else if op.Accept? {
      PrunedIsSuffix(Without(s.accepted, op.inboundSeq) + [(op.inboundSeq, op.now)], op.now);
      WithoutElements(s.accepted, op.inboundSeq);
    }
    hide Pruned, Without;
  }

  lemma ApartStep(s: State, op: Op)
    requires Apart(s)
    ensures Apart(Apply(s, op))
  {
    var t := Apply(s, op);
    forall q | q in t.pending ensures !Accepted(t, q) {
      if Accepted(t, q) {
        AcceptedBefore(s, op, q);
      }
    }
    hide Without;
  }

  /** In every run, evictions included, nothing is both pending and accepted, and a mark falls only at a reset. */
  lemma {:induction false} AlwaysApart(ops: seq<Op>, channel: Channel)
    ensures Apart(Run(ops))
    ensures ops != [] && High(Run(ops), channel) < High(Run(ops[..|ops| - 1]), channel) ==> ops[|ops| - 1] == Reset(channel)
  {
    if ops != [] {
      AlwaysApart(ops[..|ops| - 1], channel);
      ApartStep(Run(ops[..|ops| - 1]), ops[|ops| - 1]);
    }
  }

  // ---- what counts towards a mark ----

  predicate AcceptedIn(ops: seq<Op>, inboundSeq: int) {
    inboundSeq > 0 && exists i :: 0 <= i < |ops| && ops[i].Accept? && ops[i].inboundSeq == inboundSeq
  }

  function Resets(ops: seq<Op>, channel: Channel): nat {
    if ops == [] then 0 else Resets(ops[..|ops| - 1], channel) + if ops[|ops| - 1] == Reset(channel) then 1 else 0
  }

  /** No reset of the channel comes at or after position `r`. */
  predicate SinceReset(ops: seq<Op>, r: nat, channel: Channel) {
    forall i | r <= i < |ops| :: ops[i] != Reset(channel)
  }

  /** The registration at `r` names the channel's generation, or none. */
  predicate InGeneration(ops: seq<Op>, r: nat) {
    && r < |ops| && ops[r].Register?
    && (ops[r].generation.None? || ops[r].generation.value == Resets(ops[..r], ops[r].channel))
  }

  /** When the registration at `r` arrives, the acceptance of its message is still remembered. */
  predicate Known(ops: seq<Op>, r: nat) {
    && r < |ops| && ops[r].Register?
    && var s := Run(ops[..r]);
       Accepted(s.(accepted := Pruned(s.accepted, ops[r].now)), ops[r].inboundSeq)
  }

  /** The registration at `r` has to wait for the acceptance of message `q`, replacing one that waits already. */
  predicate Waits(ops: seq<Op>, r: nat, q: int) {
    InGeneration(ops, r) && !Known(ops, r) && ops[r].inboundSeq == q
  }

  /** The trigger of message `q` is cleaned up at `j`. */
  predicate DropsAt(ops: seq<Op>, j: nat, q: int) {
    j < |ops| && ops[j] == Drop(q)
  }

  /** No later registration replaces the one at `r` before position `a`, and none drops it. */
  predicate Undisturbed(ops: seq<Op>, r: nat, a: nat, q: int) {
    forall j: nat | r < j < a :: !Waits(ops, j, q) && !DropsAt(ops, j, q)
  }

  predicate AcceptsAt(ops: seq<Op>, a: nat, q: int) {
    a < |ops| && q > 0 && ops[a].Accept? && ops[a].inboundSeq == q
  }

  /** The registration at `r` is still waiting when its message is accepted. */
  predicate Taken(ops: seq<Op>, r: nat)
    requires r < |ops| && ops[r].Register?
  {
    exists a: nat :: r < a < |ops| && AcceptsAt(ops, a, ops[r].inboundSeq) && Undisturbed(ops, r, a, ops[r].inboundSeq)
  }

  /** Position `r` raises the channel's mark: it advances directly, or its message is known or accepted in time. */
  predicate Counts(ops: seq<Op>, r: nat, channel: Channel) {
    && r < |ops| && SinceReset(ops, r, channel)
    && ((ops[r].Advance? && ops[r].channel == channel)
        || (InGeneration(ops, r) && ops[r].channel == channel && (Known(ops, r) || Taken(ops, r))))
  }

  /** Position `r` ought to raise it: the message of the registration was accepted at any time. */
  predicate Contributes(ops: seq<Op>, r: nat, channel: Channel) {
    && r < |ops| && SinceReset(ops, r, channel)
    && ((ops[r].Advance? && ops[r].channel == channel)
        || (InGeneration(ops, r) && ops[r].channel == channel && AcceptedIn(ops, ops[r].inboundSeq)))
  }

  function MarkAt(ops: seq<Op>, r: nat): int {
    if r >= |ops| then -1
    else match ops[r] case Register(_, _, mark, _, _) => mark case Advance(_, mark) => mark case _ => -1
  }

  /** `h` is the greatest mark at some positions, -1 if there is none above it. */
  ghost predicate IsHighest(ops: seq<Op>, positions: set<nat>, h: int) {
    && h >= -1 && (forall r | r in positions :: MarkAt(ops, r) <= h)
    && (h > -1 ==> exists r :: r in positions && MarkAt(ops, r) == h)
  }

  function Counted(ops: seq<Op>, channel: Channel): set<nat> {
    set r: nat | r < |ops| && Counts(ops, r, channel)
  }

  function Contributions(ops: seq<Op>, channel: Channel): set<nat> {
    set r: nat | r < |ops| && Contributes(ops, r, channel)
  }

  /** Position `r` waits for the acceptance of message `q` now. */
  predicate Waiting(ops: seq<Op>, r: nat, q: int) {
    && Waits(ops, r, q) && SinceReset(ops, r, ops[r].channel) && Undisturbed(ops, r, |ops|, q)
    && forall a: nat | r < a < |ops| :: !AcceptsAt(ops, a, q)
  }

  // ---- one more operation ----

  lemma SinceResetSnoc(ops: seq<Op>, op: Op, r: nat, channel: Channel)
    requires r <= |ops|
    ensures SinceReset(ops + [op], r, channel) <==> SinceReset(ops, r, channel) && op != Reset(channel)
  {
    var next := ops + [op];
    assert next[|ops|] == op;
    assert forall i | 0 <= i < |ops| :: next[i] == ops[i];
  }

  lemma {:induction false} WaitsSnoc(ops: seq<Op>, op: Op, r: nat)
    requires r < |ops|
    ensures InGeneration(ops + [op], r) <==> InGeneration(ops, r)
    ensures Known(ops + [op], r) <==> Known(ops, r)
    ensures forall q :: Waits(ops + [op], r, q) <==> Waits(ops, r, q)
  {
    assert (ops + [op])[..r] == ops[..r] && (ops + [op])[r] == ops[r];
    hide Pruned, Accepted, Run, Resets;
  }

  /** What the operation itself does, seen from the state before it. */
  predicate GenerationNow(ops: seq<Op>, op: Op) {
    op.Register? && (op.generation.None? || op.generation.value == Resets(ops, op.channel))
  }

  predicate KnownNow(ops: seq<Op>, op: Op) {
    op.Register? && var s := Run(ops); Accepted(s.(accepted := Pruned(s.accepted, op.now)), op.inboundSeq)
  }

  lemma {:induction false} WaitsNow(ops: seq<Op>, op: Op)
    ensures InGeneration(ops + [op], |ops|) <==> GenerationNow(ops, op)
    ensures Known(ops + [op], |ops|) <==> KnownNow(ops, op)
    ensures forall q :: Waits(ops + [op], |ops|, q) <==> GenerationNow(ops, op) && !KnownNow(ops, op) && op.inboundSeq == q
  {
    assert (ops + [op])[..|ops|] == ops && (ops + [op])[|ops|] == op;
    hide Pruned, Accepted, Run, Resets;
  }

  lemma AcceptsSnoc(ops: seq<Op>, op: Op, a: nat, q: int)
    ensures AcceptsAt(ops + [op], a, q) <==> AcceptsAt(ops, a, q) || (a == |ops| && q > 0 && op.Accept? && op.inboundSeq == q)
  {
  }

  lemma {:induction false} UndisturbedSnoc(ops: seq<Op>, op: Op, r: nat, a: nat, q: int)
    requires r < |ops| && a <= |ops|
    ensures Undisturbed(ops + [op], r, a, q) <==> Undisturbed(ops, r, a, q)
    ensures Undisturbed(ops + [op], r, |ops| + 1, q) <==> Undisturbed(ops, r, |ops|, q) && !Waits(ops + [op], |ops|, q) && op != Drop(q)
  {
    hide Waits;
    forall j: nat | j < |ops| ensures (Waits(ops + [op], j, q) <==> Waits(ops, j, q)) && (DropsAt(ops + [op], j, q) <==> DropsAt(ops, j, q)) {
      WaitsSnoc(ops, op, j);
    }
    assert DropsAt(ops + [op], |ops|, q) <==> op == Drop(q);
    hide DropsAt;
  }

  lemma {:induction false} TakenSnoc(ops: seq<Op>, op: Op, r: nat)
    requires r < |ops| && ops[r].Register?
    ensures Taken(ops + [op], r) <==>
            Taken(ops, r)
            || (op.Accept? && op.inboundSeq == ops[r].inboundSeq > 0 && Undisturbed(ops, r, |ops|, ops[r].inboundSeq))
  {
    var q, next := ops[r].inboundSeq, ops + [op];
    assert next[r] == ops[r];
    hide Waits;
    forall a: nat | r < a <= |ops|
      ensures AcceptsAt(next, a, q) && Undisturbed(next, r, a, q)
              <==> (AcceptsAt(ops, a, q) || (a == |ops| && q > 0 && op.Accept? && op.inboundSeq == q)) && Undisturbed(ops, r, a, q)
    {
      AcceptsSnoc(ops, op, a, q);
      UndisturbedSnoc(ops, op, r, a, q);
    }
    hide Undisturbed;
    if Taken(ops, r) {
      var a: nat :| r < a < |ops| && AcceptsAt(ops, a, q) && Undisturbed(ops, r, a, q);
      assert AcceptsAt(next, a, q) && Undisturbed(next, r, a, q);
    } else if op.Accept? && op.inboundSeq == q > 0 && Undisturbed(ops, r, |ops|, q) {
      assert AcceptsAt(next, |ops|, q) && Undisturbed(next, r, |ops|, q);
    } else {
      assert forall a: nat | r < a && AcceptsAt(next, a, q) :: a <= |ops|;
    }
  }

  lemma {:induction false} WaitingSnoc(ops: seq<Op>, op: Op, r: nat, q: int)
    requires r < |ops|
    ensures Waiting(ops + [op], r, q) <==>
            Waiting(ops, r, q) && op != Reset(MarkChannel(ops, r)) && !(op.Accept? && op.inboundSeq == q && q > 0)
            && !Waits(ops + [op], |ops|, q) && op != Drop(q)
  {
    var next := ops + [op];
    WaitsSnoc(ops, op, r);
    UndisturbedSnoc(ops, op, r, |ops|, q);
    assert next[r] == ops[r];
    if ops[r].Register? {
      SinceResetSnoc(ops, op, r, ops[r].channel);
    }
    forall a: nat ensures AcceptsAt(next, a, q) <==> AcceptsAt(ops, a, q) || (a == |ops| && q > 0 && op.Accept? && op.inboundSeq == q) {
      AcceptsSnoc(ops, op, a, q);
    }
    hide SinceReset, Undisturbed, InGeneration, Known, AcceptsAt;
    if Waits(ops, r, q) && op.Accept? && op.inboundSeq == q && q > 0 {
      assert AcceptsAt(next, |ops|, q);
    }
  }

  function MarkChannel(ops: seq<Op>, r: nat): Channel {
    if r < |ops| && ops[r].Register? then ops[r].channel else ""
  }

  lemma {:induction false} WaitingNow(ops: seq<Op>, op: Op, q: int)
    ensures Waiting(ops + [op], |ops|, q) <==> Waits(ops + [op], |ops|, q)
  {
    hide InGeneration, Known;
    if Waits(ops + [op], |ops|, q) {
      assert (ops + [op])[|ops|] == op && op.Register? by { WaitsNow(ops, op); }
    }
  }

  /** An accepted message ends the waiting of exactly the registration that waits for it. */
  lemma {:induction false} TakenByWaiting(ops: seq<Op>, r: nat, q: int, channel: Channel)
    requires r < |ops| && q > 0
    requires InGeneration(ops, r) && ops[r].channel == channel && ops[r].inboundSeq == q && SinceReset(ops, r, channel)
    requires !Known(ops, r) && !Taken(ops, r) && Undisturbed(ops, r, |ops|, q)
    ensures Waiting(ops, r, q)
  {
    hide InGeneration, Known, SinceReset;
    forall a: nat | r < a < |ops| ensures !AcceptsAt(ops, a, q) {
      assert Undisturbed(ops, r, a, q);
    }
  }

  /** The operation counts as soon as it is done. */
  predicate CountsNow(ops: seq<Op>, op: Op, channel: Channel) {
    || (op.Advance? && op.channel == channel)
    || (GenerationNow(ops, op) && op.channel == channel && KnownNow(ops, op))
  }

  lemma {:induction false} CountsSnoc(ops: seq<Op>, op: Op, r: nat, channel: Channel)
    requires r < |ops|
    ensures Counts(ops + [op], r, channel) <==>
            op != Reset(channel)
            && (Counts(ops, r, channel) || (op.Accept? && op.inboundSeq > 0 && Waiting(ops, r, op.inboundSeq) && ops[r].channel == channel))
  {
    var next := ops + [op];
    assert next[r] == ops[r];
    SinceResetSnoc(ops, op, r, channel);
    WaitsSnoc(ops, op, r);
    if ops[r].Register? {
      TakenSnoc(ops, op, r);
      if InGeneration(ops, r) && ops[r].channel == channel && SinceReset(ops, r, channel) && !Known(ops, r) && !Taken(ops, r)
         && ops[r].inboundSeq > 0 && Undisturbed(ops, r, |ops|, ops[r].inboundSeq) {
        TakenByWaiting(ops, r, ops[r].inboundSeq, channel);
      }
    }
    hide SinceReset, InGeneration, Known, Taken, Undisturbed, AcceptsAt;
  }

  lemma {:induction false} CountsAtEnd(ops: seq<Op>, op: Op, channel: Channel)
    ensures Counts(ops + [op], |ops|, channel) <==> CountsNow(ops, op, channel)
  {
    var next := ops + [op];
    assert next[|ops|] == op;
    WaitsNow(ops, op);
    if op.Register? {
      assert !Taken(next, |ops|);
    }
    SinceResetSnoc(ops, op, |ops|, channel);
    hide InGeneration, Known, GenerationNow, KnownNow, Taken;
  }

  // ---- what every run keeps ----

  ghost predicate PendingOk(ops: seq<Op>, s: State) {
    && (forall r: nat, q | Waiting(ops, r, q) :: q in s.pending && s.pending[q] == Pending(MarkChannel(ops, r), MarkAt(ops, r)))
    && forall q | q in s.pending :: exists r: nat :: Waiting(ops, r, q)
  }

  ghost predicate GenerationsOk(ops: seq<Op>, s: State) {
    forall channel :: Generation(s, channel) == Resets(ops, channel)
  }

  ghost predicate HighOk(ops: seq<Op>, s: State) {
    forall channel :: IsHighest(ops, Counted(ops, channel), High(s, channel))
  }

  lemma GenerationsStep(ops: seq<Op>, op: Op, s: State)
    requires GenerationsOk(ops, s)
    ensures GenerationsOk(ops + [op], Apply(s, op))
  {
    assert (ops + [op])[..|ops|] == ops;
  }

  /** A registration waits exactly if it is written to the table. */
  lemma {:induction false} RegisterWaits(ops: seq<Op>, op: Op)
    requires op.Register? && GenerationsOk(ops, Run(ops))
    ensures var s := Run(ops);
            && Apply(s, op).pending == (if GenerationNow(ops, op) && !KnownNow(ops, op)
                                        then s.pending[op.inboundSeq := Pending(op.channel, op.mark)] else s.pending)
            && Apply(s, op).high == (if GenerationNow(ops, op) && KnownNow(ops, op) then Raised(s, op.channel, op.mark).high else s.high)
  {
    hide Pruned, Accepted, Run;
  }

  /** What an operation other than a registration does to the waiting registrations. */
  lemma PendingAfter(s: State, op: Op)
    requires !op.Register?
    ensures forall q :: q in Apply(s, op).pending <==>
              q in s.pending && !(op.Accept? && op.inboundSeq == q > 0) && op != Reset(s.pending[q].channel) && op != Drop(q)
    ensures forall q | q in Apply(s, op).pending :: Apply(s, op).pending[q] == s.pending[q]
  {
    hide Pruned, Without;
  }

  lemma {:induction false} PendingStep(ops: seq<Op>, op: Op)
    requires GenerationsOk(ops, Run(ops)) && PendingOk(ops, Run(ops))
    ensures PendingOk(ops + [op], Apply(Run(ops), op))
  {
    var next, s, t := ops + [op], Run(ops), Apply(Run(ops), op);
    assert next[|ops|] == op;
    WaitsNow(ops, op);
    if op.Register? {
      RegisterWaits(ops, op);
    } else {
      PendingAfter(s, op);
    }
    hide GenerationNow, KnownNow, Waits, Run, Apply;
    forall r: nat, q | Waiting(next, r, q)
      ensures q in t.pending && t.pending[q] == Pending(MarkChannel(next, r), MarkAt(next, r))
    {
      WaitingBounds(next, r, q);
      if r < |ops| {
        WaitingSnoc(ops, op, r, q);
      } else {
        WaitingNow(ops, op, q);
      }
      hide Waiting;
    }
    forall q | q in t.pending ensures exists r: nat :: Waiting(next, r, q) {
      if Waits(next, |ops|, q) {
        WaitingNow(ops, op, q);
        assert Waiting(next, |ops|, q);
      } else {
        var r: nat :| Waiting(ops, r, q);
        WaitingBounds(ops, r, q);
        WaitingSnoc(ops, op, r, q);
        assert Waiting(next, r, q);
      }
      hide Waiting;
    }
  }

  lemma WaitingBounds(ops: seq<Op>, r: nat, q: int)
    requires Waiting(ops, r, q)
    ensures r < |ops| && ops[r].Register? && ops[r].inboundSeq == q && MarkChannel(ops, r) == ops[r].channel && MarkAt(ops, r) == ops[r].mark
  {
  }

  /** Positions that count for the first time, all with the same mark, raise the maximum to that mark. */
  lemma HigherNow(ops: seq<Op>, op: Op, before: set<nat>, after: set<nat>, h: int, raised: bool, mark: int)
    requires IsHighest(ops, before, h) && before <= after && forall r | r in before :: r < |ops|
    requires forall r | r in after - before :: raised && MarkAt(ops + [op], r) == mark
    requires raised ==> exists r :: r in after && MarkAt(ops + [op], r) == mark
    ensures IsHighest(ops + [op], after, if raised && h < mark then mark else h)
  {
    assert forall r: nat | r < |ops| :: MarkAt(ops + [op], r) == MarkAt(ops, r);
  }

  /** What counts after one more operation. */
  lemma {:induction false} CountedAfter(ops: seq<Op>, op: Op, channel: Channel)
    ensures Counted(ops + [op], channel) ==
            if op == Reset(channel) then {}
            else Counted(ops, channel) + (if CountsNow(ops, op, channel) then {|ops|} else {})
                 + (set r: nat | r < |ops| && op.Accept? && op.inboundSeq > 0 && Waiting(ops, r, op.inboundSeq) && ops[r].channel == channel)
  {
    forall r: nat | r < |ops| {
      CountsSnoc(ops, op, r, channel);
    }
    CountsAtEnd(ops, op, channel);
    if op == Reset(channel) {
      assert !CountsNow(ops, op, channel);
    }
    hide Counts, CountsNow, Waiting;
  }

  lemma {:induction false} HighStep(ops: seq<Op>, op: Op, channel: Channel)
    requires GenerationsOk(ops, Run(ops)) && PendingOk(ops, Run(ops))
    requires IsHighest(ops, Counted(ops, channel), High(Run(ops), channel))
    ensures IsHighest(ops + [op], Counted(ops + [op], channel), High(Apply(Run(ops), op), channel))
  {
    var s, before, after := Run(ops), Counted(ops, channel), Counted(ops + [op], channel);
    var h := High(s, channel);
    CountedAfter(ops, op, channel);
    assert (ops + [op])[|ops|] == op;
    match op
    case Reset(c) =>
      if c != channel {
        hide Counts, PendingOk, IsHighest, Waiting, Run;
        HigherNow(ops, op, before, after, h, false, 0);
      }
    case Drop(q) =>
      hide Counts, PendingOk, IsHighest, Waiting, Run;
      HigherNow(ops, op, before, after, h, false, 0);
    case Advance(c, mark) =>
      hide Counts, PendingOk, IsHighest, Waiting, Run;
      HigherNow(ops, op, before, after, h, c == channel, mark);
    case Register(q, c, mark, generation, now) =>
      RegisterWaits(ops, op);
      hide Counts, PendingOk, IsHighest, Waiting, Run, GenerationNow, KnownNow;
      HigherNow(ops, op, before, after, h, CountsNow(ops, op, channel), mark);
    case Accept(q, now) =>
      HighAccept(ops, op, channel);
  }

  /** What accepting a message does to a mark. */
  lemma HighAfterAccept(s: State, op: Op, channel: Channel)
    requires op.Accept?
    ensures High(Apply(s, op), channel) ==
            if op.inboundSeq > 0 && op.inboundSeq in s.pending && s.pending[op.inboundSeq].channel == channel
               && High(s, channel) < s.pending[op.inboundSeq].mark
            then s.pending[op.inboundSeq].mark else High(s, channel)
  {
    hide Pruned, Without;
  }

  lemma {:induction false} HighAccept(ops: seq<Op>, op: Op, channel: Channel)
    requires op.Accept? && PendingOk(ops, Run(ops)) && IsHighest(ops, Counted(ops, channel), High(Run(ops), channel))
    ensures IsHighest(ops + [op], Counted(ops + [op], channel), High(Apply(Run(ops), op), channel))
  {
    var s, before, after := Run(ops), Counted(ops, channel), Counted(ops + [op], channel);
    var q := op.inboundSeq;
    CountedAfter(ops, op, channel);
    forall r: nat | Waiting(ops, r, q) ensures r < |ops| && q in s.pending && s.pending[q] == Pending(ops[r].channel, MarkAt(ops, r)) {
      WaitingBounds(ops, r, q);
    }
    var raised := q > 0 && q in s.pending && s.pending[q].channel == channel;
    if raised {
      var at: nat :| Waiting(ops, at, q);
      assert at in after && MarkAt(ops + [op], at) == s.pending[q].mark;
    }
    HighAfterAccept(s, op, channel);
    hide Counts, PendingOk, IsHighest, Waiting, Run, Apply, High;
    HigherNow(ops, op, before, after, High(s, channel), raised, if raised then s.pending[q].mark else 0);
  }

  lemma {:induction false} EveryRun(ops: seq<Op>)
    ensures GenerationsOk(ops, Run(ops)) && PendingOk(ops, Run(ops)) && HighOk(ops, Run(ops))
  {
    if ops == [] {
      assert forall channel :: Counted(ops, channel) == {};
    } else {
      hide GenerationsOk, PendingOk, IsHighest, Apply;
      var init, op := ops[..|ops| - 1], ops[|ops| - 1];
      assert ops == init + [op];
      EveryRun(init);
      GenerationsStep(init, op, Run(init));
      PendingStep(init, op);
      forall channel ensures IsHighest(ops, Counted(ops, channel), High(Run(ops), channel)) {
        assert IsHighest(init, Counted(init, channel), High(Run(init), channel));
        HighStep(init, op, channel);
      }
    }
  }

  /**
   In every run, with any evictions and repeated registrations: a channel's watermark is the greatest of its
   direct advances and of the marks registered since its last reset whose message was accepted before the
   registration and not forgotten by then, or after it and before another registration took its place or its
   trigger was cleaned up.
  */
  lemma {:induction false} WatermarkInEveryRun(ops: seq<Op>, channel: Channel)
    ensures IsHighest(ops, Counted(ops, channel), High(Run(ops), channel))
  {
    EveryRun(ops);
  }

  // ---- when acceptance at any time is enough ----

  /** Every inbound message is registered once. */
  ghost predicate RegisteredOnce(ops: seq<Op>) {
    forall i, j | 0 <= i < |ops| && 0 <= j < |ops| && ops[i].Register? && ops[j].Register? && ops[i].inboundSeq == ops[j].inboundSeq :: i == j
  }

  /** No acceptance is evicted before the registration of its message arrives; others may be. */
  ghost predicate Remembered(ops: seq<Op>) {
    forall r: nat | r < |ops| && ops[r].Register? && AcceptedIn(ops[..r], ops[r].inboundSeq) :: Known(ops, r)
  }

  /** No message's trigger is cleaned up between its registration and its acceptance. */
  ghost predicate DroppedLate(ops: seq<Op>) {
    forall r: nat, j: nat | r < j < |ops| && ops[r].Register? && DropsAt(ops, j, ops[r].inboundSeq) :: AcceptedIn(ops[..j], ops[r].inboundSeq)
  }

  lemma {:induction false} RememberedWasAccepted(ops: seq<Op>, q: int)
    requires Accepted(Run(ops), q)
    ensures AcceptedIn(ops, q)
  {
    if ops == [] {
      assert false;
    } else {
      var init, op := ops[..|ops| - 1], ops[|ops| - 1];
      AcceptedBefore(Run(init), op, q);
      if Accepted(Run(init), q) {
        RememberedWasAccepted(init, q);
        var i :| 0 <= i < |init| && init[i].Accept? && init[i].inboundSeq == q;
        assert ops[i] == init[i];
      } else {
        assert ops[|ops| - 1].Accept?;
      }
    }
  }

  lemma {:induction false} KnownWasAccepted(ops: seq<Op>, r: nat)
    requires Known(ops, r)
    ensures AcceptedIn(ops, ops[r].inboundSeq)
  {
    var s, q := Run(ops[..r]), ops[r].inboundSeq;
    var t := s.(accepted := Pruned(s.accepted, ops[r].now));
    PrunedIsSuffix(s.accepted, ops[r].now);
    AcceptedMember(s, q);
    AcceptedMember(t, q);
    RememberedWasAccepted(ops[..r], q);
    var i :| 0 <= i < r && ops[..r][i].Accept? && ops[..r][i].inboundSeq == q;
    assert ops[i].Accept?;
  }

  lemma {:induction false} CountedWasAccepted(ops: seq<Op>, r: nat, channel: Channel)
    requires Counts(ops, r, channel)
    ensures Contributes(ops, r, channel)
  {
    if InGeneration(ops, r) {
      if Known(ops, r) {
        KnownWasAccepted(ops, r);
      } else if Taken(ops, r) {
        var a: nat :| r < a < |ops| && AcceptsAt(ops, a, ops[r].inboundSeq) && Undisturbed(ops, r, a, ops[r].inboundSeq);
        assert ops[a].Accept?;
      }
    }
    hide SinceReset, InGeneration, Known, Taken, AcceptedIn;
  }

  /** A registration counts exactly if its message is ever accepted. */
  lemma {:induction false} CountsWhenAccepted(ops: seq<Op>, r: nat, channel: Channel)
    requires Remembered(ops) && RegisteredOnce(ops) && DroppedLate(ops)
    ensures Counts(ops, r, channel) <==> Contributes(ops, r, channel)
  {
    if Counts(ops, r, channel) {
      CountedWasAccepted(ops, r, channel);
    } else if Contributes(ops, r, channel) && ops[r].Register? {
      AcceptedIsNoticed(ops, r);
    }
    hide SinceReset, InGeneration, Known, Taken, AcceptedIn;
  }

  lemma {:induction false} AcceptedIsNoticed(ops: seq<Op>, r: nat)
    requires Remembered(ops) && RegisteredOnce(ops) && DroppedLate(ops) && r < |ops| && ops[r].Register? && AcceptedIn(ops, ops[r].inboundSeq)
    ensures Known(ops, r) || Taken(ops, r)
  {
    var q := ops[r].inboundSeq;
    var i := FirstAcceptance(ops, q);
    hide Known;
    if i < r {
      assert ops[..r][i].Accept? && ops[..r][i].inboundSeq == q;
    } else {
      NothingDisturbs(ops, r, i, q);
      assert AcceptsAt(ops, i, q) && Undisturbed(ops, r, i, q);
    }
  }

  lemma {:induction false} FirstAcceptance(ops: seq<Op>, q: int) returns (i: nat)
    requires AcceptedIn(ops, q)
    ensures i < |ops| && ops[i].Accept? && ops[i].inboundSeq == q && !AcceptedIn(ops[..i], q)
    decreases |ops|
  {
    i :| i < |ops| && ops[i].Accept? && ops[i].inboundSeq == q;
    if AcceptedIn(ops[..i], q) {
      var k := FirstAcceptance(ops[..i], q);
      assert ops[..i][..k] == ops[..k];
      i := k;
    }
  }

  lemma AcceptedEarlier(ops: seq<Op>, j: nat, a: nat, q: int)
    requires j <= a <= |ops| && AcceptedIn(ops[..j], q)
    ensures AcceptedIn(ops[..a], q)
  {
    var i :| 0 <= i < j && ops[..j][i].Accept? && ops[..j][i].inboundSeq == q;
    assert ops[..a][i].Accept?;
  }

  lemma NothingDisturbs(ops: seq<Op>, r: nat, a: nat, q: int)
    requires RegisteredOnce(ops) && DroppedLate(ops) && r < a < |ops| && ops[r].Register? && ops[r].inboundSeq == q
    requires !AcceptedIn(ops[..a], q)
    ensures Undisturbed(ops, r, a, q)
  {
    hide Known;
    forall j: nat | r < j < a ensures !DropsAt(ops, j, q) {
      if DropsAt(ops, j, q) {
        AcceptedEarlier(ops, j, a, q);
      }
    }
  }

  /**
   While no acceptance is evicted before the registration of its message, no trigger is cleaned up between the
   two, and every message is registered once, a channel's watermark is the greatest of its direct advances and of the marks registered since its
   last reset whose message was accepted at any time. That says nothing about the order in which the two arrive.
  */
  lemma {:induction false} WatermarkIsMaximum(ops: seq<Op>, channel: Channel)
    requires Remembered(ops) && RegisteredOnce(ops) && DroppedLate(ops)
    ensures IsHighest(ops, Contributions(ops, channel), High(Run(ops), channel))
  {
    WatermarkInEveryRun(ops, channel);
    forall r: nat {
      CountsWhenAccepted(ops, r, channel);
    }
    hide Counts, Contributes, IsHighest, Run;
    assert Counted(ops, channel) == Contributions(ops, channel);
  }

  /** In any other run it is that maximum exactly if no accepted registration that was missed has a greater mark. */
  lemma {:induction false} MissedMarksDecide(ops: seq<Op>, channel: Channel)
    ensures IsHighest(ops, Contributions(ops, channel), High(Run(ops), channel)) <==>
            forall r | r in Contributions(ops, channel) && !Counts(ops, r, channel) :: MarkAt(ops, r) <= High(Run(ops), channel)
  {
    WatermarkInEveryRun(ops, channel);
    forall r: nat | Counts(ops, r, channel) ensures Contributes(ops, r, channel) {
      CountedWasAccepted(ops, r, channel);
    }
    assert Counted(ops, channel) <= Contributions(ops, channel);
    hide Counts, Contributes, Run;
  }

  predicate Timed(op: Op) {
    op.Register? || op.Accept?
  }

  /** The list an operation prunes. */
  function BeforePruning(s: State, op: Op): seq<(int, Time)> {
    if op.Accept? then Without(s.accepted, op.inboundSeq) + [(op.inboundSeq, op.now)] else s.accepted
  }

  /** The operation at `i` finds nothing to evict. */
  predicate Keeps(ops: seq<Op>, i: nat) {
    i < |ops| && Timed(ops[i]) && (ops[i].Accept? ==> ops[i].inboundSeq > 0) ==>
      var list := BeforePruning(Run(ops[..i]), ops[i]); Pruned(list, ops[i].now) == list
  }

  /** No acceptance is ever evicted. */
  ghost predicate NothingEvicted(ops: seq<Op>) {
    forall i: nat :: Keeps(ops, i)
  }

  lemma {:induction false} KeepsPrefix(ops: seq<Op>, n: nat)
    requires NothingEvicted(ops) && n <= |ops|
    ensures NothingEvicted(ops[..n])
  {
    forall i: nat | i < n ensures Keeps(ops[..n], i) {
      assert ops[..n][..i] == ops[..i] && ops[..n][i] == ops[i] && Keeps(ops, i);
    }
  }

  /** An operation that evicts nothing forgets nobody. */
  lemma KeepsAccepted(s: State, op: Op, q: int)
    requires Timed(op) && (op.Accept? ==> op.inboundSeq > 0) ==> Pruned(BeforePruning(s, op), op.now) == BeforePruning(s, op)
    requires Accepted(s, q) || (op.Accept? && op.inboundSeq == q > 0)
    ensures Accepted(Apply(s, op), q)
  {
    var t, list := Apply(s, op), BeforePruning(s, op);
    WithoutElements(s.accepted, if op.Accept? then op.inboundSeq else 0);
    AcceptedMember(s, q);
    AcceptedMember(t, q);
    hide Accepted, Pruned, Without;
    if op.Accept? && op.inboundSeq == q > 0 {
      assert list[|list| - 1] == (q, op.now);
      assert list[|list| - 1] in t.accepted;
    } else {
      var e :| e in s.accepted && e.0 == q;
      assert e in t.accepted;
    }
  }

  lemma {:induction false} AllRemembered(ops: seq<Op>, q: int)
    requires NothingEvicted(ops) && AcceptedIn(ops, q)
    ensures Accepted(Run(ops), q)
  {
    var n := |ops| - 1;
    var init, op := ops[..n], ops[n];
    assert Keeps(ops, n);
    if !(op.Accept? && op.inboundSeq == q) {
      var i :| 0 <= i < |ops| && ops[i].Accept? && ops[i].inboundSeq == q;
      assert init[i] == ops[i];
      KeepsPrefix(ops, n);
      AllRemembered(init, q);
    }
    hide Apply, Pruned, Accepted, BeforePruning;
    KeepsAccepted(Run(init), op, q);
  }

  /** Without any eviction nothing is forgotten too early. */
  lemma {:induction false} NothingEvictedIsRemembered(ops: seq<Op>)
    requires NothingEvicted(ops)
    ensures Remembered(ops)
  {
    forall r: nat | r < |ops| && ops[r].Register? && AcceptedIn(ops[..r], ops[r].inboundSeq) ensures Known(ops, r) {
      KeepsPrefix(ops, r);
      AllRemembered(ops[..r], ops[r].inboundSeq);
      assert Keeps(ops, r);
    }
  }

  function Accepts(ops: seq<Op>): nat {
    if ops == [] then 0 else Accepts(ops[..|ops| - 1]) + if ops[|ops| - 1].Accept? then 1 else 0
  }

  /** At most the limit of acceptances, all within the time to live. */
  ghost predicate Quiet(ops: seq<Op>) {
    && Accepts(ops) <= EARLY_LIMIT
    && forall i, j | 0 <= i < j < |ops| && Timed(ops[i]) && Timed(ops[j]) :: ops[j].now - ops[i].now <= EARLY_TTL
  }

  /** The time was that of an acceptance. */
  predicate AcceptTime(ops: seq<Op>, now: Time) {
    exists i :: 0 <= i < |ops| && ops[i].Accept? && ops[i].now == now
  }

  lemma {:induction false} PrunedShorter(accepted: seq<(int, Time)>, now: Time)
    ensures |Pruned(accepted, now)| <= |accepted|
    decreases |accepted|
  {
    if accepted != [] && !(|accepted| <= EARLY_LIMIT && accepted[0].1 >= now - EARLY_TTL) {
      PrunedShorter(accepted[1..], now);
    }
  }

  /** An operation adds at most the acceptance it is, at its time. */
  lemma AddsItself(s: State, op: Op)
    ensures forall list | list == BeforePruning(s, op) || list == Apply(s, op).accepted ::
              |list| <= |s.accepted| + (if op.Accept? then 1 else 0) && forall e | e in list :: e in s.accepted || (op.Accept? && e.1 == op.now)
  {
    var before := BeforePruning(s, op);
    WithoutElements(s.accepted, if op.Accept? then op.inboundSeq else 0);
    if Timed(op) {
      PrunedIsSuffix(before, op.now);
      PrunedShorter(before, op.now);
    }
    hide Pruned, Without;
  }

  lemma {:induction false} AcceptancesOfRun(ops: seq<Op>)
    ensures |Run(ops).accepted| <= Accepts(ops) && forall e | e in Run(ops).accepted :: AcceptTime(ops, e.1)
  {
    if ops != [] {
      var init, op := ops[..|ops| - 1], ops[|ops| - 1];
      AcceptancesOfRun(init);
      AddsItself(Run(init), op);
      hide Apply;
      forall e | e in Run(ops).accepted ensures AcceptTime(ops, e.1) {
        if e in Run(init).accepted {
          var i :| 0 <= i < |init| && init[i].Accept? && init[i].now == e.1;
          assert ops[i] == init[i];
        } else {
          assert ops[|ops| - 1].Accept?;
        }
      }
    }
  }

  lemma {:induction false} AcceptsOfPrefix(ops: seq<Op>, n: nat)
    requires n <= |ops|
    ensures Accepts(ops[..n]) <= Accepts(ops)
  {
    if n < |ops| {
      assert ops[..|ops| - 1][..n] == ops[..n];
      AcceptsOfPrefix(ops[..|ops| - 1], n);
    } else {
      assert ops[..n] == ops;
    }
  }

  /** So a quiet run evicts nothing. */
  lemma {:induction false} NoneEvicted(ops: seq<Op>)
    requires Quiet(ops)
    ensures NothingEvicted(ops)
  {
    forall i: nat | i < |ops| && Timed(ops[i]) ensures Keeps(ops, i) {
      var before, op := ops[..i], ops[i];
      var list := BeforePruning(Run(before), op);
      AcceptancesOfRun(before);
      AddsItself(Run(before), op);
      AcceptsOfPrefix(ops, i + 1);
      assert ops[..i + 1][..i] == before;
      hide BeforePruning, Run, Apply;
      if list != [] && list[0] in Run(before).accepted {
        var j :| 0 <= j < i && before[j].Accept? && before[j].now == list[0].1;
        assert Timed(ops[j]) && ops[j].now == list[0].1;
      }
    }
  }

  // ---- examples ----

  lemma RunOfTwo(ops: seq<Op>)
    requires |ops| == 2
    ensures Run(ops[..0]) == INIT && Run(ops[..1]) == Apply(INIT, ops[0]) && Run(ops) == Apply(Run(ops[..1]), ops[1])
  {
    assert ops[..1] == [ops[0]] && ops[..1][..0] == [];
  }

  /** A long wait for the acceptance evicts nothing. */
  lemma LateAcceptance(ops: seq<Op>)
    requires ops == [Register(1, "c", 5, None, 0.0), Accept(1, 700.0)]
    ensures NothingEvicted(ops) && High(Run(ops), "c") == 5
  {
    RunOfTwo(ops);
    assert Pruned([], 0.0) == [] && Without([], 1) == [] && Without([], 1) + [(1, 700.0)] == [(1, 700.0)];
    assert Apply(INIT, ops[0]) == INIT.(pending := map[1 := Pending("c", 5)]);
    hide Run;
    forall i: nat ensures Keeps(ops, i) {
    }
  }

  /** A registration whose trigger was cleaned up is not advanced by a late acceptance. */
  lemma DroppedIsMissed(ops: seq<Op>)
    requires ops == [Register(1, "c", 5, None, 0.0), Drop(1), Accept(1, 700.0)]
    ensures High(Run(ops), "c") == -1 && 0 in Contributions(ops, "c") && !DroppedLate(ops)
  {
    var two := ops[..2];
    RunOfTwo(two);
    assert Pruned([], 0.0) == [];
    assert Apply(INIT, ops[0]) == INIT.(pending := map[1 := Pending("c", 5)]);
    assert Run(two) == INIT && Run(ops) == Apply(Run(two), ops[2]);
    hide Run;
    assert ops[2].Accept? && ops[0].Register? && DropsAt(ops, 1, 1);
    assert !AcceptedIn(ops[..1], 1);
  }

  /** An acceptance evicted before the registration is forgotten: the mark is missed. */
  lemma EvictedAcceptanceIsMissed(ops: seq<Op>)
    requires ops == [Accept(1, 0.0), Register(1, "c", 5, None, 700.0)]
    ensures RegisteredOnce(ops) && !Remembered(ops) && High(Run(ops), "c") == -1
    ensures !IsHighest(ops, Contributions(ops, "c"), High(Run(ops), "c"))
  {
    RunOfTwo(ops);
    assert Without([], 1) == [] && Without([], 1) + [(1, 0.0)] == [(1, 0.0)] && Pruned([(1, 0.0)], 0.0) == [(1, 0.0)];
    assert Pruned([(1, 0.0)], 700.0) == Pruned([(1, 0.0)][1..], 700.0) && [(1, 0.0)][1..] == [];
    assert Apply(INIT, ops[0]) == INIT.(accepted := [(1, 0.0)]);
    hide Run;
    assert ops[..1][0].Accept? && ops[0].Accept? && !Known(ops, 1);
    assert AcceptedIn(ops[..1], 1) && 1 in Contributions(ops, "c") && MarkAt(ops, 1) == 5;
  }

  class SessionState {
    var pending: map<int, Pending>
    var high: map<Channel, int>
    var accepted: seq<(int, Time)>
    var generations: map<Channel, nat>

    function Snapshot(): State
      reads this
    {
      State(pending, high, accepted, generations)
    }

    constructor ()
      ensures Snapshot() == INIT
    {
      pending, high, accepted, generations := map[], map[], [], map[];
    }

    /** `_prune_accepted_watermarks`: the oldest acceptances go while there are too many or the oldest is too old. */
    method PruneAccepted(now: Time)
      modifies this`accepted
      ensures accepted == Pruned(old(accepted), now)
      ensures exists n: nat :: Evicts(old(accepted), now, n) && accepted == old(accepted)[n..]
    {
      ghost var _ := PrunedEvicts(accepted, now);
      var cutoff := now - EARLY_TTL;
      while accepted != []
        invariant Pruned(accepted, now) == Pruned(old(accepted), now)
        decreases |accepted|
      {
        if |accepted| <= EARLY_LIMIT {
          if accepted[0].1 >= cutoff {
            break;
          }
        }
        accepted := accepted[1..];
      }
    }

    method AdvanceWatermark(channel: Channel, mark: int) returns (now: int)
      modifies this`high
      ensures Snapshot() == Apply(old(Snapshot()), Advance(channel, mark))
      ensures now == High(Snapshot(), channel) && now >= mark && now >= old(High(Snapshot(), channel))
    {
      var known := if channel in high then high[channel] else -1;
      high := high[channel := if known < mark then mark else known];
      return high[channel];
    }

    method RegisterWatermark(inboundSeq: int, channel: Channel, mark: int, generation: Option<nat>, now: Time)
      modifies this
      ensures Snapshot() == Apply(old(Snapshot()), Register(inboundSeq, channel, mark, generation, now))
    {
      PruneAccepted(now);
      if generation.Some? && generation.value != (if channel in generations then generations[channel] else 0) {
        return;
      }
      if exists i :: 0 <= i < |accepted| && accepted[i].0 == inboundSeq {
        assert Accepted(Snapshot(), inboundSeq);
        var _ := AdvanceWatermark(channel, mark);
      } else {
        pending := pending[inboundSeq := Pending(channel, mark)];
      }
    }

    method AcceptWatermark(inboundSeq: int, now: Time) returns (advanced: Option<(Channel, int)>)
      modifies this
      ensures Snapshot() == Apply(old(Snapshot()), Accept(inboundSeq, now))
      ensures advanced == if inboundSeq > 0 && inboundSeq in old(pending)
                          then Some((old(pending)[inboundSeq].channel, High(Snapshot(), old(pending)[inboundSeq].channel))) else None
    {
      if inboundSeq <= 0 {
        return None;
      }
      accepted := Without(accepted, inboundSeq) + [(inboundSeq, now)];
      PruneAccepted(now);
      if inboundSeq !in pending {
        return None;
      }
      var waiting := pending[inboundSeq];
      pending := pending - {inboundSeq};
      var mark := AdvanceWatermark(waiting.channel, waiting.mark);
      return Some((waiting.channel, mark));
    }

    /** What cleaning up the trigger of a message does to its waiting registration. */
    method DropPending(inboundSeq: int)
      modifies this`pending
      ensures Snapshot() == Apply(old(Snapshot()), Drop(inboundSeq))
    {
      pending := pending - {inboundSeq};
    }

    method ResetChannelWatermark(channel: Channel)
      modifies this
      ensures Snapshot() == Apply(old(Snapshot()), Reset(channel))
    {
      high := high - {channel};
      generations := generations[channel := (if channel in generations then generations[channel] else 0) + 1];
      pending := pending - set q | q in pending && pending[q].channel == channel;
    }
  }
}
