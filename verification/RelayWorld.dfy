/** Every order in which a host can run the relay's transactions: one flush at a time,
    enqueues by other processes between any two of its steps, a crash at any point, and
    a server that may answer anything or nothing. The world also remembers what went
    on the wire and what was released, so the delivery guarantees can be stated. */
module RelayWorld {
  import opened Common
  import opened RelayTables
  import opened RelayEnqueue
  import opened RelaySelect
  import opened RelayAck

  /** Where the flush process is; `Idle` when no process holds the flush lock. */
  datatype Phase =
    | Idle
    | Ready(deferred: set<SessionKey>)
    | Picked(deferred: set<SessionKey>, batch: seq<Row>, now: i64)
    | Screened(deferred: set<SessionKey>, batch: seq<Row>, now: i64)
    | Marked(deferred: set<SessionKey>, batch: seq<Row>, now: i64)
    | Sending(deferred: set<SessionKey>, batch: seq<Row>, now: i64, sendNow: i64, start: i64, posts: nat)
    | Settling(deferred: set<SessionKey>, backOff: bool)

  /** A key released from the queue, with the retry clock it had. */
  datatype Release = Release(key: string, firstAttempt: i64)

  /** One request. `lag` is the time between reading the wall clock for the retry window
      and starting the sender's own clock; `after` is what had been released before. */
  datatype Post = Post(at: i64, rows: seq<Row>, lag: int, after: set<Release>)

  datatype World = World(
    db: Tables, phase: Phase, clock: i64, posts: seq<Post>, released: set<Release>)

  datatype Step =
    | Enqueue(es: seq<Event>, now: i64)
    | Begin(now: i64)
    | Pick(now: i64, cost: Row -> nat)
    | Screen(drop: set<string>)
    | Mark
    | Arm(sendNow: i64, start: i64)
    | Transmit(at: i64)
    | Acknowledge(ack: BatchAck, status: nat, at: i64)
    | Charge(key: string, class_: string)
    | Settle
    | Quit

  const MAX_POSTS: nat := 3

  function KeysOf(batch: seq<Row>): seq<string> {
    seq(|batch|, i requires 0 <= i < |batch| => batch[i].ingestKey)
  }

  /** The local policy drops of one batch. */
  function Drops(batch: seq<Row>, drop: set<string>): seq<(string, string)> {
    if batch == [] then []
    else
      var rest := Drops(batch[..|batch| - 1], drop);
      if batch[|batch| - 1].ingestKey in drop then rest + [(batch[|batch| - 1].ingestKey, "dropped_policy")]
      else rest
  }

  /** The retry clock a row has once the batch is stamped at `now`. */
  function StartOf(r: Row, now: i64): i64 { r.firstAttempt.GetOr(now) }

  /** The batch's tightest remaining window. */
  function TtlLeft(batch: seq<Row>, now: i64, sendNow: i64): nat
    requires batch != []
  {
    var last := TtlRemaining(StartOf(batch[|batch| - 1], now), sendNow);
    if |batch| == 1 then last
    else
      var rest := TtlLeft(batch[..|batch| - 1], now, sendNow);
      if last < rest then last else rest
  }

  function Acks(batch: seq<Row>, ack: BatchAck, accepted: seq<nat>): seq<(string, string)>
    requires forall k :: 0 <= k < |accepted| ==> accepted[k] < |batch|
  {
    seq(|accepted|, k requires 0 <= k < |accepted| =>
      (batch[accepted[k]].ingestKey, AcknowledgedOutcome(ack, accepted[k])))
  }

  /** Everything up to the failed item that was not accepted is held for this flush;
      items after it were never tried. */
  predicate Held(ack: BatchAck, accepted: seq<nat>, i: nat) {
    i !in accepted && !(ack.failedIndex.Some? && i > ack.failedIndex.value)
  }

  function Deferral(deferred: set<SessionKey>, batch: seq<Row>, ack: BatchAck, accepted: seq<nat>): set<SessionKey> {
    deferred + set i | 0 <= i < |batch| && Held(ack, accepted, i) :: batch[i].Session()
  }

  function ReleasedBy(t: Tables, acks: seq<(string, string)>): set<Release> {
    set r | r in t.pending && r.ingestKey in AckKeys(acks) :: Release(r.ingestKey, AttemptedAt(r))
  }

  function PickRequest(deferred: set<SessionKey>, now: i64, cost: Row -> nat): Request {
    Request(MAX_BATCH_ITEMS, MAX_BATCH_BYTES, now, deferred, cost)
  }

  /** The sender admits a request while time is left since its own start. Its clock is finer
      than a millisecond, so its last reading may fall in the closing one. */
  predicate InTime(at: i64, start: i64, ttl: nat) { ttl > 0 && at <= start + ttl }

  predicate Enabled(w: World, s: Step) {
    match s
    case Enqueue(es, _) => true
    case Begin(now) => w.phase.Idle? && now >= w.clock
    case Pick(now, _) => w.phase.Ready? && now >= w.clock
    case Screen(_) => w.phase.Picked?
    case Mark => w.phase.Screened?
    case Arm(sendNow, start) => w.phase.Marked? && w.clock <= sendNow <= start
    case Transmit(at) =>
      && w.phase.Sending? && w.phase.batch != [] && w.phase.posts < MAX_POSTS && at >= w.clock
      && InTime(at, w.phase.start, TtlLeft(w.phase.batch, w.phase.now, w.phase.sendNow))
    case Acknowledge(ack, status, at) =>
      && w.phase.Sending? && w.phase.posts > 0 && (status == 200 || status == 429)
      && at >= w.clock && Validate(|w.phase.batch|, ack).Ok?
    case Charge(_, _) => w.phase.Sending? || w.phase.Settling?
    case Settle => w.phase.Settling?
    case Quit => true
  }

  function Apply(w: World, s: Step): World
    requires Enabled(w, s)
  {
    match s
    case Enqueue(es, now) => if Admissible(w.db, es) then w.(db := Enqueued(w.db, es, now)) else w
    case Begin(now) => w.(db := Pruned(w.db, now), phase := Ready({}), clock := now)
    case Pick(now, cost) =>
      var batch := Items(w.db.pending, PickRequest(w.phase.deferred, now, cost));
      w.(phase := if batch == [] then Idle else Picked(w.phase.deferred, batch, now), clock := now)
    case Screen(drop) =>
      var acks := Drops(w.phase.batch, drop);
      var batch := Without(w.phase.batch, drop);
      w.(db := Confirmed(w.db, acks, w.phase.now),
         phase := if batch == [] then Ready(w.phase.deferred) else Screened(w.phase.deferred, batch, w.phase.now),
         released := w.released + ReleasedBy(w.db, acks))
    case Mark =>
      w.(db := w.db.(pending := Stamped(w.db.pending, KeysOf(w.phase.batch), w.phase.now)),
         phase := Marked(w.phase.deferred, w.phase.batch, w.phase.now))
    case Arm(sendNow, start) =>
      w.(phase := Sending(w.phase.deferred, w.phase.batch, w.phase.now, sendNow, start, 0), clock := start)
    case Transmit(at) =>
      w.(phase := w.phase.(posts := w.phase.posts + 1), clock := at,
         posts := w.posts + [Post(at, StampRows(w.phase.batch, w.phase.now), w.phase.start - w.phase.sendNow, w.released)])
    case Acknowledge(ack, status, at) =>
      AcceptedOfSound(|w.phase.batch|, ack);
      var accepted := Validate(|w.phase.batch|, ack).value;
      var acks := Acks(w.phase.batch, ack, accepted);
      w.(db := Confirmed(w.db, acks, at), clock := at,
         phase := Settling(Deferral(w.phase.deferred, w.phase.batch, ack, accepted), status == 429),
         released := w.released + ReleasedBy(w.db, acks))
    case Charge(key, class_) => w.(db := w.db.(pending := Noted(w.db.pending, key, class_)))
    case Settle => w.(phase := if w.phase.backOff then Idle else Ready(w.phase.deferred))
    case Quit => w.(phase := Idle)
  }

  /** The batch as it goes on the wire: every row carries its durable first attempt. */
  function StampRows(batch: seq<Row>, now: i64): seq<Row> {
    seq(|batch|, i requires 0 <= i < |batch| => batch[i].(firstAttempt := Some(StartOf(batch[i], now))))
  }

  predicate Initial(w: World) { w == World(EMPTY, Idle, w.clock, [], {}) }

  predicate IsRun(ws: seq<World>, steps: seq<Step>) {
    && |ws| == |steps| + 1
    && Initial(ws[0])
    && forall i :: 0 <= i < |steps| ==> Enabled(ws[i], steps[i]) && ws[i + 1] == Apply(ws[i], steps[i])
  }
}
