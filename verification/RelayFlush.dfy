/** One `flush`: the delivery loop, its report, and what one pass of it does. */
module RelayFlush {
  import opened Common
  import opened RelayTables
  import opened RelaySelect
  import opened RelayAck
  import opened RelayWorld

  /** What came back for one batch. `ack` is absent when the body does not parse. */
  datatype Exchange =
    | NoResponse
    | Response(status: nat, overLimit: bool, ack: Option<BatchAck>)

  /** Everything one flush reads from outside, by pass number. */
  datatype Env = Env(
    budgetLeft: nat -> bool,
    now: nat -> i64,
    cost: Row -> nat,
    safe: Row -> bool,
    budgetToSend: nat -> bool,
    sendNow: nat -> i64,
    start: nat -> i64,
    postsAt: (nat, seq<Row>) -> seq<i64>,
    exchange: (nat, seq<Row>) -> Exchange,
    ackNow: nat -> i64)

  datatype Failure =
    | Transport | HttpStatus(status: nat) | OversizedAck | MalformedAck | InconsistentAck(why: Rejection)

  /** The running report of one flush. */
  datatype Tally = Tally(
    deferred: set<SessionKey>, delivered: nat, batches: nat, droppedUnsafe: nat,
    blockedSessions: nat, failure: Option<Failure>, backedOff: bool)

  datatype Flush = Flush(db: Tables, run: Tally)

  datatype Pass = Again(f: Flush) | Stop(f: Flush)

  /** What local screening looks at: the event, not its delivery marks. */
  function Bare(r: Row): Row { r.(firstAttempt := None, attempts := 0, lastError := None) }

  function UnsafeKeys(batch: seq<Row>, safe: Row -> bool): set<string> {
    set r | r in batch && !safe(Bare(r)) :: r.ingestKey
  }

  /** Charge every row of a batch with the same failure. */
  function NotedAll(p: seq<Row>, batch: seq<Row>, class_: string): seq<Row> {
    if batch == [] then p
    else Noted(NotedAll(p, batch[..|batch| - 1], class_), batch[|batch| - 1].ingestKey, class_)
  }

  const FAILED_INDEX := "server reported failed_index"

  function ClassOf(x: Failure): string {
    match x
    case Transport => "transport"
    case HttpStatus(status) => "http " + Decimal(status)
    case OversizedAck => "oversized ack"
    case MalformedAck => "malformed ack"
    case InconsistentAck(_) => "inconsistent ack"
  }

  /** What keeps a whole batch pending: anything but a readable, bounded, consistent
      acknowledgement on 200 or 429. */
  function Refusal(batch: seq<Row>, x: Exchange): Option<Failure> {
    if x.NoResponse? then Some(Transport)
    else if x.status != 200 && x.status != 429 then Some(HttpStatus(x.status))
    else if x.overLimit then Some(OversizedAck)
    else if x.ack.None? then Some(MalformedAck)
    else if Validate(|batch|, x.ack.value).Err? then Some(InconsistentAck(Validate(|batch|, x.ack.value).error))
    else None
  }

  function NotedFailed(t: Tables, batch: seq<Row>, failed: Option<nat>): Tables {
    if failed.Some? && failed.value < |batch|
    then t.(pending := Noted(t.pending, batch[failed.value].ingestKey, FAILED_INDEX))
    else t
  }

  /** After a usable acknowledgement. */
  function Settled(f: Flush, batch: seq<Row>, x: Exchange, at: i64): Flush
    requires Refusal(batch, x).None?
  {
    var ack := x.ack.value;
    var accepted := Validate(|batch|, ack).value;
    AcceptedOfSound(|batch|, ack);
    var acks := Acks(batch, ack, accepted);
    Flush(NotedFailed(Confirmed(f.db, acks, at), batch, ack.failedIndex),
          f.run.(delivered := f.run.delivered + Moved(f.db, acks, at),
                 deferred := Deferral(f.run.deferred, batch, ack, accepted),
                 backedOff := x.status == 429))
  }

  function AfterStamp(f: Flush, batch: seq<Row>, now: i64): Flush {
    Flush(f.db.(pending := Stamped(f.db.pending, KeysOf(batch), now)), f.run.(batches := f.run.batches + 1))
  }

  function KeptWhole(f: Flush, batch: seq<Row>, why: Failure): Flush {
    Flush(f.db.(pending := NotedAll(f.db.pending, batch, ClassOf(why))), f.run.(failure := Some(why)))
  }

  /** Stamp, send and settle the rows that passed local screening. */
  function Deliver(f: Flush, batch: seq<Row>, env: Env, i: nat): Pass {
    var marked := AfterStamp(f, batch, env.now(i));
    if !env.budgetToSend(i) then Stop(marked)
    else
      var x := env.exchange(i, batch);
      var refusal := Refusal(batch, x);
      if refusal.Some? then Stop(KeptWhole(marked, batch, refusal.value))
      else if x.status == 429 then Stop(Settled(marked, batch, x, env.ackNow(i)))
      else Again(Settled(marked, batch, x, env.ackNow(i)))
  }

  function BatchOf(f: Flush, env: Env, i: nat): seq<Row> {
    Items(f.db.pending, PickRequest(f.run.deferred, env.now(i), env.cost))
  }

  /** Rows that fail local sanitation leave as policy drops and are never sent. */
  function AfterScreen(f: Flush, batch: seq<Row>, env: Env, i: nat): Flush {
    var drops := Drops(batch, UnsafeKeys(batch, env.safe));
    Flush(Confirmed(f.db, drops, env.now(i)),
          f.run.(droppedUnsafe := f.run.droppedUnsafe + Moved(f.db, drops, env.now(i)),
                 blockedSessions := Blocked(f, env, i)))
  }

  function Blocked(f: Flush, env: Env, i: nat): nat {
    var q := PickRequest(f.run.deferred, env.now(i), env.cost);
    |Heads(Scanned(f.db.pending, q), q, true)|
  }

  /** One pass of the loop. */
  function Round(f: Flush, env: Env, i: nat): Pass {
    if !env.budgetLeft(i) then Stop(f)
    else
      var batch := BatchOf(f, env, i);
      if batch == [] then Stop(f.(run := f.run.(blockedSessions := Blocked(f, env, i))))
      else
        var rest := Without(batch, UnsafeKeys(batch, env.safe));
        if rest == [] then Again(AfterScreen(f, batch, env, i))
        else Deliver(AfterScreen(f, batch, env, i), rest, env, i)
  }

  /** The loop over any kind of pass, from pass `i` up to `n` passes. */
  function RunPasses(step: (Flush, nat) -> Pass, f: Flush, i: nat, n: nat): Flush
    requires i <= n
    decreases n - i
  {
    if i == n then f
    else
      match step(f, i)
      case Stop(g) => g
      case Again(g) => RunPasses(step, g, i + 1, n)
  }

  function Passes(env: Env): (Flush, nat) -> Pass { (f: Flush, i: nat) => Round(f, env, i) }

  function Opened(t: Tables, now: i64): Flush {
    Flush(Pruned(t, now), Tally({}, 0, 0, 0, 0, None, false))
  }
}
