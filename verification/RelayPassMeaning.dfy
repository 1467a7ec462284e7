/** What one pass of a flush does, stated from the reply itself: which rows leave, which marks
    and labels the others get, which sessions are held, what is reported, and whether the
    flush goes on. */
module RelayPassMeaning {
  import opened Common
  import opened RelayTables
  import opened RelaySelect
  import opened RelayAck
  import opened RelayWorld
  import opened RelayDelivery
  import opened RelayFlush
  import opened RelayPass

  // ---- replies ------------------------------------------------------------------------------

  /** A reply to `n` rows that may release some: 200 or 429, readable, within size, and a
      consistent acknowledgement of exactly the rows `released`. */
  predicate Usable(x: Exchange, n: nat, released: seq<nat>) {
    && x.Response? && (x.status == 200 || x.status == 429) && !x.overLimit && x.ack.Some?
    && Consistent(n, x.ack.value, released)
  }

  ghost predicate UsableSomehow(x: Exchange, n: nat) { exists released :: Usable(x, n, released) }

  lemma UsableReply(batch: seq<Row>, x: Exchange, released: seq<nat>)
    requires Usable(x, |batch|, released)
    ensures Refusal(batch, x).None? && Validate(|batch|, x.ack.value) == Ok(released)
  {
    ConsistentPasses(|batch|, x.ack.value, released);
  }

  /** Why a reply releases nothing. */
  ghost predicate Because(x: Exchange, n: nat, why: Failure) {
    match why
    case Transport => x.NoResponse?
    case HttpStatus(status) => x.Response? && x.status == status && status != 200 && status != 429
    case OversizedAck => Read(x) && x.overLimit
    case MalformedAck => Read(x) && !x.overLimit && x.ack.None?
    case InconsistentAck(_) =>
      Read(x) && !x.overLimit && x.ack.Some? && forall released :: !Consistent(n, x.ack.value, released)
  }

  predicate Read(x: Exchange) { x.Response? && (x.status == 200 || x.status == 429) }

  /** Every other reply is refused, for the one reason that fits it. */
  lemma OtherReply(batch: seq<Row>, x: Exchange)
    requires !UsableSomehow(x, |batch|)
    ensures Refusal(batch, x).Some? && Because(x, |batch|, Refusal(batch, x).value)
  {
    if x.Response? && x.ack.Some? {
      ValidateIffConsistent(|batch|, x.ack.value);
      if Validate(|batch|, x.ack.value).Ok? {
        var released :| Consistent(|batch|, x.ack.value, released);
        assert !Usable(x, |batch|, released);
      }
    }
  }

  // ---- the rows of a pass ----------------------------------------------------------------------

  function UnsafeOf(f: Flush, env: Env, i: nat): set<string> { UnsafeKeys(BatchOf(f, env, i), env.safe) }

  /** The rows of the batch that are safe to send. */
  function Rest(f: Flush, env: Env, i: nat): seq<Row> { Without(BatchOf(f, env, i), UnsafeOf(f, env, i)) }

  predicate Picks(f: Flush, env: Env, i: nat) { env.budgetLeft(i) && BatchOf(f, env, i) != [] }

  /** The pass makes a request. */
  predicate Asks(f: Flush, env: Env, i: nat) { Picks(f, env, i) && Rest(f, env, i) != [] && env.budgetToSend(i) }

  function Reply(f: Flush, env: Env, i: nat): Exchange { env.exchange(i, Rest(f, env, i)) }

  lemma {:induction false} CostOfPart(p: seq<Row>, gone: set<string>, cost: Row -> nat)
    ensures Cost(Without(p, gone), cost) <= Cost(p, cost)
  {
    if p != [] {
      CostOfPart(p[..|p| - 1], gone, cost);
      CostSnoc(Without(p[..|p| - 1], gone), p[|p| - 1], cost);
    }
  }

  /** What may be sent: stored heads of distinct sessions, oldest first, not held, not expired,
      safe, at most 256 of them and 8 MiB, or one. A selected row is left out of it only for
      being unsafe. */
  lemma RestMeaning(f: Flush, env: Env, i: nat)
    requires Inv(f.db)
    ensures var batch, rest := BatchOf(f, env, i), Rest(f, env, i);
            && Ordered(rest) && DistinctKeys(rest)
            && |rest| <= 256 && (Cost(rest, env.cost) <= 8 * 1024 * 1024 || |rest| == 1)
            && (forall r :: r in rest <==> r in batch && env.safe(Bare(r)))
            && forall r :: r in rest ==>
                 IsHead(f.db.pending, r) && r.Session() !in f.run.deferred && !IsExpired(r.firstAttempt, env.now(i))
  {
    var batch := BatchOf(f, env, i);
    BatchIsHeld(f, env, i);
    RestIsSafe(batch, env.safe);
    RestIsBounded(f, env, i);
    forall r | r in batch { BatchIsActive(f, env, i, r); }
  }

  lemma RestIsSafe(batch: seq<Row>, safe: Row -> bool)
    requires DistinctKeys(batch)
    ensures DistinctKeys(Without(batch, UnsafeKeys(batch, safe)))
    ensures forall r :: r in Without(batch, UnsafeKeys(batch, safe)) <==> r in batch && safe(Bare(r))
  {
    WithoutIn(batch, UnsafeKeys(batch, safe));
    WithoutOrder(batch, UnsafeKeys(batch, safe));
    forall r | r in batch { UnsafeIff(batch, safe, r); }
  }

  lemma RestIsBounded(f: Flush, env: Env, i: nat)
    requires Inv(f.db)
    ensures var rest := Rest(f, env, i);
            && Ordered(rest) && |rest| <= 256 && (Cost(rest, env.cost) <= 8 * 1024 * 1024 || |rest| == 1)
            && forall r :: r in BatchOf(f, env, i) ==> r.Session() !in f.run.deferred
  {
    var batch, drop := BatchOf(f, env, i), UnsafeOf(f, env, i);
    SelectionMeaning(f.db.pending, PickRequest(f.run.deferred, env.now(i), env.cost));
    WithoutOrder(batch, drop);
    WithoutSize(batch, drop);
    CostOfPart(batch, drop, env.cost);
    if |batch| == 1 && Rest(f, env, i) == [] {
      CostOfNone(env.cost);
    }
  }

  lemma CostOfNone(cost: Row -> nat)
    ensures Cost([], cost) == 0
  {
  }

  // ---- which rows leave -------------------------------------------------------------------------

  /** The keys of the released rows. */
  function KeysAt(batch: seq<Row>, released: seq<nat>): set<string>
    requires forall k :: 0 <= k < |released| ==> released[k] < |batch|
  {
    set k | 0 <= k < |released| :: batch[released[k]].ingestKey
  }

  lemma AckedIs(batch: seq<Row>, x: Exchange, released: seq<nat>)
    requires Usable(x, |batch|, released)
    ensures Refusal(batch, x).None? && Acked(batch, x) == KeysAt(batch, released)
  {
    UsableReply(batch, x, released);
    AcksKeys(batch, x.ack.value, released);
    var keys := AckKeys(Acks(batch, x.ack.value, released));
    forall key | key in KeysAt(batch, released) ensures key in keys {
      var k :| 0 <= k < |released| && batch[released[k]].ingestKey == key;
      assert released[k] in released;
    }
    forall key | key in keys ensures key in KeysAt(batch, released) {
      var i :| i in released && batch[i].ingestKey == key;
    }
  }

  /** A request with a usable reply removes exactly the unsafe rows and those the reply
      releases. */
  lemma AcceptedLeaves(f: Flush, env: Env, i: nat, released: seq<nat>)
    requires Inv(f.db) && Asks(f, env, i) && Usable(Reply(f, env, i), |Rest(f, env, i)|, released)
    ensures var gone := UnsafeOf(f, env, i) + KeysAt(Rest(f, env, i), released);
            Kept(Without(f.db.pending, gone), Round(f, env, i).f.db.pending, env.now(i))
  {
    AckedIs(Rest(f, env, i), Reply(f, env, i), released);
    RoundConserves(f, env, i);
  }

  /** Any other reply, or none asked for, removes the unsafe rows only. */
  lemma OtherwiseLeaves(f: Flush, env: Env, i: nat)
    requires Inv(f.db) && Picks(f, env, i)
    requires Asks(f, env, i) ==> !UsableSomehow(Reply(f, env, i), |Rest(f, env, i)|)
    ensures Kept(Without(f.db.pending, UnsafeOf(f, env, i)), Round(f, env, i).f.db.pending, env.now(i))
  {
    if Asks(f, env, i) {
      OtherReply(Rest(f, env, i), Reply(f, env, i));
    }
    RoundConserves(f, env, i);
  }

  // ---- whether the flush goes on ------------------------------------------------------------------

  /** A usable 429 ends the flush, backing off and without a failure; a usable 200 goes on. */
  lemma AcceptedGoesOn(f: Flush, env: Env, i: nat, released: seq<nat>)
    requires Asks(f, env, i) && Usable(Reply(f, env, i), |Rest(f, env, i)|, released)
    ensures Round(f, env, i).Stop? <==> Reply(f, env, i).status == 429
    ensures Round(f, env, i).f.run.backedOff <==> Reply(f, env, i).status == 429
    ensures Round(f, env, i).f.run.failure == f.run.failure
  {
    UsableReply(Rest(f, env, i), Reply(f, env, i), released);
  }

  /** Any other reply ends the flush with a failure, the one that fits the reply. */
  lemma RefusedStops(f: Flush, env: Env, i: nat)
    requires Asks(f, env, i) && !UsableSomehow(Reply(f, env, i), |Rest(f, env, i)|)
    ensures Round(f, env, i).Stop?
    ensures var run := Round(f, env, i).f.run;
            && run.failure.Some? && Because(Reply(f, env, i), |Rest(f, env, i)|, run.failure.value)
            && run.backedOff == f.run.backedOff
  {
    OtherReply(Rest(f, env, i), Reply(f, env, i));
  }

  /** A pass that asks for nothing goes on only if it had rows to drop and none to send. */
  lemma SilentGoesOn(f: Flush, env: Env, i: nat)
    requires !Asks(f, env, i)
    ensures Round(f, env, i).Again? <==> Picks(f, env, i) && Rest(f, env, i) == []
    ensures Round(f, env, i).f.run.failure == f.run.failure
    ensures Round(f, env, i).f.run.backedOff == f.run.backedOff
  {
  }

  // ---- marks and labels -------------------------------------------------------------------------

  /** `r` once it was sent, if its key is in `sent`, and charged, if its key is in `charged`. */
  function MarkedRow(r: Row, sent: set<string>, now: i64, charged: set<string>, class_: string): Row {
    var tried :=
      if r.ingestKey in sent then r.(firstAttempt := Some(r.firstAttempt.GetOr(now)), attempts := r.attempts + 1)
      else r;
    if r.ingestKey in charged then tried.(lastError := Some(Label(class_))) else tried
  }

  /** `q` is `p`, row by row, with those marks and no other change. */
  predicate Marked(p: seq<Row>, q: seq<Row>, sent: set<string>, now: i64, charged: set<string>, class_: string) {
    |p| == |q| && forall i :: 0 <= i < |p| ==> q[i] == MarkedRow(p[i], sent, now, charged, class_)
  }

  lemma CountOnce(batch: seq<Row>, r: Row)
    requires DistinctKeys(batch)
    ensures Count(KeysOf(batch), r.ingestKey) == if r.ingestKey in Keys(batch) then 1 else 0
    ensures r.ingestKey in KeysOf(batch) <==> r.ingestKey in Keys(batch)
  {
    KeysOfKeys(batch);
    if r.ingestKey in Keys(batch) {
      var o :| o in batch && o.ingestKey == r.ingestKey;
      var k :| 0 <= k < |batch| && batch[k] == o;
      CountAt(KeysOf(batch), k);
    } else {
      CountNone(KeysOf(batch), r.ingestKey);
    }
  }

  lemma KeysOfKeys(batch: seq<Row>)
    ensures forall key :: key in KeysOf(batch) <==> key in Keys(batch)
  {
    forall key | key in Keys(batch) ensures key in KeysOf(batch) {
      var k :| 0 <= k < |batch| && batch[k].ingestKey == key;
      assert KeysOf(batch)[k] == key;
    }
    forall key | key in KeysOf(batch) ensures key in Keys(batch) {
      var k :| 0 <= k < |batch| && KeysOf(batch)[k] == key;
      assert batch[k] in batch;
    }
  }

  lemma {:induction false} CountNone(keys: seq<string>, key: string)
    requires key !in keys
    ensures Count(keys, key) == 0
  {
    if keys != [] {
      CountNone(keys[..|keys| - 1], key);
    }
  }

  lemma {:induction false} CountAt(keys: seq<string>, k: nat)
    requires k < |keys| && forall i, j :: 0 <= i < j < |keys| ==> keys[i] != keys[j]
    ensures Count(keys, keys[k]) == 1
  {
    var init := keys[..|keys| - 1];
    if k < |init| {
      assert init[k] == keys[k];
      CountAt(init, k);
    } else {
      CountNone(init, keys[k]);
    }
  }

  lemma StampMarks(p: seq<Row>, batch: seq<Row>, now: i64, class_: string)
    requires DistinctKeys(batch)
    ensures Marked(p, Stamped(p, KeysOf(batch), now), Keys(batch), now, {}, class_)
  {
    StampedSame(p, KeysOf(batch), now);
    forall i | 0 <= i < |p|
      ensures Stamped(p, KeysOf(batch), now)[i] == MarkedRow(p[i], Keys(batch), now, {}, class_)
    {
      StampedCounts(p, KeysOf(batch), now, i);
      CountOnce(batch, p[i]);
    }
  }

  lemma NoteMarks(p: seq<Row>, key: string, now: i64, class_: string)
    ensures Marked(p, Noted(p, key, class_), {}, now, {key}, class_)
  {
    NotedMeaning(p, key, class_);
  }

  lemma ChargeTwice(
    p: seq<Row>, q: seq<Row>, r: seq<Row>, sent: set<string>, now: i64, a: set<string>, b: set<string>, class_: string)
    requires Marked(p, q, sent, now, a, class_) && Marked(q, r, {}, now, b, class_)
    ensures Marked(p, r, sent, now, a + b, class_)
  {
    forall i | 0 <= i < |p| ensures r[i] == MarkedRow(p[i], sent, now, a + b, class_) {
      assert q[i] == MarkedRow(p[i], sent, now, a, class_);
    }
  }

  lemma Unmarked(p: seq<Row>, now: i64, class_: string)
    ensures Marked(p, p, {}, now, {}, class_)
  {
  }

  lemma {:induction false} ChargeMarks(p: seq<Row>, batch: seq<Row>, now: i64, class_: string)
    ensures Marked(p, NotedAll(p, batch, class_), {}, now, Keys(batch), class_)
  {
    if batch == [] {
      Unmarked(p, now, class_);
      assert Keys(batch) == {};
    } else {
      var init, last := batch[..|batch| - 1], batch[|batch| - 1];
      ChargeMarks(p, init, now, class_);
      NoteMarks(NotedAll(p, init, class_), last.ingestKey, now, class_);
      ChargeTwice(p, NotedAll(p, init, class_), NotedAll(p, batch, class_), {}, now, Keys(init), {last.ingestKey}, class_);
      KeysSnoc(init, last);
      assert init + [last] == batch;
    }
  }

  lemma KeysSnoc(init: seq<Row>, last: Row)
    ensures Keys(init + [last]) == Keys(init) + {last.ingestKey}
  {
    assert forall r :: r in init + [last] <==> r in init || r == last;
  }

  lemma {:induction false} MarkedWithout(
    p: seq<Row>, q: seq<Row>, gone: set<string>, sent: set<string>, now: i64, charged: set<string>, class_: string)
    requires Marked(p, q, sent, now, charged, class_)
    ensures Marked(Without(p, gone), Without(q, gone), sent, now, charged, class_)
  {
    if p != [] {
      MarkedWithout(p[..|p| - 1], q[..|q| - 1], gone, sent, now, charged, class_);
    }
  }

  /** The key an acknowledgement reports as failed. */
  function FailedKey(batch: seq<Row>, ack: BatchAck): set<string> {
    if ack.failedIndex.Some? && ack.failedIndex.value < |batch| then {batch[ack.failedIndex.value].ingestKey} else {}
  }

  lemma FailedMarks(t: Tables, batch: seq<Row>, ack: BatchAck, now: i64)
    ensures Marked(t.pending, NotedFailed(t, batch, ack.failedIndex).pending, {}, now, FailedKey(batch, ack), FAILED_INDEX)
  {
    if ack.failedIndex.Some? && ack.failedIndex.value < |batch| {
      NoteMarks(t.pending, batch[ack.failedIndex.value].ingestKey, now, FAILED_INDEX);
    } else {
      Unmarked(t.pending, now, FAILED_INDEX);
    }
  }

  lemma SettledRows(f: Flush, batch: seq<Row>, x: Exchange, at: i64, now: i64, released: seq<nat>)
    requires Inv(f.db) && Usable(x, |batch|, released) && Refusal(batch, x).None?
    ensures Marked(Without(f.db.pending, KeysAt(batch, released)), Settled(f, batch, x, at).db.pending,
                   {}, now, FailedKey(batch, x.ack.value), FAILED_INDEX)
  {
    UsableReply(batch, x, released);
    AckedIs(batch, x, released);
    var acks := Acks(batch, x.ack.value, released);
    ConfirmedRows(f.db, acks, at);
    FailedMarks(Confirmed(f.db, acks, at), batch, x.ack.value, now);
  }

  lemma DeliveredRows(f: Flush, batch: seq<Row>, env: Env, i: nat, released: seq<nat>)
    requires Inv(f.db) && BatchOk(f.db.pending, batch, None) && env.budgetToSend(i)
    requires Usable(env.exchange(i, batch), |batch|, released)
    ensures Marked(Without(f.db.pending, KeysAt(batch, released)), Deliver(f, batch, env, i).f.db.pending,
                   Keys(batch), env.now(i), FailedKey(batch, env.exchange(i, batch).ack.value), FAILED_INDEX)
  {
    var marked, x := AfterStamp(f, batch, env.now(i)), env.exchange(i, batch);
    UsableReply(batch, x, released);
    StampedTables(f, batch, env.now(i));
    SettledRows(marked, batch, x, env.ackNow(i), env.now(i), released);
    StampAndSettle(f.db.pending, batch, env.now(i), KeysAt(batch, released), FailedKey(batch, x.ack.value),
                   Deliver(f, batch, env, i).f.db.pending);
  }

  lemma StampedTables(f: Flush, batch: seq<Row>, now: i64)
    requires Inv(f.db) && BatchOk(f.db.pending, batch, None)
    ensures Inv(AfterStamp(f, batch, now).db)
  {
    MarkedOk(f, batch, now);
  }

  lemma StampAndSettle(p: seq<Row>, batch: seq<Row>, now: i64, gone: set<string>, failed: set<string>, q: seq<Row>)
    requires DistinctKeys(batch)
    requires Marked(Without(Stamped(p, KeysOf(batch), now), gone), q, {}, now, failed, FAILED_INDEX)
    ensures Marked(Without(p, gone), q, Keys(batch), now, failed, FAILED_INDEX)
  {
    var stamped := Stamped(p, KeysOf(batch), now);
    StampMarks(p, batch, now, FAILED_INDEX);
    MarkedWithout(p, stamped, gone, Keys(batch), now, {}, FAILED_INDEX);
    ChargeTwice(Without(p, gone), Without(stamped, gone), q, Keys(batch), now, {}, failed, FAILED_INDEX);
    assert {} + failed == failed;
  }

  lemma ScreenedRows(f: Flush, env: Env, i: nat)
    requires Inv(f.db)
    ensures AfterScreen(f, BatchOf(f, env, i), env, i).db.pending == Without(f.db.pending, UnsafeOf(f, env, i))
  {
    ScreenedOk(f, env, i);
  }

  /** A request with a usable reply, row by row: the unsafe and the released rows leave, the
      other rows sent are stamped and count one more attempt, the row reported as failed is
      labelled so, and nothing else changes. */
  lemma AcceptedRows(f: Flush, env: Env, i: nat, released: seq<nat>)
    requires Inv(f.db) && Asks(f, env, i) && Usable(Reply(f, env, i), |Rest(f, env, i)|, released)
    ensures var rest := Rest(f, env, i);
            Marked(Without(f.db.pending, UnsafeOf(f, env, i) + KeysAt(rest, released)), Round(f, env, i).f.db.pending,
                   Keys(rest), env.now(i), FailedKey(rest, Reply(f, env, i).ack.value), FAILED_INDEX)
  {
    ScreenedOk(f, env, i);
    var rest := Rest(f, env, i);
    DeliveredRows(AfterScreen(f, BatchOf(f, env, i), env, i), rest, env, i, released);
    WithoutTwice(f.db.pending, UnsafeOf(f, env, i), KeysAt(rest, released));
  }

  /** A refused request, row by row: the unsafe rows leave, each row sent is stamped, counts one
      more attempt and is labelled with what the flush failed of, and nothing else changes. */
  lemma RefusedRows(f: Flush, env: Env, i: nat)
    requires Inv(f.db) && Asks(f, env, i) && !UsableSomehow(Reply(f, env, i), |Rest(f, env, i)|)
    ensures var g := Round(f, env, i).f;
            && g.run.failure.Some?
            && Marked(Without(f.db.pending, UnsafeOf(f, env, i)), g.db.pending,
                      Keys(Rest(f, env, i)), env.now(i), Keys(Rest(f, env, i)), ClassOf(g.run.failure.value))
  {
    RestMeaning(f, env, i);
    ScreenedRows(f, env, i);
    RefusedDelivery(AfterScreen(f, BatchOf(f, env, i), env, i), Rest(f, env, i), env, i);
  }

  lemma RefusedDelivery(f: Flush, batch: seq<Row>, env: Env, i: nat)
    requires DistinctKeys(batch) && env.budgetToSend(i) && !UsableSomehow(env.exchange(i, batch), |batch|)
    ensures var g := Deliver(f, batch, env, i).f;
            && g.run.failure.Some?
            && Marked(f.db.pending, g.db.pending, Keys(batch), env.now(i), Keys(batch), ClassOf(g.run.failure.value))
  {
    OtherReply(batch, env.exchange(i, batch));
    StampAndCharge(f.db.pending, batch, env.now(i), ClassOf(Refusal(batch, env.exchange(i, batch)).value));
  }

  lemma StampAndCharge(p: seq<Row>, batch: seq<Row>, now: i64, class_: string)
    requires DistinctKeys(batch)
    ensures Marked(p, NotedAll(Stamped(p, KeysOf(batch), now), batch, class_), Keys(batch), now, Keys(batch), class_)
  {
    var q := Stamped(p, KeysOf(batch), now);
    StampMarks(p, batch, now, class_);
    ChargeMarks(q, batch, now, class_);
    ChargeTwice(p, q, NotedAll(q, batch, class_), Keys(batch), now, {}, Keys(batch), class_);
    assert {} + Keys(batch) == Keys(batch);
  }

  /** A pass without a request, row by row: the unsafe rows leave, and the others are stamped if
      only the time to send was lacking. */
  lemma SilentRows(f: Flush, env: Env, i: nat, class_: string)
    requires Inv(f.db) && Picks(f, env, i) && !Asks(f, env, i)
    ensures Marked(Without(f.db.pending, UnsafeOf(f, env, i)), Round(f, env, i).f.db.pending,
                   Keys(Rest(f, env, i)), env.now(i), {}, class_)
  {
    ScreenedOk(f, env, i);
    var batch, g := Rest(f, env, i), AfterScreen(f, BatchOf(f, env, i), env, i);
    if batch == [] {
      Unmarked(g.db.pending, env.now(i), class_);
      assert Keys(batch) == {};
    } else {
      StampMarks(g.db.pending, batch, env.now(i), class_);
    }
  }

  /** A label tells what went wrong: the status of a refused reply can be read from it, and each
      other kind of failure has one of its own. */
  lemma ClassTells(a: Failure, b: Failure)
    requires ClassOf(a) == ClassOf(b)
    ensures a == b || (a.InconsistentAck? && b.InconsistentAck?)
  {
    if a.HttpStatus? && b.HttpStatus? {
      assert ClassOf(a)[|"http "|..] == Decimal(a.status);
      assert ClassOf(b)[|"http "|..] == Decimal(b.status);
      DecimalInjective(a.status, b.status);
    } else {
      FirstLetter(a);
      FirstLetter(b);
    }
  }

  lemma FirstLetter(x: Failure)
    ensures ClassOf(x) != []
    ensures ClassOf(x)[0] == match x
                             case Transport => 't'
                             case HttpStatus(_) => 'h'
                             case OversizedAck => 'o'
                             case MalformedAck => 'm'
                             case InconsistentAck(_) => 'i'
  {
  }

  // ---- receipts ------------------------------------------------------------------------------------

  /** The outcome reported for the `k`th released row. */
  function Reported(ack: BatchAck, released: seq<nat>, k: nat): string
    requires ack.results.Some? ==> k < |ack.results.value|
  {
    if ack.results.None? then "unknown" else Outcome(ack.results.value[k].outcome)
  }

  /** What local screening leaves of the receipts: those held, and a policy drop for each unsafe
      row, at the time it was enqueued unless it had been sent before. */
  predicate ScreenedAway(t: Tables, u: Tables, drop: set<string>, now: i64) {
    && u.receipts.Keys == t.receipts.Keys + drop
    && (forall k :: k in t.receipts ==> u.receipts[k] == t.receipts[k])
    && forall r :: r in t.pending && r.ingestKey in drop ==>
         u.receipts[r.ingestKey] == Receipt(r.bodySha, r.firstAttempt.GetOr(r.firstSeen), now, "dropped_policy")
  }

  lemma ScreenedIs(f: Flush, env: Env, i: nat)
    requires Inv(f.db)
    ensures var u := AfterScreen(f, BatchOf(f, env, i), env, i).db;
            && ScreenedAway(f.db, u, UnsafeOf(f, env, i), env.now(i))
            && u.pins == f.db.pins && u.nextId == f.db.nextId
    ensures UnsafeOf(f, env, i) <= Keys(f.db.pending)
  {
    var batch, drop := BatchOf(f, env, i), UnsafeOf(f, env, i);
    UnsafeDrops(batch, env.safe);
    ConfirmedMeaning(f.db, Drops(batch, drop), env.now(i));
    forall r | r in batch ensures r.ingestKey in Keys(f.db.pending) { BatchIsActive(f, env, i, r); }
    forall r | r in f.db.pending && r.ingestKey in drop { ScreenedReceipts(f, env, i, r); }
  }

  /** A refused request adds no receipt but those of the unsafe rows, and so does a pass without
      a request. */
  lemma OtherwiseReceipts(f: Flush, env: Env, i: nat)
    requires Inv(f.db) && Picks(f, env, i)
    requires Asks(f, env, i) ==> !UsableSomehow(Reply(f, env, i), |Rest(f, env, i)|)
    ensures ScreenedAway(f.db, Round(f, env, i).f.db, UnsafeOf(f, env, i), env.now(i))
  {
    ScreenedIs(f, env, i);
    if Asks(f, env, i) {
      OtherReply(Rest(f, env, i), Reply(f, env, i));
    }
  }

  /** What a usable reply leaves of the receipts: those held, and one for each released row, with
      its own first attempt and the outcome reported at its own position. */
  predicate ReleasedInto(t: Tables, u: Tables, batch: seq<Row>, ack: BatchAck, released: seq<nat>, now: i64, at: i64)
    requires Consistent(|batch|, ack, released)
  {
    && u.receipts.Keys == t.receipts.Keys + KeysAt(batch, released)
    && (forall k :: k in t.receipts ==> u.receipts[k] == t.receipts[k])
    && forall k :: 0 <= k < |released| ==>
         && batch[released[k]].ingestKey in u.receipts
         && u.receipts[batch[released[k]].ingestKey]
            == Receipt(batch[released[k]].bodySha, batch[released[k]].firstAttempt.GetOr(now), at,
                       Reported(ack, released, k))
  }

  lemma SentIsStored(p: seq<Row>, batch: seq<Row>, now: i64, j: nat) returns (o: Row)
    requires BatchOk(p, batch, Some(now)) && j < |batch|
    ensures o in p && SameEvent(o, batch[j]) && o.firstAttempt == Some(batch[j].firstAttempt.GetOr(now))
  {
    assert batch[j] in batch && HeldHead(p, batch[j], Some(StartOf(batch[j], now)));
    o :| o in p && SameEvent(o, batch[j]) && IsHead(p, o) && o.firstAttempt == Some(StartOf(batch[j], now));
  }

  lemma KeysAtStored(p: seq<Row>, batch: seq<Row>, now: i64, released: seq<nat>)
    requires BatchOk(p, batch, Some(now)) && forall k :: 0 <= k < |released| ==> released[k] < |batch|
    ensures KeysAt(batch, released) <= Keys(p)
  {
    forall k | 0 <= k < |released| ensures batch[released[k]].ingestKey in Keys(p) {
      var o := SentIsStored(p, batch, now, released[k]);
    }
  }

  lemma SettledKeys(f: Flush, batch: seq<Row>, x: Exchange, at: i64, now: i64, released: seq<nat>)
    requires Inv(f.db) && BatchOk(f.db.pending, batch, Some(now)) && Usable(x, |batch|, released)
    requires Refusal(batch, x).None?
    ensures var u := Settled(f, batch, x, at).db;
            && u.receipts.Keys == f.db.receipts.Keys + KeysAt(batch, released)
            && (forall k :: k in f.db.receipts ==> u.receipts[k] == f.db.receipts[k])
            && u.pins == f.db.pins && u.nextId == f.db.nextId
  {
    UsableReply(batch, x, released);
    AckedIs(batch, x, released);
    KeysAtStored(f.db.pending, batch, now, released);
    var acks := Acks(batch, x.ack.value, released);
    ConfirmedMeaning(f.db, acks, at);
    assert KeysAt(batch, released) * Keys(f.db.pending) == KeysAt(batch, released);
  }

  lemma SettledReceipt(f: Flush, batch: seq<Row>, x: Exchange, at: i64, now: i64, released: seq<nat>, k: nat)
    requires Inv(f.db) && BatchOk(f.db.pending, batch, Some(now)) && Usable(x, |batch|, released)
    requires Refusal(batch, x).None? && k < |released|
    ensures var r, receipts := batch[released[k]], Settled(f, batch, x, at).db.receipts;
            && r.ingestKey in receipts
            && receipts[r.ingestKey]
               == Receipt(r.bodySha, r.firstAttempt.GetOr(now), at, Reported(x.ack.value, released, k))
  {
    UsableReply(batch, x, released);
    var o := SentIsStored(f.db.pending, batch, now, released[k]);
    SettledReceipts(f, batch, x, at, k, o);
  }

  lemma DeliveredReceipts(f: Flush, batch: seq<Row>, env: Env, i: nat, released: seq<nat>)
    requires Inv(f.db) && BatchOk(f.db.pending, batch, None) && env.budgetToSend(i)
    requires Usable(env.exchange(i, batch), |batch|, released)
    ensures ReleasedInto(f.db, Deliver(f, batch, env, i).f.db, batch, env.exchange(i, batch).ack.value, released,
                         env.now(i), env.ackNow(i))
  {
    var marked, x := AfterStamp(f, batch, env.now(i)), env.exchange(i, batch);
    UsableReply(batch, x, released);
    StampedTables(f, batch, env.now(i));
    MarkKeepsBatch(f.db, batch, env.now(i));
    SettledKeys(marked, batch, x, env.ackNow(i), env.now(i), released);
    forall k | 0 <= k < |released| { SettledReceipt(marked, batch, x, env.ackNow(i), env.now(i), released, k); }
  }

  /** A usable reply, receipt by receipt: between local screening and the end of the pass, exactly
      the released rows get one. */
  lemma AcceptedReceipts(f: Flush, env: Env, i: nat, released: seq<nat>) returns (mid: Tables)
    requires Inv(f.db) && Asks(f, env, i) && Usable(Reply(f, env, i), |Rest(f, env, i)|, released)
    ensures ScreenedAway(f.db, mid, UnsafeOf(f, env, i), env.now(i))
    ensures ReleasedInto(mid, Round(f, env, i).f.db, Rest(f, env, i), Reply(f, env, i).ack.value, released,
                         env.now(i), env.ackNow(i))
  {
    var g := AfterScreen(f, BatchOf(f, env, i), env, i);
    mid := g.db;
    ScreenedIs(f, env, i);
    ScreenedOk(f, env, i);
    DeliveredReceipts(g, Rest(f, env, i), env, i, released);
  }

  // ---- sessions held for the rest of the flush -------------------------------------------------------

  /** The row was tried and not released: nothing says the server stopped before it. */
  predicate TriedInVain(ack: BatchAck, released: seq<nat>, j: nat) {
    j !in released && (ack.failedIndex.None? || j <= ack.failedIndex.value)
  }

  /** A usable reply holds exactly the sessions of rows tried in vain, on top of those held. */
  lemma AcceptedHolds(f: Flush, env: Env, i: nat, released: seq<nat>, s: SessionKey)
    requires Asks(f, env, i) && Usable(Reply(f, env, i), |Rest(f, env, i)|, released)
    ensures var rest, ack := Rest(f, env, i), Reply(f, env, i).ack.value;
            s in Round(f, env, i).f.run.deferred
            <==> || s in f.run.deferred
                 || exists j :: 0 <= j < |rest| && TriedInVain(ack, released, j) && rest[j].Session() == s
  {
    var rest, ack := Rest(f, env, i), Reply(f, env, i).ack.value;
    UsableReply(rest, Reply(f, env, i), released);
    forall j ensures Held(ack, released, j) <==> TriedInVain(ack, released, j) {
    }
  }

  /** Nothing else holds a session. */
  lemma OtherwiseHolds(f: Flush, env: Env, i: nat)
    requires Asks(f, env, i) ==> !UsableSomehow(Reply(f, env, i), |Rest(f, env, i)|)
    ensures Round(f, env, i).f.run.deferred == f.run.deferred
  {
    if Asks(f, env, i) {
      OtherReply(Rest(f, env, i), Reply(f, env, i));
    }
  }

  // ---- the report ---------------------------------------------------------------------------------------

  lemma {:induction false} WithoutCount(p: seq<Row>, gone: set<string>)
    requires DistinctKeys(p) && gone <= Keys(p)
    ensures |Without(p, gone)| == |p| - |gone|
    decreases |gone|
  {
    if gone == {} {
      WithoutNone(p, gone);
    } else {
      var key :| key in gone;
      var others := gone - {key};
      WithoutCount(p, others);
      WithoutTwice(p, others, {key});
      WithoutOrder(p, others);
      WithoutKeys(p, others);
      WithoutOne(Without(p, others), key);
      assert others + {key} == gone;
    }
  }

  lemma {:induction false} KeysAtCount(batch: seq<Row>, released: seq<nat>)
    requires DistinctKeys(batch) && Ascending(released) && forall k :: 0 <= k < |released| ==> released[k] < |batch|
    ensures |KeysAt(batch, released)| == |released|
  {
    if released == [] {
      assert KeysAt(batch, released) == {};
    } else {
      var init, last := released[..|released| - 1], released[|released| - 1];
      KeysAtCount(batch, init);
      assert forall k :: 0 <= k < |init| ==> init[k] == released[k];
      assert KeysAt(batch, released) == KeysAt(batch, init) + {batch[last].ingestKey};
      assert batch[last].ingestKey !in KeysAt(batch, init);
    }
  }

  lemma ScreenedCounts(f: Flush, env: Env, i: nat)
    requires Inv(f.db)
    ensures AfterScreen(f, BatchOf(f, env, i), env, i).run.droppedUnsafe
            == f.run.droppedUnsafe + |UnsafeOf(f, env, i)|
    ensures |Without(f.db.pending, UnsafeOf(f, env, i))| == |f.db.pending| - |UnsafeOf(f, env, i)|
  {
    ScreenedRows(f, env, i);
    ScreenedIs(f, env, i);
    MovedCount(f.db, Drops(BatchOf(f, env, i), UnsafeOf(f, env, i)), env.now(i));
    WithoutCount(f.db.pending, UnsafeOf(f, env, i));
  }

  lemma SettledCounts(f: Flush, batch: seq<Row>, x: Exchange, at: i64, now: i64, released: seq<nat>)
    requires Inv(f.db) && BatchOk(f.db.pending, batch, Some(now)) && Usable(x, |batch|, released)
    requires Refusal(batch, x).None?
    ensures Settled(f, batch, x, at).run.delivered == f.run.delivered + |released|
  {
    UsableReply(batch, x, released);
    AckedIs(batch, x, released);
    var acks := Acks(batch, x.ack.value, released);
    MovedCount(f.db, acks, at);
    ConfirmedRows(f.db, acks, at);
    KeysAtStored(f.db.pending, batch, now, released);
    WithoutCount(f.db.pending, KeysAt(batch, released));
    KeysAtCount(batch, released);
  }

  lemma DeliveredCounts(f: Flush, batch: seq<Row>, env: Env, i: nat, released: seq<nat>)
    requires Inv(f.db) && BatchOk(f.db.pending, batch, None) && env.budgetToSend(i)
    requires Usable(env.exchange(i, batch), |batch|, released)
    ensures var run := Deliver(f, batch, env, i).f.run;
            run.delivered == f.run.delivered + |released| && run.batches == f.run.batches + 1
            && run.droppedUnsafe == f.run.droppedUnsafe
  {
    UsableReply(batch, env.exchange(i, batch), released);
    StampedTables(f, batch, env.now(i));
    MarkKeepsBatch(f.db, batch, env.now(i));
    SettledCounts(AfterStamp(f, batch, env.now(i)), batch, env.exchange(i, batch), env.ackNow(i), env.now(i), released);
  }

  /** A usable reply counts the rows it releases as delivered, one by one. */
  lemma AcceptedCounts(f: Flush, env: Env, i: nat, released: seq<nat>)
    requires Inv(f.db) && Asks(f, env, i) && Usable(Reply(f, env, i), |Rest(f, env, i)|, released)
    ensures var run := Round(f, env, i).f.run;
            && run.delivered == f.run.delivered + |released|
            && run.droppedUnsafe == f.run.droppedUnsafe + |UnsafeOf(f, env, i)|
            && run.batches == f.run.batches + 1
  {
    ScreenedOk(f, env, i);
    ScreenedCounts(f, env, i);
    DeliveredCounts(AfterScreen(f, BatchOf(f, env, i), env, i), Rest(f, env, i), env, i, released);
  }

  /** Nothing else is counted as delivered; a batch counts when its rows are stamped. */
  lemma OtherwiseCounts(f: Flush, env: Env, i: nat)
    requires Inv(f.db) && Picks(f, env, i)
    requires Asks(f, env, i) ==> !UsableSomehow(Reply(f, env, i), |Rest(f, env, i)|)
    ensures var run := Round(f, env, i).f.run;
            && run.delivered == f.run.delivered
            && run.droppedUnsafe == f.run.droppedUnsafe + |UnsafeOf(f, env, i)|
            && run.batches == f.run.batches + if Rest(f, env, i) == [] then 0 else 1
  {
    ScreenedCounts(f, env, i);
    if Asks(f, env, i) {
      OtherReply(Rest(f, env, i), Reply(f, env, i));
    }
  }

  // ---- a whole flush ---------------------------------------------------------------------------------------

  /** What was counted as gone, and what is left. */
  function Balance(f: Flush): int { f.run.delivered + f.run.droppedUnsafe + |f.db.pending| }

  lemma AcceptedBalance(f: Flush, env: Env, i: nat, released: seq<nat>)
    requires Inv(f.db) && Asks(f, env, i) && Usable(Reply(f, env, i), |Rest(f, env, i)|, released)
    ensures Balance(Round(f, env, i).f) == Balance(f)
  {
    var rest := Rest(f, env, i);
    AcceptedCounts(f, env, i, released);
    AcceptedLeaves(f, env, i, released);
    ReleasedAreLeft(f, env, i, released);
    ScreenedCounts(f, env, i);
    WithoutTwice(f.db.pending, UnsafeOf(f, env, i), KeysAt(rest, released));
  }

  lemma ReleasedAreLeft(f: Flush, env: Env, i: nat, released: seq<nat>)
    requires Inv(f.db) && Asks(f, env, i) && Usable(Reply(f, env, i), |Rest(f, env, i)|, released)
    ensures var p := Without(f.db.pending, UnsafeOf(f, env, i));
            |Without(p, KeysAt(Rest(f, env, i), released))| == |p| - |released|
  {
    var p, rest := Without(f.db.pending, UnsafeOf(f, env, i)), Rest(f, env, i);
    ScreenedOk(f, env, i);
    forall k | 0 <= k < |released| ensures rest[released[k]].ingestKey in Keys(p) {
      assert rest[released[k]] in rest && HeldHead(p, rest[released[k]], rest[released[k]].firstAttempt);
    }
    WithoutCount(p, KeysAt(rest, released));
    KeysAtCount(rest, released);
  }

  lemma PassBalance(f: Flush, env: Env, i: nat)
    requires Inv(f.db)
    ensures Inv(Round(f, env, i).f.db) && Balance(Round(f, env, i).f) == Balance(f)
  {
    RoundConserves(f, env, i);
    if Picks(f, env, i) {
      if Asks(f, env, i) && UsableSomehow(Reply(f, env, i), |Rest(f, env, i)|) {
        var released :| Usable(Reply(f, env, i), |Rest(f, env, i)|, released);
        AcceptedBalance(f, env, i, released);
      } else {
        OtherwiseLeaves(f, env, i);
        OtherwiseCounts(f, env, i);
        ScreenedCounts(f, env, i);
      }
    }
  }

  lemma {:induction false} LoopBalance(f: Flush, env: Env, i: nat, n: nat)
    requires Inv(f.db) && i <= n
    ensures Balance(RunPasses(Passes(env), f, i, n)) == Balance(f)
    decreases n - i
  {
    if i < n {
      PassBalance(f, env, i);
      if Round(f, env, i).Again? {
        LoopBalance(Round(f, env, i).f, env, i + 1, n);
      }
    }
  }

  /** The report of a flush adds up: what it counts as delivered and as dropped is exactly what
      left the queue, whatever the server answered. */
  lemma FlushBalance(t: Tables, env: Env, pruneNow: i64, n: nat)
    requires Inv(t)
    ensures var g := RunPasses(Passes(env), Opened(t, pruneNow), 0, n);
            g.run.delivered + g.run.droppedUnsafe == |t.pending| - |g.db.pending|
  {
    PrunedMeaning(t, pruneNow);
    LoopBalance(Opened(t, pruneNow), env, 0, n);
  }

  /** The flush goes on from pass `i` to pass `k`, which it begins with `g`. */
  predicate Reaches(f: Flush, env: Env, i: nat, g: Flush, k: nat)
    requires i <= k
    decreases k - i
  {
    if i == k then f == g else Round(f, env, i).Again? && Reaches(Round(f, env, i).f, env, i + 1, g, k)
  }

  predicate Unreported(f: Flush) { f.run.failure.None? && !f.run.backedOff }

  /** What pass `k` makes of its reply is what the flush reports. */
  ghost predicate Reported429(g: Flush, env: Env, k: nat) {
    Asks(g, env, k) && UsableSomehow(Reply(g, env, k), |Rest(g, env, k)|) && Reply(g, env, k).status == 429
  }

  ghost predicate ReportedFailure(g: Flush, env: Env, k: nat, why: Failure) {
    && Asks(g, env, k) && !UsableSomehow(Reply(g, env, k), |Rest(g, env, k)|)
    && Because(Reply(g, env, k), |Rest(g, env, k)|, why)
  }

  /** The report is that of pass `k`, begun with `g`. */
  ghost predicate Explains(end: Flush, env: Env, g: Flush, k: nat) {
    && (end.run.failure.Some? ==> ReportedFailure(g, env, k, end.run.failure.value))
    && (end.run.backedOff ==> Reported429(g, env, k))
  }

  lemma PassExplains(f: Flush, env: Env, i: nat)
    requires Unreported(f)
    ensures Round(f, env, i).Again? ==> Unreported(Round(f, env, i).f)
    ensures Explains(Round(f, env, i).f, env, f, i)
  {
    if !Asks(f, env, i) {
      SilentGoesOn(f, env, i);
    } else if released :| Usable(Reply(f, env, i), |Rest(f, env, i)|, released) {
      AcceptedGoesOn(f, env, i, released);
    } else {
      RefusedStops(f, env, i);
    }
  }

  /** The loop from pass `i` on ends in pass `k`, begun with `g`, or reports nothing. */
  ghost predicate EndsIn(f: Flush, env: Env, i: nat, n: nat, g: Flush, k: nat)
    requires i <= n
  {
    && i <= k <= n && Reaches(f, env, i, g, k)
    && var end := RunPasses(Passes(env), f, i, n); Unreported(end) || (k < n && Explains(end, env, g, k))
  }

  lemma {:induction false} LoopExplains(f: Flush, env: Env, i: nat, n: nat) returns (g: Flush, k: nat)
    requires Unreported(f) && i <= n
    ensures EndsIn(f, env, i, n, g, k)
    decreases n - i
  {
    g, k := f, i;
    if i < n {
      PassExplains(f, env, i);
      if Round(f, env, i).Again? {
        g, k := LoopExplains(Round(f, env, i).f, env, i + 1, n);
        EndsLater(f, env, i, n, g, k);
      } else {
        EndsHere(f, env, i, n);
      }
    } else {
      EndsUnreported(f, env, i);
    }
  }

  lemma EndsUnreported(f: Flush, env: Env, i: nat)
    requires Unreported(f)
    ensures EndsIn(f, env, i, i, f, i)
  {
  }

  lemma EndsHere(f: Flush, env: Env, i: nat, n: nat)
    requires i < n && Round(f, env, i).Stop? && Explains(Round(f, env, i).f, env, f, i)
    ensures EndsIn(f, env, i, n, f, i)
  {
    LoopStep(f, env, i, n);
  }

  lemma EndsLater(f: Flush, env: Env, i: nat, n: nat, g: Flush, k: nat)
    requires i < n && Round(f, env, i).Again? && EndsIn(Round(f, env, i).f, env, i + 1, n, g, k)
    ensures EndsIn(f, env, i, n, g, k)
  {
    LoopStep(f, env, i, n);
    ReachesBack(f, env, i, g, k);
  }

  lemma LoopStep(f: Flush, env: Env, i: nat, n: nat)
    requires i < n
    ensures RunPasses(Passes(env), f, i, n)
            == if Round(f, env, i).Again? then RunPasses(Passes(env), Round(f, env, i).f, i + 1, n) else Round(f, env, i).f
  {
  }

  lemma ReachesBack(f: Flush, env: Env, i: nat, g: Flush, k: nat)
    requires Round(f, env, i).Again? && i + 1 <= k && Reaches(Round(f, env, i).f, env, i + 1, g, k)
    ensures Reaches(f, env, i, g, k)
  {
  }

  /** A flush that reports a failure, or that it backed off, ended in a pass whose reply was
      refused for that reason, or was a usable 429; without such a pass it reports neither. */
  lemma ReportExplained(t: Tables, env: Env, pruneNow: i64, n: nat) returns (g: Flush, k: nat)
    ensures k <= n && Reaches(Opened(t, pruneNow), env, 0, g, k)
    ensures var end := RunPasses(Passes(env), Opened(t, pruneNow), 0, n);
            Unreported(end) || (k < n && Explains(end, env, g, k))
  {
    g, k := LoopExplains(Opened(t, pruneNow), env, 0, n);
  }

  /** The sessions reported as blocked are those with an expired head, of the rows the last
      selection read. */
  lemma BlockedMeaning(f: Flush, env: Env, i: nat)
    requires Inv(f.db) && env.budgetLeft(i)
    ensures var q := PickRequest(f.run.deferred, env.now(i), env.cost);
            Round(f, env, i).f.run.blockedSessions == |HeadsRead(f.db.pending, q, true)|
  {
    CountsMeaning(f.db.pending, PickRequest(f.run.deferred, env.now(i), env.cost));
    BlockedOnce(f, env, i);
  }

  lemma BlockedOnce(f: Flush, env: Env, i: nat)
    requires env.budgetLeft(i)
    ensures Round(f, env, i).f.run.blockedSessions == Blocked(f, env, i)
  {
    var batch := BatchOf(f, env, i);
    if Rest(f, env, i) != [] {
      BlockedStays(AfterScreen(f, batch, env, i), Rest(f, env, i), env, i);
    }
  }

  lemma BlockedStays(f: Flush, batch: seq<Row>, env: Env, i: nat)
    ensures Deliver(f, batch, env, i).f.run.blockedSessions == f.run.blockedSessions
  {
  }
}
