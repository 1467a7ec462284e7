/** The flush loop in place: it drives a `Queue` through the passes `RelayFlush`
    specifies, one transaction at a time. */
module RelayFlushLoop {
  import opened Common
  import opened RelayTables
  import opened RelaySelect
  import opened RelayAck
  import opened RelayWorld
  import opened RelayDelivery
  import opened RelayFlush
  import opened RelayPass
  import opened RelayQueue

  /** Sort one batch into what may be sent and what leaves as a local policy drop. */
  method SortBatch(batch: seq<Row>, safe: Row -> bool) returns (rest: seq<Row>, drops: seq<(string, string)>)
    requires DistinctKeys(batch)
    ensures rest == Without(batch, UnsafeKeys(batch, safe))
    ensures drops == Drops(batch, UnsafeKeys(batch, safe))
  {
    rest, drops := [], [];
    ghost var drop := UnsafeKeys(batch, safe);
    for i := 0 to |batch|
      invariant rest == Without(batch[..i], drop)
      invariant drops == Drops(batch[..i], drop)
    {
      UnsafeIff(batch, safe, batch[i]);
      assert batch[..i + 1][..i] == batch[..i];
      if safe(Bare(batch[i])) {
        rest := rest + [batch[i]];
      } else {
        drops := drops + [(batch[i].ingestKey, "dropped_policy")];
      }
    }
    assert batch[..|batch|] == batch;
  }

  /** Charge every row of a batch that is kept whole. */
  method ChargeBatch(q: Queue, batch: seq<Row>, class_: string)
    requires q.Valid()
    modifies q
    ensures q.Valid()
    ensures q.Db() == old(q.Db()).(pending := NotedAll(old(q.pending), batch, class_))
  {
    for i := 0 to |batch|
      invariant q.Valid()
      invariant q.Db() == old(q.Db()).(pending := NotedAll(old(q.pending), batch[..i], class_))
    {
      q.RecordFailure(batch[i].ingestKey, class_);
      assert batch[..i + 1][..i] == batch[..i];
    }
    assert batch[..|batch|] == batch;
  }

  /** Release what the acknowledgement names; hold the sessions it does not excuse. */
  method SettleBatch(q: Queue, run: Tally, batch: seq<Row>, x: Exchange, at: i64) returns (next: Tally)
    requires q.Valid() && Refusal(batch, x).None?
    modifies q
    ensures q.Valid()
    ensures Flush(q.Db(), next) == Settled(Flush(old(q.Db()), run), batch, x, at)
  {
    var ack := x.ack.value;
    var accepted := Validate(|batch|, ack).value;
    AcceptedOfSound(|batch|, ack);
    var moved := q.Confirm(Acks(batch, ack, accepted), at);
    if ack.failedIndex.Some? && ack.failedIndex.value < |batch| {
      q.RecordFailure(batch[ack.failedIndex.value].ingestKey, FAILED_INDEX);
    }
    var deferred := HoldSessions(run.deferred, batch, ack, accepted);
    next := run.(delivered := run.delivered + moved, deferred := deferred, backedOff := x.status == 429);
  }

  method HoldSessions(deferred: set<SessionKey>, batch: seq<Row>, ack: BatchAck, accepted: seq<nat>)
    returns (held: set<SessionKey>)
    ensures held == Deferral(deferred, batch, ack, accepted)
  {
    held := deferred;
    for i := 0 to |batch|
      invariant held == deferred + set j | 0 <= j < i && Held(ack, accepted, j) :: batch[j].Session()
    {
      if i in accepted {
        continue;
      }
      var untried := ack.failedIndex.Some? && i > ack.failedIndex.value;
      if !untried {
        held := held + {batch[i].Session()};
      }
    }
  }

  /** Stamps the rows about to be sent. */
  method StampBatch(q: Queue, run: Tally, batch: seq<Row>, now: i64) returns (next: Tally)
    requires q.Valid() && BatchOk(q.pending, batch, None)
    modifies q
    ensures q.Valid()
    ensures Flush(q.Db(), next) == AfterStamp(Flush(old(q.Db()), run), batch, now)
  {
    BatchKeys(q, batch);
    q.StampAttempt(KeysOf(batch), now);
    next := run.(batches := run.batches + 1);
  }

  /** Keep the whole batch, and say why. */
  method RefuseBatch(q: Queue, run: Tally, batch: seq<Row>, why: Failure) returns (next: Tally)
    requires q.Valid()
    modifies q
    ensures q.Valid()
    ensures Flush(q.Db(), next) == KeptWhole(Flush(old(q.Db()), run), batch, why)
  {
    ChargeBatch(q, batch, ClassOf(why));
    next := run.(failure := Some(why));
  }

  /** Stamp, send and settle. */
  method DeliverBatch(q: Queue, run: Tally, batch: seq<Row>, env: Env, i: nat) returns (next: Tally, again: bool)
    requires q.Valid() && BatchOk(q.pending, batch, None)
    modifies q
    ensures q.Valid()
    ensures Deliver(Flush(old(q.Db()), run), batch, env, i)
            == if again then Again(Flush(q.Db(), next)) else Stop(Flush(q.Db(), next))
  {
    next := StampBatch(q, run, batch, env.now(i));
    again := false;
    if env.budgetToSend(i) {
      var x := env.exchange(i, batch);
      var refusal := Refusal(batch, x);
      if refusal.Some? {
        next := RefuseBatch(q, next, batch, refusal.value);
      } else {
        next := SettleBatch(q, next, batch, x, env.ackNow(i));
        again := x.status != 429;
      }
    }
  }

  lemma BatchKeys(q: Queue, batch: seq<Row>)
    requires q.Valid() && BatchOk(q.pending, batch, None)
    ensures forall r :: r in q.pending && r.ingestKey in KeysOf(batch) ==> IsHead(q.pending, r)
  {
    forall r | r in q.pending && r.ingestKey in KeysOf(batch) ensures IsHead(q.pending, r) {
      BatchKeysAreHeads(q.Db(), batch, r);
    }
  }

  /** Local screening of the selected rows. */
  method ScreenBatch(q: Queue, run: Tally, batch: Batch, env: Env, i: nat) returns (next: Tally, rest: seq<Row>)
    requires q.Valid()
    requires batch.items == BatchOf(Flush(q.Db(), run), env, i)
    requires batch.blockedSessions == Blocked(Flush(q.Db(), run), env, i)
    modifies q
    ensures q.Valid() && BatchOk(q.pending, rest, None)
    ensures rest == Without(batch.items, UnsafeKeys(batch.items, env.safe))
    ensures Flush(q.Db(), next) == AfterScreen(Flush(old(q.Db()), run), batch.items, env, i)
  {
    BatchIsHeld(Flush(q.Db(), run), env, i);
    ScreenedOk(Flush(q.Db(), run), env, i);
    var drops: seq<(string, string)>;
    rest, drops := SortBatch(batch.items, env.safe);
    var dropped := q.Confirm(drops, env.now(i));
    next := run.(droppedUnsafe := run.droppedUnsafe + dropped, blockedSessions := batch.blockedSessions);
  }

  /** One pass of the loop. */
  method RunPass(q: Queue, run: Tally, env: Env, i: nat) returns (next: Tally, again: bool)
    requires q.Valid()
    modifies q
    ensures q.Valid()
    ensures Round(Flush(old(q.Db()), run), env, i)
            == if again then Again(Flush(q.Db(), next)) else Stop(Flush(q.Db(), next))
  {
    next, again := run, false;
    if env.budgetLeft(i) {
      var batch := q.SelectBatch(PickRequest(run.deferred, env.now(i), env.cost));
      if batch.items == [] {
        next := run.(blockedSessions := batch.blockedSessions);
      } else {
        var rest: seq<Row>;
        next, rest := ScreenBatch(q, run, batch, env, i);
        if rest == [] {
          again := true;
        } else {
          next, again := DeliverBatch(q, next, rest, env, i);
        }
      }
    }
  }

  /** `flush`: prune, then deliver until nothing workable is left or something stops it. */
  method FlushLocked(q: Queue, env: Env, maxBatches: nat, pruneNow: i64) returns (run: Tally)
    requires q.Valid()
    modifies q
    ensures q.Valid()
    ensures Flush(q.Db(), run) == RunPasses(Passes(env), Opened(old(q.Db()), pruneNow), 0, maxBatches)
  {
    var _ := q.Prune(pruneNow);
    run := Tally({}, 0, 0, 0, 0, None, false);
    var i := 0;
    while i < maxBatches
      invariant i <= maxBatches && q.Valid()
      invariant RunPasses(Passes(env), Opened(old(q.Db()), pruneNow), 0, maxBatches)
                == RunPasses(Passes(env), Flush(q.Db(), run), i, maxBatches)
    {
      var again: bool;
      run, again := RunPass(q, run, env, i);
      if !again {
        return;
      }
      i := i + 1;
    }
  }
}
