/** What one pass of the flush loop guarantees, whatever the server answers: it keeps the
    tables sound, it releases exactly what was screened out or validly acknowledged, and
    it brings the flush closer to its end. */
module RelayPass {
  import opened Common
  import opened RelayTables
  import opened RelaySelect
  import opened RelayAck
  import opened RelayWorld
  import opened RelayDelivery
  import opened RelayFlush

  // ---- the batch of a pass ------------------------------------------------------------

  lemma BatchIsHeld(f: Flush, env: Env, i: nat)
    requires Inv(f.db)
    ensures BatchOk(f.db.pending, BatchOf(f, env, i), None)
  {
    PickMakesBatch(f.db, PickRequest(f.run.deferred, env.now(i), env.cost));
  }

  lemma UnsafeDrops(batch: seq<Row>, safe: Row -> bool)
    ensures AckKeys(Drops(batch, UnsafeKeys(batch, safe))) == UnsafeKeys(batch, safe)
  {
    DropsKeys(batch, UnsafeKeys(batch, safe));
    assert UnsafeKeys(batch, safe) * Keys(batch) == UnsafeKeys(batch, safe);
  }

  lemma UnsafeIff(batch: seq<Row>, safe: Row -> bool, r: Row)
    requires DistinctKeys(batch) && r in batch
    ensures r.ingestKey in UnsafeKeys(batch, safe) <==> !safe(Bare(r))
  {
    if r.ingestKey in UnsafeKeys(batch, safe) {
      var o :| o in batch && !safe(Bare(o)) && o.ingestKey == r.ingestKey;
      FindUnique(batch, o);
      FindUnique(batch, r);
    }
  }

  /** After screening: the tables, and the rows that are still to be sent. */
  lemma ScreenedOk(f: Flush, env: Env, i: nat)
    requires Inv(f.db)
    ensures var batch := BatchOf(f, env, i);
            var drop := UnsafeKeys(batch, env.safe);
            var g := AfterScreen(f, batch, env, i);
            && Inv(g.db) && g.db.pending == Without(f.db.pending, drop)
            && BatchOk(g.db.pending, Without(batch, drop), None)
  {
    var batch := BatchOf(f, env, i);
    var drop := UnsafeKeys(batch, env.safe);
    BatchIsHeld(f, env, i);
    UnsafeDrops(batch, env.safe);
    ConfirmedRows(f.db, Drops(batch, drop), env.now(i));
    DropKeepsBatch(f.db, drop, batch);
  }

  /** `q` is `p` with its delivery marks moved on; a first attempt is only ever set, to
      `now`, where there was none. */
  predicate Kept(p: seq<Row>, q: seq<Row>, now: i64) {
    && SameRows(p, q)
    && forall i :: 0 <= i < |p| ==>
         q[i].firstAttempt == p[i].firstAttempt || (p[i].firstAttempt.None? && q[i].firstAttempt == Some(now))
  }

  lemma MarkedOk(f: Flush, batch: seq<Row>, now: i64)
    requires Inv(f.db) && BatchOk(f.db.pending, batch, None)
    ensures Inv(AfterStamp(f, batch, now).db)
    ensures BatchOk(AfterStamp(f, batch, now).db.pending, batch, Some(now))
    ensures Kept(f.db.pending, AfterStamp(f, batch, now).db.pending, now)
  {
    var keys := KeysOf(batch);
    forall r | r in f.db.pending && r.ingestKey in keys ensures IsHead(f.db.pending, r) {
      BatchKeysAreHeads(f.db, batch, r);
    }
    StampedInv(f.db, keys, now);
    StampedKept(f.db.pending, keys, now);
    MarkKeepsBatch(f.db, batch, now);
  }

  lemma StampedKept(p: seq<Row>, keys: seq<string>, now: i64)
    ensures Kept(p, Stamped(p, keys, now), now)
  {
    StampedSame(p, keys, now);
    forall i | 0 <= i < |p| { StampedAt(p, keys, now, i); }
  }

  lemma KeptTrans(p: seq<Row>, q: seq<Row>, r: seq<Row>, now: i64)
    requires Kept(p, q, now) && Kept(q, r, now)
    ensures Kept(p, r, now)
  {
  }

  lemma {:induction false} NotedAllOk(t: Tables, batch: seq<Row>, class_: string, now: i64)
    requires Inv(t)
    ensures Kept(t.pending, NotedAll(t.pending, batch, class_), now)
    ensures Inv(t.(pending := NotedAll(t.pending, batch, class_)))
  {
    if batch != [] {
      var init := batch[..|batch| - 1];
      NotedAllOk(t, init, class_, now);
      var u := t.(pending := NotedAll(t.pending, init, class_));
      NotedInv(u, batch[|batch| - 1].ingestKey, class_);
      KeptTrans(t.pending, u.pending, NotedAll(t.pending, batch, class_), now);
    }
  }

  lemma NotedFailedOk(t: Tables, batch: seq<Row>, failed: Option<nat>, now: i64)
    requires Inv(t)
    ensures Kept(t.pending, NotedFailed(t, batch, failed).pending, now)
    ensures Inv(NotedFailed(t, batch, failed))
    ensures NotedFailed(t, batch, failed).receipts == t.receipts
  {
    if failed.Some? && failed.value < |batch| {
      NotedInv(t, batch[failed.value].ingestKey, FAILED_INDEX);
    }
  }

  /** The keys a usable acknowledgement releases. */
  function Acked(batch: seq<Row>, x: Exchange): set<string>
    requires Refusal(batch, x).None?
  {
    AcceptedOfSound(|batch|, x.ack.value);
    AckKeys(Acks(batch, x.ack.value, Validate(|batch|, x.ack.value).value))
  }

  lemma AcksKeys(batch: seq<Row>, ack: BatchAck, accepted: seq<nat>)
    requires forall k :: 0 <= k < |accepted| ==> accepted[k] < |batch|
    ensures forall i :: i in accepted ==> batch[i].ingestKey in AckKeys(Acks(batch, ack, accepted))
    ensures forall k :: k in AckKeys(Acks(batch, ack, accepted)) ==> exists i :: i in accepted && batch[i].ingestKey == k
  {
    var acks := Acks(batch, ack, accepted);
    forall i | i in accepted ensures batch[i].ingestKey in AckKeys(acks) {
      var k :| 0 <= k < |accepted| && accepted[k] == i;
      assert acks[k] in acks;
    }
    forall k | k in AckKeys(acks) ensures exists i :: i in accepted && batch[i].ingestKey == k {
      var j :| 0 <= j < |acks| && acks[j].0 == k;
      assert accepted[j] in accepted;
    }
  }

  lemma {:induction false} DropsOutcome(batch: seq<Row>, drop: set<string>, key: string)
    requires key in AckKeys(Drops(batch, drop))
    ensures FirstOutcome(Drops(batch, drop), key) == "dropped_policy"
  {
    var none: seq<(string, string)> := [];
    assert AckKeys(none) == {};
    if batch == [] {
    } else if batch[|batch| - 1].ingestKey in drop {
      var acks := Drops(batch, drop);
      AckKeysSnoc(acks);
      assert acks[..|acks| - 1] == Drops(batch[..|batch| - 1], drop);
      if key in AckKeys(acks[..|acks| - 1]) {
        DropsOutcome(batch[..|batch| - 1], drop, key);
      }
    } else {
      DropsOutcome(batch[..|batch| - 1], drop, key);
    }
  }

  lemma {:induction false} OutcomeOfKey(acks: seq<(string, string)>, k: nat)
    requires k < |acks| && forall i, j :: 0 <= i < j < |acks| ==> acks[i].0 != acks[j].0
    ensures FirstOutcome(acks, acks[k].0) == acks[k].1
  {
    var init := acks[..|acks| - 1];
    AckKeysSnoc(acks);
    if k < |acks| - 1 {
      assert init[k] in init && init[k] == acks[k];
      OutcomeOfKey(init, k);
    } else {
      forall j | 0 <= j < |init| ensures init[j].0 != acks[k].0 {
        assert init[j] == acks[j];
      }
    }
  }

  lemma SettledOk(f: Flush, batch: seq<Row>, x: Exchange, at: i64, now: i64)
    requires Inv(f.db) && Refusal(batch, x).None?
    ensures Inv(Settled(f, batch, x, at).db)
    ensures Kept(Without(f.db.pending, Acked(batch, x)), Settled(f, batch, x, at).db.pending, now)
  {
    AcceptedOfSound(|batch|, x.ack.value);
    var acks := Acks(batch, x.ack.value, Validate(|batch|, x.ack.value).value);
    ConfirmedRows(f.db, acks, at);
    NotedFailedOk(Confirmed(f.db, acks, at), batch, x.ack.value.failedIndex, now);
  }

  // ---- conservation -----------------------------------------------------------------------

  /** The keys a pass takes out of `pending`: those screened out, and those a usable
      acknowledgement released. */
  function Leaving(f: Flush, env: Env, i: nat): set<string> {
    var batch := BatchOf(f, env, i);
    if !env.budgetLeft(i) || batch == [] then {}
    else
      var drop := UnsafeKeys(batch, env.safe);
      var rest := Without(batch, drop);
      if rest == [] || !env.budgetToSend(i) || Refusal(rest, env.exchange(i, rest)).Some? then drop
      else drop + Acked(rest, env.exchange(i, rest))
  }

  lemma DeliverRows(f: Flush, batch: seq<Row>, env: Env, i: nat)
    requires Inv(f.db) && BatchOk(f.db.pending, batch, None)
    ensures var g := Deliver(f, batch, env, i).f;
            var gone := if !env.budgetToSend(i) || Refusal(batch, env.exchange(i, batch)).Some? then {}
                        else Acked(batch, env.exchange(i, batch));
            && Inv(g.db) && Kept(Without(f.db.pending, gone), g.db.pending, env.now(i))
  {
    var marked := AfterStamp(f, batch, env.now(i));
    MarkedOk(f, batch, env.now(i));
    WithoutNone(f.db.pending, {});
    var x := env.exchange(i, batch);
    if env.budgetToSend(i) {
      if Refusal(batch, x).Some? {
        NotedAllOk(marked.db, batch, ClassOf(Refusal(batch, x).value), env.now(i));
        KeptTrans(f.db.pending, marked.db.pending, Deliver(f, batch, env, i).f.db.pending, env.now(i));
      } else {
        SettledOk(marked, batch, x, env.ackNow(i), env.now(i));
        KeptWithout(f.db.pending, marked.db.pending, Acked(batch, x), env.now(i));
        KeptTrans(Without(f.db.pending, Acked(batch, x)), Without(marked.db.pending, Acked(batch, x)),
                  Deliver(f, batch, env, i).f.db.pending, env.now(i));
      }
    }
  }

  lemma {:induction false} KeptWithout(p: seq<Row>, q: seq<Row>, gone: set<string>, now: i64)
    requires Kept(p, q, now)
    ensures Kept(Without(p, gone), Without(q, gone), now)
  {
    if p != [] {
      KeptWithout(p[..|p| - 1], q[..|q| - 1], gone, now);
    }
  }

  /** Conservation: one pass removes exactly the leaving keys, and everything else stays
      in place and in order, changed only in its delivery marks. */
  lemma RoundConserves(f: Flush, env: Env, i: nat)
    requires Inv(f.db)
    ensures Inv(Round(f, env, i).f.db)
    ensures Kept(Without(f.db.pending, Leaving(f, env, i)), Round(f, env, i).f.db.pending, env.now(i))
  {
    var batch := BatchOf(f, env, i);
    WithoutNone(f.db.pending, {});
    if env.budgetLeft(i) && batch != [] {
      ScreenedOk(f, env, i);
      var drop := UnsafeKeys(batch, env.safe);
      var rest := Without(batch, drop);
      var g := AfterScreen(f, batch, env, i);
      if rest != [] {
        DeliverRows(g, rest, env, i);
        WithoutNone(g.db.pending, {});
        var x := env.exchange(i, rest);
        if env.budgetToSend(i) && Refusal(rest, x).None? {
          WithoutTwice(f.db.pending, drop, Acked(rest, x));
        }
      }
    }
  }

  /** Each released row gets one receipt, with the row's own retry clock and the outcome
      reported for its own index; receipts already held stay as they were. */
  lemma SettledReceipts(f: Flush, batch: seq<Row>, x: Exchange, at: i64, k: nat, r: Row)
    requires Inv(f.db) && DistinctKeys(batch) && Refusal(batch, x).None?
    requires k < |Validate(|batch|, x.ack.value).value|
    requires var i := Validate(|batch|, x.ack.value).value[k]; i < |batch| && r.ingestKey == batch[i].ingestKey
    requires r in f.db.pending
    ensures var ack := x.ack.value;
            var receipts := Settled(f, batch, x, at).db.receipts;
            && r.ingestKey in receipts
            && receipts[r.ingestKey] == Receipt(r.bodySha, AttemptedAt(r), at,
                 if ack.results.None? then "unknown" else Outcome(ack.results.value[k].outcome))
  {
    var ack := x.ack.value;
    AcceptedOfSound(|batch|, ack);
    ValidateIffConsistent(|batch|, ack);
    var accepted := Validate(|batch|, ack).value;
    assert Consistent(|batch|, ack, accepted);
    var acks := Acks(batch, ack, accepted);
    AcksKeys(batch, ack, accepted);
    AcksDistinct(batch, ack, accepted);
    OutcomeOfKey(acks, k);
    OutcomePerIndex(|batch|, ack, accepted, k);
    assert accepted[k] in accepted;
    ConfirmedReceipt(f.db, acks, at, r);
    ConfirmedRows(f.db, acks, at);
    NotedFailedOk(Confirmed(f.db, acks, at), batch, ack.failedIndex, at);
  }

  lemma AcksDistinct(batch: seq<Row>, ack: BatchAck, accepted: seq<nat>)
    requires DistinctKeys(batch) && Ascending(accepted)
    requires forall k :: 0 <= k < |accepted| ==> accepted[k] < |batch|
    ensures var acks := Acks(batch, ack, accepted);
            forall i, j :: 0 <= i < j < |acks| ==> acks[i].0 != acks[j].0
  {
  }

  lemma ScreenedReceipts(f: Flush, env: Env, i: nat, r: Row)
    requires Inv(f.db) && r in f.db.pending && r.ingestKey in UnsafeKeys(BatchOf(f, env, i), env.safe)
    ensures var receipts := AfterScreen(f, BatchOf(f, env, i), env, i).db.receipts;
            && r.ingestKey in receipts
            && receipts[r.ingestKey] == Receipt(r.bodySha, AttemptedAt(r), env.now(i), "dropped_policy")
  {
    var batch := BatchOf(f, env, i);
    var drop := UnsafeKeys(batch, env.safe);
    UnsafeDrops(batch, env.safe);
    ConfirmedReceipt(f.db, Drops(batch, drop), env.now(i), r);
    DropsOutcome(batch, drop, r.ingestKey);
    assert OUTCOMES[4] == "dropped_policy";
  }

  // ---- termination ---------------------------------------------------------------------------

  /** The ids of rows the flush may still work on. */
  function Active(p: seq<Row>, deferred: set<SessionKey>): set<nat> {
    set r | r in p && r.Session() !in deferred :: r.id
  }

  function Work(f: Flush): nat { |Active(f.db.pending, f.run.deferred)| }

  lemma ActiveShrinks(p: seq<Row>, gone: set<string>, q: seq<Row>, d: set<SessionKey>, d': set<SessionKey>)
    requires SameRows(Without(p, gone), q) && d <= d'
    ensures Active(q, d') <= Active(p, d)
  {
    WithoutIn(p, gone);
    forall id | id in Active(q, d') ensures id in Active(p, d) {
      var i :| 0 <= i < |q| && q[i].id == id && q[i].Session() !in d';
      assert Without(p, gone)[i] in Without(p, gone);
    }
  }

  /** A batch row that left, or whose session is now held, is no longer active. */
  lemma ActiveDrops(p: seq<Row>, gone: set<string>, q: seq<Row>, d': set<SessionKey>, b: Row)
    requires Ordered(p) && DistinctKeys(p) && SameRows(Without(p, gone), q) && b in p
    requires b.ingestKey in gone || b.Session() in d'
    ensures b.id !in Active(q, d')
  {
    WithoutIn(p, gone);
    if b.id in Active(q, d') {
      var i :| 0 <= i < |q| && q[i].id == b.id && q[i].Session() !in d';
      var r := Without(p, gone)[i];
      assert r in Without(p, gone);
      SameIdSameRow(p, r, b);
    }
  }

  lemma StrictlySmaller(a: set<nat>, b: set<nat>, x: nat)
    requires a <= b && x in b && x !in a
    ensures |a| < |b|
  {
    SubsetSize(a, b - {x});
  }

  /** The first row of a sent batch is always settled: accepted, or its session held. */
  lemma FirstIsSettled(f: Flush, batch: seq<Row>, x: Exchange, at: i64)
    requires batch != [] && Refusal(batch, x).None?
    ensures f.run.deferred <= Settled(f, batch, x, at).run.deferred
    ensures batch[0].ingestKey in Acked(batch, x) || batch[0].Session() in Settled(f, batch, x, at).run.deferred
  {
    AcceptedOfSound(|batch|, x.ack.value);
    AcksKeys(batch, x.ack.value, Validate(|batch|, x.ack.value).value);
    if 0 !in Validate(|batch|, x.ack.value).value {
      assert Held(x.ack.value, Validate(|batch|, x.ack.value).value, 0);
    }
  }

  lemma ScreeningDecreases(f: Flush, env: Env, i: nat)
    requires Inv(f.db) && env.budgetLeft(i) && Round(f, env, i).Again?
    requires Without(BatchOf(f, env, i), UnsafeKeys(BatchOf(f, env, i), env.safe)) == []
    ensures var g := Round(f, env, i).f;
            Work(g) < Work(f)
  {
    var batch := BatchOf(f, env, i);
    var drop, g := UnsafeKeys(batch, env.safe), Round(f, env, i).f;
    ScreenedOk(f, env, i);
    BatchIsActive(f, env, i, batch[0]);
    WithoutIn(batch, drop);
    assert batch[0] in batch;
    ActiveShrinks(f.db.pending, drop, g.db.pending, f.run.deferred, g.run.deferred);
    ActiveDrops(f.db.pending, drop, g.db.pending, g.run.deferred, batch[0]);
    StrictlySmaller(Active(g.db.pending, g.run.deferred), Active(f.db.pending, f.run.deferred), batch[0].id);
  }

  lemma BatchIsActive(f: Flush, env: Env, i: nat, b: Row)
    requires Inv(f.db) && b in BatchOf(f, env, i)
    ensures b in f.db.pending && b.id in Active(f.db.pending, f.run.deferred)
    ensures IsHead(f.db.pending, b) && !IsExpired(b.firstAttempt, env.now(i))
  {
    SelectionMeaning(f.db.pending, PickRequest(f.run.deferred, env.now(i), env.cost));
  }

  lemma DeliveryDecreases(f: Flush, env: Env, i: nat)
    requires Inv(f.db) && env.budgetLeft(i) && Round(f, env, i).Again?
    requires Without(BatchOf(f, env, i), UnsafeKeys(BatchOf(f, env, i), env.safe)) != []
    ensures var g := Round(f, env, i).f;
            Work(g) < Work(f)
  {
    var batch := BatchOf(f, env, i);
    var rest, g := Without(batch, UnsafeKeys(batch, env.safe)), Round(f, env, i).f;
    var x := env.exchange(i, rest);
    WithoutIn(batch, UnsafeKeys(batch, env.safe));
    assert rest[0] in batch;
    BatchIsActive(f, env, i, rest[0]);
    FirstIsSettled(AfterStamp(AfterScreen(f, batch, env, i), rest, env.now(i)), rest, x, env.ackNow(i));
    RoundConserves(f, env, i);
    var gone := Leaving(f, env, i);
    ActiveShrinks(f.db.pending, gone, g.db.pending, f.run.deferred, g.run.deferred);
    ActiveDrops(f.db.pending, gone, g.db.pending, g.run.deferred, rest[0]);
    StrictlySmaller(Active(g.db.pending, g.run.deferred), Active(f.db.pending, f.run.deferred), rest[0].id);
  }

  /** Every pass that does not end the flush strictly reduces the rows it may still work
      on, whatever valid acknowledgement the server gives. */
  lemma RoundDecreases(f: Flush, env: Env, i: nat)
    requires Inv(f.db) && Round(f, env, i).Again?
    ensures var g := Round(f, env, i).f;
            Work(g) < Work(f)
  {
    if Without(BatchOf(f, env, i), UnsafeKeys(BatchOf(f, env, i), env.safe)) == [] {
      ScreeningDecreases(f, env, i);
    } else {
      DeliveryDecreases(f, env, i);
    }
  }

  lemma PassKeeps(f: Flush, env: Env, i: nat)
    requires Inv(f.db)
    ensures Inv(Round(f, env, i).f.db)
    ensures Round(f, env, i).Again? ==> Work(Round(f, env, i).f) < Work(f)
  {
    RoundConserves(f, env, i);
    if Round(f, env, i).Again? {
      RoundDecreases(f, env, i);
    }
  }

  /** `step` keeps the tables sound and `keep` true, and uses up work unless it stops. */
  ghost predicate Progresses(step: (Flush, nat) -> Pass, keep: Flush -> bool) {
    forall f: Flush, i: nat :: Inv(f.db) && keep(f) ==>
      var pass := step(f, i);
      Inv(pass.f.db) && (pass.Again? ==> keep(pass.f) && Work(pass.f) < Work(f))
  }

  /** A run with more passes than work ends in a pass that stops, from a state in which
      `keep` still holds. */
  lemma {:induction false} RunStops(step: (Flush, nat) -> Pass, keep: Flush -> bool, f: Flush, i: nat, n: nat)
    returns (last: Flush, k: nat)
    requires Progresses(step, keep) && Inv(f.db) && keep(f) && i + Work(f) < n
    ensures i <= k < n && Inv(last.db) && keep(last)
    ensures step(last, k).Stop? && RunPasses(step, f, i, n) == step(last, k).f
    decreases n - i
  {
    match step(f, i)
    case Stop(_) => last, k := f, i;
    case Again(g) => last, k := RunStops(step, keep, g, i + 1, n);
  }

  lemma {:induction false} MorePassesChangeNothing(step: (Flush, nat) -> Pass, f: Flush, i: nat, n: nat, m: nat)
    requires Progresses(step, (g: Flush) => true) && Inv(f.db) && i + Work(f) < n <= m
    ensures RunPasses(step, f, i, n) == RunPasses(step, f, i, m)
    decreases n - i
  {
    match step(f, i)
    case Stop(_) =>
    case Again(g) => MorePassesChangeNothing(step, g, i + 1, n, m);
  }

  lemma PassesProgress(env: Env)
    ensures Progresses(Passes(env), (g: Flush) => true)
  {
    forall f: Flush, i: nat | Inv(f.db)
      ensures var pass := Passes(env)(f, i);
              Inv(pass.f.db) && (pass.Again? ==> Work(pass.f) < Work(f))
    {
      PassKeeps(f, env, i);
    }
  }

  /** The pass limit is never what ends a flush that has one pass more than its active
      rows, whatever the server answers. */
  lemma FlushEndsByItself(f: Flush, env: Env, n: nat, m: nat)
    requires Inv(f.db) && Work(f) < n <= m
    ensures RunPasses(Passes(env), f, 0, n) == RunPasses(Passes(env), f, 0, m)
  {
    PassesProgress(env);
    MorePassesChangeNothing(Passes(env), f, 0, n, m);
  }
}
