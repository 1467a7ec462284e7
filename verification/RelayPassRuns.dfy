/** The flush loop is one way of running `RelayWorld`: each pass is a sequence of its
    steps that puts exactly the requests of the pass on the wire. */
module RelayPassRuns {
  import opened Common
  import opened RelayTables
  import opened RelayAck
  import opened RelayWorld
  import opened RelayFlush

  // ---- playing steps ------------------------------------------------------------------------------

  predicate CanPlay(w: World, steps: seq<Step>)
    decreases |steps|, 0
  {
    steps != [] ==> CanPlay(w, steps[..|steps| - 1]) && Enabled(Play(w, steps[..|steps| - 1]), steps[|steps| - 1])
  }

  function Play(w: World, steps: seq<Step>): World
    requires CanPlay(w, steps)
    decreases |steps|, 1
  {
    if steps == [] then w else Apply(Play(w, steps[..|steps| - 1]), steps[|steps| - 1])
  }

  lemma Then(w: World, steps: seq<Step>, s: Step)
    requires CanPlay(w, steps) && Enabled(Play(w, steps), s)
    ensures CanPlay(w, steps + [s]) && Play(w, steps + [s]) == Apply(Play(w, steps), s)
  {
    assert (steps + [s])[..|steps|] == steps;
  }

  lemma {:induction false} ThenAll(w: World, steps: seq<Step>, more: seq<Step>)
    requires CanPlay(w, steps) && CanPlay(Play(w, steps), more)
    ensures CanPlay(w, steps + more) && Play(w, steps + more) == Play(Play(w, steps), more)
  {
    if more == [] {
      assert steps + more == steps;
    } else {
      var init, last := more[..|more| - 1], more[|more| - 1];
      ThenAll(w, steps, init);
      assert (steps + more)[..|steps + more| - 1] == steps + init;
    }
  }

  // ---- what goes on the wire ------------------------------------------------------------------------

  /** One request: when it was admitted, what it carries, and how long before the sender's
      start its window had been measured. */
  datatype Wired = Wired(at: i64, rows: seq<Row>, lag: int)

  function WiredOf(p: Post): Wired { Wired(p.at, p.rows, p.lag) }

  /** From `u` to `v` exactly `out` went on the wire; everything released by `u` was known
      when it did. */
  predicate Puts(u: World, v: World, out: seq<Wired>) {
    && |v.posts| == |u.posts| + |out| && v.posts[..|u.posts|] == u.posts
    && u.released <= v.released
    && forall k :: |u.posts| <= k < |v.posts| ==> WiredOf(v.posts[k]) == out[k - |u.posts|] && u.released <= v.posts[k].after
  }

  lemma PutsThen(u: World, v: World, w: World, x: seq<Wired>, y: seq<Wired>)
    requires Puts(u, v, x) && Puts(v, w, y)
    ensures Puts(u, w, x + y)
  {
    assert w.posts[..|u.posts|] == w.posts[..|v.posts|][..|u.posts|];
    forall k | |u.posts| <= k < |w.posts|
      ensures WiredOf(w.posts[k]) == (x + y)[k - |u.posts|] && u.released <= w.posts[k].after
    {
      assert k < |v.posts| ==> w.posts[k] == w.posts[..|v.posts|][k];
    }
  }

  /** What one step puts there. */
  function OutOf(w: World, s: Step): seq<Wired> {
    if s.Transmit? && w.phase.Sending? then
      [Wired(s.at, StampRows(w.phase.batch, w.phase.now), w.phase.start - w.phase.sendNow)]
    else []
  }

  lemma StepPuts(w: World, s: Step)
    requires Enabled(w, s)
    ensures Puts(w, Apply(w, s), OutOf(w, s))
  {
    assert !s.Transmit? ==> Apply(w, s).posts == w.posts;
  }

  /** Playing `steps` leads from `w` to `v`. */
  predicate Leads(w: World, steps: seq<Step>, v: World) { CanPlay(w, steps) && Play(w, steps) == v }

  lemma LeadsOn(w: World, steps: seq<Step>, v: World, s: Step)
    requires Leads(w, steps, v) && Enabled(v, s)
    ensures Leads(w, steps + [s], Apply(v, s))
  {
    Then(w, steps, s);
  }

  /** And puts `out` on the wire. */
  predicate Plays(w: World, steps: seq<Step>, v: World, out: seq<Wired>) { Leads(w, steps, v) && Puts(w, v, out) }

  lemma PlaysOne(w: World, s: Step)
    requires Enabled(w, s)
    ensures Plays(w, [s], Apply(w, s), OutOf(w, s))
  {
    Then(w, [], s);
    assert [] + [s] == [s];
    StepPuts(w, s);
  }

  lemma PlaysThen(w: World, a: seq<Step>, v: World, x: seq<Wired>, b: seq<Step>, u: World, y: seq<Wired>)
    requires Plays(w, a, v, x) && Plays(v, b, u, y)
    ensures Plays(w, a + b, u, x + y)
  {
    ThenAll(w, a, b);
    PutsThen(w, v, u, x, y);
  }

  /** One more step that sends nothing. */
  lemma PlaysQuietly(w: World, steps: seq<Step>, v: World, out: seq<Wired>, s: Step)
    requires Plays(w, steps, v, out) && Enabled(v, s) && !s.Transmit?
    ensures Plays(w, steps + [s], Apply(v, s), out)
  {
    PlaysOne(v, s);
    PlaysThen(w, steps, v, out, [s], Apply(v, s), []);
    assert out + [] == out;
  }

  /** More steps that send nothing. */
  lemma PlaysOn(w: World, a: seq<Step>, v: World, out: seq<Wired>, b: seq<Step>, u: World)
    requires Plays(w, a, v, out) && Plays(v, b, u, [])
    ensures Plays(w, a + b, u, out)
  {
    PlaysThen(w, a, v, out, b, u, []);
    assert out + [] == out;
  }

  /** Steps that send nothing in front. */
  lemma PlaysAfter(w: World, a: seq<Step>, v: World, b: seq<Step>, u: World, out: seq<Wired>)
    requires Plays(w, a, v, []) && Plays(v, b, u, out)
    ensures Plays(w, a + b, u, out)
  {
    PlaysThen(w, a, v, [], b, u, out);
    assert [] + out == out;
  }

  lemma PlaysNothing(w: World)
    ensures Plays(w, [], w, [])
  {
  }

  // ---- the readings of a flush ----------------------------------------------------------------------

  /** Times at which one call of the sender may admit its requests. */
  predicate Admits(times: seq<i64>, start: i64, ttl: nat) {
    && |times| <= MAX_POSTS
    && (forall k :: 0 <= k < |times| ==> start <= times[k] && InTime(times[k], start, ttl))
    && (forall j, k :: 0 <= j < k < |times| ==> times[j] <= times[k])
  }

  /** The requests of pass `i` for `batch`: admitted in time, and made before any answer. */
  predicate SendsInTime(env: Env, i: nat, batch: seq<Row>)
    requires batch != []
  {
    && Admits(env.postsAt(i, batch), env.start(i), TtlLeft(batch, env.now(i), env.sendNow(i)))
    && (forall t :: t in env.postsAt(i, batch) ==> t <= env.ackNow(i))
    && (env.exchange(i, batch).Response? ==> env.postsAt(i, batch) != [])
  }

  predicate Reads(env: Env, i: nat) {
    env.now(i) <= env.sendNow(i) <= env.start(i) <= env.ackNow(i) <= env.now(i + 1)
  }

  /** The readings of one flush come in the order the loop takes them, and requests are
      made as the sender makes them. */
  ghost predicate InOrder(env: Env) {
    (forall i: nat :: Reads(env, i)) && forall i: nat, batch :: batch != [] ==> SendsInTime(env, i, batch)
  }

  /** What the sender puts on the wire for `batch` in pass `i`, retries included. */
  function Requests(env: Env, i: nat, batch: seq<Row>): seq<Wired> {
    WiredAt(env.postsAt(i, batch), StampRows(batch, env.now(i)), env.start(i) - env.sendNow(i))
  }

  function WiredAt(times: seq<i64>, rows: seq<Row>, lag: int): seq<Wired> {
    if times == [] then [] else WiredAt(times[..|times| - 1], rows, lag) + [Wired(times[|times| - 1], rows, lag)]
  }

  /** What pass `i` puts on the wire, whatever is answered. */
  function PassWire(f: Flush, env: Env, i: nat): seq<Wired> {
    var batch := BatchOf(f, env, i);
    var rest := Without(batch, UnsafeKeys(batch, env.safe));
    if env.budgetLeft(i) && rest != [] && env.budgetToSend(i) then Requests(env, i, rest) else []
  }

  // ---- the parts of a pass ----------------------------------------------------------------------------

  lemma {:induction false} ChargeAll(w: World, batch: seq<Row>, class_: string) returns (steps: seq<Step>)
    requires w.phase.Sending?
    ensures Plays(w, steps, w.(db := w.db.(pending := NotedAll(w.db.pending, batch, class_))), [])
  {
    if batch == [] {
      steps := [];
      PlaysNothing(w);
    } else {
      var n := |batch| - 1;
      steps := ChargeAll(w, batch[..n], class_);
      var v := w.(db := w.db.(pending := NotedAll(w.db.pending, batch[..n], class_)));
      var s := Charge(batch[n].ingestKey, class_);
      PlaysQuietly(w, steps, v, [], s);
      steps := steps + [s];
    }
  }

  /** The world once the sender has made its requests. */
  predicate Transmitted(w: World, v: World, times: seq<i64>)
    requires w.phase.Sending?
  {
    && v.db == w.db && v.phase == w.phase.(posts := w.phase.posts + |times|)
    && v.clock == if times == [] then w.clock else times[|times| - 1]
  }

  lemma {:induction false} TransmitAll(w: World, times: seq<i64>) returns (steps: seq<Step>, v: World)
    requires w.phase.Sending? && w.phase.batch != [] && w.phase.posts == 0 && w.clock == w.phase.start
    requires Admits(times, w.phase.start, TtlLeft(w.phase.batch, w.phase.now, w.phase.sendNow))
    ensures Plays(w, steps, v, WiredAt(times, StampRows(w.phase.batch, w.phase.now), w.phase.start - w.phase.sendNow))
    ensures Transmitted(w, v, times)
  {
    if times == [] {
      steps, v := [], w;
      PlaysNothing(w);
    } else {
      var n := |times| - 1;
      var init: seq<Step>, u: World := TransmitAll(w, times[..n]);
      var s := Transmit(times[n]);
      assert n > 0 ==> times[n - 1] <= times[n];
      PlaysOne(u, s);
      steps, v := init + [s], Apply(u, s);
      PlaysThen(w, init, u, WiredAt(times[..n], StampRows(w.phase.batch, w.phase.now), w.phase.start - w.phase.sendNow),
                [s], v, OutOf(u, s));
    }
  }

  /** Arming the sender and making its requests. */
  lemma SendRuns(w: World, env: Env, i: nat) returns (steps: seq<Step>, v: World)
    requires w.phase.Marked? && w.phase.batch != [] && w.phase.now == env.now(i)
    requires Reads(env, i) && w.clock <= env.sendNow(i) && SendsInTime(env, i, w.phase.batch)
    ensures Plays(w, steps, v, Requests(env, i, w.phase.batch)) && v.db == w.db && v.clock <= env.ackNow(i)
    ensures v.phase == Phase.Sending(w.phase.deferred, w.phase.batch, w.phase.now, env.sendNow(i), env.start(i),
                                     |env.postsAt(i, w.phase.batch)|)
  {
    var arm := Arm(env.sendNow(i), env.start(i));
    PlaysOne(w, arm);
    var u := Apply(w, arm);
    var more: seq<Step>;
    more, v := ArmedRuns(u, env, i);
    steps := [arm] + more;
    PlaysAfter(w, [arm], u, more, v, Requests(env, i, w.phase.batch));
  }

  lemma ArmedRuns(u: World, env: Env, i: nat) returns (steps: seq<Step>, v: World)
    requires u.phase.Sending? && u.phase.batch != [] && u.phase.posts == 0 && u.clock == u.phase.start
    requires u.phase.now == env.now(i) && u.phase.sendNow == env.sendNow(i) && u.phase.start == env.start(i)
    requires env.start(i) <= env.ackNow(i) && SendsInTime(env, i, u.phase.batch)
    ensures Plays(u, steps, v, Requests(env, i, u.phase.batch)) && v.db == u.db && v.clock <= env.ackNow(i)
    ensures v.phase == u.phase.(posts := |env.postsAt(i, u.phase.batch)|)
  {
    LastInTime(env, i, u.phase.batch);
    TimesAdmitted(env, i, u.phase.batch);
    steps, v := TransmitAll(u, env.postsAt(i, u.phase.batch));
  }

  lemma LastInTime(env: Env, i: nat, batch: seq<Row>)
    requires batch != [] && SendsInTime(env, i, batch)
    ensures var times := env.postsAt(i, batch); times != [] ==> times[|times| - 1] <= env.ackNow(i)
  {
    var times := env.postsAt(i, batch);
    assert times != [] ==> times[|times| - 1] in times;
  }

  lemma TimesAdmitted(env: Env, i: nat, batch: seq<Row>)
    requires batch != [] && SendsInTime(env, i, batch)
    ensures Admits(env.postsAt(i, batch), env.start(i), TtlLeft(batch, env.now(i), env.sendNow(i)))
  {
  }

  /** The world a pass leaves behind. */
  predicate Lands(w: World, pass: Pass) {
    w.db == pass.f.db && w.phase == if pass.Again? then Ready(pass.f.run.deferred) else Idle
  }

  /** A refused reply charges the whole batch and ends the flush. */
  lemma RefusedRuns(w: World, f: Flush, batch: seq<Row>, why: Failure) returns (steps: seq<Step>, v: World)
    requires w.phase.Sending? && w.db == f.db
    ensures Plays(w, steps, v, []) && v.clock == w.clock
    ensures Lands(v, Stop(KeptWhole(f, batch, why)))
  {
    var charges := ChargeAll(w, batch, ClassOf(why));
    var u := w.(db := w.db.(pending := NotedAll(w.db.pending, batch, ClassOf(why))));
    PlaysQuietly(w, charges, u, [], Quit);
    steps, v := charges + [Quit], Apply(u, Quit);
  }

  /** A usable one releases, charges the failed event and moves on. */
  lemma SettledRuns(w: World, f: Flush, batch: seq<Row>, x: Exchange, at: i64) returns (steps: seq<Step>, v: World)
    requires w.phase.Sending? && w.phase.batch == batch && w.phase.deferred == f.run.deferred && w.phase.posts > 0
    requires w.db == f.db && w.clock <= at && Refusal(batch, x).None?
    ensures Plays(w, steps, v, []) && v.clock == at && v.db == Settled(f, batch, x, at).db
    ensures v.phase == if x.status == 429 then Idle else Ready(Settled(f, batch, x, at).run.deferred)
  {
    var settle := Acknowledge(x.ack.value, x.status, at);
    PlaysOne(w, settle);
    var u := Apply(w, settle);
    var rest: seq<Step>;
    rest, v := ChargedRuns(u, batch, x.ack.value);
    steps := [settle] + rest;
    PlaysOn(w, [settle], u, [], rest, v);
  }

  /** The event the reply names as failed is charged before the pass moves on. */
  lemma ChargedRuns(w: World, batch: seq<Row>, ack: BatchAck) returns (steps: seq<Step>, v: World)
    requires w.phase.Settling? && Enabled(w, Settle)
    ensures Plays(w, steps, v, [])
    ensures v == Apply(w.(db := NotedFailed(w.db, batch, ack.failedIndex)), Settle)
  {
    steps, v := [], w;
    PlaysNothing(w);
    if ack.failedIndex.Some? && ack.failedIndex.value < |batch| {
      var charge := Charge(batch[ack.failedIndex.value].ingestKey, FAILED_INDEX);
      PlaysQuietly(w, [], w, [], charge);
      steps, v := [] + [charge], Apply(w, charge);
    }
    PlaysQuietly(w, steps, v, [], Settle);
    steps, v := steps + [Settle], Apply(v, Settle);
  }

  /** What follows the requests. */
  lemma AnsweredRuns(w: World, f: Flush, batch: seq<Row>, env: Env, i: nat) returns (steps: seq<Step>, v: World)
    requires w.phase.Sending? && w.phase.batch == batch && w.phase.deferred == f.run.deferred
    requires w.phase.posts == |env.postsAt(i, batch)| && batch != [] && SendsInTime(env, i, batch)
    requires w.db == AfterStamp(f, batch, env.now(i)).db && w.clock <= env.ackNow(i) && env.budgetToSend(i)
    ensures Plays(w, steps, v, []) && Lands(v, Deliver(f, batch, env, i)) && v.clock <= env.ackNow(i)
  {
    var marked := AfterStamp(f, batch, env.now(i));
    var x := env.exchange(i, batch);
    if Refusal(batch, x).Some? {
      steps, v := RefusedRuns(w, marked, batch, Refusal(batch, x).value);
    } else {
      steps, v := SettledRuns(w, marked, batch, x, env.ackNow(i));
    }
  }

  lemma DeliverRuns(w: World, f: Flush, batch: seq<Row>, env: Env, i: nat) returns (steps: seq<Step>, v: World)
    requires w.phase == Phase.Screened(f.run.deferred, batch, env.now(i)) && w.db == f.db
    requires batch != [] && Reads(env, i) && SendsInTime(env, i, batch) && w.clock <= env.now(i)
    ensures Plays(w, steps, v, if env.budgetToSend(i) then Requests(env, i, batch) else [])
    ensures Lands(v, Deliver(f, batch, env, i)) && v.clock <= env.ackNow(i)
  {
    PlaysOne(w, Mark);
    var m := Apply(w, Mark);
    if env.budgetToSend(i) {
      var sends: seq<Step>, u: World := SendRuns(m, env, i);
      var rest: seq<Step>;
      rest, v := AnsweredRuns(u, f, batch, env, i);
      PlaysOn(m, sends, u, Requests(env, i, batch), rest, v);
      PlaysAfter(w, [Mark], m, sends + rest, v, Requests(env, i, batch));
      steps := [Mark] + (sends + rest);
    } else {
      PlaysQuietly(w, [Mark], m, [], Quit);
      steps, v := [Mark] + [Quit], Apply(m, Quit);
    }
  }

  /** Picking a batch and screening it. */
  lemma PickRuns(w: World, f: Flush, env: Env, i: nat) returns (steps: seq<Step>, v: World)
    requires w.phase == Ready(f.run.deferred) && w.db == f.db && w.clock <= env.now(i) && BatchOf(f, env, i) != []
    ensures Plays(w, steps, v, []) && v.db == AfterScreen(f, BatchOf(f, env, i), env, i).db && v.clock == env.now(i)
    ensures var rest := Without(BatchOf(f, env, i), UnsafeKeys(BatchOf(f, env, i), env.safe));
            v.phase == if rest == [] then Ready(f.run.deferred) else Phase.Screened(f.run.deferred, rest, env.now(i))
  {
    var pick := Pick(env.now(i), env.cost);
    PlaysOne(w, pick);
    var u := Apply(w, pick);
    var screen := Screen(UnsafeKeys(BatchOf(f, env, i), env.safe));
    PlaysQuietly(w, [pick], u, [], screen);
    steps, v := [pick] + [screen], Apply(u, screen);
  }

  /** A pass that finds nothing to send, or no time. */
  lemma IdlePass(w: World, f: Flush, env: Env, i: nat) returns (steps: seq<Step>, v: World)
    requires w.phase == Ready(f.run.deferred) && w.db == f.db && w.clock <= env.now(i)
    requires !env.budgetLeft(i) || BatchOf(f, env, i) == []
    ensures Plays(w, steps, v, []) && Lands(v, Round(f, env, i)) && v.clock <= env.now(i)
  {
    var s := if env.budgetLeft(i) then Pick(env.now(i), env.cost) else Quit;
    PlaysOne(w, s);
    steps, v := [s], Apply(w, s);
  }

  /** One pass of the loop is a run of the world, and sends exactly its requests. */
  lemma PassIsRun(w: World, f: Flush, env: Env, i: nat) returns (steps: seq<Step>, v: World)
    requires w.phase == Ready(f.run.deferred) && w.db == f.db
    requires InOrder(env) && w.clock <= env.now(i)
    ensures Plays(w, steps, v, PassWire(f, env, i)) && Lands(v, Round(f, env, i)) && v.clock <= env.ackNow(i)
  {
    assert Reads(env, i);
    var batch := BatchOf(f, env, i);
    if !env.budgetLeft(i) || batch == [] {
      steps, v := IdlePass(w, f, env, i);
      EmptyRest(batch, env);
    } else {
      var rest := Without(batch, UnsafeKeys(batch, env.safe));
      var u: World;
      steps, u := PickRuns(w, f, env, i);
      v := u;
      if rest != [] {
        assert SendsInTime(env, i, rest);
        var more: seq<Step>;
        more, v := DeliverRuns(u, AfterScreen(f, batch, env, i), rest, env, i);
        PlaysAfter(w, steps, u, more, v, PassWire(f, env, i));
        steps := steps + more;
      }
    }
  }

  lemma EmptyRest(batch: seq<Row>, env: Env)
    ensures batch == [] ==> Without(batch, UnsafeKeys(batch, env.safe)) == []
  {
  }

  // ---- the whole loop -----------------------------------------------------------------------------------

  /** Everything the passes put on the wire, in order. */
  function RunWire(env: Env, f: Flush, i: nat, n: nat): seq<Wired>
    requires i <= n
    decreases n - i
  {
    if i == n then []
    else
      match Passes(env)(f, i)
      case Stop(_) => PassWire(f, env, i)
      case Again(g) => PassWire(f, env, i) + RunWire(env, g, i + 1, n)
  }

  /** The whole loop is one too, and sends exactly the requests of its passes. */
  lemma {:induction false} FlushIsRun(w: World, f: Flush, env: Env, i: nat, n: nat) returns (steps: seq<Step>, v: World)
    requires w.phase == Ready(f.run.deferred) && w.db == f.db
    requires InOrder(env) && w.clock <= env.now(i) && i <= n
    ensures Plays(w, steps, v, RunWire(env, f, i, n)) && v.db == RunPasses(Passes(env), f, i, n).db
    decreases n - i
  {
    if i == n {
      steps, v := [], w;
      PlaysNothing(w);
    } else {
      steps, v := PassIsRun(w, f, env, i);
      var pass := Passes(env)(f, i);
      if pass.Again? {
        assert Reads(env, i);
        var more: seq<Step>, u: World := FlushIsRun(v, pass.f, env, i + 1, n);
        PlaysThen(w, steps, v, PassWire(f, env, i), more, u, RunWire(env, pass.f, i + 1, n));
        steps, v := steps + more, u;
      }
    }
  }
}
