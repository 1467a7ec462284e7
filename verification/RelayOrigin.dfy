/** Where what is sent comes from, and whose a session is, over every run of `RelayWorld`:
    nothing on the wire is invented or altered, and a session seen within the retry window
    stays with its agent. */
module RelayOrigin {
  import opened Common
  import opened RelayTables
  import opened RelayEnqueue
  import opened RelaySelect
  import opened RelayAck
  import opened RelayWorld
  import opened RelayDelivery

  // ---- what is sent was offered -----------------------------------------------------------

  /** Step `s` accepted a file and took from it, as new, the event that `r` carries in every
      field. */
  predicate OfferedBy(w: World, s: Step, r: Row) {
    && s.Enqueue? && Admissible(w.db, s.es) && r.firstSeen == s.now
    && exists e :: e in Fresh(w.db, s.es) && Holds(r, e)
  }

  /** Every row of `q` is new with step `s`, or a row of `p` up to its delivery marks. */
  predicate ComesFrom(w: World, s: Step, p: seq<Row>, q: seq<Row>) {
    forall o :: o in q ==> OfferedBy(w, s, o) || exists r :: r in p && SameEvent(o, r)
  }

  lemma EnqueueComesFrom(w: World, s: Step)
    requires s.Enqueue? && Admissible(w.db, s.es)
    ensures ComesFrom(w, s, w.db.pending, Enqueued(w.db, s.es, s.now).pending)
  {
    var p, q, added := w.db.pending, Enqueued(w.db, s.es, s.now).pending, Fresh(w.db, s.es);
    NewRowsMeaning(w.db, s.es, s.now);
    forall o | o in q
      ensures OfferedBy(w, s, o) || exists r :: r in p && SameEvent(o, r)
    {
      OldOrNew(p, q, added, w.db.nextId, s.now, o);
      if o in p {
        assert SameEvent(o, o);
      }
    }
  }

  lemma OldOrNew(p: seq<Row>, q: seq<Row>, added: seq<Event>, firstId: nat, now: i64, o: Row)
    requires AppendedFor(p, q, added, firstId, now) && o in q
    ensures o in p || (o.firstSeen == now && exists e :: e in added && Holds(o, e))
  {
    var i :| 0 <= i < |q| && q[i] == o;
    if i < |p| {
      assert q[..|p|][i] == p[i];
    } else {
      var k := i - |p|;
      assert q[|p| + k] == o;
      assert Holds(o, added[k]) && added[k] in added;
    }
  }

  /** Rows that evolve without a new one all come from old rows. */
  lemma EvolvedComesFrom(w: World, s: Step, p: seq<Row>, q: seq<Row>, nextId: nat)
    requires Evolves(p, nextId, q) && forall o :: o in q ==> o.id < nextId
    ensures ComesFrom(w, s, p, q)
  {
    forall o | o in q ensures exists r :: r in p && SameEvent(o, r) {
      var r :| r in p && Carries(r, o);
    }
  }

  lemma QuietComesFrom(w: World, s: Step)
    requires Good(w) && Enabled(w, s) && !s.Enqueue?
    ensures Evolves(w.db.pending, w.db.nextId, Apply(w, s).db.pending)
    ensures Apply(w, s).db.nextId == w.db.nextId
  {
    match s
    case Screen(drop) =>
      var acks := Drops(w.phase.batch, drop);
      ConfirmedRows(w.db, acks, w.phase.now);
      WithoutEvolves(w.db.pending, AckKeys(acks), w.db.nextId);
    case Acknowledge(ack, _, at) =>
      AcceptedOfSound(|w.phase.batch|, ack);
      var acks := Acks(w.phase.batch, ack, Validate(|w.phase.batch|, ack).value);
      ConfirmedRows(w.db, acks, at);
      WithoutEvolves(w.db.pending, AckKeys(acks), w.db.nextId);
    case Mark => StampedEvolves(w.db.pending, KeysOf(w.phase.batch), w.phase.now, w.db.nextId);
    case Charge(key, class_) => NotedEvolves(w.db.pending, key, class_, w.db.nextId);
    case _ => SelfEvolves(w.db.pending, w.db.nextId);
  }

  lemma SelfEvolves(p: seq<Row>, nextId: nat)
    ensures Evolves(p, nextId, p)
  {
    forall o | o in p ensures exists r :: r in p && Carries(r, o) {
      assert Carries(o, o);
    }
  }

  lemma StepComesFrom(w: World, s: Step)
    requires Good(w) && Enabled(w, s)
    ensures ComesFrom(w, s, w.db.pending, Apply(w, s).db.pending)
  {
    if s.Enqueue? {
      if Admissible(w.db, s.es) {
        EnqueueComesFrom(w, s);
      } else {
        SelfComesFrom(w, s);
      }
    } else {
      QuietComesFrom(w, s);
      StepKeeps(w, s);
      EvolvedComesFrom(w, s, w.db.pending, Apply(w, s).db.pending, w.db.nextId);
    }
  }

  lemma SelfComesFrom(w: World, s: Step)
    ensures ComesFrom(w, s, w.db.pending, w.db.pending)
  {
    forall o | o in w.db.pending ensures exists r :: r in w.db.pending && SameEvent(o, r) {
      assert SameEvent(o, o);
    }
  }

  /** Some step before `n` accepted the event that `r` carries. */
  predicate Offered(ws: seq<World>, steps: seq<Step>, n: nat, r: Row)
    requires n <= |steps| <= |ws|
  {
    exists k :: 0 <= k < n && OfferedBy(ws[k], steps[k], r)
  }

  /** Every pending row carries an event accepted by an earlier step, unaltered. */
  lemma {:induction false} PendingWasOffered(ws: seq<World>, steps: seq<Step>, n: nat, o: Row)
    requires IsRun(ws, steps) && n < |ws| && o in ws[n].db.pending
    ensures Offered(ws, steps, n, o)
  {
    if n > 0 {
      ReachableGood(ws, steps, n - 1);
      StepComesFrom(ws[n - 1], steps[n - 1]);
      if !OfferedBy(ws[n - 1], steps[n - 1], o) {
        var r :| r in ws[n - 1].db.pending && SameEvent(o, r);
        PendingWasOffered(ws, steps, n - 1, r);
        OfferedSame(ws, steps, n - 1, r, o);
      }
    }
  }

  lemma OfferedSame(ws: seq<World>, steps: seq<Step>, n: nat, r: Row, o: Row)
    requires n < |steps| <= |ws| && SameEvent(o, r) && Offered(ws, steps, n, r)
    ensures Offered(ws, steps, n, o) && Offered(ws, steps, n + 1, o)
  {
    var k :| 0 <= k < n && OfferedBy(ws[k], steps[k], r);
    HoldsSame(ws[k], steps[k], r, o);
  }

  lemma HoldsSame(w: World, s: Step, r: Row, o: Row)
    requires SameEvent(o, r) && OfferedBy(w, s, r)
    ensures OfferedBy(w, s, o)
  {
    var e :| e in Fresh(w.db, s.es) && Holds(r, e);
    assert Holds(o, e);
  }

  lemma SentIsStored(ws: seq<World>, steps: seq<Step>, i: nat, r: Row) returns (o: Row)
    requires IsRun(ws, steps) && i < |steps| && steps[i].Transmit? && r in Sent(ws, steps, i)
    ensures o in ws[i].db.pending && SameEvent(r, o)
  {
    ReachableGood(ws, steps, i);
    o := StoredRow(ws[i].db, ws[i].phase.batch, ws[i].phase.now, r);
  }

  /** Nothing sent is invented or altered: every row of every request carries, in every field,
      an event that an earlier step accepted as new. */
  lemma NothingInvented(ws: seq<World>, steps: seq<Step>, i: nat, r: Row)
    requires IsRun(ws, steps) && i < |steps| && steps[i].Transmit? && r in Sent(ws, steps, i)
    ensures Offered(ws, steps, i, r)
  {
    var o := SentIsStored(ws, steps, i, r);
    PendingWasOffered(ws, steps, i, o);
    OfferedSame(ws, steps, i, o, r);
  }

  // ---- whose a session is --------------------------------------------------------------------

  /** Nothing waits in the session and it was last seen longer ago than the window. */
  predicate Idled(t: Tables, s: string, now: i64) {
    s in t.pins && LongAgo(t.pins[s].lastSeen, now) && forall r :: r in t.pending ==> r.sessionId != s
  }

  /** The step accepts a file with an event of the session. */
  predicate Sees(w: World, step: Step, s: string) {
    step.Enqueue? && Admissible(w.db, step.es) && exists e :: e in step.es && e.sessionId == s
  }

  lemma OnlyTheseTouchPins(w: World, step: Step)
    requires Good(w) && Enabled(w, step) && !step.Begin? && !step.Enqueue?
    ensures Apply(w, step).db.pins == w.db.pins
  {
    match step
    case Screen(drop) => ConfirmedRows(w.db, Drops(w.phase.batch, drop), w.phase.now);
    case Acknowledge(ack, _, at) =>
      AcceptedOfSound(|w.phase.batch|, ack);
      ConfirmedRows(w.db, Acks(w.phase.batch, ack, Validate(|w.phase.batch|, ack).value), at);
    case _ =>
  }

  /** A step forgets a session if and only if it prunes an idle one; it changes no agent, and
      only an accepted file of the session moves the time it was last seen. */
  lemma PinGoesIff(w: World, step: Step, s: string)
    requires Good(w) && Enabled(w, step) && s in w.db.pins
    ensures var u := Apply(w, step).db;
            && (s !in u.pins <==> step.Begin? && Idled(w.db, s, step.now))
            && (s in u.pins ==> u.pins[s] == Pin(w.db.pins[s].agent, if Sees(w, step, s) then step.now else w.db.pins[s].lastSeen))
  {
    if step.Begin? {
      PrunedMeaning(w.db, step.now);
    } else if step.Enqueue? {
      if Admissible(w.db, step.es) {
        PinsMeaning(w.db, step.es, step.now);
      }
    } else {
      OnlyTheseTouchPins(w, step);
    }
  }

  /** From step `i` up to step `j`, no prune finds the session idle. */
  predicate NeverIdled(ws: seq<World>, steps: seq<Step>, i: nat, j: nat, s: string)
    requires j <= |steps| <= |ws|
  {
    forall k :: i <= k < j && steps[k].Begin? ==> !Idled(ws[k].db, s, steps[k].now)
  }

  predicate BelongsTo(t: Tables, s: string, agent: string) { s in t.pins && t.pins[s].agent == agent }

  /** As long as no prune finds it idle, a session keeps its agent, and no file is accepted that
      claims it for another. */
  lemma {:induction false} SessionKeepsAgent(
    ws: seq<World>, steps: seq<Step>, i: nat, j: nat, s: string, agent: string, es: seq<Event>)
    requires IsRun(ws, steps) && i <= j < |ws| && BelongsTo(ws[i].db, s, agent)
    requires NeverIdled(ws, steps, i, j, s)
    ensures BelongsTo(ws[j].db, s, agent)
    ensures (exists e :: e in es && e.sessionId == s && e.agent != agent) ==> !Admissible(ws[j].db, es)
    decreases j
  {
    if i < j {
      SessionKeepsAgent(ws, steps, i, j - 1, s, agent, es);
      ReachableGood(ws, steps, j - 1);
      PinGoesIff(ws[j - 1], steps[j - 1], s);
    }
  }

  /** Clocks from step `i` on: no file claims to be older than `seen`, and no prune reads a clock
      more than the window after it. */
  predicate ClocksWithin(steps: seq<Step>, i: nat, j: nat, seen: i64)
    requires j <= |steps|
  {
    forall k :: i <= k < j ==>
      (steps[k].Enqueue? ==> steps[k].now >= seen) && (steps[k].Begin? ==> steps[k].now <= seen + RETRY_WINDOW_MS)
  }

  predicate SeenSince(t: Tables, s: string, agent: string, seen: i64) {
    s in t.pins && t.pins[s].agent == agent && t.pins[s].lastSeen >= seen
  }

  lemma {:induction false} StaysSeen(
    ws: seq<World>, steps: seq<Step>, i: nat, j: nat, s: string, agent: string, seen: i64)
    requires IsRun(ws, steps) && i <= j < |ws| && SeenSince(ws[i].db, s, agent, seen)
    requires ClocksWithin(steps, i, j, seen)
    ensures SeenSince(ws[j].db, s, agent, seen)
    decreases j
  {
    if i < j {
      StaysSeen(ws, steps, i, j - 1, s, agent, seen);
      ReachableGood(ws, steps, j - 1);
      PinGoesIff(ws[j - 1], steps[j - 1], s);
    }
  }

  /** For a whole window after a file with an event of the session was accepted, the session is
      its agent's, and no file is accepted that claims it for another. */
  lemma SeenSessionIsKept(
    ws: seq<World>, steps: seq<Step>, i: nat, j: nat, e: Event, es: seq<Event>)
    requires IsRun(ws, steps) && i < j < |ws|
    requires steps[i].Enqueue? && Admissible(ws[i].db, steps[i].es) && e in steps[i].es
    requires ClocksWithin(steps, i, j, steps[i].now)
    ensures BelongsTo(ws[j].db, e.sessionId, e.agent)
    ensures (exists f :: f in es && f.sessionId == e.sessionId && f.agent != e.agent) ==> !Admissible(ws[j].db, es)
  {
    ReachableGood(ws, steps, i);
    PinsMeaning(ws[i].db, steps[i].es, steps[i].now);
    StaysSeen(ws, steps, i + 1, j, e.sessionId, e.agent, steps[i].now);
  }
}
