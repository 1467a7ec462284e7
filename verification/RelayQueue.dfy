/** The queue database, updated in place. Every method is one transaction: it either
    commits the whole change or leaves the tables as they were. */
module RelayQueue {
  import opened Common
  import opened RelayTables
  import opened RelayEnqueue
  import opened RelaySelect
  import opened RelayAck

  // ---- what the enqueue loop sees inside its transaction --------------------------------

  /** The tables as a transaction that has taken `before` reads them. */
  ghost function InTransaction(t: Tables, before: seq<Event>, now: i64): Tables {
    t.(pending := t.pending + NewRows(Fresh(t, before), t.nextId, now))
  }

  lemma KnownInTransaction(t: Tables, before: seq<Event>, now: i64, key: string)
    requires Inv(t) && Accepts(t, before)
    ensures var known := KnownSha(InTransaction(t, before, now), key);
            && (KnownSha(t, key).Some? || key !in EventKeys(before) ==> known == KnownSha(t, key))
            && (forall e :: e in before && e.ingestKey == key ==> known == Some(e.bodySha))
  {
    var u, v := InTransaction(t, before, now), Enqueued(t, before, now);
    AcceptsIffAdmissible(t, before);
    EnqueuedInv(t, before, now);
    assert KnownSha(u, key) == KnownSha(v, key);
    forall e | e in before && e.ingestKey == key
      ensures KnownSha(v, key) == Some(e.bodySha)
    {
      EnqueuedKnows(t, before, now, e);
    }
    if KnownSha(t, key).Some? {
      KnownStays(t, v, key);
    } else if key !in EventKeys(before) {
      NotAddedStaysUnknown(t, before, now, key);
    }
  }

  lemma NotAddedStaysUnknown(t: Tables, before: seq<Event>, now: i64, key: string)
    requires KnownSha(t, key).None? && key !in EventKeys(before)
    ensures KnownSha(Enqueued(t, before, now), key).None?
  {
    UnknownIsNowhere(t, key);
    FreshKeys(t, before);
    NewRowsElsewhere(Fresh(t, before), before, t.nextId, now, key);
    UnknownIsNowhere(Enqueued(t, before, now), key);
  }

  lemma NewRowsElsewhere(added: seq<Event>, before: seq<Event>, firstId: nat, now: i64, key: string)
    requires key !in EventKeys(before) && forall e :: e in added ==> e in before
    ensures key !in Keys(NewRows(added, firstId, now))
  {
    forall k | 0 <= k < |added|
      ensures NewRows(added, firstId, now)[k].ingestKey != key
    {
      assert added[k] in before;
    }
  }

  lemma RowsSnoc(t: Tables, before: seq<Event>, e: Event, now: i64)
    requires KnownSha(t, e.ingestKey).None? && e.ingestKey !in EventKeys(before)
    ensures InTransaction(t, before + [e], now).pending
            == InTransaction(t, before, now).pending + [RowOf(e, t.nextId + |Fresh(t, before)|, now)]
  {
    FreshSnoc(t, before, e);
    assert NewRows(Fresh(t, before) + [e], t.nextId, now)
        == NewRows(Fresh(t, before), t.nextId, now) + [RowOf(e, t.nextId + |Fresh(t, before)|, now)];
  }

  lemma Refused(t: Tables, es: seq<Event>, i: nat)
    requires Inv(t) && i < |es| && Check(t, es[..i], es[i]).Some?
    ensures !Admissible(t, es)
  {
    AcceptsIffAdmissible(t, es);
    if Accepts(t, es) {
      AcceptsEach(t, es, i);
    }
  }

  /** The running counters of one enqueue transaction. */
  datatype Progress = Progress(
    rows: seq<Row>, items: nat, bytes: nat, pins: nat, seenKeys: map<string, string>,
    seenSessions: map<string, string>, report: Report)

  ghost predicate SeenMatches(before: seq<Event>, g: Progress) {
    && g.seenKeys.Keys == EventKeys(before)
    && g.seenSessions.Keys == Sessions(before)
    && (forall e :: e in before ==> g.seenKeys[e.ingestKey] == e.bodySha && g.seenSessions[e.sessionId] == e.agent)
  }

  ghost predicate RowsMatch(t: Tables, before: seq<Event>, now: i64, g: Progress) {
    g.rows == InTransaction(t, before, now).pending
  }

  ghost predicate CountsMatch(t: Tables, before: seq<Event>, g: Progress) {
    && g.items == |t.pending| + |Fresh(t, before)|
    && g.bytes == Bytes(t.pending) + BodyBytes(Fresh(t, before))
    && g.pins == |t.pins| + |NewSessions(t, before)|
    && |Fresh(t, before)| <= |before|
    && g.report == Report(|Fresh(t, before)|, |before| - |Fresh(t, before)|)
  }

  lemma BoundFromSeen(t: Tables, before: seq<Event>, g: Progress, s: string)
    requires Inv(t) && Accepts(t, before) && SeenMatches(before, g)
    ensures Bound(t, before, s) == if s in t.pins then Some(t.pins[s].agent)
                                   else if s in g.seenSessions then Some(g.seenSessions[s])
                                   else None
    ensures s in g.seenSessions ==> Bound(t, before, s) == Some(g.seenSessions[s])
  {
    AcceptsIffAdmissible(t, before);
    if s in g.seenSessions {
      var e :| e in before && e.sessionId == s;
      assert g.seenSessions[s] == e.agent;
    }
  }

  lemma ClashFromSeen(before: seq<Event>, g: Progress, e: Event)
    requires SeenMatches(before, g)
    ensures Clashes(before, e) <==> e.ingestKey in g.seenKeys && g.seenKeys[e.ingestKey] != e.bodySha
  {
  }

  lemma KeysSnoc(before: seq<Event>, e: Event, seen: map<string, string>)
    requires seen.Keys == EventKeys(before) && forall f :: f in before ==> seen[f.ingestKey] == f.bodySha
    requires !Clashes(before, e)
    ensures var now := seen[e.ingestKey := e.bodySha];
            now.Keys == EventKeys(before + [e]) && forall f :: f in before + [e] ==> now[f.ingestKey] == f.bodySha
  {
    forall k | k in EventKeys(before) ensures k in EventKeys(before + [e]) {
      var f :| f in before && f.ingestKey == k;
      assert f in before + [e];
    }
    assert e in before + [e];
  }

  lemma AgentSnoc(before: seq<Event>, e: Event, seen: map<string, string>)
    requires seen.Keys == Sessions(before) && forall f :: f in before ==> seen[f.sessionId] == f.agent
    requires e.sessionId in seen ==> seen[e.sessionId] == e.agent
    ensures var now := seen[e.sessionId := e.agent];
            now.Keys == Sessions(before + [e]) && forall f :: f in before + [e] ==> now[f.sessionId] == f.agent
  {
    SessionsSnoc(before, e);
  }

  lemma KnownHere(t: Tables, before: seq<Event>, now: i64, e: Event)
    requires Inv(t) && Accepts(t, before) && !Clashes(before, e)
    ensures var known := KnownSha(InTransaction(t, before, now), e.ingestKey);
            && (known.Some? <==> KnownSha(t, e.ingestKey).Some? || e.ingestKey in EventKeys(before))
            && (known.Some? ==> known.value == KnownSha(t, e.ingestKey).GetOr(e.bodySha))
  {
    KnownInTransaction(t, before, now, e.ingestKey);
    if e.ingestKey in EventKeys(before) {
      var f :| f in before && f.ingestKey == e.ingestKey;
      assert f.bodySha == e.bodySha;
    }
  }

  lemma CountsSnoc(t: Tables, before: seq<Event>, e: Event, g: Progress, h: Progress)
    requires CountsMatch(t, before, g)
    requires h.pins == if Bound(t, before, e.sessionId).None? then g.pins + 1 else g.pins
    requires h.items == if Adds(t, before, e) then g.items + 1 else g.items
    requires h.bytes == if Adds(t, before, e) then g.bytes + |e.body| else g.bytes
    requires h.report == if Adds(t, before, e) then Report(g.report.accepted + 1, g.report.recognized)
                         else Report(g.report.accepted, g.report.recognized + 1)
    ensures CountsMatch(t, before + [e], h)
  {
    NewSessionsSnoc(t, before, e);
    FreshSnoc(t, before, e);
    BodyBytesSnoc(Fresh(t, before), e);
  }

  lemma RowsMatchSnoc(t: Tables, before: seq<Event>, now: i64, e: Event, g: Progress, h: Progress)
    requires RowsMatch(t, before, now, g) && g.report.accepted == |Fresh(t, before)|
    requires h.rows == if Adds(t, before, e) then g.rows + [RowOf(e, t.nextId + g.report.accepted, now)] else g.rows
    ensures RowsMatch(t, before + [e], now, h)
  {
    if Adds(t, before, e) {
      RowsSnoc(t, before, e, now);
    } else {
      FreshSnoc(t, before, e);
    }
  }

  ghost predicate Tracks(t: Tables, before: seq<Event>, now: i64, g: Progress) {
    SeenMatches(before, g) && CountsMatch(t, before, g) && RowsMatch(t, before, now, g)
  }

  /** Where an accepted event takes the running counters. */
  function Advance(t: Tables, e: Event, now: i64, g: Progress, known: bool): Progress {
    Progress(
      if known then g.rows else g.rows + [RowOf(e, t.nextId + g.report.accepted, now)],
      if known then g.items else g.items + 1,
      if known then g.bytes else g.bytes + |e.body|,
      if e.sessionId in t.pins || e.sessionId in g.seenSessions then g.pins else g.pins + 1,
      g.seenKeys[e.ingestKey := e.bodySha],
      g.seenSessions[e.sessionId := e.agent],
      if known then Report(g.report.accepted, g.report.recognized + 1)
      else Report(g.report.accepted + 1, g.report.recognized))
  }

  lemma AdvanceCounts(t: Tables, before: seq<Event>, e: Event, now: i64, g: Progress)
    requires CountsMatch(t, before, g)
    requires Bound(t, before, e.sessionId).Some? <==> e.sessionId in t.pins || e.sessionId in g.seenSessions
    ensures CountsMatch(t, before + [e], Advance(t, e, now, g, !Adds(t, before, e)))
  {
    CountsSnoc(t, before, e, g, Advance(t, e, now, g, !Adds(t, before, e)));
  }

  lemma AdvanceRows(t: Tables, before: seq<Event>, e: Event, now: i64, g: Progress)
    requires RowsMatch(t, before, now, g) && g.report.accepted == |Fresh(t, before)|
    ensures RowsMatch(t, before + [e], now, Advance(t, e, now, g, !Adds(t, before, e)))
  {
    RowsMatchSnoc(t, before, now, e, g, Advance(t, e, now, g, !Adds(t, before, e)));
  }

  lemma AdvanceSeen(t: Tables, before: seq<Event>, e: Event, now: i64, g: Progress, known: bool)
    requires SeenMatches(before, g) && !Clashes(before, e)
    requires e.sessionId in g.seenSessions ==> g.seenSessions[e.sessionId] == e.agent
    ensures SeenMatches(before + [e], Advance(t, e, now, g, known))
  {
    KeysSnoc(before, e, g.seenKeys);
    AgentSnoc(before, e, g.seenSessions);
  }

  lemma AdvanceTracks(t: Tables, before: seq<Event>, e: Event, now: i64, g: Progress)
    requires Inv(t) && Accepts(t, before) && Tracks(t, before, now, g)
    requires Check(t, before, e).None?
    ensures Tracks(t, before + [e], now, Advance(t, e, now, g, !Adds(t, before, e)))
  {
    BoundFromSeen(t, before, g, e.sessionId);
    AdvanceCounts(t, before, e, now, g);
    AdvanceRows(t, before, e, now, g);
    AdvanceSeen(t, before, e, now, g, !Adds(t, before, e));
  }

  /** What the transaction reads for `e`, in terms of the tables before it. */
  lemma ReadsInTransaction(t: Tables, before: seq<Event>, e: Event, now: i64, g: Progress)
    requires Inv(t) && Accepts(t, before) && Tracks(t, before, now, g)
    ensures Clashes(before, e) <==> e.ingestKey in g.seenKeys && g.seenKeys[e.ingestKey] != e.bodySha
    ensures !Clashes(before, e) ==>
              var known := KnownSha(Tables(g.rows, t.receipts, t.pins, t.nextId), e.ingestKey);
              && (known.Some? <==> !Adds(t, before, e))
              && (known.Some? ==> known.value == KnownSha(t, e.ingestKey).GetOr(e.bodySha))
  {
    assert Tables(g.rows, t.receipts, t.pins, t.nextId) == InTransaction(t, before, now);
    ClashFromSeen(before, g, e);
    if !Clashes(before, e) {
      KnownHere(t, before, now, e);
    }
  }

  /** The loop body up to the pin checks. */
  method TakeSession(t: Tables, ghost before: seq<Event>, e: Event, g: Progress) returns (wrong: Option<Reason>)
    requires Inv(t) && Accepts(t, before) && SeenMatches(before, g) && CountsMatch(t, before, g)
    ensures wrong == CheckSession(t, before, e)
  {
    var bound :=
      if e.sessionId in t.pins then Some(t.pins[e.sessionId].agent)
      else if e.sessionId in g.seenSessions then Some(g.seenSessions[e.sessionId])
      else None;
    BoundFromSeen(t, before, g, e.sessionId);
    if bound.None? {
      var pins := g.pins + 1;
      if pins > MAX_SESSION_PINS {
        return Some(PinsFull);
      }
    }
    if bound.Some? && bound.value != e.agent {
      return Some(SessionConflict);
    }
    return None;
  }

  /** The rest of the loop body: recognize the key, or insert its row while it fits. */
  method TakeKey(t: Tables, ghost before: seq<Event>, e: Event, now: i64, g: Progress)
    returns (next: Result<Progress, Reason>)
    requires Inv(t) && Accepts(t, before) && Tracks(t, before, now, g)
    ensures next.Err? ==> CheckKey(t, before, e) == Some(next.error)
    ensures next.Ok? ==> CheckKey(t, before, e).None?
    ensures next.Ok? ==> next.value == Advance(t, e, now, g, !Adds(t, before, e))
  {
    var known := KnownSha(Tables(g.rows, t.receipts, t.pins, t.nextId), e.ingestKey);
    ReadsInTransaction(t, before, e, now, g);
    if e.ingestKey in g.seenKeys && g.seenKeys[e.ingestKey] != e.bodySha {
      next := Err(CollisionInFile);
    } else if known.Some? && known.value != e.bodySha {
      next := Err(CollisionInQueue);
    } else if known.Some? {
      next := Ok(Advance(t, e, now, g, true));
    } else if g.items + 1 > MAX_PENDING_ITEMS || g.bytes + |e.body| > MAX_PENDING_BYTES {
      next := Err(QueueFull);
    } else if |t.receipts| + g.items + 1 > MAX_RECEIPTS {
      next := Err(ReplayFull);
    } else {
      next := Ok(Advance(t, e, now, g, false));
    }
  }

  lemma NothingTaken(t: Tables, now: i64)
    ensures Tracks(t, [], now, Progress(t.pending, |t.pending|, Bytes(t.pending), |t.pins|, map[], map[], Report(0, 0)))
  {
    assert NewSessions(t, []) == {};
    assert t.pending + [] == t.pending;
  }

  lemma AcceptsSnoc(t: Tables, es: seq<Event>, i: nat)
    requires i < |es| && Accepts(t, es[..i]) && Check(t, es[..i], es[i]).None?
    ensures Accepts(t, es[..i + 1]) && es[..i + 1] == es[..i] + [es[i]]
  {
    PrefixSnoc(es, i);
  }

  lemma PrefixSnoc(es: seq<Event>, i: nat)
    requires i < |es|
    ensures es[..i + 1] == es[..i] + [es[i]] && es[..i + 1][..i] == es[..i] && es[..i + 1][i] == es[i]
  {
  }

  /** `pins` once every session of the file outside `todo` is written. */
  ghost predicate PinsWritten(t: Tables, es: seq<Event>, now: i64, todo: set<string>, pins: map<string, Pin>) {
    && pins.Keys == t.pins.Keys + (Sessions(es) - todo)
    && (forall s :: s in Sessions(es) && s !in todo ==> pins[s] == PinFor(t, es, now, s))
    && (forall s :: s in t.pins && (s !in Sessions(es) || s in todo) ==> pins[s] == t.pins[s])
  }

  lemma LastPin(t: Tables, es: seq<Event>, now: i64, g: Progress, s: string)
    requires SeenMatches(es, g) && s in g.seenSessions
    ensures PinFor(t, es, now, s) == Pin(if s in t.pins then t.pins[s].agent else g.seenSessions[s], now)
  {
    var e :| e in es && e.sessionId == s && e.agent == AgentIn(es, s);
    assert g.seenSessions[e.sessionId] == e.agent;
  }

  lemma PinStep(t: Tables, es: seq<Event>, now: i64, todo: set<string>, pins: map<string, Pin>, s: string)
    requires PinsWritten(t, es, now, todo, pins) && s in todo && todo <= Sessions(es)
    ensures PinsWritten(t, es, now, todo - {s}, pins[s := PinFor(t, es, now, s)])
    ensures s in pins <==> s in t.pins
    ensures s in pins ==> pins[s] == t.pins[s]
  {
    assert Sessions(es) - (todo - {s}) == Sessions(es) - todo + {s};
  }

  lemma PinsDone(t: Tables, es: seq<Event>, now: i64, pins: map<string, Pin>)
    requires PinsWritten(t, es, now, {}, pins)
    ensures pins == Pins(t, es, now)
  {
    assert Sessions(es) - {} == Sessions(es);
  }

  lemma Committed(t: Tables, es: seq<Event>, now: i64, g: Progress)
    requires Inv(t) && Admissible(t, es) && Tracks(t, es, now, g)
    ensures Inv(Enqueued(t, es, now))
    ensures Tables(g.rows, t.receipts, Pins(t, es, now), t.nextId + g.report.accepted) == Enqueued(t, es, now)
    ensures g.report.accepted == |Fresh(t, es)| && g.report.accepted + g.report.recognized == |es|
  {
    EnqueuedInv(t, es, now);
  }

  /** The event named by the error is the first one the loop could not take. */
  predicate FirstRefused(t: Tables, es: seq<Event>, e: EnqueueError) {
    && e.index < |es|
    && Accepts(t, es[..e.index])
    && Check(t, es[..e.index], es[e.index]) == Some(e.reason)
  }

  class Queue {
    var pending: seq<Row>
    var receipts: map<string, Receipt>
    var pins: map<string, Pin>
    var nextId: nat

    function Db(): Tables
      reads this
    {
      Tables(pending, receipts, pins, nextId)
    }

    predicate Valid()
      reads this
    {
      Inv(Db())
    }

    constructor ()
      ensures Valid() && Db() == EMPTY
    {
      pending, receipts, pins, nextId := [], map[], map[], 1;
      new;
      EmptyInv();
    }

    /** Persist a whole file, all or nothing. */
    method Enqueue(es: seq<Event>, now: i64) returns (r: Result<Report, EnqueueError>)
      requires Valid()
      modifies this
      ensures Valid()
      ensures r.Ok? <==> Admissible(old(Db()), es)
      ensures r.Ok? ==>
                && Db() == Enqueued(old(Db()), es, now)
                && r.value.accepted == |Fresh(old(Db()), es)|
                && r.value.accepted + r.value.recognized == |es|
      ensures r.Err? ==> Db() == old(Db()) && FirstRefused(old(Db()), es, r.error)
    {
      var committed := Transaction(Db(), es, now);
      if committed.Err? {
        return Err(committed.error);
      }
      Commit(committed.value.0);
      return Ok(committed.value.1);
    }

    method Commit(t: Tables)
      modifies this
      ensures Db() == t
    {
      pending, receipts, pins, nextId := t.pending, t.receipts, t.pins, t.nextId;
    }

    /** The transaction: the loop over the file, then its pins. */
    static method Transaction(t: Tables, es: seq<Event>, now: i64)
      returns (r: Result<(Tables, Report), EnqueueError>)
      requires Inv(t)
      ensures match r
              case Ok((u, report)) =>
                && Admissible(t, es) && Inv(u) && u == Enqueued(t, es, now)
                && report.accepted == |Fresh(t, es)| && report.accepted + report.recognized == |es|
              case Err(e) => !Admissible(t, es) && FirstRefused(t, es, e)
    {
      var taken := TakeAll(t, es, now);
      if taken.Err? {
        return Err(taken.error);
      }
      var g := taken.value;
      var newPins := WritePins(t, es, now, g);
      Committed(t, es, now, g);
      return Ok((Tables(g.rows, t.receipts, newPins, t.nextId + g.report.accepted), g.report));
    }

    static method TakeAll(t: Tables, es: seq<Event>, now: i64) returns (r: Result<Progress, EnqueueError>)
      requires Inv(t)
      ensures r.Ok? ==> Admissible(t, es) && Tracks(t, es, now, r.value)
      ensures r.Err? ==> !Admissible(t, es) && FirstRefused(t, es, r.error)
    {
      var g := Progress(t.pending, |t.pending|, Bytes(t.pending), |t.pins|, map[], map[], Report(0, 0));
      NothingTaken(t, now);
      for i := 0 to |es|
        invariant Accepts(t, es[..i]) && Tracks(t, es[..i], now, g)
      {
        var next := TakeEvent(t, es[..i], es[i], now, g);
        if next.Err? {
          Refused(t, es, i);
          return Err(EnqueueError(i, next.error));
        }
        AcceptsSnoc(t, es, i);
        g := next.value;
      }
      assert es[..|es|] == es;
      AcceptsIffAdmissible(t, es);
      return Ok(g);
    }

    static method TakeEvent(t: Tables, ghost before: seq<Event>, e: Event, now: i64, g: Progress)
      returns (next: Result<Progress, Reason>)
      requires Inv(t) && Accepts(t, before) && Tracks(t, before, now, g)
      ensures next.Err? ==> Check(t, before, e) == Some(next.error)
      ensures next.Ok? ==> Check(t, before, e).None? && Tracks(t, before + [e], now, next.value)
    {
      var wrong := TakeSession(t, before, e, g);
      if wrong.Some? {
        return Err(wrong.value);
      }
      next := TakeKey(t, before, e, now, g);
      if next.Ok? {
        AdvanceTracks(t, before, e, now, g);
      }
    }

    /** Each session of the file gets its pin, or a fresh last-seen time. */
    static method WritePins(t: Tables, ghost es: seq<Event>, now: i64, g: Progress) returns (pins: map<string, Pin>)
      requires SeenMatches(es, g)
      ensures pins == Pins(t, es, now)
    {
      pins := t.pins;
      var todo := g.seenSessions.Keys;
      while todo != {}
        invariant todo <= g.seenSessions.Keys
        invariant PinsWritten(t, es, now, todo, pins)
      {
        var s :| s in todo;
        LastPin(t, es, now, g, s);
        PinStep(t, es, now, todo, pins, s);
        pins := pins[s := Pin(if s in pins then pins[s].agent else g.seenSessions[s], now)];
        todo := todo - {s};
      }
      PinsDone(t, es, now, pins);
    }

    /** The next batch, and how many heads it leaves out as expired or too large. */
    method SelectBatch(q: Request) returns (b: Batch)
      ensures |Items(pending, q)| <= |Heads(Scanned(pending, q), q, false)|
      ensures b == Selected(pending, q)
    {
      ItemsWithinScan(pending, q);
      b := ScanRows(pending, q);
    }

    /** The pass over the rows in `seq` order. */
    static method ScanRows(p: seq<Row>, q: Request) returns (b: Batch)
      requires |Items(p, q)| <= |Heads(Scanned(p, q), q, false)|
      ensures b == Selected(p, q)
    {
      var s := Scan({}, [], 0, 0, 0);
      var i := 0;
      while i < |p| && |s.items| < q.Limit()
        invariant 0 <= i <= |p|
        invariant Scanned(p[..i], q) == p[..i]
        invariant s == ScanAll(p[..i], q)
      {
        ScanNext(p, q, i);
        s := ReadRow(p[i], q, s);
        i := i + 1;
      }
      ScanDone(p, q, i);
      b := Batch(s.items, s.blocked, s.skipped);
    }

    /** The body of the pass, for one row. */
    static method ReadRow(r: Row, q: Request, s: Scan) returns (t: Scan)
      ensures t == ScanRow(q, s, r)
    {
      t := s.(seen := s.seen + {r.Session()});
      if r.Session() in s.seen || r.Session() in q.deferred {
        return;
      }
      if IsExpired(r.firstAttempt, q.now) {
        t := t.(blocked := t.blocked + 1);
        return;
      }
      var cost := q.cost(r);
      if t.items != [] && t.spent + cost > q.budget {
        t := t.(skipped := t.skipped + 1);
        return;
      }
      t := t.(spent := t.spent + cost, items := t.items + [r]);
    }

    /** A listed row without a first attempt gets `now` as its first; each counts one more. */
    method StampAttempt(keys: seq<string>, now: i64)
      requires Valid()
      requires forall r :: r in pending && r.ingestKey in keys ==> IsHead(pending, r)
      modifies this
      ensures Valid()
      ensures Db() == old(Db()).(pending := Stamped(old(pending), keys, now))
    {
      var rows := pending;
      for i := 0 to |keys|
        invariant Db() == old(Db()) && rows == Stamped(pending, keys[..i], now)
      {
        rows := Stamp1(rows, keys[i], now);
        assert keys[..i + 1][..i] == keys[..i];
      }
      assert keys[..|keys|] == keys;
      StampedInv(Db(), keys, now);
      pending := rows;
    }

    /** Move acknowledged rows to receipts. */
    method Confirm(acks: seq<(string, string)>, now: i64) returns (moved: nat)
      requires Valid()
      modifies this
      ensures Valid()
      ensures Db() == Confirmed(old(Db()), acks, now)
      ensures moved == Moved(old(Db()), acks, now) == |old(pending)| - |pending|
    {
      MovedCount(Db(), acks, now);
      ConfirmedRows(Db(), acks, now);
      if acks == [] {
        return 0;
      }
      var t: Tables;
      t, moved := MoveAll(Db(), acks, now);
      pending, receipts := t.pending, t.receipts;
    }

    /** The transaction: one listed key after the other. */
    static method MoveAll(t0: Tables, acks: seq<(string, string)>, now: i64) returns (t: Tables, moved: nat)
      requires Inv(t0)
      ensures t == Confirmed(t0, acks, now) && moved == Moved(t0, acks, now)
    {
      t, moved := t0, 0;
      for i := 0 to |acks|
        invariant Inv(t) && t == Confirmed(t0, acks[..i], now) && moved == Moved(t0, acks[..i], now)
      {
        var found: bool;
        t, found := MoveOne(t, acks[i].0, acks[i].1, now);
        moved := if found then moved + 1 else moved;
        assert acks[..i + 1][..i] == acks[..i];
      }
      assert acks[..|acks|] == acks;
    }

    /** One key; a key that is not pending is passed over. */
    static method MoveOne(t: Tables, key: string, outcome: string, now: i64) returns (u: Tables, found: bool)
      requires Inv(t)
      ensures u == Confirm1(t, key, outcome, now) && Inv(u) && (found <==> key in Keys(t.pending))
    {
      Confirm1Inv(t, key, outcome, now);
      var row := Find(t.pending, key);
      if row.None? {
        return t, false;
      }
      var receipt := Receipt(row.value.bodySha, AttemptedAt(row.value), now, Outcome(outcome));
      u := t.(pending := Without(t.pending, {key}), receipts := Upsert(t.receipts, key, receipt));
      found := true;
    }

    /** Charge one row with a delivery failure. */
    method RecordFailure(key: string, class_: string)
      requires Valid()
      modifies this
      ensures Valid()
      ensures Db() == old(Db()).(pending := Noted(old(pending), key, class_))
    {
      NotedInv(Db(), key, class_);
      pending := Noted(pending, key, class_);
    }

    /** Release expired receipts, and pins without pending rows. */
    method Prune(now: i64) returns (released: nat)
      requires Valid()
      modifies this
      ensures Valid()
      ensures Db() == Pruned(old(Db()), now)
      ensures released == |old(receipts)| - |receipts| + |old(pins)| - |pins|
    {
      var cutoff := Cutoff(now);
      var sessions := set r | r in pending :: r.sessionId;
      PrunedMeaning(Db(), now);
      PrunedSizes(Db(), now);
      var oldSize := |receipts| + |pins|;
      receipts := map k | k in receipts && !(receipts[k].firstAttempt < cutoff) :: receipts[k];
      pins := map s | s in pins && !(pins[s].lastSeen < cutoff && s !in sessions) :: pins[s];
      released := oldSize - |receipts| - |pins|;
    }
  }
}
