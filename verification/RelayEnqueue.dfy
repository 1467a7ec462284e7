/** What `enqueue` admits and what it adds, stated about the whole file at once.
    The source decides event by event; `CheckDecides` connects the two. */
module RelayEnqueue {
  import opened Common
  import opened RelayTables

  datatype Reason =
    | PinsFull | SessionConflict | CollisionInFile | CollisionInQueue | QueueFull | ReplayFull

  /** The first event of the file that could not be taken, and why. */
  datatype EnqueueError = EnqueueError(index: nat, reason: Reason)

  datatype Report = Report(accepted: nat, recognized: nat)

  function EventKeys(es: seq<Event>): set<string> { set e | e in es :: e.ingestKey }

  function Sessions(es: seq<Event>): set<string> { set e | e in es :: e.sessionId }

  function NewSessions(t: Tables, es: seq<Event>): set<string> { Sessions(es) - t.pins.Keys }

  /** The content hash recorded for `key`, pending rows first. */
  function KnownSha(t: Tables, key: string): Option<string> {
    var found := Find(t.pending, key);
    if found.Some? then Some(found.value.bodySha)
    else if key in t.receipts then Some(t.receipts[key].bodySha)
    else None
  }

  /** Position `i` holds the first occurrence of a key the queue does not know. */
  predicate FirstUnknown(t: Tables, es: seq<Event>, i: nat)
    requires i < |es|
  {
    KnownSha(t, es[i].ingestKey).None? && forall j :: 0 <= j < i ==> es[j].ingestKey != es[i].ingestKey
  }

  function FreshAt(t: Tables, es: seq<Event>): (at: seq<nat>)
    ensures forall k :: 0 <= k < |at| ==> at[k] < |es|
  {
    if es == [] then []
    else
      var n := |es| - 1;
      FreshAt(t, es[..n]) + (if FirstUnknown(t, es, n) then [n] else [])
  }

  /** The events this file adds, in file order. */
  function Fresh(t: Tables, es: seq<Event>): seq<Event> {
    var at := FreshAt(t, es);
    seq(|at|, k requires 0 <= k < |at| => es[at[k]])
  }

  function BodyBytes(es: seq<Event>): nat {
    if es == [] then 0 else BodyBytes(es[..|es| - 1]) + |es[|es| - 1].body|
  }

  predicate AgentsAgree(t: Tables, es: seq<Event>) {
    && (forall e :: e in es && e.sessionId in t.pins ==> t.pins[e.sessionId].agent == e.agent)
    && (forall e, f :: e in es && f in es && e.sessionId == f.sessionId ==> e.agent == f.agent)
  }

  predicate BodiesAgree(t: Tables, es: seq<Event>) {
    && (forall e :: e in es && KnownSha(t, e.ingestKey).Some? ==> KnownSha(t, e.ingestKey).value == e.bodySha)
    && (forall e, f :: e in es && f in es && e.ingestKey == f.ingestKey ==> e.bodySha == f.bodySha)
  }

  predicate Fits(t: Tables, es: seq<Event>) {
    |t.pins| + |NewSessions(t, es)| <= MAX_SESSION_PINS && RoomForRows(t, es)
  }

  predicate RoomForRows(t: Tables, es: seq<Event>) {
    && |t.pending| + |Fresh(t, es)| <= MAX_PENDING_ITEMS
    && Bytes(t.pending) + BodyBytes(Fresh(t, es)) <= MAX_PENDING_BYTES
    && |t.receipts| + |t.pending| + |Fresh(t, es)| <= MAX_RECEIPTS
  }

  /** The files `enqueue` accepts. */
  predicate Admissible(t: Tables, es: seq<Event>) {
    AgentsAgree(t, es) && BodiesAgree(t, es) && Fits(t, es)
  }

  function RowOf(e: Event, id: nat, now: i64): Row {
    Row(id, e.ingestKey, e.eventId, e.agent, e.name, e.sessionId, e.cwd, e.body, e.bodySha,
        now, None, 0, None)
  }

  function NewRows(added: seq<Event>, firstId: nat, now: i64): seq<Row> {
    seq(|added|, k requires 0 <= k < |added| => RowOf(added[k], firstId + k, now))
  }

  /** The agent a file claims for session `s`. */
  function AgentIn(es: seq<Event>, s: string): (agent: string)
    requires s in Sessions(es)
    ensures exists e :: e in es && e.sessionId == s && e.agent == agent
  {
    var last := es[|es| - 1];
    if last.sessionId == s then last.agent
    else
      assert es == es[..|es| - 1] + [last];
      AgentIn(es[..|es| - 1], s)
  }

  function PinFor(t: Tables, es: seq<Event>, now: i64, s: string): Pin
    requires s in Sessions(es)
  {
    Pin(if s in t.pins then t.pins[s].agent else AgentIn(es, s), now)
  }

  function Pins(t: Tables, es: seq<Event>, now: i64): map<string, Pin> {
    map s | s in t.pins.Keys + Sessions(es) :: if s in Sessions(es) then PinFor(t, es, now, s) else t.pins[s]
  }

  function Enqueued(t: Tables, es: seq<Event>, now: i64): Tables {
    var added := Fresh(t, es);
    Tables(t.pending + NewRows(added, t.nextId, now), t.receipts, Pins(t, es, now), t.nextId + |added|)
  }

  /** What a key stands for: the body hash of its pending row, or of its receipt. */
  lemma KnownShaMeaning(t: Tables, key: string, sha: string)
    requires Inv(t)
    ensures KnownSha(t, key) == Some(sha)
            <==> || (exists r :: r in t.pending && r.ingestKey == key && r.bodySha == sha)
                 || (key in t.receipts && t.receipts[key].bodySha == sha)
  {
    if r :| r in t.pending && r.ingestKey == key {
      FindUnique(t.pending, r);
      assert key in Keys(t.pending);
    }
  }

  // ---- the source's per-event decision ---------------------------------------------

  /** The agent `s` is bound to once `before` has been taken. */
  function Bound(t: Tables, before: seq<Event>, s: string): Option<string> {
    if s in t.pins then Some(t.pins[s].agent)
    else if s in Sessions(before) then Some(AgentIn(before, s))
    else None
  }

  predicate Clashes(before: seq<Event>, e: Event) {
    exists f :: f in before && f.ingestKey == e.ingestKey && f.bodySha != e.bodySha
  }

  /** A session belongs to one agent, and a new one needs a pin. */
  function CheckSession(t: Tables, before: seq<Event>, e: Event): Option<Reason> {
    var bound := Bound(t, before, e.sessionId);
    if bound.None? && |t.pins| + |NewSessions(t, before)| + 1 > MAX_SESSION_PINS then Some(PinsFull)
    else if bound.Some? && bound.value != e.agent then Some(SessionConflict)
    else None
  }

  predicate Adds(t: Tables, before: seq<Event>, e: Event) {
    KnownSha(t, e.ingestKey).None? && e.ingestKey !in EventKeys(before)
  }

  /** A key means one body; a new one needs a row and, later, a receipt. */
  function CheckKey(t: Tables, before: seq<Event>, e: Event): Option<Reason> {
    if Clashes(before, e) then Some(CollisionInFile)
    else if !Adds(t, before, e) then
      if KnownSha(t, e.ingestKey).GetOr(e.bodySha) != e.bodySha then Some(CollisionInQueue) else None
    else if |t.pending| + |Fresh(t, before)| + 1 > MAX_PENDING_ITEMS
      || Bytes(t.pending) + BodyBytes(Fresh(t, before)) + |e.body| > MAX_PENDING_BYTES then
      Some(QueueFull)
    else if |t.receipts| + |t.pending| + |Fresh(t, before)| + 1 > MAX_RECEIPTS then
      Some(ReplayFull)
    else None
  }

  /** What the loop finds wrong with `e` after having taken `before`. */
  function Check(t: Tables, before: seq<Event>, e: Event): Option<Reason> {
    var session := CheckSession(t, before, e);
    if session.Some? then session else CheckKey(t, before, e)
  }

  lemma FreshSnoc(t: Tables, before: seq<Event>, e: Event)
    ensures Fresh(t, before + [e])
            == if KnownSha(t, e.ingestKey).None? && e.ingestKey !in EventKeys(before)
               then Fresh(t, before) + [e] else Fresh(t, before)
  {
    var es := before + [e];
    assert es[..|es| - 1] == before;
    assert FirstUnknown(t, es, |before|)
      <==> KnownSha(t, e.ingestKey).None? && e.ingestKey !in EventKeys(before) by {
      assert forall j :: 0 <= j < |before| ==> es[j] == before[j];
    }
  }

  lemma SessionsSnoc(es: seq<Event>, e: Event)
    ensures Sessions(es + [e]) == Sessions(es) + {e.sessionId}
  {
    forall s | s in Sessions(es) ensures s in Sessions(es + [e]) {
      var f :| f in es && f.sessionId == s;
      assert f in es + [e];
    }
    assert e in es + [e];
  }

  lemma NewSessionsSnoc(t: Tables, before: seq<Event>, e: Event)
    ensures |NewSessions(t, before + [e])|
            == |NewSessions(t, before)| + (if Bound(t, before, e.sessionId).Some? then 0 else 1)
  {
    SessionsSnoc(before, e);
    InsertedSize(Sessions(before), t.pins.Keys, e.sessionId);
  }

  lemma InsertedSize(a: set<string>, known: set<string>, s: string)
    ensures |a + {s} - known| == |a - known| + (if s in known || s in a then 0 else 1)
  {
    if s in known || s in a {
      assert a + {s} - known == a - known;
    } else {
      assert a + {s} - known == (a - known) + {s};
    }
  }

  lemma BodyBytesSnoc(es: seq<Event>, e: Event)
    ensures BodyBytes(es + [e]) == BodyBytes(es) + |e.body|
  {
    assert (es + [e])[..|es|] == es;
  }

  lemma AgentsSnoc(t: Tables, before: seq<Event>, e: Event)
    requires AgentsAgree(t, before)
    ensures AgentsAgree(t, before + [e])
            <==> Bound(t, before, e.sessionId).None? || Bound(t, before, e.sessionId).value == e.agent
  {
    var es := before + [e];
    assert forall f :: f in es <==> f in before || f == e;
    if e.sessionId in Sessions(before) {
      var f :| f in before && f.sessionId == e.sessionId && f.agent == AgentIn(before, e.sessionId);
      assert f in es && e in es;
    }
  }

  lemma BodiesSnoc(t: Tables, before: seq<Event>, e: Event)
    requires BodiesAgree(t, before)
    ensures BodiesAgree(t, before + [e])
            <==> (KnownSha(t, e.ingestKey).Some? ==> KnownSha(t, e.ingestKey).value == e.bodySha)
                 && !Clashes(before, e)
  {
    var es := before + [e];
    assert forall f :: f in es <==> f in before || f == e;
  }

  lemma FitsSnoc(t: Tables, before: seq<Event>, e: Event)
    ensures Fits(t, before + [e]) ==> Fits(t, before)
    ensures Fits(t, before) ==> (Fits(t, before + [e]) <==> PinFits(t, before, e) && RowFits(t, before, e))
  {
    PinFitsIff(t, before, e);
    RowFitsIff(t, before, e);
  }

  /** A new session finds room in the pin table. */
  predicate PinFits(t: Tables, before: seq<Event>, e: Event) {
    Bound(t, before, e.sessionId).Some? || |t.pins| + |NewSessions(t, before)| + 1 <= MAX_SESSION_PINS
  }

  /** A new key finds room among the rows and the receipts. */
  predicate RowFits(t: Tables, before: seq<Event>, e: Event) {
    || KnownSha(t, e.ingestKey).Some? || e.ingestKey in EventKeys(before)
    || (&& |t.pending| + |Fresh(t, before)| + 1 <= MAX_PENDING_ITEMS
        && Bytes(t.pending) + BodyBytes(Fresh(t, before)) + |e.body| <= MAX_PENDING_BYTES
        && |t.receipts| + |t.pending| + |Fresh(t, before)| + 1 <= MAX_RECEIPTS)
  }

  lemma PinFitsIff(t: Tables, before: seq<Event>, e: Event)
    ensures |NewSessions(t, before)| <= |NewSessions(t, before + [e])|
    ensures |t.pins| + |NewSessions(t, before)| <= MAX_SESSION_PINS ==>
              (|t.pins| + |NewSessions(t, before + [e])| <= MAX_SESSION_PINS <==> PinFits(t, before, e))
  {
    NewSessionsSnoc(t, before, e);
  }

  lemma RowFitsIff(t: Tables, before: seq<Event>, e: Event)
    ensures |Fresh(t, before)| <= |Fresh(t, before + [e])|
    ensures BodyBytes(Fresh(t, before)) <= BodyBytes(Fresh(t, before + [e]))
    ensures RoomForRows(t, before) ==> (RoomForRows(t, before + [e]) <==> RowFits(t, before, e))
  {
    FreshGrows(t, before, e);
  }

  lemma FreshGrows(t: Tables, before: seq<Event>, e: Event)
    ensures |Fresh(t, before + [e])| == |Fresh(t, before)| + if Adds(t, before, e) then 1 else 0
    ensures BodyBytes(Fresh(t, before + [e])) == BodyBytes(Fresh(t, before)) + if Adds(t, before, e) then |e.body| else 0
  {
    FreshSnoc(t, before, e);
    BodyBytesSnoc(Fresh(t, before), e);
  }

  /** The event-by-event checks decide the whole-file predicate: taking one more event
      keeps the file admissible exactly when its check finds nothing. */
  lemma CheckDecides(t: Tables, before: seq<Event>, e: Event)
    requires Admissible(t, before)
    ensures Check(t, before, e).None? <==> Admissible(t, before + [e])
  {
    FitsSnoc(t, before, e);
    AgentsSnoc(t, before, e);
    BodiesSnoc(t, before, e);
    CheckIs(t, before, e);
  }

  lemma CheckIs(t: Tables, before: seq<Event>, e: Event)
    ensures Check(t, before, e).None?
            <==> && PinFits(t, before, e) && RowFits(t, before, e) && !Clashes(before, e)
                 && (Bound(t, before, e.sessionId).None? || Bound(t, before, e.sessionId).value == e.agent)
                 && (KnownSha(t, e.ingestKey).Some? ==> KnownSha(t, e.ingestKey).value == e.bodySha)
  {
  }

  lemma AgentsInit(t: Tables, before: seq<Event>, e: Event)
    requires AgentsAgree(t, before + [e])
    ensures AgentsAgree(t, before)
  {
    assert forall f :: f in before ==> f in before + [e];
  }

  lemma BodiesInit(t: Tables, before: seq<Event>, e: Event)
    requires BodiesAgree(t, before + [e])
    ensures BodiesAgree(t, before)
  {
    assert forall f :: f in before ==> f in before + [e];
  }

  /** The source's loop: every event passes its check after the ones before it. */
  predicate Accepts(t: Tables, es: seq<Event>) {
    es != [] ==>
      && Accepts(t, es[..|es| - 1])
      && Check(t, es[..|es| - 1], es[|es| - 1]).None?
  }

  /** The loop accepts exactly the files the whole-file predicate describes. */
  lemma {:induction false} AcceptsIffAdmissible(t: Tables, es: seq<Event>)
    requires Inv(t)
    ensures Accepts(t, es) <==> Admissible(t, es)
  {
    if es == [] {
      assert NewSessions(t, es) == {};
    } else {
      var before, e := es[..|es| - 1], es[|es| - 1];
      AcceptsIffAdmissible(t, before);
      assert es == before + [e];
      if Admissible(t, es) {
        AgentsInit(t, before, e);
        BodiesInit(t, before, e);
        FitsSnoc(t, before, e);
      }
      if Admissible(t, before) {
        CheckDecides(t, before, e);
      }
    }
  }

  lemma {:induction false} AcceptsEach(t: Tables, es: seq<Event>, i: nat)
    requires i < |es| && Accepts(t, es)
    ensures Accepts(t, es[..i]) && Check(t, es[..i], es[i]).None?
  {
    if i < |es| - 1 {
      AcceptsEach(t, es[..|es| - 1], i);
      assert es[..|es| - 1][..i] == es[..i];
    }
  }

  // ---- what is added --------------------------------------------------------------------

  /** The added events are exactly the first occurrences of unknown keys, in file
      order. */
  lemma {:induction false} FreshAtMeaning(t: Tables, es: seq<Event>)
    ensures forall j, k :: 0 <= j < k < |FreshAt(t, es)| ==> FreshAt(t, es)[j] < FreshAt(t, es)[k]
    ensures forall i :: 0 <= i < |es| ==> (i in FreshAt(t, es) <==> FirstUnknown(t, es, i))
  {
    if es != [] {
      var n := |es| - 1;
      FreshAtMeaning(t, es[..n]);
      forall i | 0 <= i < n
        ensures FirstUnknown(t, es, i) == FirstUnknown(t, es[..n], i)
      {
        assert forall j :: 0 <= j <= i ==> es[j] == es[..n][j];
      }
    }
  }

  lemma FreshKeys(t: Tables, es: seq<Event>)
    ensures forall j, k :: 0 <= j < k < |Fresh(t, es)| ==> Fresh(t, es)[j].ingestKey != Fresh(t, es)[k].ingestKey
    ensures forall e :: e in Fresh(t, es) ==> e in es && KnownSha(t, e.ingestKey).None?
  {
    FreshAtMeaning(t, es);
    var at := FreshAt(t, es);
    forall j, k | 0 <= j < k < |at|
      ensures es[at[j]].ingestKey != es[at[k]].ingestKey
    {
      assert at[k] in at && FirstUnknown(t, es, at[k]) && at[j] < at[k];
    }
    forall k | 0 <= k < |at|
      ensures KnownSha(t, es[at[k]].ingestKey).None?
    {
      assert at[k] in at && FirstUnknown(t, es, at[k]);
    }
  }

  lemma UnknownIsNowhere(t: Tables, key: string)
    ensures KnownSha(t, key).None? <==> key !in Keys(t.pending) && key !in t.receipts
  {
  }

  lemma {:induction false} NewRowsBytes(p: seq<Row>, added: seq<Event>, firstId: nat, now: i64)
    ensures Bytes(p + NewRows(added, firstId, now)) == Bytes(p) + BodyBytes(added)
  {
    var rows := NewRows(added, firstId, now);
    if added == [] {
      assert p + rows == p;
    } else {
      var init := added[..|added| - 1];
      NewRowsBytes(p, init, firstId, now);
      assert (p + rows)[..|p + rows| - 1] == p + NewRows(init, firstId, now);
    }
  }

  lemma PinsSize(t: Tables, es: seq<Event>, now: i64)
    ensures |Pins(t, es, now)| == |t.pins| + |NewSessions(t, es)|
  {
    assert Pins(t, es, now).Keys == t.pins.Keys + NewSessions(t, es);
  }

  lemma PinsMeaning(t: Tables, es: seq<Event>, now: i64)
    requires Inv(t) && AgentsAgree(t, es)
    ensures forall s :: s in Pins(t, es, now) <==> s in t.pins || exists e :: e in es && e.sessionId == s
    ensures forall s :: s in t.pins ==> s in Pins(t, es, now) && Pins(t, es, now)[s].agent == t.pins[s].agent
    ensures forall s :: s in t.pins && (forall e :: e in es ==> e.sessionId != s) ==> Pins(t, es, now)[s] == t.pins[s]
    ensures forall e :: e in es ==> e.sessionId in Pins(t, es, now) && Pins(t, es, now)[e.sessionId] == Pin(e.agent, now)
  {
    var pins := Pins(t, es, now);
    forall s ensures s in Sessions(es) <==> exists e :: e in es && e.sessionId == s {
      SessionKnown(es, s);
    }
    forall e | e in es ensures e.sessionId in pins && pins[e.sessionId] == Pin(e.agent, now) {
      assert e.sessionId in Sessions(es);
    }
  }

  /** A committed file keeps every table invariant: in particular the receipt slot of
      each new row is reserved at admission. */
  lemma EnqueuedInv(t: Tables, es: seq<Event>, now: i64)
    requires Inv(t) && Admissible(t, es)
    ensures Inv(Enqueued(t, es, now))
  {
    PinsSize(t, es, now);
    NewRowsBytes(t.pending, Fresh(t, es), t.nextId, now);
    EnqueuedRows(t, es, now);
    EnqueuedPinned(t, es, now);
    EnqueuedHeads(t, es, now);
  }

  lemma NewRowKeys(t: Tables, es: seq<Event>, now: i64)
    ensures var rows := NewRows(Fresh(t, es), t.nextId, now);
            && DistinctKeys(rows)
            && forall k :: 0 <= k < |rows| ==> rows[k].ingestKey !in Keys(t.pending) && rows[k].ingestKey !in t.receipts
  {
    FreshKeys(t, es);
    var added := Fresh(t, es);
    forall k | 0 <= k < |added|
      ensures added[k].ingestKey !in Keys(t.pending) && added[k].ingestKey !in t.receipts
    {
      UnknownIsNowhere(t, added[k].ingestKey);
    }
  }

  lemma EnqueuedRows(t: Tables, es: seq<Event>, now: i64)
    requires Inv(t)
    ensures RowsOk(Enqueued(t, es, now)) && KeysDisjoint(Enqueued(t, es, now))
  {
    NewRowKeys(t, es, now);
    NewRowsDistinct(t, NewRows(Fresh(t, es), t.nextId, now));
  }

  lemma EnqueuedPinned(t: Tables, es: seq<Event>, now: i64)
    requires Inv(t) && AgentsAgree(t, es)
    ensures Pinned(Enqueued(t, es, now).pending, Enqueued(t, es, now).pins)
  {
    PinsMeaning(t, es, now);
    FreshKeys(t, es);
    PinnedAppend(t.pending, t.pins, Fresh(t, es), t.nextId, now, Pins(t, es, now));
  }

  lemma PinnedAppend(
    p: seq<Row>, pins: map<string, Pin>, added: seq<Event>, firstId: nat, now: i64, pins': map<string, Pin>)
    requires Pinned(p, pins)
    requires forall s :: s in pins ==> s in pins' && pins'[s].agent == pins[s].agent
    requires forall e :: e in added ==> e.sessionId in pins' && pins'[e.sessionId].agent == e.agent
    ensures Pinned(p + NewRows(added, firstId, now), pins')
  {
    var rows := NewRows(added, firstId, now);
    forall k | 0 <= k < |rows|
      ensures rows[k].sessionId in pins' && pins'[rows[k].sessionId].agent == rows[k].agent
    {
      assert added[k] in added;
    }
  }

  lemma EnqueuedHeads(t: Tables, es: seq<Event>, now: i64)
    requires Inv(t)
    ensures OnlyHeadsAttempted(Enqueued(t, es, now).pending)
  {
    HeadsAppend(t.pending, NewRows(Fresh(t, es), t.nextId, now), t.nextId);
  }

  lemma HeadsAppend(p: seq<Row>, rows: seq<Row>, firstId: nat)
    requires OnlyHeadsAttempted(p)
    requires forall r :: r in p ==> r.id < firstId
    requires forall r :: r in rows ==> r.id >= firstId && r.firstAttempt.None?
    ensures OnlyHeadsAttempted(p + rows)
  {
    forall r | r in p + rows && r.firstAttempt.Some?
      ensures IsHead(p + rows, r)
    {
      assert r in p && IsHead(p, r);
    }
  }

  lemma NewRowsDistinct(t: Tables, rows: seq<Row>)
    requires RowsOk(t)
    requires forall k :: 0 <= k < |rows| ==> rows[k].id == t.nextId + k && rows[k].ingestKey !in Keys(t.pending)
    requires DistinctKeys(rows)
    ensures Ordered(t.pending + rows) && DistinctKeys(t.pending + rows)
  {
    var all := t.pending + rows;
    forall i, j | 0 <= i < j < |all|
      ensures all[i].id < all[j].id && all[i].ingestKey != all[j].ingestKey
    {
      if i < |t.pending| {
        assert all[i] in t.pending;
        assert all[i].ingestKey in Keys(t.pending);
      }
    }
  }

  // ---- what is stored ------------------------------------------------------------------------

  /** The row holds the event, field by field. */
  predicate Holds(r: Row, e: Event) {
    && r.eventId == e.eventId && r.agent == e.agent && r.name == e.name && r.sessionId == e.sessionId
    && r.cwd == e.cwd && r.body == e.body && r.bodySha == e.bodySha && r.ingestKey == e.ingestKey
  }

  /** A row no delivery has touched. */
  predicate Untouched(r: Row, now: i64) {
    r.firstSeen == now && r.firstAttempt.None? && r.attempts == 0 && r.lastError.None?
  }

  /** Old rows stay as they are, and behind them each new event has one untouched row that
      holds it, numbered on from the counter. */
  lemma NewRowsMeaning(t: Tables, es: seq<Event>, now: i64)
    ensures var u := Enqueued(t, es, now);
            && AppendedFor(t.pending, u.pending, Fresh(t, es), t.nextId, now)
            && u.nextId == t.nextId + |Fresh(t, es)| && u.receipts == t.receipts
  {
    AppendMeaning(t.pending, Fresh(t, es), t.nextId, now);
  }

  /** `q` is `p` followed by one untouched row for each event added. */
  predicate AppendedFor(p: seq<Row>, q: seq<Row>, added: seq<Event>, firstId: nat, now: i64) {
    && |q| == |p| + |added|
    && q[..|p|] == p
    && forall k :: 0 <= k < |added| ==>
         Holds(q[|p| + k], added[k]) && Untouched(q[|p| + k], now) && q[|p| + k].id == firstId + k
  }

  lemma AppendMeaning(p: seq<Row>, added: seq<Event>, firstId: nat, now: i64)
    ensures AppendedFor(p, p + NewRows(added, firstId, now), added, firstId, now)
  {
    var q := p + NewRows(added, firstId, now);
    forall k | 0 <= k < |added|
      ensures q[|p| + k] == RowOf(added[k], firstId + k, now)
    {
    }
  }

  // ---- what each refusal means -----------------------------------------------------------------

  /** Neither the pins nor the file so far know the session. */
  predicate IsNewSession(t: Tables, before: seq<Event>, s: string) {
    s !in t.pins && forall f :: f in before ==> f.sessionId != s
  }

  /** The session is another agent's, by its pin or, without one, by an earlier event. */
  predicate IsClaimed(t: Tables, before: seq<Event>, e: Event) {
    if e.sessionId in t.pins then t.pins[e.sessionId].agent != e.agent
    else exists f :: f in before && f.sessionId == e.sessionId && f.agent != e.agent
  }

  /** Neither the queue nor the file so far knows the key. */
  predicate IsNews(t: Tables, before: seq<Event>, key: string) {
    && key !in Keys(t.pending) && key !in t.receipts
    && forall f :: f in before ==> f.ingestKey != key
  }

  predicate NoRoomForRow(t: Tables, before: seq<Event>, e: Event) {
    || |t.pending| + |Fresh(t, before)| == MAX_PENDING_ITEMS
    || Bytes(t.pending) + BodyBytes(Fresh(t, before)) + |e.body| > MAX_PENDING_BYTES
  }

  /** A session is refused for want of a pin, or because it is another agent's. */
  lemma SessionReason(t: Tables, before: seq<Event>, e: Event)
    requires AgentsAgree(t, before) && |t.pins| + |NewSessions(t, before)| <= MAX_SESSION_PINS
    ensures CheckSession(t, before, e) == Some(PinsFull)
            <==> IsNewSession(t, before, e.sessionId) && |t.pins| + |NewSessions(t, before)| == MAX_SESSION_PINS
    ensures CheckSession(t, before, e) == Some(SessionConflict) <==> IsClaimed(t, before, e)
    ensures CheckSession(t, before, e) in {None, Some(PinsFull), Some(SessionConflict)}
  {
    SessionKnown(before, e.sessionId);
    if e.sessionId in Sessions(before) {
      var f :| f in before && f.sessionId == e.sessionId && f.agent == AgentIn(before, e.sessionId);
    }
  }

  lemma SessionKnown(before: seq<Event>, s: string)
    ensures s in Sessions(before) <==> exists f :: f in before && f.sessionId == s
  {
  }

  lemma NewsIff(t: Tables, before: seq<Event>, e: Event)
    ensures Adds(t, before, e) <==> IsNews(t, before, e.ingestKey)
  {
    UnknownIsNowhere(t, e.ingestKey);
  }

  /** A key is refused because it stands for another body, in the file or in the queue, or
      because there is no room for its row, or none for its receipt. */
  lemma KeyReason(t: Tables, before: seq<Event>, e: Event)
    requires RoomForRows(t, before)
    ensures CheckKey(t, before, e) == Some(CollisionInFile) <==> Clashes(before, e)
    ensures CheckKey(t, before, e) == Some(CollisionInQueue)
            <==> !Clashes(before, e) && KnownSha(t, e.ingestKey) !in {None, Some(e.bodySha)}
    ensures CheckKey(t, before, e) == Some(QueueFull)
            <==> IsNews(t, before, e.ingestKey) && NoRoomForRow(t, before, e)
    ensures CheckKey(t, before, e) == Some(ReplayFull)
            <==> && IsNews(t, before, e.ingestKey) && !NoRoomForRow(t, before, e)
                 && |t.receipts| + |t.pending| + |Fresh(t, before)| == MAX_RECEIPTS
  {
    NewsIff(t, before, e);
  }

  // ---- replay -----------------------------------------------------------------------------

  /** Everything this file could add is already recorded. */
  predicate Remembered(t: Tables, es: seq<Event>) {
    && (forall e :: e in es ==> KnownSha(t, e.ingestKey) == Some(e.bodySha))
    && (forall e :: e in es ==> e.sessionId in t.pins && t.pins[e.sessionId].agent == e.agent)
  }

  lemma {:induction false} NothingFresh(t: Tables, es: seq<Event>)
    requires forall e :: e in es ==> KnownSha(t, e.ingestKey).Some?
    ensures Fresh(t, es) == []
  {
    if es != [] {
      NothingFresh(t, es[..|es| - 1]);
      assert es[|es| - 1] in es;
    }
  }

  /** Enqueueing a remembered file again succeeds and adds nothing, however full the
      queue is. */
  lemma ReplayAddsNothing(t: Tables, es: seq<Event>, now: i64)
    requires Inv(t) && Remembered(t, es)
    ensures Admissible(t, es) && Fresh(t, es) == []
    ensures Enqueued(t, es, now).pending == t.pending
    ensures Enqueued(t, es, now).receipts == t.receipts && Enqueued(t, es, now).nextId == t.nextId
    ensures Enqueued(t, es, now).pins.Keys == t.pins.Keys
  {
    NothingFresh(t, es);
    assert NewSessions(t, es) == {};
  }

  lemma EnqueuedRemembers(t: Tables, es: seq<Event>, now: i64)
    requires Inv(t) && Admissible(t, es)
    ensures Remembered(Enqueued(t, es, now), es)
  {
    var u := Enqueued(t, es, now);
    PinsMeaning(t, es, now);
    EnqueuedInv(t, es, now);
    forall e | e in es
      ensures KnownSha(u, e.ingestKey) == Some(e.bodySha)
    {
      EnqueuedKnows(t, es, now, e);
    }
  }

  lemma EnqueuedKnows(t: Tables, es: seq<Event>, now: i64, e: Event)
    requires Inv(t) && Admissible(t, es) && e in es && Inv(Enqueued(t, es, now))
    ensures KnownSha(Enqueued(t, es, now), e.ingestKey) == Some(e.bodySha)
  {
    var u := Enqueued(t, es, now);
    if KnownSha(t, e.ingestKey).Some? {
      KnownStays(t, u, e.ingestKey);
    } else {
      var row := AddedRow(t, es, now, e);
      FindUnique(u.pending, row);
    }
  }

  lemma AddedRow(t: Tables, es: seq<Event>, now: i64, e: Event) returns (row: Row)
    requires BodiesAgree(t, es) && e in es && KnownSha(t, e.ingestKey).None?
    ensures row in Enqueued(t, es, now).pending && row.ingestKey == e.ingestKey && row.bodySha == e.bodySha
  {
    var i := FirstWithKey(es, e);
    FreshAtMeaning(t, es);
    assert FirstUnknown(t, es, i);
    var k :| 0 <= k < |FreshAt(t, es)| && FreshAt(t, es)[k] == i;
    row := RowAt(t, es, now, k);
  }

  lemma RowAt(t: Tables, es: seq<Event>, now: i64, k: nat) returns (row: Row)
    requires k < |Fresh(t, es)|
    ensures row in Enqueued(t, es, now).pending
    ensures row.ingestKey == Fresh(t, es)[k].ingestKey && row.bodySha == Fresh(t, es)[k].bodySha
  {
    row := NewRows(Fresh(t, es), t.nextId, now)[k];
  }

  lemma FirstWithKey(es: seq<Event>, e: Event) returns (i: nat)
    requires e in es
    ensures i < |es| && es[i].ingestKey == e.ingestKey
    ensures forall j :: 0 <= j < i ==> es[j].ingestKey != e.ingestKey
  {
    i := 0;
    while es[i].ingestKey != e.ingestKey
      invariant i < |es|
      invariant forall j :: 0 <= j < i ==> es[j].ingestKey != e.ingestKey
      decreases |es| - i
    {
      assert exists j :: i < j < |es| && es[j] == e;
      i := i + 1;
    }
  }

  /** A hash, once recorded, is what every later state that still holds its row or its
      receipt answers with. */
  lemma KnownStays(t: Tables, u: Tables, key: string)
    requires Inv(t) && Inv(u) && KnownSha(t, key).Some?
    requires forall r :: r in t.pending && r.ingestKey == key ==>
               || (exists q :: q in u.pending && q.ingestKey == key && q.bodySha == r.bodySha)
               || (key in u.receipts && u.receipts[key].bodySha == r.bodySha)
    requires key in t.receipts ==> key in u.receipts && u.receipts[key].bodySha == t.receipts[key].bodySha
    ensures KnownSha(u, key) == KnownSha(t, key)
  {
    if key in Keys(t.pending) {
      var r := Find(t.pending, key).value;
      if q :| q in u.pending && q.ingestKey == key && q.bodySha == r.bodySha {
        FindUnique(u.pending, q);
      } else {
        assert key !in Keys(u.pending);
      }
    } else {
      assert key !in Keys(u.pending);
    }
  }

  /** After a prune the pins may be gone while the receipts stay. A file of known keys is
      then admitted exactly when its sessions still fit the pin table; the claim that a
      duplicate is recognized however full the queue is needs this condition. */
  lemma KnownFileNeedsPins(t: Tables, es: seq<Event>)
    requires Inv(t) && forall e :: e in es ==> KnownSha(t, e.ingestKey) == Some(e.bodySha)
    ensures Admissible(t, es) <==> AgentsAgree(t, es) && |t.pins| + |NewSessions(t, es)| <= MAX_SESSION_PINS
  {
    KnownBodiesAgree(t, es);
    NothingFresh(t, es);
    NothingFreshFits(t, es);
  }

  lemma KnownBodiesAgree(t: Tables, es: seq<Event>)
    requires forall e :: e in es ==> KnownSha(t, e.ingestKey) == Some(e.bodySha)
    ensures BodiesAgree(t, es)
  {
  }

  lemma NothingFreshFits(t: Tables, es: seq<Event>)
    requires WithinCaps(t) && Fresh(t, es) == []
    ensures RoomForRows(t, es)
  {
  }
}
