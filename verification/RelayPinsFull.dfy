/** A queue in which a delivered event, enqueued again unchanged, is refused: its pin has been
    pruned, its receipt has not, and the pin table has filled up since. The queue is reached
    by a run: one event is enqueued, delivered a millisecond later, a flush thirty days on
    prunes the pin, and files of new sessions follow. */
module RelayPinsFull {
  import opened Common
  import opened RelayTables
  import opened RelayEnqueue
  import opened RelaySelect
  import opened RelayAck
  import opened RelayWorld
  import opened RelayDelivery
  import opened RelayPassRuns
  import opened RelayFlushWire

  // ---- the states on the way ------------------------------------------------------------------------

  const EVENT := Event("e1", "codex", "session-start", "native-1", "/w", BodyOf("native-1"), "sha", "key")
  const PIN := Pin("codex", 0)
  const ROW := RowOf(EVENT, 1, 0)
  const SENT := ROW.(firstAttempt := Some(1), attempts := 1)
  const RECEIPT := Receipt("sha", 1, 1, "unknown")
  const LATER: i64 := RETRY_WINDOW_MS + 1
  const ACK := BatchAck(1, None, None, None)

  const ENQUEUED := Tables([ROW], map[], map["native-1" := PIN], 2)
  const MARKED := Tables([SENT], map[], map["native-1" := PIN], 2)
  const DELIVERED := Tables([], map["key" := RECEIPT], map["native-1" := PIN], 2)
  const UNPINNED := Tables([], map["key" := RECEIPT], map[], 2)

  function Free(r: Row): nat { 0 }

  /** The JSON body of an event: an object that names its session and its directory. */
  function BodyOf(session: string): (body: seq<byte>)
    ensures |body| == |session| + 28
  {
    var text := "{\"session_id\":\"" + session + "\",\"cwd\":\"/w\"}";
    seq(|text|, i requires 0 <= i < |text| => text[i] as int % 0x100)
  }

  // ---- enqueueing one new event ----------------------------------------------------------------------

  predicate IsNew(t: Tables, e: Event) {
    && e.sessionId !in t.pins && e.ingestKey !in Keys(t.pending) && e.ingestKey !in t.receipts
    && |t.pins| + 1 <= MAX_SESSION_PINS && |t.pending| + 1 <= MAX_PENDING_ITEMS
    && Bytes(t.pending) + |e.body| <= MAX_PENDING_BYTES && |t.receipts| + |t.pending| + 1 <= MAX_RECEIPTS
  }

  function WithEvent(t: Tables, e: Event, now: i64): Tables {
    Tables(t.pending + [RowOf(e, t.nextId, now)], t.receipts, t.pins[e.sessionId := Pin(e.agent, now)], t.nextId + 1)
  }

  lemma NewIsChecked(t: Tables, e: Event)
    requires IsNew(t, e)
    ensures Check(t, [], e).None?
  {
    UnknownIsNowhere(t, e.ingestKey);
    assert NewSessions(t, []) == {};
  }

  lemma NewIsAdmissible(t: Tables, e: Event)
    requires Inv(t) && IsNew(t, e)
    ensures Admissible(t, [e])
  {
    NewIsChecked(t, e);
    assert NewSessions(t, []) == {};
    CheckDecides(t, [], e);
    assert [] + [e] == [e];
  }

  lemma NewIsTaken(t: Tables, e: Event, now: i64)
    requires Inv(t) && IsNew(t, e)
    ensures Admissible(t, [e]) && Enqueued(t, [e], now) == WithEvent(t, e, now)
  {
    NewIsAdmissible(t, e);
    NewIsFresh(t, e);
    NewRowIs(e, t.nextId, now);
    NewPins(t, e, now);
  }

  lemma NewIsFresh(t: Tables, e: Event)
    requires IsNew(t, e)
    ensures Fresh(t, [e]) == [e]
  {
    UnknownIsNowhere(t, e.ingestKey);
    FreshSnoc(t, [], e);
    assert [] + [e] == [e];
  }

  lemma NewRowIs(e: Event, id: nat, now: i64)
    ensures NewRows([e], id, now) == [RowOf(e, id, now)]
  {
  }

  lemma NewPins(t: Tables, e: Event, now: i64)
    requires e.sessionId !in t.pins
    ensures Pins(t, [e], now) == t.pins[e.sessionId := Pin(e.agent, now)]
  {
    assert Sessions([e]) == {e.sessionId} by {
      assert e in [e];
    }
  }

  // ---- playing on ------------------------------------------------------------------------------------

  /** The world outside the tables and the phase plays no part here. */
  predicate At(w: World, db: Tables, phase: Phase, clock: i64) { w.db == db && w.phase == phase && w.clock == clock }

  // ---- the event is enqueued and delivered -------------------------------------------------------------

  lemma FirstEnqueued()
    ensures Admissible(EMPTY, [EVENT]) && Enqueued(EMPTY, [EVENT], 0) == ENQUEUED
  {
    EmptyInv();
    NewIsTaken(EMPTY, EVENT, 0);
    assert [] + [ROW] == [ROW];
  }

  lemma NothingPruned()
    ensures Pruned(ENQUEUED, 1) == ENQUEUED
  {
  }

  lemma OneHead(q: Request)
    requires q.deferred == {} && q.limit > 0
    ensures Items([ROW], q) == [ROW]
  {
    SelectionMeaning([ROW], q);
    assert ROW in [ROW] && IsHead([ROW], ROW);
    OnlyOne(Items([ROW], q));
  }

  lemma OnlyOne(b: seq<Row>)
    requires b != [] && Ordered(b) && forall r :: r in b ==> IsHead([ROW], r)
    ensures b == [ROW]
  {
    assert forall k :: 0 <= k < |b| ==> b[k] in b && b[k] == ROW;
    assert |b| > 1 ==> b[0].id < b[1].id;
  }

  lemma NothingScreened()
    ensures Drops([ROW], {}) == [] && Without([ROW], {}) == [ROW]
  {
    WithoutNone([ROW], {});
    assert [ROW][..0] == [];
  }

  lemma OneStamped()
    ensures KeysOf([ROW]) == ["key"] && Stamped([ROW], ["key"], 1) == [SENT]
  {
    assert ["key"][..0] == [];
  }

  lemma OneAcknowledged()
    ensures Validate(1, ACK) == Ok([0]) && Acks([ROW], ACK, [0]) == [("key", "unknown")]
  {
    assert Consistent(1, ACK, [0]);
    ConsistentPasses(1, ACK, [0]);
  }

  lemma OneConfirmed()
    ensures Confirmed(MARKED, [("key", "unknown")], 1) == DELIVERED
  {
    var acks := [("key", "unknown")];
    assert acks[..0] == [];
    assert Find([SENT], "key") == Some(SENT);
    assert SENT in [SENT];
    OneGone();
  }

  lemma OneGone()
    ensures Without([SENT], {"key"}) == []
  {
    assert [SENT][..0] == [];
  }

  lemma WindowOpen()
    ensures TtlLeft([ROW], 1, 1) == RETRY_WINDOW_MS
  {
  }

  /** Pick, screen and mark. */
  lemma Prepares(w: World) returns (steps: seq<Step>, v: World)
    requires At(w, ENQUEUED, Idle, 0)
    ensures Leads(w, steps, v) && At(v, MARKED, Phase.Marked({}, [ROW], 1), 1)
  {
    NothingPruned();
    OneHead(PickRequest({}, 1, Free));
    NothingScreened();
    OneStamped();
    steps, v := [], w;
    LeadsOn(w, steps, v, Begin(1));
    steps, v := steps + [Begin(1)], Apply(v, Begin(1));
    LeadsOn(w, steps, v, Pick(1, Free));
    steps, v := steps + [Pick(1, Free)], Apply(v, Pick(1, Free));
    LeadsOn(w, steps, v, Screen({}));
    steps, v := steps + [Screen({})], Apply(v, Screen({}));
    LeadsOn(w, steps, v, Mark);
    steps, v := steps + [Mark], Apply(v, Mark);
  }

  /** Send, and apply the acknowledgement. */
  lemma Sends(w: World) returns (steps: seq<Step>, v: World)
    requires At(w, MARKED, Phase.Marked({}, [ROW], 1), 1)
    ensures Leads(w, steps, v) && At(v, DELIVERED, Phase.Settling({}, false), 1)
  {
    WindowOpen();
    OneAcknowledged();
    OneConfirmed();
    steps, v := [], w;
    LeadsOn(w, steps, v, Arm(1, 1));
    steps, v := steps + [Arm(1, 1)], Apply(v, Arm(1, 1));
    LeadsOn(w, steps, v, Transmit(1));
    steps, v := steps + [Transmit(1)], Apply(v, Transmit(1));
    LeadsOn(w, steps, v, Acknowledge(ACK, 200, 1));
    NothingHeld();
    steps, v := steps + [Acknowledge(ACK, 200, 1)], Apply(v, Acknowledge(ACK, 200, 1));
  }

  lemma NothingHeld()
    ensures Deferral({}, [ROW], ACK, [0]) == {}
  {
    assert 0 in [0];
  }

  /** Thirty days later the pin is pruned and the receipt is not. */
  lemma PinPruned()
    ensures Pruned(DELIVERED, LATER) == UNPINNED
  {
  }

  lemma Forgets(w: World) returns (steps: seq<Step>, v: World)
    requires At(w, DELIVERED, Phase.Settling({}, false), 1)
    ensures Leads(w, steps, v) && At(v, UNPINNED, Idle, LATER)
  {
    PinPruned();
    steps, v := [], w;
    LeadsOn(w, steps, v, Settle);
    steps, v := steps + [Settle], Apply(v, Settle);
    LeadsOn(w, steps, v, Quit);
    steps, v := steps + [Quit], Apply(v, Quit);
    LeadsOn(w, steps, v, Begin(LATER));
    steps, v := steps + [Begin(LATER)], Apply(v, Begin(LATER));
    LeadsOn(w, steps, v, Quit);
    steps, v := steps + [Quit], Apply(v, Quit);
  }

  // ---- the pin table fills up -----------------------------------------------------------------------------

  /** The name of session `n`, and of the only event in it. */
  function Name(n: nat): string { "s" + Decimal(n) }

  function Another(n: nat): Event { Event("e", "codex", "session-start", Name(n), "/w", BodyOf(Name(n)), "sha", Name(n)) }

  lemma NamesDiffer(a: nat, b: nat)
    requires Name(a) == Name(b)
    ensures a == b
  {
    assert Name(a)[1..] == Decimal(a) && Name(b)[1..] == Decimal(b);
    DecimalInjective(a, b);
  }

  function PowerOfTen(d: nat): nat { if d == 0 then 1 else 10 * PowerOfTen(d - 1) }

  lemma {:induction false} DecimalLength(n: nat, d: nat)
    requires 0 < d && n < PowerOfTen(d)
    ensures |Decimal(n)| <= d
  {
    if n >= 10 {
      assert d > 1;
      DecimalLength(n / 10, d - 1);
    }
  }

  const BODY_BYTES: nat := 34

  /** Every such event is within the limits a file of events is checked against: names of a
      few characters, bodies of a few bytes. */
  lemma AnotherIsSmall(n: nat)
    requires n < MAX_SESSION_PINS
    ensures 1 <= |Name(n)| <= 6 && |Another(n).body| <= BODY_BYTES
  {
    assert PowerOfTen(5) == 100_000;
    DecimalLength(n, 5);
  }

  predicate IsNamed(s: string, k: nat) { exists j: nat :: j < k && s == Name(j) }

  /** `k` sessions of one pending event each. */
  predicate Filled(t: Tables, k: nat) {
    && |t.pending| == k && |t.pins| == k && Bytes(t.pending) <= BODY_BYTES * k
    && (forall r :: r in t.pending ==> IsNamed(r.ingestKey, k))
    && (forall s :: s in t.pins ==> IsNamed(s, k))
    && t.receipts == map["key" := RECEIPT]
  }

  lemma OneReceipt()
    ensures |map["key" := RECEIPT]| == 1
  {
    assert map["key" := RECEIPT].Keys == {"key"};
  }

  lemma NextIsUnnamed(k: nat)
    ensures !IsNamed(Name(k), k)
  {
    if IsNamed(Name(k), k) {
      var j: nat :| j < k && Name(k) == Name(j);
      NamesDiffer(k, j);
    }
  }

  lemma AnotherIsNew(t: Tables, k: nat)
    requires Filled(t, k) && k < MAX_SESSION_PINS
    ensures IsNew(t, Another(k))
  {
    OneReceipt();
    NextIsUnnamed(k);
    AnotherIsSmall(k);
    assert Name(k)[0] != "key"[0];
  }

  lemma NamedMore(s: string, k: nat)
    requires IsNamed(s, k)
    ensures IsNamed(s, k + 1)
  {
  }

  lemma FilledMore(t: Tables, k: nat)
    requires Filled(t, k) && k < MAX_SESSION_PINS
    ensures Filled(WithEvent(t, Another(k), LATER), k + 1)
  {
    var u := WithEvent(t, Another(k), LATER);
    AnotherIsSmall(k);
    NextIsUnnamed(k);
    assert u.pending[..|t.pending|] == t.pending;
    assert IsNamed(Name(k), k + 1);
    forall r | r in t.pending
      ensures IsNamed(r.ingestKey, k + 1)
    {
      NamedMore(r.ingestKey, k);
    }
    forall s | s in t.pins
      ensures IsNamed(s, k + 1)
    {
      NamedMore(s, k);
    }
  }

  lemma {:induction false} Fills(ws: seq<World>, steps: seq<Step>, k: nat) returns (vs: seq<World>, all: seq<Step>)
    requires IsRun(ws, steps) && Last(ws).db == UNPINNED && k <= MAX_SESSION_PINS
    ensures IsRun(vs, all) && Filled(Last(vs).db, k)
  {
    if k == 0 {
      vs, all := ws, steps;
    } else {
      vs, all := Fills(ws, steps, k - 1);
      vs, all := FillsMore(vs, all, k - 1);
    }
  }

  lemma FillsMore(ws: seq<World>, steps: seq<Step>, k: nat) returns (vs: seq<World>, all: seq<Step>)
    requires IsRun(ws, steps) && Filled(Last(ws).db, k) && k < MAX_SESSION_PINS
    ensures IsRun(vs, all) && Filled(Last(vs).db, k + 1)
  {
    var s := Enqueue([Another(k)], LATER);
    LastInv(ws, steps);
    FillsOne(Last(ws), k);
    RunStep(ws, steps, s);
    vs, all := ws + [Apply(Last(ws), s)], steps + [s];
  }

  lemma LastInv(ws: seq<World>, steps: seq<Step>)
    requires IsRun(ws, steps)
    ensures Inv(Last(ws).db)
  {
    ReachableGood(ws, steps, |ws| - 1);
  }

  lemma FillsOne(w: World, k: nat)
    requires Inv(w.db) && Filled(w.db, k) && k < MAX_SESSION_PINS
    ensures Filled(Apply(w, Enqueue([Another(k)], LATER)).db, k + 1)
  {
    AnotherIsNew(w.db, k);
    NewIsTaken(w.db, Another(k), LATER);
    FilledMore(w.db, k);
  }

  // ---- the duplicate ------------------------------------------------------------------------------------------

  lemma FullRefuses(t: Tables)
    requires Inv(t) && Filled(t, MAX_SESSION_PINS)
    ensures KnownSha(t, EVENT.ingestKey) == Some(EVENT.bodySha)
    ensures Check(t, [], EVENT) == Some(PinsFull) && !Admissible(t, [EVENT])
  {
    KnownByReceipt(t);
    OtherName(EVENT.sessionId, MAX_SESSION_PINS);
    NoPinLeft(t, EVENT);
    CheckDecides(t, [], EVENT);
    assert [] + [EVENT] == [EVENT];
  }

  lemma OtherName(s: string, k: nat)
    requires s != "" && s[0] != 's'
    ensures !IsNamed(s, k)
  {
  }

  lemma KnownByReceipt(t: Tables)
    requires Inv(t) && t.receipts == map["key" := RECEIPT]
    ensures KnownSha(t, EVENT.ingestKey) == Some(EVENT.bodySha)
  {
    assert "key" in t.receipts;
  }

  lemma NoPinLeft(t: Tables, e: Event)
    requires |t.pins| == MAX_SESSION_PINS && e.sessionId !in t.pins
    ensures Check(t, [], e) == Some(PinsFull)
  {
    assert NewSessions(t, []) == {};
  }

  lemma DeliveredOnce() returns (ws: seq<World>, steps: seq<Step>)
    ensures IsRun(ws, steps) && Last(ws).db == UNPINNED
  {
    var start := World(EMPTY, Idle, 0, [], {});
    FirstEnqueued();
    ws, steps := [start], [];
    RunStep(ws, steps, Enqueue([EVENT], 0));
    ws, steps := ws + [Apply(start, Enqueue([EVENT], 0))], steps + [Enqueue([EVENT], 0)];
    var prepare, w1 := Prepares(Last(ws));
    ws := RunGoesOn(ws, steps, prepare);
    steps := steps + prepare;
    var send, w2 := Sends(w1);
    ws := RunGoesOn(ws, steps, send);
    steps := steps + send;
    var forget, w3 := Forgets(w2);
    ws := RunGoesOn(ws, steps, forget);
    steps := steps + forget;
  }

  /** Some run ends in a queue that has a receipt for the event with the same body, and
      refuses the event for want of a pin. */
  lemma DuplicateRefusedWhenPinsFull() returns (ws: seq<World>, steps: seq<Step>)
    ensures IsRun(ws, steps)
    ensures var t := Last(ws).db;
            && EVENT.ingestKey in t.receipts && KnownSha(t, EVENT.ingestKey) == Some(EVENT.bodySha)
            && Check(t, [], EVENT) == Some(PinsFull) && !Admissible(t, [EVENT])
  {
    ws, steps := DeliveredOnce();
    ws, steps := Fills(ws, steps, MAX_SESSION_PINS);
    LastInv(ws, steps);
    FullRefuses(Last(ws).db);
  }
}
