/** The relay's three tables as one value, and what each transaction does to them.

    `Queue` (RelayQueue.dfy) is proved to compute these functions in place;
    `World` (RelayWorld.dfy) runs them in every order a host can produce. */
module RelayTables {
  import opened Common
  import opened RelayAck

  const MAX_PENDING_ITEMS: nat := 50_000
  const MAX_PENDING_BYTES: nat := 64 * 1024 * 1024
  const MAX_RECEIPTS: nat := 200_000
  const MAX_SESSION_PINS: nat := 50_000
  const MAX_BATCH_ITEMS: nat := 256
  const MAX_BATCH_BYTES: nat := 8 * 1024 * 1024
  const RETRY_WINDOW_MS: nat := 30 * 24 * 60 * 60 * 1000

  /** A validated event, as `enqueue` receives it. */
  datatype Event = Event(
    eventId: string, agent: string, name: string, sessionId: string, cwd: string,
    body: seq<byte>, bodySha: string, ingestKey: string)

  /** What orders delivery: one head per `(agent, session_id)`. */
  datatype SessionKey = SessionKey(agent: string, id: string)

  /** One row of `pending`. `id` is the AUTOINCREMENT column. */
  datatype Row = Row(
    id: nat, ingestKey: string, eventId: string, agent: string, name: string,
    sessionId: string, cwd: string, body: seq<byte>, bodySha: string, firstSeen: i64,
    firstAttempt: Option<i64>, attempts: nat, lastError: Option<string>)
  {
    function Session(): SessionKey { SessionKey(agent, sessionId) }
  }

  datatype Receipt = Receipt(bodySha: string, firstAttempt: i64, deliveredAt: i64, outcome: string)

  datatype Pin = Pin(agent: string, lastSeen: i64)

  datatype Tables = Tables(
    pending: seq<Row>, receipts: map<string, Receipt>, pins: map<string, Pin>, nextId: nat)

  const EMPTY := Tables([], map[], map[], 1)

  // ---- retry window ---------------------------------------------------------

  predicate IsExpired(firstAttempt: Option<i64>, now: i64) {
    match firstAttempt
    case Some(started) => Saturate(now - started) >= RETRY_WINDOW_MS
    case None => false
  }

  /** Milliseconds an event may still be resent. */
  function TtlRemaining(firstAttempt: i64, now: i64): (ms: nat)
  {
    var spent := Saturate(now - firstAttempt);
    var left := Saturate(RETRY_WINDOW_MS - spent);
    if left < 0 then 0 else left
  }

  function Cutoff(now: i64): i64 { Saturate(now - RETRY_WINDOW_MS) }

  /** The sender's clock and the selector's clock agree on the boundary, for every
      pair of 64-bit timestamps: no time left exactly when the row is expired. */
  lemma TtlZeroIffExpired(firstAttempt: i64, now: i64)
    ensures TtlRemaining(firstAttempt, now) == 0 <==> IsExpired(Some(firstAttempt), now)
    ensures TtlRemaining(firstAttempt, now) > 0 && now - firstAttempt >= RETRY_WINDOW_MS - I64_MAX
            ==> now + TtlRemaining(firstAttempt, now) == firstAttempt + RETRY_WINDOW_MS
  {
  }

  /** `stats` counts expired rows with a subtraction of its own. It agrees with
      `IsExpired` except for a row stamped at the smallest timestamp, read by a
      clock within one window of it. */
  predicate CountedExpired(firstAttempt: Option<i64>, now: i64) {
    firstAttempt.Some? && firstAttempt.value <= Cutoff(now)
  }

  lemma CountedExpiredIffExpired(firstAttempt: Option<i64>, now: i64)
    ensures CountedExpired(firstAttempt, now) == IsExpired(firstAttempt, now)
            <==> !(firstAttempt == Some(I64_MIN) && now < I64_MIN + RETRY_WINDOW_MS)
  {
  }

  // ---- rows -------------------------------------------------------------------

  function Bytes(p: seq<Row>): nat {
    if p == [] then 0 else Bytes(p[..|p| - 1]) + |p[|p| - 1].body|
  }

  function Keys(p: seq<Row>): set<string> { set r | r in p :: r.ingestKey }

  predicate Ordered(p: seq<Row>) { forall i, j :: 0 <= i < j < |p| ==> p[i].id < p[j].id }

  predicate DistinctKeys(p: seq<Row>) {
    forall i, j :: 0 <= i < j < |p| ==> p[i].ingestKey != p[j].ingestKey
  }

  predicate IsHead(p: seq<Row>, r: Row) {
    r in p && forall o :: o in p && o.Session() == r.Session() ==> r.id <= o.id
  }

  /** The rows whose key is not in `gone`, in order. */
  function Without(p: seq<Row>, gone: set<string>): seq<Row> {
    if p == [] then [] else
      var w := Without(p[..|p| - 1], gone);
      if p[|p| - 1].ingestKey in gone then w else w + [p[|p| - 1]]
  }

  lemma {:induction false} WithoutIn(p: seq<Row>, gone: set<string>)
    ensures forall r :: r in Without(p, gone) <==> r in p && r.ingestKey !in gone
  {
    if p != [] {
      var init, last := p[..|p| - 1], p[|p| - 1];
      WithoutIn(init, gone);
      assert p == init + [last];
    }
  }

  lemma WithoutKeys(p: seq<Row>, gone: set<string>)
    ensures Keys(Without(p, gone)) == Keys(p) - gone
  {
    WithoutIn(p, gone);
  }

  lemma {:induction false} WithoutOrder(p: seq<Row>, gone: set<string>)
    ensures Ordered(p) ==> Ordered(Without(p, gone))
    ensures DistinctKeys(p) ==> DistinctKeys(Without(p, gone))
  {
    if p != [] {
      WithoutOrder(p[..|p| - 1], gone);
      WithoutIn(p[..|p| - 1], gone);
    }
  }

  lemma {:induction false} WithoutSize(p: seq<Row>, gone: set<string>)
    ensures |Without(p, gone)| <= |p|
    ensures Bytes(Without(p, gone)) <= Bytes(p)
  {
    if p != [] {
      WithoutSize(p[..|p| - 1], gone);
    }
  }

  lemma {:induction false} WithoutNone(p: seq<Row>, gone: set<string>)
    requires forall r :: r in p ==> r.ingestKey !in gone
    ensures Without(p, gone) == p
  {
    if p != [] {
      WithoutNone(p[..|p| - 1], gone);
      assert p[|p| - 1] in p;
    }
  }

  lemma {:induction false} WithoutTwice(p: seq<Row>, a: set<string>, b: set<string>)
    ensures Without(Without(p, a), b) == Without(p, a + b)
  {
    if p != [] {
      WithoutTwice(p[..|p| - 1], a, b);
    }
  }

  /** Deleting one present key from rows with distinct keys shortens them by one. */
  lemma {:induction false} WithoutOne(p: seq<Row>, key: string)
    requires DistinctKeys(p)
    ensures |Without(p, {key})| == if key in Keys(p) then |p| - 1 else |p|
  {
    if p != [] {
      var init, last := p[..|p| - 1], p[|p| - 1];
      if last.ingestKey == key {
        WithoutNone(init, {key});
      } else {
        WithoutOne(init, key);
        assert key in Keys(p) <==> key in Keys(init) by {
          if key in Keys(p) {
            var r :| r in p && r.ingestKey == key;
            assert r in init;
          }
        }
      }
    }
  }

  /** The row stored under `key`; keys are UNIQUE, so there is at most one. */
  function Find(p: seq<Row>, key: string): (r: Option<Row>)
    ensures r.Some? <==> key in Keys(p)
    ensures r.Some? ==> r.value in p && r.value.ingestKey == key
  {
    if p == [] then None
    else if p[|p| - 1].ingestKey == key then Some(p[|p| - 1])
    else
      var found := Find(p[..|p| - 1], key);
      assert key in Keys(p) ==> key in Keys(p[..|p| - 1]) by {
        if key in Keys(p) {
          var r :| r in p && r.ingestKey == key;
          assert r in p[..|p| - 1];
        }
      }
      found
  }

  // ---- invariant ----------------------------------------------------------------

  predicate RowsOk(t: Tables) {
    && Ordered(t.pending)
    && DistinctKeys(t.pending)
    && (forall r :: r in t.pending ==> r.id < t.nextId)
  }

  /** A key is either waiting or acknowledged, never both. */
  predicate KeysDisjoint(t: Tables) { Keys(t.pending) !! t.receipts.Keys }

  predicate WithinCaps(t: Tables) {
    && |t.pending| <= MAX_PENDING_ITEMS
    && Bytes(t.pending) <= MAX_PENDING_BYTES
    && |t.pending| + |t.receipts| <= MAX_RECEIPTS
    && |t.pins| <= MAX_SESSION_PINS
  }

  predicate Pinned(p: seq<Row>, pins: map<string, Pin>) {
    forall r :: r in p ==> r.sessionId in pins && pins[r.sessionId].agent == r.agent
  }

  /** Only the oldest row of a session ever carries a first attempt. */
  predicate OnlyHeadsAttempted(p: seq<Row>) {
    forall r :: r in p && r.firstAttempt.Some? ==> IsHead(p, r)
  }

  predicate Inv(t: Tables) {
    && RowsOk(t) && KeysDisjoint(t) && WithinCaps(t)
    && Pinned(t.pending, t.pins) && OnlyHeadsAttempted(t.pending)
  }

  lemma EmptyInv()
    ensures Inv(EMPTY)
  {
  }

  /** Pins make the two-column grouping the same as grouping by session id alone. */
  lemma SessionIdDecides(t: Tables, a: Row, b: Row)
    requires Inv(t) && a in t.pending && b in t.pending
    ensures a.Session() == b.Session() <==> a.sessionId == b.sessionId
  {
  }

  /** At most one row per session is sent but unacknowledged. */
  lemma OneInFlightPerSession(t: Tables, a: Row, b: Row)
    requires Inv(t) && a in t.pending && b in t.pending
    requires a.firstAttempt.Some? && b.firstAttempt.Some? && a.sessionId == b.sessionId
    ensures a == b
  {
    SessionIdDecides(t, a, b);
    assert a.id <= b.id && b.id <= a.id;
  }

  // ---- confirm --------------------------------------------------------------------

  /** `INSERT … ON CONFLICT`: an older receipt stays, with only its delivery time
      refreshed and an unknown outcome promoted. */
  function Upsert(receipts: map<string, Receipt>, key: string, added: Receipt): map<string, Receipt> {
    if key !in receipts then receipts[key := added]
    else
      var kept := receipts[key];
      receipts[key := kept.(
        deliveredAt := added.deliveredAt,
        outcome := if kept.outcome == "unknown" then added.outcome else kept.outcome)]
  }

  /** One acknowledged key leaves `pending` and becomes a receipt. */
  function Confirm1(t: Tables, key: string, outcome: string, now: i64): Tables {
    match Find(t.pending, key)
    case None => t
    case Some(r) =>
      t.(pending := Without(t.pending, {key}),
         receipts := Upsert(t.receipts, key, Receipt(r.bodySha, AttemptedAt(r), now, Outcome(outcome))))
  }

  /** A row that never went on the wire keeps the time it was enqueued. */
  function AttemptedAt(r: Row): i64 { r.firstAttempt.GetOr(r.firstSeen) }

  function Confirmed(t: Tables, acks: seq<(string, string)>, now: i64): Tables {
    if acks == [] then t
    else
      var (key, outcome) := acks[|acks| - 1];
      Confirm1(Confirmed(t, acks[..|acks| - 1], now), key, outcome, now)
  }

  function AckKeys(acks: seq<(string, string)>): set<string> { set a | a in acks :: a.0 }

  /** The outcome listed first for `key`. */
  function FirstOutcome(acks: seq<(string, string)>, key: string): string {
    if acks == [] then "unknown"
    else if key in AckKeys(acks[..|acks| - 1]) then FirstOutcome(acks[..|acks| - 1], key)
    else acks[|acks| - 1].1
  }

  /** How many of the keys were found and moved. */
  function Moved(t: Tables, acks: seq<(string, string)>, now: i64): nat {
    if acks == [] then 0
    else
      var init := acks[..|acks| - 1];
      Moved(t, init, now) + if acks[|acks| - 1].0 in Keys(Confirmed(t, init, now).pending) then 1 else 0
  }

  lemma FindUnique(p: seq<Row>, r: Row)
    requires DistinctKeys(p) && r in p
    ensures Find(p, r.ingestKey) == Some(r)
  {
    var found := Find(p, r.ingestKey).value;
    var i :| 0 <= i < |p| && p[i] == r;
    var j :| 0 <= j < |p| && p[j] == found;
  }

  lemma Confirm1Inv(t: Tables, key: string, outcome: string, now: i64)
    requires Inv(t)
    ensures var u := Confirm1(t, key, outcome, now);
            && Inv(u) && u.pending == Without(t.pending, {key})
            && |u.pending| + |u.receipts| == |t.pending| + |t.receipts|
  {
    WithoutIn(t.pending, {key});
    WithoutOrder(t.pending, {key});
    WithoutSize(t.pending, {key});
    WithoutOne(t.pending, key);
    if key !in Keys(t.pending) {
      WithoutNone(t.pending, {key});
    } else {
      var u := Confirm1(t, key, outcome, now);
      assert u.receipts.Keys == t.receipts.Keys + {key};
    }
  }

  lemma AckKeysSnoc(acks: seq<(string, string)>)
    requires acks != []
    ensures AckKeys(acks) == AckKeys(acks[..|acks| - 1]) + {acks[|acks| - 1].0}
  {
    assert acks == acks[..|acks| - 1] + [acks[|acks| - 1]];
  }

  lemma {:induction false} ConfirmedRows(t: Tables, acks: seq<(string, string)>, now: i64)
    requires Inv(t)
    ensures var u := Confirmed(t, acks, now);
            && Inv(u)
            && u.pending == Without(t.pending, AckKeys(acks))
            && u.pins == t.pins && u.nextId == t.nextId
            && |u.pending| + |u.receipts| == |t.pending| + |t.receipts|
  {
    if acks == [] {
      assert AckKeys(acks) == {};
      WithoutNone(t.pending, {});
    } else {
      var init := acks[..|acks| - 1];
      var (key, outcome) := acks[|acks| - 1];
      ConfirmedRows(t, init, now);
      Confirm1Inv(Confirmed(t, init, now), key, outcome, now);
      AckKeysSnoc(acks);
      WithoutTwice(t.pending, AckKeys(init), {key});
    }
  }

  lemma Confirm1Keys(t: Tables, key: string, outcome: string, now: i64)
    ensures Confirm1(t, key, outcome, now).receipts.Keys == t.receipts.Keys + {key} * Keys(t.pending)
  {
  }

  lemma MovedKeys(receipts: set<string>, pending: set<string>, acked: set<string>, key: string)
    ensures receipts + acked * pending + {key} * (pending - acked) == receipts + (acked + {key}) * pending
  {
  }

  lemma {:induction false} ConfirmedKeys(t: Tables, acks: seq<(string, string)>, now: i64)
    requires Inv(t)
    ensures Confirmed(t, acks, now).receipts.Keys == t.receipts.Keys + AckKeys(acks) * Keys(t.pending)
  {
    if acks != [] {
      var init := acks[..|acks| - 1];
      var (key, outcome) := acks[|acks| - 1];
      var mid := Confirmed(t, init, now);
      ConfirmedKeys(t, init, now);
      ConfirmedRows(t, init, now);
      AckKeysSnoc(acks);
      WithoutKeys(t.pending, AckKeys(init));
      Confirm1Keys(mid, key, outcome, now);
      MovedKeys(t.receipts.Keys, Keys(t.pending), AckKeys(init), key);
    } else {
      assert AckKeys(acks) == {};
    }
  }

  lemma {:induction false} ConfirmedKeeps(t: Tables, acks: seq<(string, string)>, now: i64, key: string)
    requires Inv(t) && key in t.receipts
    ensures key in Confirmed(t, acks, now).receipts
    ensures Confirmed(t, acks, now).receipts[key] == t.receipts[key]
  {
    if acks != [] {
      var init := acks[..|acks| - 1];
      ConfirmedKeeps(t, init, now, key);
      ConfirmedRows(t, init, now);
    }
  }

  lemma {:induction false} ConfirmedReceipt(t: Tables, acks: seq<(string, string)>, now: i64, r: Row)
    requires Inv(t) && r in t.pending && r.ingestKey in AckKeys(acks)
    ensures r.ingestKey in Confirmed(t, acks, now).receipts
    ensures Confirmed(t, acks, now).receipts[r.ingestKey]
            == Receipt(r.bodySha, AttemptedAt(r), now, Outcome(FirstOutcome(acks, r.ingestKey)))
  {
    var init := acks[..|acks| - 1];
    var (key, outcome) := acks[|acks| - 1];
    AckKeysSnoc(acks);
    var mid := Confirmed(t, init, now);
    ConfirmedRows(t, init, now);
    if r.ingestKey in AckKeys(init) {
      ConfirmedReceipt(t, init, now, r);
      ConfirmedKeeps(mid, [acks[|acks| - 1]], now, r.ingestKey);
      assert [acks[|acks| - 1]][..0] == [];
    } else {
      WithoutIn(t.pending, AckKeys(init));
      FindUnique(mid.pending, r);
      ConfirmedKeys(t, init, now);
    }
  }

  lemma {:induction false} MovedCount(t: Tables, acks: seq<(string, string)>, now: i64)
    requires Inv(t)
    ensures Moved(t, acks, now) == |t.pending| - |Confirmed(t, acks, now).pending|
  {
    if acks != [] {
      var init := acks[..|acks| - 1];
      MovedCount(t, init, now);
      ConfirmedRows(t, init, now);
      WithoutOne(Confirmed(t, init, now).pending, acks[|acks| - 1].0);
    }
  }

  /** `confirm`, all keys at once: exactly the listed rows leave, each becomes one receipt with
      its hash, its own first attempt or, for want of one, the time it was enqueued, and the
      outcome first listed for it; no receipt already held is touched, so the ON CONFLICT
      branch never runs. */
  lemma ConfirmedMeaning(t: Tables, acks: seq<(string, string)>, now: i64)
    requires Inv(t)
    ensures var u := Confirmed(t, acks, now);
            && Inv(u)
            && u.pending == Without(t.pending, AckKeys(acks))
            && u.receipts.Keys == t.receipts.Keys + AckKeys(acks) * Keys(t.pending)
            && u.pins == t.pins && u.nextId == t.nextId
            && |u.pending| + |u.receipts| == |t.pending| + |t.receipts|
    ensures forall k :: k in t.receipts ==> Confirmed(t, acks, now).receipts[k] == t.receipts[k]
    ensures forall r :: r in t.pending && r.ingestKey in AckKeys(acks)
              ==> Confirmed(t, acks, now).receipts[r.ingestKey]
                  == Receipt(r.bodySha, if r.firstAttempt.Some? then r.firstAttempt.value else r.firstSeen, now,
                             Outcome(FirstOutcome(acks, r.ingestKey)))
  {
    ConfirmedRows(t, acks, now);
    ConfirmedKeys(t, acks, now);
    forall k | k in t.receipts { ConfirmedKeeps(t, acks, now, k); }
    forall r | r in t.pending && r.ingestKey in AckKeys(acks) { ConfirmedReceipt(t, acks, now, r); }
  }

  // ---- stamp and record_failure ---------------------------------------------------

  function StampRow(r: Row, now: i64): Row {
    r.(firstAttempt := Some(r.firstAttempt.GetOr(now)), attempts := r.attempts + 1)
  }

  function Stamp1(p: seq<Row>, key: string, now: i64): seq<Row> {
    seq(|p|, i requires 0 <= i < |p| => if p[i].ingestKey == key then StampRow(p[i], now) else p[i])
  }

  function Stamped(p: seq<Row>, keys: seq<string>, now: i64): seq<Row> {
    if keys == [] then p
    else Stamp1(Stamped(p, keys[..|keys| - 1], now), keys[|keys| - 1], now)
  }

  function WithoutControls(s: string): string {
    if s == [] then [] else (if IsControl(s[0]) then [] else [s[0]]) + WithoutControls(s[1..])
  }

  /** A failure label: short, and free of control characters. */
  function Label(class_: string): string {
    var clean := WithoutControls(class_);
    if |clean| <= 80 then clean else clean[..80]
  }

  function Noted(p: seq<Row>, key: string, class_: string): seq<Row> {
    seq(|p|, i requires 0 <= i < |p| =>
      if p[i].ingestKey == key then p[i].(lastError := Some(Label(class_))) else p[i])
  }

  /** `q` is `p` up to the delivery marks a flush writes on a row. */
  predicate SameRows(p: seq<Row>, q: seq<Row>) {
    && |p| == |q|
    && forall i :: 0 <= i < |p| ==>
         q[i] == p[i].(firstAttempt := q[i].firstAttempt, attempts := q[i].attempts, lastError := q[i].lastError)
  }

  lemma {:induction false} SameRowsBytes(p: seq<Row>, q: seq<Row>)
    requires SameRows(p, q)
    ensures Bytes(p) == Bytes(q)
  {
    if p != [] {
      SameRowsBytes(p[..|p| - 1], q[..|q| - 1]);
    }
  }

  lemma SameRowsKeys(p: seq<Row>, q: seq<Row>)
    requires SameRows(p, q)
    ensures Keys(p) == Keys(q)
  {
    forall k | k in Keys(p) ensures k in Keys(q) {
      var i :| 0 <= i < |p| && p[i].ingestKey == k;
      assert q[i] in q;
    }
    forall k | k in Keys(q) ensures k in Keys(p) {
      var i :| 0 <= i < |q| && q[i].ingestKey == k;
      assert p[i] in p;
    }
  }

  /** Marks change nothing the table invariants speak of, except which rows carry a
      first attempt. */
  lemma SameRowsInv(t: Tables, q: seq<Row>)
    requires Inv(t) && SameRows(t.pending, q)
    requires forall i :: 0 <= i < |q| && q[i].firstAttempt.Some? ==> IsHead(t.pending, t.pending[i])
    ensures Inv(t.(pending := q))
  {
    SameRowsBytes(t.pending, q);
    SameRowsKeys(t.pending, q);
    forall i | 0 <= i < |q| && q[i].firstAttempt.Some?
      ensures IsHead(q, q[i])
    {
      forall o | o in q && o.Session() == q[i].Session() ensures q[i].id <= o.id {
        var j :| 0 <= j < |q| && q[j] == o;
        assert t.pending[j] in t.pending && t.pending[j].Session() == t.pending[i].Session();
      }
    }
  }

  /** Stamping sets the retry clock of a row once and for all: a row stamped before
      keeps its first attempt. */
  lemma {:induction false} StampedAt(p: seq<Row>, keys: seq<string>, now: i64, i: nat)
    requires i < |p|
    ensures |Stamped(p, keys, now)| == |p|
    ensures var r := Stamped(p, keys, now)[i];
            && r.firstAttempt == (if p[i].ingestKey in keys then Some(p[i].firstAttempt.GetOr(now))
                                  else p[i].firstAttempt)
            && r.attempts >= p[i].attempts
            && r == p[i].(firstAttempt := r.firstAttempt, attempts := r.attempts)
  {
    if keys != [] {
      var init := keys[..|keys| - 1];
      StampedAt(p, init, now, i);
      assert keys == init + [keys[|keys| - 1]];
    }
  }

  function Count(keys: seq<string>, key: string): nat {
    if keys == [] then 0 else Count(keys[..|keys| - 1], key) + if keys[|keys| - 1] == key then 1 else 0
  }

  /** A row's attempts go up by one for each time its key is listed, and nothing else of it
      changes but an unset first attempt. */
  lemma {:induction false} StampedCounts(p: seq<Row>, keys: seq<string>, now: i64, i: nat)
    requires i < |p|
    ensures |Stamped(p, keys, now)| == |p|
    ensures Stamped(p, keys, now)[i]
            == p[i].(attempts := p[i].attempts + Count(keys, p[i].ingestKey),
                     firstAttempt := if p[i].ingestKey in keys then Some(p[i].firstAttempt.GetOr(now))
                                     else p[i].firstAttempt)
  {
    if keys != [] {
      var init := keys[..|keys| - 1];
      StampedCounts(p, init, now, i);
      assert keys == init + [keys[|keys| - 1]];
      var r := Stamped(p, init, now)[i];
      assert Stamped(p, keys, now)[i] == if r.ingestKey == keys[|keys| - 1] then StampRow(r, now) else r;
    } else {
      assert p[i] == p[i].(attempts := p[i].attempts, firstAttempt := p[i].firstAttempt);
    }
  }

  /** Charging a failure labels the row of the key and changes nothing else. */
  lemma NotedMeaning(p: seq<Row>, key: string, class_: string)
    ensures |Noted(p, key, class_)| == |p|
    ensures forall i :: 0 <= i < |p| ==>
              Noted(p, key, class_)[i]
              == if p[i].ingestKey == key then p[i].(lastError := Some(Label(class_))) else p[i]
  {
  }

  predicate NoControls(s: string) { forall c :: c in s ==> !(c as int < 0x20 || 0x7F <= c as int < 0xA0) }

  lemma {:induction false} WithoutControlsIs(s: string)
    ensures NoControls(WithoutControls(s)) && forall c :: c in WithoutControls(s) ==> c in s
    ensures |WithoutControls(s)| <= |s|
    ensures NoControls(s) ==> WithoutControls(s) == s
  {
    if s != [] {
      WithoutControlsIs(s[1..]);
      var head := if IsControl(s[0]) then [] else [s[0]];
      assert WithoutControls(s) == head + WithoutControls(s[1..]);
      assert s == [s[0]] + s[1..];
      assert forall c :: c in s <==> c == s[0] || c in s[1..];
      if NoControls(s) {
        assert s[0] in s && forall c :: c in s[1..] ==> c in s;
        assert NoControls(s[1..]) && head == [s[0]];
      }
    }
  }

  /** A label is short, has no control character, and is the class itself, or its beginning,
      where the class has none. */
  lemma LabelMeaning(class_: string)
    ensures |Label(class_)| <= 80 && NoControls(Label(class_)) && forall c :: c in Label(class_) ==> c in class_
    ensures NoControls(class_) ==> Label(class_) == if |class_| <= 80 then class_ else class_[..80]
  {
    WithoutControlsIs(class_);
    var clean := WithoutControls(class_);
    assert |clean| > 80 ==> forall c :: c in clean[..80] ==> c in clean;
  }

  lemma StampedSame(p: seq<Row>, keys: seq<string>, now: i64)
    ensures SameRows(p, Stamped(p, keys, now))
  {
    if p == [] {
      StampedEmpty(keys, now);
    } else {
      StampedAt(p, keys, now, 0);
      forall i | 0 <= i < |p| { StampedAt(p, keys, now, i); }
    }
  }

  lemma {:induction false} StampedEmpty(keys: seq<string>, now: i64)
    ensures Stamped([], keys, now) == []
  {
    if keys != [] {
      StampedEmpty(keys[..|keys| - 1], now);
    }
  }

  lemma StampedInv(t: Tables, keys: seq<string>, now: i64)
    requires Inv(t)
    requires forall r :: r in t.pending && r.ingestKey in keys ==> IsHead(t.pending, r)
    ensures Inv(t.(pending := Stamped(t.pending, keys, now)))
  {
    StampedSame(t.pending, keys, now);
    var q := Stamped(t.pending, keys, now);
    forall i | 0 <= i < |q| && q[i].firstAttempt.Some?
      ensures IsHead(t.pending, t.pending[i])
    {
      StampedAt(t.pending, keys, now, i);
      assert t.pending[i] in t.pending;
    }
    SameRowsInv(t, q);
  }

  lemma NotedInv(t: Tables, key: string, class_: string)
    requires Inv(t)
    ensures SameRows(t.pending, Noted(t.pending, key, class_))
    ensures Inv(t.(pending := Noted(t.pending, key, class_)))
  {
    var q := Noted(t.pending, key, class_);
    forall i | 0 <= i < |q| && q[i].firstAttempt.Some?
      ensures IsHead(t.pending, t.pending[i])
    {
      assert t.pending[i] in t.pending;
    }
    SameRowsInv(t, q);
  }

  // ---- prune ------------------------------------------------------------------------

  function Pruned(t: Tables, now: i64): Tables {
    var sessions := set r | r in t.pending :: r.sessionId;
    t.(receipts := map k | k in t.receipts && !(t.receipts[k].firstAttempt < Cutoff(now)) :: t.receipts[k],
       pins := map s | s in t.pins && !(t.pins[s].lastSeen < Cutoff(now) && s !in sessions) :: t.pins[s])
  }

  lemma SubsetSize<T>(a: set<T>, b: set<T>)
    requires a <= b
    ensures |a| <= |b|
  {
    if a != {} {
      var x :| x in a;
      SubsetSize(a - {x}, b - {x});
    }
  }

  lemma PrunedSizes(t: Tables, now: i64)
    ensures |Pruned(t, now).receipts| <= |t.receipts| && |Pruned(t, now).pins| <= |t.pins|
  {
    var u := Pruned(t, now);
    assert u.receipts.Keys <= t.receipts.Keys;
    SubsetSize(u.receipts.Keys, t.receipts.Keys);
    assert u.pins.Keys <= t.pins.Keys;
    SubsetSize(u.pins.Keys, t.pins.Keys);
  }

  /** Longer ago than the retry window; saturating the cutoff makes no difference. */
  predicate LongAgo(at: i64, now: i64) { at < now - RETRY_WINDOW_MS }

  /** Pruning never touches a pending row and changes nothing it keeps. A receipt goes if and
      only if its first attempt is longer ago than the window, and is then expired; a pin if
      and only if its session was last seen longer ago and has no pending row. */
  lemma PrunedMeaning(t: Tables, now: i64)
    requires Inv(t)
    ensures var u := Pruned(t, now);
            && Inv(u) && u.pending == t.pending && u.nextId == t.nextId
            && (forall k :: k in u.receipts ==> k in t.receipts && u.receipts[k] == t.receipts[k])
            && (forall s :: s in u.pins ==> s in t.pins && u.pins[s] == t.pins[s])
    ensures forall k :: k in t.receipts ==>
              (k !in Pruned(t, now).receipts <==> LongAgo(t.receipts[k].firstAttempt, now))
    ensures forall k :: k in t.receipts && k !in Pruned(t, now).receipts ==>
              IsExpired(Some(t.receipts[k].firstAttempt), now)
    ensures forall s :: s in t.pins ==>
              (s !in Pruned(t, now).pins
               <==> LongAgo(t.pins[s].lastSeen, now) && forall r :: r in t.pending ==> r.sessionId != s)
  {
    PrunedSizes(t, now);
    forall x: i64
      ensures x < Cutoff(now) <==> LongAgo(x, now)
    {
    }
  }

  /** The boundary millisecond is expired for resending but not yet forgotten, so
      replay protection outlives the window by one tick. */
  lemma PruneIsStricterThanExpiry(t: Tables, key: string, now: i64)
    requires key in t.receipts && now - RETRY_WINDOW_MS >= I64_MIN && now - t.receipts[key].firstAttempt <= I64_MAX
    ensures key !in Pruned(t, now).receipts
            <==> IsExpired(Some(t.receipts[key].firstAttempt), now)
                 && now != t.receipts[key].firstAttempt + RETRY_WINDOW_MS
  {
  }
}
