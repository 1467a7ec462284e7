/** What the relay guarantees about the wire, over every run of `RelayWorld`. */
module RelayDelivery {
  import opened Common
  import opened RelayTables
  import opened RelayEnqueue
  import opened RelaySelect
  import opened RelayAck
  import opened RelayWorld

  // ---- how one transaction changes the rows --------------------------------------------

  /** `o` is the event of `r`, up to the marks delivery leaves on a row. */
  predicate SameEvent(o: Row, r: Row) {
    o == r.(firstAttempt := o.firstAttempt, attempts := o.attempts, lastError := o.lastError)
  }

  /** No first attempt is ever moved or forgotten. */
  predicate Carries(r: Row, o: Row) {
    SameEvent(o, r) && (r.firstAttempt.Some? ==> o.firstAttempt == r.firstAttempt)
  }

  /** Every row of `q` is either a row of `p` or newer than all of them. */
  predicate Evolves(p: seq<Row>, nextId: nat, q: seq<Row>) {
    forall o :: o in q ==> o.id >= nextId || exists r :: r in p && Carries(r, o)
  }

  lemma EnqueuedEvolves(t: Tables, es: seq<Event>, now: i64)
    ensures Evolves(t.pending, t.nextId, Enqueued(t, es, now).pending)
  {
    forall o | o in Enqueued(t, es, now).pending
      ensures o.id >= t.nextId || exists r :: r in t.pending && Carries(r, o)
    {
      if o in t.pending {
        assert Carries(o, o);
      }
    }
  }

  lemma WithoutEvolves(p: seq<Row>, gone: set<string>, nextId: nat)
    ensures Evolves(p, nextId, Without(p, gone))
  {
    WithoutIn(p, gone);
    forall o | o in Without(p, gone)
      ensures exists r :: r in p && Carries(r, o)
    {
      assert Carries(o, o);
    }
  }

  lemma StampedEvolves(p: seq<Row>, keys: seq<string>, now: i64, nextId: nat)
    ensures Evolves(p, nextId, Stamped(p, keys, now))
  {
    StampedSame(p, keys, now);
    forall o | o in Stamped(p, keys, now)
      ensures exists r :: r in p && Carries(r, o)
    {
      var i :| 0 <= i < |p| && Stamped(p, keys, now)[i] == o;
      StampedAt(p, keys, now, i);
      assert p[i] in p && Carries(p[i], o);
    }
  }

  lemma NotedEvolves(p: seq<Row>, key: string, class_: string, nextId: nat)
    ensures Evolves(p, nextId, Noted(p, key, class_))
  {
    forall o | o in Noted(p, key, class_)
      ensures exists r :: r in p && Carries(r, o)
    {
      var i :| 0 <= i < |p| && Noted(p, key, class_)[i] == o;
      assert p[i] in p && Carries(p[i], o);
    }
  }

  // ---- the batch in memory -----------------------------------------------------------------

  /** `r`, as the flush remembers it, is still the stored head of its session, with the
      first attempt `mark`. */
  predicate HeldHead(p: seq<Row>, r: Row, mark: Option<i64>) {
    exists o :: o in p && SameEvent(o, r) && IsHead(p, o) && o.firstAttempt == mark
  }

  predicate BatchOk(p: seq<Row>, batch: seq<Row>, stampedAt: Option<i64>) {
    && DistinctKeys(batch)
    && forall r :: r in batch ==>
         HeldHead(p, r, if stampedAt.Some? then Some(StartOf(r, stampedAt.value)) else r.firstAttempt)
  }

  predicate InMemoryOk(db: Tables, phase: Phase) {
    match phase
    case Picked(_, batch, _) => BatchOk(db.pending, batch, None)
    case Screened(_, batch, _) => BatchOk(db.pending, batch, None)
    case Marked(_, batch, now) => BatchOk(db.pending, batch, Some(now))
    case Sending(_, batch, now, _, _, _) => BatchOk(db.pending, batch, Some(now))
    case _ => true
  }

  lemma HeadStays(p: seq<Row>, q: seq<Row>, nextId: nat, o: Row, o': Row)
    requires IsHead(p, o) && o' in q && SameEvent(o', o)
    requires Evolves(p, nextId, q) && forall r :: r in p ==> r.id < nextId
    ensures IsHead(q, o')
  {
    forall x | x in q && x.Session() == o'.Session() ensures o'.id <= x.id {
      if x.id < nextId {
        var r :| r in p && Carries(r, x);
      }
    }
  }

  lemma AppendKeepsBatch(t: Tables, es: seq<Event>, now: i64, batch: seq<Row>, at: Option<i64>)
    requires Inv(t) && BatchOk(t.pending, batch, at)
    ensures BatchOk(Enqueued(t, es, now).pending, batch, at)
  {
    var q := Enqueued(t, es, now).pending;
    EnqueuedEvolves(t, es, now);
    forall r | r in batch
      ensures HeldHead(q, r, if at.Some? then Some(StartOf(r, at.value)) else r.firstAttempt)
    {
      var o :| o in t.pending && SameEvent(o, r) && IsHead(t.pending, o)
        && o.firstAttempt == if at.Some? then Some(StartOf(r, at.value)) else r.firstAttempt;
      HeadStays(t.pending, q, t.nextId, o, o);
    }
  }

  lemma NoteKeepsBatch(t: Tables, key: string, class_: string, batch: seq<Row>, at: Option<i64>)
    requires Inv(t) && BatchOk(t.pending, batch, at)
    ensures BatchOk(Noted(t.pending, key, class_), batch, at)
  {
    var q := Noted(t.pending, key, class_);
    NotedEvolves(t.pending, key, class_, t.nextId);
    forall r | r in batch
      ensures HeldHead(q, r, if at.Some? then Some(StartOf(r, at.value)) else r.firstAttempt)
    {
      var o :| o in t.pending && SameEvent(o, r) && IsHead(t.pending, o)
        && o.firstAttempt == if at.Some? then Some(StartOf(r, at.value)) else r.firstAttempt;
      var i :| 0 <= i < |q| && t.pending[i] == o;
      HeadStays(t.pending, q, t.nextId, o, q[i]);
    }
  }

  lemma DropKeepsBatch(t: Tables, drop: set<string>, batch: seq<Row>)
    requires Inv(t) && BatchOk(t.pending, batch, None)
    ensures BatchOk(Without(t.pending, drop), Without(batch, drop), None)
  {
    var q := Without(t.pending, drop);
    WithoutEvolves(t.pending, drop, t.nextId);
    WithoutIn(t.pending, drop);
    WithoutIn(batch, drop);
    WithoutOrder(batch, drop);
    forall r | r in Without(batch, drop)
      ensures HeldHead(q, r, r.firstAttempt)
    {
      assert HeldHead(t.pending, r, r.firstAttempt);
      var o :| o in t.pending && SameEvent(o, r) && IsHead(t.pending, o) && o.firstAttempt == r.firstAttempt;
      HeadStays(t.pending, q, t.nextId, o, o);
    }
  }

  lemma MarkKeepsBatch(t: Tables, batch: seq<Row>, now: i64)
    requires Inv(t) && BatchOk(t.pending, batch, None)
    ensures BatchOk(Stamped(t.pending, KeysOf(batch), now), batch, Some(now))
  {
    var keys := KeysOf(batch);
    var q := Stamped(t.pending, keys, now);
    StampedEvolves(t.pending, keys, now, t.nextId);
    forall r | r in batch
      ensures HeldHead(q, r, Some(StartOf(r, now)))
    {
      assert HeldHead(t.pending, r, r.firstAttempt);
      var o :| o in t.pending && SameEvent(o, r) && IsHead(t.pending, o) && o.firstAttempt == r.firstAttempt;
      var i :| 0 <= i < |t.pending| && t.pending[i] == o;
      StampedAt(t.pending, keys, now, i);
      var k :| 0 <= k < |batch| && batch[k] == r;
      assert keys[k] == o.ingestKey;
      assert q[i] in q;
      HeadStays(t.pending, q, t.nextId, o, q[i]);
    }
  }

  lemma PickMakesBatch(t: Tables, q: Request)
    requires Inv(t)
    ensures BatchOk(t.pending, Items(t.pending, q), None)
  {
    SelectionMeaning(t.pending, q);
    var b := Items(t.pending, q);
    forall i, j | 0 <= i < j < |b| ensures b[i].ingestKey != b[j].ingestKey {
      assert b[i] in b && b[j] in b;
      FindUnique(t.pending, b[i]);
      FindUnique(t.pending, b[j]);
    }
    forall r | r in b ensures HeldHead(t.pending, r, r.firstAttempt) {
      assert SameEvent(r, r);
    }
  }

  /** Stamping a batch only ever marks session heads. */
  lemma BatchKeysAreHeads(t: Tables, batch: seq<Row>, r: Row)
    requires Inv(t) && BatchOk(t.pending, batch, None)
    requires r in t.pending && r.ingestKey in KeysOf(batch)
    ensures IsHead(t.pending, r)
  {
    var k :| 0 <= k < |batch| && KeysOf(batch)[k] == r.ingestKey;
    assert HeldHead(t.pending, batch[k], batch[k].firstAttempt);
    var o :| o in t.pending && SameEvent(o, batch[k]) && IsHead(t.pending, o);
    FindUnique(t.pending, o);
    FindUnique(t.pending, r);
  }

  // ---- the wire -------------------------------------------------------------------------------

  /** `r` went out before every stored row of its session, or is the oldest of them. */
  predicate Behind(r: Row, p: seq<Row>, nextId: nat) {
    && r.id < nextId
    && forall o :: o in p && o.Session() == r.Session() ==>
         r.id <= o.id && (r.id == o.id ==> o.firstAttempt == r.firstAttempt)
  }

  predicate PostsBehind(posts: seq<Post>, p: seq<Row>, nextId: nat) {
    forall k, r :: 0 <= k < |posts| && r in posts[k].rows ==> r.firstAttempt.Some? && Behind(r, p, nextId)
  }

  /** Per session, the wire only moves forward. */
  predicate PostsOrdered(posts: seq<Post>) {
    forall i, j, a, b ::
      (0 <= i <= j < |posts| && a in posts[i].rows && b in posts[j].rows && a.Session() == b.Session())
      ==> a.id <= b.id
  }

  lemma EvolvesKeepsBehind(r: Row, p: seq<Row>, nextId: nat, q: seq<Row>, nextId': nat)
    requires r.firstAttempt.Some? && Behind(r, p, nextId) && Evolves(p, nextId, q) && nextId <= nextId'
    ensures Behind(r, q, nextId')
  {
    forall o | o in q && o.Session() == r.Session()
      ensures r.id <= o.id && (r.id == o.id ==> o.firstAttempt == r.firstAttempt)
    {
      if o.id < nextId {
        var x :| x in p && Carries(x, o);
      }
    }
  }

  lemma EvolvesKeepsPosts(posts: seq<Post>, p: seq<Row>, nextId: nat, q: seq<Row>, nextId': nat)
    requires PostsBehind(posts, p, nextId) && Evolves(p, nextId, q) && nextId <= nextId'
    ensures PostsBehind(posts, q, nextId')
  {
    forall k, r | 0 <= k < |posts| && r in posts[k].rows
      ensures Behind(r, q, nextId')
    {
      EvolvesKeepsBehind(r, p, nextId, q, nextId');
    }
  }

  /** The stored row behind a row about to be sent. */
  lemma StoredRow(t: Tables, batch: seq<Row>, now: i64, r: Row) returns (o: Row)
    requires BatchOk(t.pending, batch, Some(now)) && r in StampRows(batch, now)
    ensures o in t.pending && IsHead(t.pending, o) && SameEvent(o, r) && o.firstAttempt == r.firstAttempt
    ensures r.firstAttempt.Some?
  {
    var k :| 0 <= k < |batch| && StampRows(batch, now)[k] == r;
    assert batch[k] in batch;
    assert HeldHead(t.pending, batch[k], Some(StartOf(batch[k], now)));
    o :| o in t.pending && SameEvent(o, batch[k]) && IsHead(t.pending, o)
      && o.firstAttempt == Some(StartOf(batch[k], now));
  }

  lemma SameIdSameRow(p: seq<Row>, a: Row, b: Row)
    requires Ordered(p) && a in p && b in p && a.id == b.id
    ensures a == b
  {
    var i :| 0 <= i < |p| && p[i] == a;
    var j :| 0 <= j < |p| && p[j] == b;
  }

  lemma SentIsBehind(t: Tables, batch: seq<Row>, now: i64, r: Row)
    requires Inv(t) && BatchOk(t.pending, batch, Some(now)) && r in StampRows(batch, now)
    ensures r.firstAttempt.Some? && Behind(r, t.pending, t.nextId)
  {
    var o := StoredRow(t, batch, now, r);
    forall x | x in t.pending && x.Session() == r.Session() && x.id == r.id
      ensures x.firstAttempt == r.firstAttempt
    {
      SameIdSameRow(t.pending, x, o);
    }
  }

  lemma TransmitKeepsBehind(t: Tables, posts: seq<Post>, batch: seq<Row>, now: i64, post: Post)
    requires Inv(t) && BatchOk(t.pending, batch, Some(now)) && post.rows == StampRows(batch, now)
    requires PostsBehind(posts, t.pending, t.nextId)
    ensures PostsBehind(posts + [post], t.pending, t.nextId)
  {
    forall r | r in post.rows ensures r.firstAttempt.Some? && Behind(r, t.pending, t.nextId) {
      SentIsBehind(t, batch, now, r);
    }
  }

  lemma TransmitKeepsOrder(t: Tables, posts: seq<Post>, batch: seq<Row>, now: i64, post: Post)
    requires Inv(t) && BatchOk(t.pending, batch, Some(now)) && post.rows == StampRows(batch, now)
    requires PostsBehind(posts, t.pending, t.nextId) && PostsOrdered(posts)
    ensures PostsOrdered(posts + [post])
  {
    var all := posts + [post];
    forall i, j, a, b | 0 <= i <= j < |all| && a in all[i].rows && b in all[j].rows && a.Session() == b.Session()
      ensures a.id <= b.id
    {
      if j == |posts| {
        var o := StoredRow(t, batch, now, b);
        if i == |posts| {
          SentIsBehind(t, batch, now, a);
        }
        assert Behind(a, t.pending, t.nextId);
      }
    }
  }

  // ---- the retry window --------------------------------------------------------------------------

  /** A released key is still recognized, or its window has passed. */
  predicate Remembers(released: set<Release>, receipts: map<string, Receipt>, clock: i64) {
    forall e :: e in released ==>
      || (e.key in receipts && receipts[e.key].firstAttempt == e.firstAttempt)
      || clock - e.firstAttempt > RETRY_WINDOW_MS
  }

  /** Sent inside the row's own window, up to the sender's clock lag, and outside the
      window of any earlier release of the same key. */
  predicate Timely(p: Post, r: Row) {
    && r.firstAttempt.Some?
    && p.lag >= 0
    && r.firstAttempt.value <= p.at <= r.firstAttempt.value + RETRY_WINDOW_MS + p.lag
    && forall e :: e in p.after && e.key == r.ingestKey ==> p.at - e.firstAttempt > RETRY_WINDOW_MS
  }

  predicate PostsTimely(posts: seq<Post>) {
    forall k, r :: 0 <= k < |posts| && r in posts[k].rows ==> Timely(posts[k], r)
  }

  predicate StampsPast(p: seq<Row>, clock: i64) {
    forall r :: r in p && r.firstAttempt.Some? ==> r.firstAttempt.value <= clock
  }

  /** Every clock the flush remembers has been read. */
  predicate ClocksPast(phase: Phase, clock: i64) {
    match phase
    case Picked(_, _, now) => now <= clock
    case Screened(_, _, now) => now <= clock
    case Marked(_, _, now) => now <= clock
    case Sending(_, batch, now, sendNow, start, _) =>
      sendNow <= start <= clock && forall r :: r in batch ==> StartOf(r, now) <= sendNow
    case _ => true
  }

  lemma {:induction false} TtlLeftIsTightest(batch: seq<Row>, now: i64, sendNow: i64, r: Row)
    requires r in batch
    ensures TtlLeft(batch, now, sendNow) <= TtlRemaining(StartOf(r, now), sendNow)
  {
    if |batch| > 1 && r != batch[|batch| - 1] {
      assert batch == batch[..|batch| - 1] + [batch[|batch| - 1]];
      TtlLeftIsTightest(batch[..|batch| - 1], now, sendNow, r);
    }
  }

  /** The window of a batch is that of one of its rows. */
  lemma {:induction false} TtlLeftIsSomeones(batch: seq<Row>, now: i64, sendNow: i64)
    requires batch != []
    ensures exists r :: r in batch && TtlLeft(batch, now, sendNow) == TtlRemaining(StartOf(r, now), sendNow)
  {
    var last := batch[|batch| - 1];
    if |batch| > 1 {
      var init := batch[..|batch| - 1];
      TtlLeftIsSomeones(init, now, sendNow);
      var r :| r in init && TtlLeft(init, now, sendNow) == TtlRemaining(StartOf(r, now), sendNow);
      assert r in batch;
    }
    assert last in batch;
  }

  lemma TransmitIsTimely(w: World, at: i64)
    requires Enabled(w, Transmit(at)) && Inv(w.db) && InMemoryOk(w.db, w.phase)
    requires ClocksPast(w.phase, w.clock) && StampsPast(w.db.pending, w.clock)
    requires Remembers(w.released, w.db.receipts, w.clock) && PostsTimely(w.posts)
    ensures PostsTimely(Apply(w, Transmit(at)).posts)
  {
    var post := Post(at, StampRows(w.phase.batch, w.phase.now), w.phase.start - w.phase.sendNow, w.released);
    forall r | r in post.rows ensures Timely(post, r) {
      var o := StoredRow(w.db, w.phase.batch, w.phase.now, r);
      assert o.ingestKey in Keys(w.db.pending);
      var k :| 0 <= k < |w.phase.batch| && post.rows[k] == r;
      assert w.phase.batch[k] in w.phase.batch;
      TtlLeftIsTightest(w.phase.batch, w.phase.now, w.phase.sendNow, w.phase.batch[k]);
      TtlZeroIffExpired(StartOf(w.phase.batch[k], w.phase.now), w.phase.sendNow);
    }
  }

  lemma ReleaseIsRemembered(
    t: Tables, acks: seq<(string, string)>, now: i64, released: set<Release>, clock: i64, clock': i64)
    requires Inv(t) && Remembers(released, t.receipts, clock) && clock <= clock'
    ensures Remembers(released + ReleasedBy(t, acks), Confirmed(t, acks, now).receipts, clock')
  {
    ConfirmedMeaning(t, acks, now);
    forall e | e in ReleasedBy(t, acks)
      ensures var u := Confirmed(t, acks, now); e.key in u.receipts && u.receipts[e.key].firstAttempt == e.firstAttempt
    {
      var r :| r in t.pending && r.ingestKey in AckKeys(acks) && e == Release(r.ingestKey, AttemptedAt(r));
    }
  }

  lemma PruneIsRemembered(t: Tables, now: i64, released: set<Release>, clock: i64)
    requires Remembers(released, t.receipts, clock) && clock <= now
    ensures Remembers(released, Pruned(t, now).receipts, now)
  {
  }

  // ---- every reachable world ------------------------------------------------------------------------

  predicate WireOk(w: World) {
    && PostsBehind(w.posts, w.db.pending, w.db.nextId)
    && PostsOrdered(w.posts)
    && PostsTimely(w.posts)
  }

  predicate WindowOk(w: World) {
    && Remembers(w.released, w.db.receipts, w.clock)
    && StampsPast(w.db.pending, w.clock)
    && ClocksPast(w.phase, w.clock)
  }

  predicate Good(w: World) {
    Inv(w.db) && InMemoryOk(w.db, w.phase) && WireOk(w) && WindowOk(w)
  }

  lemma EnqueueKeeps(w: World, s: Step)
    requires Good(w) && s.Enqueue? && Enabled(w, s)
    ensures Good(Apply(w, s))
  {
    if Admissible(w.db, s.es) {
      EnqueuedInv(w.db, s.es, s.now);
      EnqueuedEvolves(w.db, s.es, s.now);
      EvolvesKeepsPosts(w.posts, w.db.pending, w.db.nextId, Enqueued(w.db, s.es, s.now).pending,
                        Enqueued(w.db, s.es, s.now).nextId);
      match w.phase
      case Picked(_, batch, _) => AppendKeepsBatch(w.db, s.es, s.now, batch, None);
      case Screened(_, batch, _) => AppendKeepsBatch(w.db, s.es, s.now, batch, None);
      case Marked(_, batch, at) => AppendKeepsBatch(w.db, s.es, s.now, batch, Some(at));
      case Sending(_, batch, at, _, _, _) => AppendKeepsBatch(w.db, s.es, s.now, batch, Some(at));
      case _ =>
    }
  }

  lemma ChargeKeeps(w: World, s: Step)
    requires Good(w) && s.Charge? && Enabled(w, s)
    ensures Good(Apply(w, s))
  {
    NotedInv(w.db, s.key, s.class_);
    NotedEvolves(w.db.pending, s.key, s.class_, w.db.nextId);
    EvolvesKeepsPosts(w.posts, w.db.pending, w.db.nextId, Noted(w.db.pending, s.key, s.class_), w.db.nextId);
    if w.phase.Sending? {
      NoteKeepsBatch(w.db, s.key, s.class_, w.phase.batch, Some(w.phase.now));
    }
  }

  lemma BeginKeeps(w: World, s: Step)
    requires Good(w) && s.Begin? && Enabled(w, s)
    ensures Good(Apply(w, s))
  {
    PrunedMeaning(w.db, s.now);
    PruneIsRemembered(w.db, s.now, w.released, w.clock);
  }

  lemma PickKeeps(w: World, s: Step)
    requires Good(w) && s.Pick? && Enabled(w, s)
    ensures Good(Apply(w, s))
  {
    PickMakesBatch(w.db, PickRequest(w.phase.deferred, s.now, s.cost));
  }

  lemma {:induction false} DropsKeys(batch: seq<Row>, drop: set<string>)
    ensures AckKeys(Drops(batch, drop)) == drop * Keys(batch)
  {
    if batch == [] {
      assert AckKeys(Drops(batch, drop)) == {};
    } else {
      var init, last := batch[..|batch| - 1], batch[|batch| - 1];
      DropsKeys(init, drop);
      assert batch == init + [last];
      assert Keys(batch) == Keys(init) + {last.ingestKey};
      if last.ingestKey in drop {
        AckKeysSnoc(Drops(batch, drop));
      }
    }
  }

  lemma {:induction false} WithoutSame(p: seq<Row>, a: set<string>, b: set<string>)
    requires a * Keys(p) == b * Keys(p)
    ensures Without(p, a) == Without(p, b)
  {
    if p != [] {
      var init, last := p[..|p| - 1], p[|p| - 1];
      assert p == init + [last];
      assert Keys(p) == Keys(init) + {last.ingestKey};
      assert last.ingestKey in a * Keys(p) <==> last.ingestKey in a;
      assert last.ingestKey in b * Keys(p) <==> last.ingestKey in b;
      forall k | k in Keys(init) ensures k in a <==> k in b {
        assert k in a * Keys(p) <==> k in a;
        assert k in b * Keys(p) <==> k in b;
      }
      WithoutSame(init, a, b);
    }
  }

  lemma ScreenKeeps(w: World, s: Step)
    requires Good(w) && s.Screen? && Enabled(w, s)
    ensures Good(Apply(w, s))
  {
    var batch := w.phase.batch;
    var acks := Drops(batch, s.drop);
    DropsKeys(batch, s.drop);
    ConfirmedMeaning(w.db, acks, w.phase.now);
    WithoutEvolves(w.db.pending, AckKeys(acks), w.db.nextId);
    EvolvesKeepsPosts(w.posts, w.db.pending, w.db.nextId, Without(w.db.pending, AckKeys(acks)), w.db.nextId);
    ReleaseIsRemembered(w.db, acks, w.phase.now, w.released, w.clock, w.clock);
    DropKeepsBatch(w.db, AckKeys(acks), batch);
    WithoutSame(batch, AckKeys(acks), s.drop);
    WithoutIn(w.db.pending, AckKeys(acks));
  }

  lemma MarkKeeps(w: World, s: Step)
    requires Good(w) && s.Mark? && Enabled(w, s)
    ensures Good(Apply(w, s))
  {
    var keys := KeysOf(w.phase.batch);
    forall r | r in w.db.pending && r.ingestKey in keys ensures IsHead(w.db.pending, r) {
      BatchKeysAreHeads(w.db, w.phase.batch, r);
    }
    StampedInv(w.db, keys, w.phase.now);
    StampedEvolves(w.db.pending, keys, w.phase.now, w.db.nextId);
    EvolvesKeepsPosts(w.posts, w.db.pending, w.db.nextId, Stamped(w.db.pending, keys, w.phase.now), w.db.nextId);
    MarkKeepsBatch(w.db, w.phase.batch, w.phase.now);
    MarkKeepsPast(w.db.pending, keys, w.phase.now, w.clock);
  }

  lemma MarkKeepsPast(p: seq<Row>, keys: seq<string>, now: i64, clock: i64)
    requires StampsPast(p, clock) && now <= clock
    ensures StampsPast(Stamped(p, keys, now), clock)
  {
    StampedSame(p, keys, now);
    forall r | r in Stamped(p, keys, now) && r.firstAttempt.Some? ensures r.firstAttempt.value <= clock {
      var i :| 0 <= i < |p| && Stamped(p, keys, now)[i] == r;
      StampedAt(p, keys, now, i);
      assert p[i] in p;
    }
  }

  lemma ArmKeeps(w: World, s: Step)
    requires Good(w) && s.Arm? && Enabled(w, s)
    ensures Good(Apply(w, s))
  {
    forall r | r in w.phase.batch ensures StartOf(r, w.phase.now) <= s.sendNow {
      assert HeldHead(w.db.pending, r, Some(StartOf(r, w.phase.now)));
    }
  }

  lemma TransmitBehind(w: World, at: i64)
    requires Inv(w.db) && InMemoryOk(w.db, w.phase) && Enabled(w, Transmit(at))
    requires PostsBehind(w.posts, w.db.pending, w.db.nextId)
    ensures PostsBehind(Apply(w, Transmit(at)).posts, w.db.pending, w.db.nextId)
  {
    var post := Apply(w, Transmit(at)).posts[|w.posts|];
    TransmitKeepsBehind(w.db, w.posts, w.phase.batch, w.phase.now, post);
  }

  lemma TransmitOrdered(w: World, at: i64)
    requires Inv(w.db) && InMemoryOk(w.db, w.phase) && Enabled(w, Transmit(at))
    requires PostsBehind(w.posts, w.db.pending, w.db.nextId) && PostsOrdered(w.posts)
    ensures PostsOrdered(Apply(w, Transmit(at)).posts)
  {
    var post := Apply(w, Transmit(at)).posts[|w.posts|];
    TransmitKeepsOrder(w.db, w.posts, w.phase.batch, w.phase.now, post);
  }

  lemma TransmitKeepsWire(w: World, at: i64)
    requires Good(w) && Enabled(w, Transmit(at))
    ensures WireOk(Apply(w, Transmit(at)))
  {
    TransmitBehind(w, at);
    TransmitOrdered(w, at);
    TransmitIsTimely(w, at);
  }

  lemma TransmitKeeps(w: World, s: Step)
    requires Good(w) && s.Transmit? && Enabled(w, s)
    ensures Good(Apply(w, s))
  {
    TransmitKeepsWire(w, s.at);
  }

  lemma AcknowledgeKeeps(w: World, s: Step)
    requires Good(w) && s.Acknowledge? && Enabled(w, s)
    ensures Good(Apply(w, s))
  {
    AcceptedOfSound(|w.phase.batch|, s.ack);
    var acks := Acks(w.phase.batch, s.ack, Validate(|w.phase.batch|, s.ack).value);
    ConfirmedMeaning(w.db, acks, s.at);
    WithoutEvolves(w.db.pending, AckKeys(acks), w.db.nextId);
    EvolvesKeepsPosts(w.posts, w.db.pending, w.db.nextId, Without(w.db.pending, AckKeys(acks)), w.db.nextId);
    ReleaseIsRemembered(w.db, acks, s.at, w.released, w.clock, s.at);
    WithoutIn(w.db.pending, AckKeys(acks));
  }

  /** One step of any process, in any good world, leads to a good world. */
  lemma StepKeeps(w: World, s: Step)
    requires Good(w) && Enabled(w, s)
    ensures Good(Apply(w, s))
  {
    match s
    case Enqueue(_, _) => EnqueueKeeps(w, s);
    case Begin(_) => BeginKeeps(w, s);
    case Pick(_, _) => PickKeeps(w, s);
    case Screen(_) => ScreenKeeps(w, s);
    case Mark => MarkKeeps(w, s);
    case Arm(_, _) => ArmKeeps(w, s);
    case Transmit(_) => TransmitKeeps(w, s);
    case Acknowledge(_, _, _) => AcknowledgeKeeps(w, s);
    case Charge(_, _) => ChargeKeeps(w, s);
    case Settle =>
    case Quit =>
  }

  /** The table and delivery invariants hold in every reachable world. */
  lemma {:induction false} ReachableGood(ws: seq<World>, steps: seq<Step>, i: nat)
    requires IsRun(ws, steps) && i < |ws|
    ensures Good(ws[i])
  {
    if i == 0 {
      EmptyInv();
    } else {
      ReachableGood(ws, steps, i - 1);
      StepKeeps(ws[i - 1], steps[i - 1]);
    }
  }

  // ---- guarantees over every run ----------------------------------------------------------------

  /** The rows step `i` puts on the wire. */
  function Sent(ws: seq<World>, steps: seq<Step>, i: nat): seq<Row>
    requires IsRun(ws, steps) && i < |steps| && steps[i].Transmit?
  {
    StampRows(ws[i].phase.batch, ws[i].phase.now)
  }

  /** Whenever a row is sent, no older row of its session is waiting. A `session-end`
      therefore never overtakes an earlier event. */
  lemma FifoOnWire(ws: seq<World>, steps: seq<Step>, i: nat, r: Row, o: Row)
    requires IsRun(ws, steps) && i < |steps| && steps[i].Transmit? && r in Sent(ws, steps, i)
    requires o in ws[i].db.pending && o.sessionId == r.sessionId
    ensures r.id <= o.id
  {
    ReachableGood(ws, steps, i);
    var stored := StoredRow(ws[i].db, ws[i].phase.batch, ws[i].phase.now, r);
    SessionIdDecides(ws[i].db, stored, o);
  }

  /** Per session, the rows on the wire never go back. */
  lemma WireNeverGoesBack(ws: seq<World>, steps: seq<Step>, n: nat, i: nat, j: nat, a: Row, b: Row)
    requires IsRun(ws, steps) && n < |ws| && i <= j < |ws[n].posts|
    requires a in ws[n].posts[i].rows && b in ws[n].posts[j].rows && a.Session() == b.Session()
    ensures a.id <= b.id
  {
    ReachableGood(ws, steps, n);
  }

  /** At most one event per session has been sent and not yet released. */
  lemma OneUnacknowledged(ws: seq<World>, steps: seq<Step>, n: nat, i: nat, j: nat, a: Row, b: Row, o: Row, u: Row)
    requires IsRun(ws, steps) && n < |ws| && i < |ws[n].posts| && j < |ws[n].posts|
    requires a in ws[n].posts[i].rows && b in ws[n].posts[j].rows
    requires o in ws[n].db.pending && u in ws[n].db.pending
    requires SameEvent(o, a) && SameEvent(u, b) && a.sessionId == b.sessionId
    ensures o == u
  {
    ReachableGood(ws, steps, n);
    assert Behind(a, ws[n].db.pending, ws[n].db.nextId) && Behind(b, ws[n].db.pending, ws[n].db.nextId);
    OneInFlightPerSession(ws[n].db, o, u);
  }

  /** A key that was released is not sent again while the server may still hold it. */
  lemma NoResendInWindow(ws: seq<World>, steps: seq<Step>, i: nat, r: Row, e: Release)
    requires IsRun(ws, steps) && i < |steps| && steps[i].Transmit? && r in Sent(ws, steps, i)
    requires e in ws[i].released && e.key == r.ingestKey
    ensures steps[i].at - e.firstAttempt > RETRY_WINDOW_MS
    ensures r.ingestKey !in ws[i].db.receipts
  {
    ReachableGood(ws, steps, i);
    var stored := StoredRow(ws[i].db, ws[i].phase.batch, ws[i].phase.now, r);
    assert stored.ingestKey in Keys(ws[i].db.pending);
  }

  /** Every request starts inside the window of every row it carries, measured from the
      row's first durable attempt, up to the lag between the two clock readings. */
  lemma SentInsideWindow(ws: seq<World>, steps: seq<Step>, i: nat, r: Row)
    requires IsRun(ws, steps) && i < |steps| && steps[i].Transmit? && r in Sent(ws, steps, i)
    ensures r.firstAttempt.Some?
    ensures r.firstAttempt.value <= steps[i].at
            <= r.firstAttempt.value + RETRY_WINDOW_MS + (ws[i].phase.start - ws[i].phase.sendNow)
  {
    ReachableGood(ws, steps, i);
    TransmitIsTimely(ws[i], steps[i].at);
    var posts := Apply(ws[i], steps[i]).posts;
    assert Timely(posts[|posts| - 1], r);
  }

  /** A receipt never changes, and is only forgotten by a prune that finds its window
      passed. */
  lemma ReceiptsAreFixed(w: World, s: Step, key: string)
    requires Good(w) && Enabled(w, s) && key in w.db.receipts
    ensures var u := Apply(w, s).db;
            || (key in u.receipts && u.receipts[key] == w.db.receipts[key])
            || (key !in u.receipts && s.Begin? && IsExpired(Some(w.db.receipts[key].firstAttempt), s.now))
  {
    match s
    case Begin(now) => PrunedMeaning(w.db, now);
    case Screen(drop) => ConfirmedMeaning(w.db, Drops(w.phase.batch, drop), w.phase.now);
    case Acknowledge(ack, _, at) =>
      AcceptedOfSound(|w.phase.batch|, ack);
      ConfirmedMeaning(w.db, Acks(w.phase.batch, ack, Validate(|w.phase.batch|, ack).value), at);
    case _ =>
  }

  // ---- nothing is lost -----------------------------------------------------------------------------

  predicate Accounted(w: World, key: string) {
    key in Keys(w.db.pending) || exists e :: e in w.released && e.key == key
  }

  lemma ConfirmAccounts(w: World, acks: seq<(string, string)>, now: i64, key: string)
    requires Inv(w.db) && key in Keys(w.db.pending)
    ensures key in Keys(Confirmed(w.db, acks, now).pending)
            || exists e :: e in ReleasedBy(w.db, acks) && e.key == key
  {
    ConfirmedRows(w.db, acks, now);
    WithoutKeys(w.db.pending, AckKeys(acks));
    if key in AckKeys(acks) {
      var r :| r in w.db.pending && r.ingestKey == key;
      assert Release(key, AttemptedAt(r)) in ReleasedBy(w.db, acks);
    }
  }

  lemma StepAccounts(w: World, s: Step, key: string)
    requires Good(w) && Enabled(w, s) && Accounted(w, key)
    ensures Accounted(Apply(w, s), key)
  {
    if key in Keys(w.db.pending) {
      match s
      case Screen(drop) => ConfirmAccounts(w, Drops(w.phase.batch, drop), w.phase.now, key);
      case Acknowledge(ack, _, at) =>
        AcceptedOfSound(|w.phase.batch|, ack);
        ConfirmAccounts(w, Acks(w.phase.batch, ack, Validate(|w.phase.batch|, ack).value), at, key);
      case Mark =>
        StampedSame(w.db.pending, KeysOf(w.phase.batch), w.phase.now);
        SameRowsKeys(w.db.pending, Stamped(w.db.pending, KeysOf(w.phase.batch), w.phase.now));
      case Charge(k, class_) =>
        NotedInv(w.db, k, class_);
        SameRowsKeys(w.db.pending, Noted(w.db.pending, k, class_));
      case Enqueue(es, now) =>
        var r :| r in w.db.pending && r.ingestKey == key;
        assert r in w.db.pending + NewRows(Fresh(w.db, es), w.db.nextId, now);
      case _ =>
    }
  }

  /** Whatever is answered, lost or interrupted, an accepted event is still waiting, or has
      a receipt, or was released so long ago that its receipt has been forgotten. */
  lemma NothingIsLost(ws: seq<World>, steps: seq<Step>, i: nat, j: nat, key: string)
    requires IsRun(ws, steps) && i <= j < |ws| && key in Keys(ws[i].db.pending)
    ensures key in Keys(ws[j].db.pending) || key in ws[j].db.receipts || ReleasedLongAgo(ws[j], key)
  {
    StaysAccounted(ws, steps, i, j, key);
    ReachableGood(ws, steps, j);
  }

  /** The key was released, and more than a retry window ago by its first attempt. */
  predicate ReleasedLongAgo(w: World, key: string) {
    exists e :: e in w.released && e.key == key && w.clock - e.firstAttempt > RETRY_WINDOW_MS
  }

  lemma StaysAccounted(ws: seq<World>, steps: seq<Step>, i: nat, j: nat, key: string)
    requires IsRun(ws, steps) && i <= j < |ws| && key in Keys(ws[i].db.pending)
    ensures Accounted(ws[j], key)
  {
    var accounted := (k: nat) => k < |ws| ==> Accounted(ws[k], key);
    forall k: nat | i <= k < j && accounted(k)
      ensures accounted(k + 1)
    {
      ReachableGood(ws, steps, k);
      StepAccounts(ws[k], steps[k], key);
    }
    Climb(accounted, i, j);
  }

  // ---- replay ----------------------------------------------------------------------------------------

  /** The tables answer for every key and pin they answered for before. */
  lemma StillRemembered(t: Tables, u: Tables, es: seq<Event>)
    requires Inv(t) && Inv(u) && Remembered(t, es)
    requires forall r :: r in t.pending ==>
               || (exists q :: q in u.pending && q.ingestKey == r.ingestKey && q.bodySha == r.bodySha)
               || (r.ingestKey in u.receipts && u.receipts[r.ingestKey].bodySha == r.bodySha)
    requires forall k :: k in t.receipts ==> k in u.receipts && u.receipts[k] == t.receipts[k]
    requires forall s :: s in t.pins ==> s in u.pins && u.pins[s].agent == t.pins[s].agent
    ensures Remembered(u, es)
  {
    forall e | e in es ensures KnownSha(u, e.ingestKey) == Some(e.bodySha) {
      KnownStays(t, u, e.ingestKey);
    }
  }

  lemma SameRowsRemember(p: seq<Row>, q: seq<Row>, r: Row)
    requires SameRows(p, q) && r in p
    ensures exists o :: o in q && o.ingestKey == r.ingestKey && o.bodySha == r.bodySha
  {
    var i :| 0 <= i < |p| && p[i] == r;
    assert q[i] in q;
  }

  lemma ConfirmRemembers(t: Tables, acks: seq<(string, string)>, now: i64, es: seq<Event>)
    requires Inv(t) && Remembered(t, es)
    ensures Remembered(Confirmed(t, acks, now), es)
  {
    ConfirmedMeaning(t, acks, now);
    WithoutIn(t.pending, AckKeys(acks));
    var u := Confirmed(t, acks, now);
    forall r | r in t.pending
      ensures (exists q :: q in u.pending && q.ingestKey == r.ingestKey && q.bodySha == r.bodySha)
              || (r.ingestKey in u.receipts && u.receipts[r.ingestKey].bodySha == r.bodySha)
    {
      if r.ingestKey !in AckKeys(acks) {
        assert r in u.pending;
      }
    }
    StillRemembered(t, u, es);
  }

  lemma MarksRemember(t: Tables, q: seq<Row>, es: seq<Event>)
    requires Inv(t) && Inv(t.(pending := q)) && SameRows(t.pending, q) && Remembered(t, es)
    ensures Remembered(t.(pending := q), es)
  {
    forall r | r in t.pending { SameRowsRemember(t.pending, q, r); }
    StillRemembered(t, t.(pending := q), es);
  }

  lemma EnqueueRemembers(t: Tables, more: seq<Event>, now: i64, es: seq<Event>)
    requires Inv(t) && Admissible(t, more) && Remembered(t, es)
    ensures Remembered(Enqueued(t, more, now), es)
  {
    EnqueuedInv(t, more, now);
    PinsMeaning(t, more, now);
    var u := Enqueued(t, more, now);
    forall r | r in t.pending
      ensures exists q :: q in u.pending && q.ingestKey == r.ingestKey && q.bodySha == r.bodySha
    {
      assert r in u.pending;
    }
    StillRemembered(t, u, es);
  }

  lemma StepRemembers(w: World, s: Step, es: seq<Event>)
    requires Good(w) && Enabled(w, s) && !s.Begin? && Remembered(w.db, es)
    ensures Remembered(Apply(w, s).db, es)
  {
    StepKeeps(w, s);
    match s
    case Enqueue(more, now) =>
      if Admissible(w.db, more) {
        EnqueueRemembers(w.db, more, now, es);
      }
    case Screen(drop) => ConfirmRemembers(w.db, Drops(w.phase.batch, drop), w.phase.now, es);
    case Acknowledge(ack, _, at) =>
      AcceptedOfSound(|w.phase.batch|, ack);
      ConfirmRemembers(w.db, Acks(w.phase.batch, ack, Validate(|w.phase.batch|, ack).value), at, es);
    case Mark =>
      StampedSame(w.db.pending, KeysOf(w.phase.batch), w.phase.now);
      MarksRemember(w.db, Stamped(w.db.pending, KeysOf(w.phase.batch), w.phase.now), es);
    case Charge(k, class_) =>
      NotedInv(w.db, k, class_);
      MarksRemember(w.db, Noted(w.db.pending, k, class_), es);
    case _ =>
  }

  lemma RunStepRemembers(ws: seq<World>, steps: seq<Step>, i: nat, es: seq<Event>)
    requires IsRun(ws, steps) && i < |steps| && !steps[i].Begin? && Remembered(ws[i].db, es)
    ensures Remembered(ws[i + 1].db, es)
  {
    ReachableGood(ws, steps, i);
    StepRemembers(ws[i], steps[i], es);
  }

  /** A flush prunes when it begins; no flush begins from step `i` up to step `j`. */
  predicate NoPrune(steps: seq<Step>, i: nat, j: nat)
    requires j <= |steps|
  {
    forall k :: i <= k < j ==> !steps[k].Begin?
  }

  lemma RunRemembers(ws: seq<World>, steps: seq<Step>, i: nat, j: nat, es: seq<Event>)
    requires IsRun(ws, steps) && i <= j < |ws| && Remembered(ws[i].db, es) && NoPrune(steps, i, j)
    ensures Remembered(ws[j].db, es)
  {
    var remembers := (k: nat) => k < |ws| ==> Remembered(ws[k].db, es);
    forall k: nat | i <= k < j && remembers(k)
      ensures remembers(k + 1)
    {
      RunStepRemembers(ws, steps, k, es);
    }
    Climb(remembers, i, j);
  }

  lemma {:induction false} Climb(p: nat -> bool, i: nat, j: nat)
    requires i <= j && p(i) && forall k: nat :: i <= k < j && p(k) ==> p(k + 1)
    ensures p(j)
  {
    if i < j {
      Climb(p, i, j - 1);
    }
  }

  /** Enqueueing the same file again, after any steps but a prune, succeeds, adds nothing
      and touches neither the rows nor the receipts. */
  lemma ReplayIsRecognized(ws: seq<World>, steps: seq<Step>, i: nat, j: nat, es: seq<Event>, now: i64)
    requires IsRun(ws, steps) && i < j < |ws|
    requires steps[i].Enqueue? && steps[i].es == es && Admissible(ws[i].db, es)
    requires NoPrune(steps, i, j)
    ensures Admissible(ws[j].db, es) && Fresh(ws[j].db, es) == []
    ensures Enqueued(ws[j].db, es, now).pending == ws[j].db.pending
    ensures Enqueued(ws[j].db, es, now).receipts == ws[j].db.receipts
  {
    ReachableGood(ws, steps, i);
    EnqueuedRemembers(ws[i].db, es, steps[i].now);
    RunRemembers(ws, steps, i + 1, j, es);
    ReachableGood(ws, steps, j);
    ReplayAddsNothing(ws[j].db, es, now);
  }
}
