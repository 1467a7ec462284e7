/** Which rows one batch carries. `select_batch` makes a single pass with a `seen`
    set; here the same batch is each session's head, minus the held ones, packed
    oldest first. */
module RelaySelect {
  import opened Common
  import opened RelayTables

  datatype Batch = Batch(items: seq<Row>, blockedSessions: nat, budgetDeferred: nat)

  /** What one selection works with. */
  datatype Request = Request(
    limit: nat, budget: nat, now: i64, deferred: set<SessionKey>, cost: Row -> nat)
  {
    function Limit(): nat {
      if limit < 1 then 1 else if limit > MAX_BATCH_ITEMS then MAX_BATCH_ITEMS else limit
    }
  }

  function SessionsOf(p: seq<Row>): set<SessionKey> { set r | r in p :: r.Session() }

  /** `r`, read after `before`, is the head of a session the flush still works on. */
  predicate Opens(before: seq<Row>, q: Request, r: Row) {
    r.Session() !in SessionsOf(before) && r.Session() !in q.deferred
  }

  /** The heads of those sessions, split by the retry window. */
  function Heads(p: seq<Row>, q: Request, expired: bool): seq<Row> {
    if p == [] then []
    else
      var heads, r := Heads(p[..|p| - 1], q, expired), p[|p| - 1];
      if Opens(p[..|p| - 1], q, r) && IsExpired(r.firstAttempt, q.now) == expired then heads + [r] else heads
  }

  function Cost(rows: seq<Row>, cost: Row -> nat): nat {
    if rows == [] then 0 else Cost(rows[..|rows| - 1], cost) + cost(rows[|rows| - 1])
  }

  /** The row goes into the batch that `items` packs so far. */
  predicate Fits(items: seq<Row>, q: Request, r: Row) {
    |items| < q.Limit() && (items == [] || Cost(items, q.cost) + q.cost(r) <= q.budget)
  }

  /** Greedy packing: the first row always fits, later ones while the budget lasts. */
  function Pack(rows: seq<Row>, q: Request): seq<Row> {
    if rows == [] then []
    else
      var packed, r := Pack(rows[..|rows| - 1], q), rows[|rows| - 1];
      if Fits(packed, q, r) then packed + [r] else packed
  }

  function Items(p: seq<Row>, q: Request): seq<Row> { Pack(Heads(p, q, false), q) }

  /** The rows read before the batch is full. */
  function Scanned(p: seq<Row>, q: Request): seq<Row> {
    if p == [] then []
    else if |Items(p[..|p| - 1], q)| >= q.Limit() then Scanned(p[..|p| - 1], q)
    else p
  }

  function Selected(p: seq<Row>, q: Request): Batch
    requires |Items(p, q)| <= |Heads(Scanned(p, q), q, false)|
  {
    Batch(Items(p, q), |Heads(Scanned(p, q), q, true)|, |Heads(Scanned(p, q), q, false)| - |Items(p, q)|)
  }

  lemma {:induction false} PackSize(rows: seq<Row>, q: Request)
    ensures |Pack(rows, q)| <= |rows| && |Pack(rows, q)| <= q.Limit()
    ensures rows != [] ==> Pack(rows, q) != [] && Pack(rows, q)[0] == rows[0]
  {
    if rows != [] {
      PackSize(rows[..|rows| - 1], q);
    }
  }

  lemma PackSnoc(rows: seq<Row>, r: Row, q: Request)
    ensures Pack(rows + [r], q) == if Fits(Pack(rows, q), q, r) then Pack(rows, q) + [r] else Pack(rows, q)
  {
    assert (rows + [r])[..|rows|] == rows;
  }

  lemma FullKeepsItems(p: seq<Row>, q: Request)
    requires p != [] && |Items(p[..|p| - 1], q)| >= q.Limit()
    ensures Items(p, q) == Items(p[..|p| - 1], q)
  {
    PackSnoc(Heads(p[..|p| - 1], q, false), p[|p| - 1], q);
  }

  /** The running values of the scan after the rows `p`. */
  datatype Scan = Scan(seen: set<SessionKey>, items: seq<Row>, spent: nat, blocked: nat, skipped: nat)

  ghost predicate ScanMatches(p: seq<Row>, q: Request, s: Scan) {
    && s.seen == SessionsOf(p)
    && s.items == Items(p, q)
    && s.spent == Cost(s.items, q.cost)
    && s.blocked == |Heads(p, q, true)|
    && s.skipped + |s.items| == |Heads(p, q, false)|
    && Scanned(p, q) == p
  }

  function ScanRow(q: Request, s: Scan, r: Row): Scan {
    var seen := s.seen + {r.Session()};
    if r.Session() in s.seen || r.Session() in q.deferred then s.(seen := seen)
    else if IsExpired(r.firstAttempt, q.now) then s.(seen := seen, blocked := s.blocked + 1)
    else if s.items != [] && s.spent + q.cost(r) > q.budget then s.(seen := seen, skipped := s.skipped + 1)
    else s.(seen := seen, items := s.items + [r], spent := s.spent + q.cost(r))
  }

  lemma SessionsOfSnoc(p: seq<Row>, r: Row)
    ensures SessionsOf(p + [r]) == SessionsOf(p) + {r.Session()}
  {
    assert r in p + [r];
  }

  lemma HeadsSnoc(p: seq<Row>, q: Request, r: Row, expired: bool)
    ensures Heads(p + [r], q, expired)
            == if Opens(p, q, r) && IsExpired(r.firstAttempt, q.now) == expired
               then Heads(p, q, expired) + [r] else Heads(p, q, expired)
  {
    assert (p + [r])[..|p|] == p;
  }

  lemma ItemsSnoc(p: seq<Row>, q: Request, r: Row)
    ensures Items(p + [r], q)
            == if Opens(p, q, r) && !IsExpired(r.firstAttempt, q.now) && Fits(Items(p, q), q, r)
               then Items(p, q) + [r] else Items(p, q)
  {
    HeadsSnoc(p, q, r, false);
    PackSnoc(Heads(p, q, false), r, q);
  }

  lemma CostSnoc(rows: seq<Row>, r: Row, cost: Row -> nat)
    ensures Cost(rows + [r], cost) == Cost(rows, cost) + cost(r)
  {
    assert (rows + [r])[..|rows|] == rows;
  }

  lemma ScannedSnoc(p: seq<Row>, q: Request, r: Row)
    requires |Items(p, q)| < q.Limit()
    ensures Scanned(p + [r], q) == p + [r]
  {
    assert (p + [r])[..|p|] == p;
  }

  /** Reading one more row before the batch is full. */
  lemma ScanStep(p: seq<Row>, q: Request, s: Scan, r: Row)
    requires ScanMatches(p, q, s) && |s.items| < q.Limit()
    ensures ScanMatches(p + [r], q, ScanRow(q, s, r))
  {
    SessionsOfSnoc(p, r);
    HeadsSnoc(p, q, r, true);
    HeadsSnoc(p, q, r, false);
    ScannedSnoc(p, q, r);
    ScanItems(p, q, s, r);
  }

  lemma ScanItems(p: seq<Row>, q: Request, s: Scan, r: Row)
    requires s.seen == SessionsOf(p) && s.items == Items(p, q) && s.spent == Cost(s.items, q.cost)
    requires |s.items| < q.Limit()
    ensures ScanRow(q, s, r).items == Items(p + [r], q)
    ensures ScanRow(q, s, r).spent == Cost(ScanRow(q, s, r).items, q.cost)
  {
    ItemsSnoc(p, q, r);
    ScanSpends(q, s, r);
  }

  lemma ScanSpends(q: Request, s: Scan, r: Row)
    requires s.spent == Cost(s.items, q.cost)
    ensures ScanRow(q, s, r).spent == Cost(ScanRow(q, s, r).items, q.cost)
  {
    CostSnoc(s.items, r, q.cost);
  }

  /** A full batch stops the scan and is not changed by later rows. */
  lemma {:induction false} FullStays(p: seq<Row>, q: Request, i: nat)
    requires i <= |p| && |Items(p[..i], q)| >= q.Limit() && Scanned(p[..i], q) == p[..i]
    ensures Items(p, q) == Items(p[..i], q)
    ensures Scanned(p, q) == p[..i]
    decreases |p| - i
  {
    if i == |p| {
      assert p[..i] == p;
    } else {
      var init := p[..|p| - 1];
      assert init[..i] == p[..i];
      FullStays(init, q, i);
      FullKeepsItems(p, q);
    }
  }

  lemma {:induction false} ItemsWithinScan(p: seq<Row>, q: Request)
    ensures Items(p, q) == Items(Scanned(p, q), q)
    ensures |Items(p, q)| <= |Heads(Scanned(p, q), q, false)|
  {
    PackSize(Heads(p, q, false), q);
    if p != [] && |Items(p[..|p| - 1], q)| >= q.Limit() {
      ItemsWithinScan(p[..|p| - 1], q);
      FullKeepsItems(p, q);
    }
  }

  /** The running values after reading all of `p`. */
  function ScanAll(p: seq<Row>, q: Request): Scan {
    if p == [] then Scan({}, [], 0, 0, 0) else ScanRow(q, ScanAll(p[..|p| - 1], q), p[|p| - 1])
  }

  lemma {:induction false} ScanAllMatches(p: seq<Row>, q: Request)
    requires Scanned(p, q) == p
    ensures ScanMatches(p, q, ScanAll(p, q))
  {
    if p != [] {
      var init, r := p[..|p| - 1], p[|p| - 1];
      NotFullBefore(p, q);
      ScanAllMatches(init, q);
      LastRow(p);
      ScanStep(init, q, ScanAll(init, q), r);
    }
  }

  lemma LastRow(p: seq<Row>)
    requires p != []
    ensures p[..|p| - 1] + [p[|p| - 1]] == p
  {
  }

  lemma NotFullBefore(p: seq<Row>, q: Request)
    requires p != [] && Scanned(p, q) == p
    ensures |Items(p[..|p| - 1], q)| < q.Limit()
    ensures Scanned(p[..|p| - 1], q) == p[..|p| - 1]
  {
    ScannedShorter(p[..|p| - 1], q);
    var init := p[..|p| - 1];
    if init != [] && |Items(init[..|init| - 1], q)| >= q.Limit() {
      FullKeepsItems(init, q);
    }
  }

  lemma {:induction false} ScannedShorter(p: seq<Row>, q: Request)
    ensures |Scanned(p, q)| <= |p|
  {
    if p != [] {
      ScannedShorter(p[..|p| - 1], q);
    }
  }

  lemma ScanNext(p: seq<Row>, q: Request, i: nat)
    requires i < |p| && Scanned(p[..i], q) == p[..i] && |ScanAll(p[..i], q).items| < q.Limit()
    ensures Scanned(p[..i + 1], q) == p[..i + 1]
    ensures ScanAll(p[..i + 1], q) == ScanRow(q, ScanAll(p[..i], q), p[i])
  {
    ScanAllMatches(p[..i], q);
    assert p[..i + 1] == p[..i] + [p[i]];
    ScannedSnoc(p[..i], q, p[i]);
    assert p[..i + 1][..i] == p[..i];
  }

  lemma ScanDone(p: seq<Row>, q: Request, i: nat)
    requires i <= |p| && Scanned(p[..i], q) == p[..i] && (i == |p| || |ScanAll(p[..i], q).items| >= q.Limit())
    ensures |Items(p, q)| <= |Heads(Scanned(p, q), q, false)|
    ensures var s := ScanAll(p[..i], q); Selected(p, q) == Batch(s.items, s.blocked, s.skipped)
  {
    ItemsWithinScan(p, q);
    ScanAllMatches(p[..i], q);
    if i == |p| {
      assert p[..i] == p;
    } else {
      FullStays(p, q, i);
    }
  }

  // ---- meaning -------------------------------------------------------------------------

  lemma {:induction false} HeadsMeaning(p: seq<Row>, q: Request, expired: bool)
    requires Ordered(p)
    ensures Ordered(Heads(p, q, expired))
    ensures forall r :: r in Heads(p, q, expired)
              <==> IsHead(p, r) && r.Session() !in q.deferred && IsExpired(r.firstAttempt, q.now) == expired
  {
    if p != [] {
      var init, last := p[..|p| - 1], p[|p| - 1];
      assert p == init + [last];
      HeadsMeaning(init, q, expired);
      forall r
        ensures IsHead(p, r) <==> IsHead(init, r) || (r == last && last.Session() !in SessionsOf(init))
      {
        HeadSnoc(init, last, r);
      }
    }
  }

  lemma HeadSnoc(init: seq<Row>, last: Row, r: Row)
    requires forall o :: o in init ==> o.id < last.id
    ensures IsHead(init + [last], r) <==> IsHead(init, r) || (r == last && last.Session() !in SessionsOf(init))
  {
    assert forall o :: o in init + [last] <==> o in init || o == last;
  }

  lemma {:induction false} PackMeaning(rows: seq<Row>, q: Request)
    requires Ordered(rows)
    ensures Ordered(Pack(rows, q))
    ensures forall r :: r in Pack(rows, q) ==> r in rows
    ensures Cost(Pack(rows, q), q.cost) <= q.budget || |Pack(rows, q)| <= 1
  {
    if rows != [] {
      var init, last := rows[..|rows| - 1], rows[|rows| - 1];
      assert rows == init + [last];
      PackMeaning(init, q);
      assert forall r :: r in Pack(init, q) ==> r.id < last.id;
    }
  }

  /** The batch, without reference to the scan: heads of distinct sessions, none held or
      expired, oldest first, within the item limit, and within the byte budget unless
      it is a single row. It is empty only when every head is held or expired. */
  lemma SelectionMeaning(p: seq<Row>, q: Request)
    requires Ordered(p)
    ensures var b := Items(p, q);
            && Ordered(b)
            && (forall r :: r in b ==>
                  IsHead(p, r) && r.Session() !in q.deferred && !IsExpired(r.firstAttempt, q.now))
            && (forall r, o :: r in b && o in b && r.Session() == o.Session() ==> r.id == o.id)
            && |b| <= q.Limit()
            && (Cost(b, q.cost) <= q.budget || |b| == 1)
    ensures Items(p, q) == [] <==>
              forall r :: IsHead(p, r) ==> r.Session() in q.deferred || IsExpired(r.firstAttempt, q.now)
  {
    var h := Heads(p, q, false);
    HeadsMeaning(p, q, false);
    PackMeaning(h, q);
    PackSize(h, q);
    if h != [] {
      assert h[0] in h;
    }
  }

  /** Greedy: a workable head is left out only when the batch was already full, or when
      the older rows taken left no room for it. */
  lemma {:induction false} LeftOutMeaning(rows: seq<Row>, q: Request, r: Row) returns (k: nat)
    requires Ordered(rows) && r in rows && r !in Pack(rows, q)
    ensures 0 < k <= |Pack(rows, q)| && NoRoom(Pack(rows, q)[..k], q, r)
  {
    var n := |rows| - 1;
    assert rows == rows[..n] + [rows[n]];
    if r == rows[n] {
      k := |Pack(rows, q)|;
      LastLeftOut(rows, q);
    } else {
      k := LeftOutMeaning(rows[..n], q, r);
      assert Pack(rows, q)[..k] == Pack(rows[..n], q)[..k];
    }
  }

  lemma LastLeftOut(rows: seq<Row>, q: Request)
    requires Ordered(rows) && rows != [] && rows[|rows| - 1] !in Pack(rows, q)
    ensures Pack(rows, q) != [] && NoRoom(Pack(rows, q)[..|Pack(rows, q)|], q, rows[|rows| - 1])
  {
    var n := |rows| - 1;
    PackMeaning(rows[..n], q);
    PackSize(rows[..n], q);
    assert Pack(rows, q)[..|Pack(rows, q)|] == Pack(rows[..n], q);
    assert forall o :: o in rows[..n] ==> o.id < rows[n].id;
  }

  /** The rows taken before `r` leave no room for it. */
  predicate NoRoom(older: seq<Row>, q: Request, r: Row) {
    && (forall o :: o in older ==> o.id < r.id)
    && (|older| == q.Limit() || Cost(older, q.cost) + q.cost(r) > q.budget)
  }

  // ---- the two counts ----------------------------------------------------------------------

  lemma {:induction false} ScannedIsStart(p: seq<Row>, q: Request)
    ensures |Scanned(p, q)| <= |p| && Scanned(p, q) == p[..|Scanned(p, q)|]
    ensures |Scanned(p, q)| < |p| ==> |Items(p, q)| >= q.Limit()
  {
    if p != [] && |Items(p[..|p| - 1], q)| >= q.Limit() {
      ScannedIsStart(p[..|p| - 1], q);
      FullKeepsItems(p, q);
    }
  }

  lemma {:induction false} OrderedSize(p: seq<Row>)
    requires Ordered(p)
    ensures |set r | r in p| == |p|
  {
    if p != [] {
      var init, last := p[..|p| - 1], p[|p| - 1];
      OrderedSize(init);
      assert p == init + [last];
      assert (set r | r in p) == (set r | r in init) + {last};
    }
  }

  lemma HeadOfStart(p: seq<Row>, n: nat, r: Row)
    requires Ordered(p) && n <= |p| && r in p[..n]
    ensures IsHead(p[..n], r) <==> IsHead(p, r)
  {
    var i :| 0 <= i < n && p[i] == r;
    if IsHead(p[..n], r) {
      forall o | o in p && o.Session() == r.Session() ensures r.id <= o.id {
        var j :| 0 <= j < |p| && p[j] == o;
        assert j < n ==> p[..n][j] == o;
      }
    }
  }

  /** The heads, expired or not, of sessions not held, among the rows read. */
  function HeadsRead(p: seq<Row>, q: Request, expired: bool): set<Row> {
    set r | r in Scanned(p, q) && IsHead(p, r) && r.Session() !in q.deferred && IsExpired(r.firstAttempt, q.now) == expired
  }

  /** The counts of a selection: sessions blocked by an expired head, and sessions whose head is
      workable but left out of the batch, among the rows read before the batch was full. All rows
      are read unless it is. */
  lemma CountsMeaning(p: seq<Row>, q: Request)
    requires Ordered(p)
    ensures |Items(p, q)| <= |Heads(Scanned(p, q), q, false)|
    ensures Selected(p, q).blockedSessions == |HeadsRead(p, q, true)|
    ensures Selected(p, q).budgetDeferred == |HeadsRead(p, q, false)| - |Items(p, q)|
    ensures |Scanned(p, q)| <= |p| && Scanned(p, q) == p[..|Scanned(p, q)|]
    ensures |Scanned(p, q)| < |p| ==> |Items(p, q)| >= q.Limit()
  {
    ItemsWithinScan(p, q);
    ScannedIsStart(p, q);
    HeadsCounted(p, q, true);
    HeadsCounted(p, q, false);
  }

  lemma HeadsCounted(p: seq<Row>, q: Request, expired: bool)
    requires Ordered(p)
    ensures |Heads(Scanned(p, q), q, expired)| == |HeadsRead(p, q, expired)|
  {
    var read := Scanned(p, q);
    ScannedIsStart(p, q);
    HeadsMeaning(read, q, expired);
    OrderedSize(Heads(read, q, expired));
    forall r | r in read { HeadOfStart(p, |read|, r); }
    assert (set r | r in Heads(read, q, expired)) == HeadsRead(p, q, expired);
  }
}
