/** A refused event holds its own session and nothing else: against a server that works
    through a batch in order and stops at the first event it refuses, one flush delivers
    every event that has no refused or expired event before it in its session. */
module RelayDrain {
  import opened Common
  import opened RelayTables
  import opened RelaySelect
  import opened RelayAck
  import opened RelayWorld
  import opened RelayDelivery
  import opened RelayFlush
  import opened RelayPass

  /** Length of the run the server commits before the first refused key. */
  function Committed(batch: seq<Row>, refused: set<string>): (m: nat)
    ensures m <= |batch|
  {
    if batch == [] || batch[0].ingestKey in refused then 0 else 1 + Committed(batch[1..], refused)
  }

  lemma {:induction false} CommittedMeaning(batch: seq<Row>, refused: set<string>)
    ensures forall i :: 0 <= i < Committed(batch, refused) ==> batch[i].ingestKey !in refused
    ensures Committed(batch, refused) < |batch| ==> batch[Committed(batch, refused)].ingestKey in refused
  {
    if batch != [] && batch[0].ingestKey !in refused {
      CommittedMeaning(batch[1..], refused);
      forall i | 0 <= i < Committed(batch, refused) ensures batch[i].ingestKey !in refused {
        assert i > 0 ==> batch[i] == batch[1..][i - 1];
      }
    }
  }

  /** The server's answer, in any of the forms an acknowledgement can take. */
  ghost predicate FailsFast(batch: seq<Row>, refused: set<string>, x: Exchange) {
    var m := Committed(batch, refused);
    && x.Response? && x.status == 200 && !x.overLimit && x.ack.Some?
    && Validate(|batch|, x.ack.value) == Ok(seq(m, i => i))
    && x.ack.value.failedIndex == (if m < |batch| then Some(m) else None)
  }

  /** One such server. */
  function Answer(batch: seq<Row>, refused: set<string>): Exchange {
    var m := Committed(batch, refused);
    Response(200, false, Some(BatchAck(m, Some(seq(m, i => i)), if m < |batch| then Some(m) else None, None)))
  }

  lemma AnswerFailsFast(batch: seq<Row>, refused: set<string>)
    ensures FailsFast(batch, refused, Answer(batch, refused))
  {
    var m := Committed(batch, refused);
    var ack := Answer(batch, refused).ack.value;
    assert Consistent(|batch|, ack, seq(m, i => i));
    ConsistentPasses(|batch|, ack, seq(m, i => i));
  }

  /** A fixed clock, time to spare, and a server that fails fast on `refused`. */
  ghost predicate Steady(env: Env, now: i64, refused: set<string>) {
    && (forall i :: env.budgetLeft(i) && env.budgetToSend(i) && env.now(i) == now)
    && (forall i, batch :: FailsFast(batch, refused, env.exchange(i, batch)))
  }

  /** The row stops its session: it is expired, or fit to be sent and refused. */
  predicate Stops(r: Row, now: i64, env: Env, refused: set<string>) {
    IsExpired(r.firstAttempt, now) || (env.safe(Bare(r)) && r.ingestKey in refused)
  }

  /** Some row of `r`'s session, no newer than `r`, stops it. */
  predicate StoppedBefore(p: seq<Row>, r: Row, now: i64, env: Env, refused: set<string>) {
    exists o :: o in p && o.Session() == r.Session() && o.id <= r.id && Stops(o, now, env, refused)
  }

  // ---- what every pass keeps -----------------------------------------------------------

  function Gone(p: seq<Row>, q: seq<Row>): set<string> { Keys(p) - Keys(q) }

  /** Only rows that do not stop their session have left, oldest first. */
  predicate Removable(p: seq<Row>, gone: set<string>, now: i64, env: Env, refused: set<string>) {
    && (forall r :: r in p && r.ingestKey in gone ==> !Stops(r, now, env, refused))
    && (forall r, o :: r in p && o in p && r.ingestKey in gone && o.Session() == r.Session() && o.id < r.id
          ==> o.ingestKey in gone)
  }

  /** The oldest row of session `s` still here was refused. */
  predicate HeldByRefusal(p: seq<Row>, gone: set<string>, s: SessionKey, env: Env, refused: set<string>) {
    exists r :: r in p && r.Session() == s && r.ingestKey !in gone
      && r.ingestKey in refused && env.safe(Bare(r))
      && forall o :: o in p && o.Session() == s && o.id < r.id ==> o.ingestKey in gone
  }

  predicate Draining(p: seq<Row>, f: Flush, now: i64, env: Env, refused: set<string>) {
    var gone := Gone(p, f.db.pending);
    && Kept(Without(p, gone), f.db.pending, now)
    && Removable(p, gone, now, env, refused)
    && (forall s :: s in f.run.deferred ==> HeldByRefusal(p, gone, s, env, refused))
    && (forall k :: k in gone ==> k in f.db.receipts)
  }

  lemma DrainingStarts(t: Tables, f: Flush, now: i64, env: Env, refused: set<string>)
    requires Inv(t) && f.db.pending == t.pending && f.run.deferred == {}
    ensures Draining(t.pending, f, now, env, refused)
  {
    assert Gone(t.pending, f.db.pending) == {};
    WithoutNone(t.pending, {});
  }

  /** The stored row and the row it started as. */
  lemma Original(p: seq<Row>, gone: set<string>, q: seq<Row>, now: i64, b: Row) returns (r: Row)
    requires Kept(Without(p, gone), q, now) && b in q
    ensures r in p && r.ingestKey !in gone && SameEvent(b, r)
    ensures b.firstAttempt == r.firstAttempt || (r.firstAttempt.None? && b.firstAttempt == Some(now))
  {
    WithoutIn(p, gone);
    var i :| 0 <= i < |q| && q[i] == b;
    r := Without(p, gone)[i];
    assert r in Without(p, gone);
  }

  lemma StillThere(p: seq<Row>, gone: set<string>, q: seq<Row>, now: i64, r: Row) returns (b: Row)
    requires Kept(Without(p, gone), q, now) && r in p && r.ingestKey !in gone
    ensures b in q && SameEvent(b, r)
  {
    WithoutIn(p, gone);
    var i :| 0 <= i < |q| && Without(p, gone)[i] == r;
    b := q[i];
  }

  lemma KeptKeys(p: seq<Row>, gone: set<string>, q: seq<Row>, now: i64)
    requires Kept(Without(p, gone), q, now)
    ensures Keys(q) == Keys(p) - gone
  {
    SameRowsKeys(Without(p, gone), q);
    WithoutKeys(p, gone);
  }

  /** A head of what is left has only departed rows before it. */
  lemma HeadHasNoElders(p: seq<Row>, gone: set<string>, q: seq<Row>, now: i64, b: Row, o: Row)
    requires Kept(Without(p, gone), q, now) && IsHead(q, b)
    requires o in p && o.Session() == b.Session() && o.id < b.id
    ensures o.ingestKey in gone
  {
    if o.ingestKey !in gone {
      var c := StillThere(p, gone, q, now, o);
    }
  }

  /** Rows leave only from the head of their session. */
  lemma RemovableGrows(
    p: seq<Row>, gone: set<string>, q: seq<Row>, more: set<string>, now: i64, env: Env, refused: set<string>)
    requires Ordered(p) && DistinctKeys(p) && Kept(Without(p, gone), q, now)
    requires Removable(p, gone, now, env, refused)
    requires forall k :: k in more ==> exists b: Row :: b.ingestKey == k && IsHead(q, b) && !Stops(b, now, env, refused)
    ensures Removable(p, gone + more, now, env, refused)
  {
    forall r | r in p && r.ingestKey in more
      ensures !Stops(r, now, env, refused)
      ensures forall o :: o in p && o.Session() == r.Session() && o.id < r.id ==> o.ingestKey in gone
    {
      var b: Row :| b.ingestKey == r.ingestKey && IsHead(q, b) && !Stops(b, now, env, refused);
      var r' := Original(p, gone, q, now, b);
      FindUnique(p, r);
      FindUnique(p, r');
      forall o | o in p && o.Session() == r.Session() && o.id < r.id ensures o.ingestKey in gone {
        HeadHasNoElders(p, gone, q, now, b, o);
      }
    }
  }

  lemma HeldGrows(
    p: seq<Row>, gone: set<string>, more: set<string>, s: SessionKey, env: Env, refused: set<string>)
    requires DistinctKeys(p) && HeldByRefusal(p, gone, s, env, refused)
    requires forall r :: r in p && r.ingestKey in more ==> r.Session() != s
    ensures HeldByRefusal(p, gone + more, s, env, refused)
  {
    var r :| r in p && r.Session() == s && r.ingestKey !in gone
      && r.ingestKey in refused && env.safe(Bare(r))
      && forall o :: o in p && o.Session() == s && o.id < r.id ==> o.ingestKey in gone;
    assert r.ingestKey !in gone + more;
  }

  lemma NewlyHeld(
    p: seq<Row>, gone: set<string>, q: seq<Row>, more: set<string>, now: i64, b: Row, env: Env, refused: set<string>)
    requires DistinctKeys(p) && Kept(Without(p, gone), q, now) && IsHead(q, b)
    requires b.ingestKey in refused && env.safe(Bare(b)) && b.ingestKey !in more
    ensures HeldByRefusal(p, gone + more, b.Session(), env, refused)
  {
    var r := Original(p, gone, q, now, b);
    forall o | o in p && o.Session() == r.Session() && o.id < r.id ensures o.ingestKey in gone + more {
      HeadHasNoElders(p, gone, q, now, b, o);
    }
  }

  // ---- one pass against such a server ----------------------------------------------------

  function RestOf(f: Flush, env: Env, i: nat): seq<Row> {
    Without(BatchOf(f, env, i), UnsafeKeys(BatchOf(f, env, i), env.safe))
  }

  /** Every row of the batch is a workable head of its session. */
  lemma BatchRow(f: Flush, env: Env, i: nat, now: i64, refused: set<string>, b: Row)
    requires Inv(f.db) && Steady(env, now, refused) && b in BatchOf(f, env, i)
    ensures IsHead(f.db.pending, b) && !IsExpired(b.firstAttempt, now) && b.Session() !in f.run.deferred
  {
    SelectionMeaning(f.db.pending, PickRequest(f.run.deferred, env.now(i), env.cost));
  }

  lemma RestRow(f: Flush, env: Env, i: nat, now: i64, refused: set<string>, b: Row)
    requires Inv(f.db) && Steady(env, now, refused) && b in RestOf(f, env, i)
    ensures IsHead(f.db.pending, b) && !IsExpired(b.firstAttempt, now) && b.Session() !in f.run.deferred
    ensures env.safe(Bare(b)) && b in BatchOf(f, env, i)
  {
    var batch := BatchOf(f, env, i);
    WithoutIn(batch, UnsafeKeys(batch, env.safe));
    BatchRow(f, env, i, now, refused, b);
  }

  lemma UsableAnswer(batch: seq<Row>, refused: set<string>, x: Exchange)
    requires FailsFast(batch, refused, x)
    ensures Refusal(batch, x).None?
    ensures Acked(batch, x) == Keys(batch[..Committed(batch, refused)])
  {
    CommittedMeaning(batch, refused);
    var m := Committed(batch, refused);
    var accepted := seq(m, i => i);
    AcceptedOfSound(|batch|, x.ack.value);
    AcksKeys(batch, x.ack.value, accepted);
    forall k | k in Keys(batch[..m]) ensures k in Acked(batch, x) {
      var i :| 0 <= i < m && batch[i].ingestKey == k;
      assert accepted[i] in accepted;
    }
    forall k | k in Acked(batch, x) ensures k in Keys(batch[..m]) {
      var i :| i in accepted && batch[i].ingestKey == k;
      assert batch[..m][i] in batch[..m];
    }
  }

  /** Everything a pass takes out was a workable head that does not stop its session. */
  lemma LeavingRow(f: Flush, env: Env, i: nat, now: i64, refused: set<string>, k: string) returns (b: Row)
    requires Inv(f.db) && Steady(env, now, refused) && k in Leaving(f, env, i)
    ensures b.ingestKey == k && IsHead(f.db.pending, b) && !Stops(b, now, env, refused)
    ensures b.Session() !in f.run.deferred
  {
    var batch, rest := BatchOf(f, env, i), RestOf(f, env, i);
    var x := env.exchange(i, rest);
    if k in UnsafeKeys(batch, env.safe) {
      b :| b in batch && !env.safe(Bare(b)) && b.ingestKey == k;
      BatchRow(f, env, i, now, refused, b);
    } else {
      assert FailsFast(rest, refused, x);
      UsableAnswer(rest, refused, x);
      CommittedMeaning(rest, refused);
      var j :| 0 <= j < Committed(rest, refused) && rest[j].ingestKey == k;
      b := rest[j];
      RestRow(f, env, i, now, refused, b);
    }
  }

  /** Against such a server only the refused item itself is held. */
  lemma HeldIsRefused(batch: seq<Row>, refused: set<string>, x: Exchange, j: nat)
    requires FailsFast(batch, refused, x) && j < |batch|
    requires Held(x.ack.value, Validate(|batch|, x.ack.value).value, j)
    ensures j == Committed(batch, refused) && batch[j].ingestKey in refused
  {
    var accepted := Validate(|batch|, x.ack.value).value;
    forall k: nat | k < Committed(batch, refused) ensures k in accepted {
      assert accepted[k] == k;
    }
    CommittedMeaning(batch, refused);
  }

  /** A pass that goes on holds exactly the refused head it ran into, if any. */
  lemma DeferredBy(f: Flush, env: Env, i: nat, now: i64, refused: set<string>, s: SessionKey)
    requires Inv(f.db) && Steady(env, now, refused) && Round(f, env, i).Again?
    requires s in Round(f, env, i).f.run.deferred && s !in f.run.deferred
    ensures exists b: Row ::
      && b.Session() == s && IsHead(f.db.pending, b) && b.ingestKey in refused
      && env.safe(Bare(b)) && b.ingestKey !in Leaving(f, env, i)
  {
    var j := HeldIndex(f, env, i, now, refused, s);
    RestRow(f, env, i, now, refused, RestOf(f, env, i)[j]);
    NotLeaving(f, env, i, now, refused, j);
  }

  lemma HeldIndex(f: Flush, env: Env, i: nat, now: i64, refused: set<string>, s: SessionKey) returns (j: nat)
    requires Inv(f.db) && Steady(env, now, refused) && Round(f, env, i).Again?
    requires s in Round(f, env, i).f.run.deferred && s !in f.run.deferred
    ensures var rest := RestOf(f, env, i);
            && j < |rest| && j == Committed(rest, refused) && rest[j].Session() == s && rest[j].ingestKey in refused
  {
    var rest := RestOf(f, env, i);
    var x := env.exchange(i, rest);
    assert FailsFast(rest, refused, x);
    UsableAnswer(rest, refused, x);
    var accepted := Validate(|rest|, x.ack.value).value;
    j :| 0 <= j < |rest| && Held(x.ack.value, accepted, j) && rest[j].Session() == s;
    HeldIsRefused(rest, refused, x, j);
  }

  lemma NotLeaving(f: Flush, env: Env, i: nat, now: i64, refused: set<string>, j: nat)
    requires Inv(f.db) && Steady(env, now, refused)
    requires j < |RestOf(f, env, i)| && j == Committed(RestOf(f, env, i), refused)
    ensures RestOf(f, env, i)[j].ingestKey !in Leaving(f, env, i)
  {
    var batch, rest := BatchOf(f, env, i), RestOf(f, env, i);
    WithoutIn(batch, UnsafeKeys(batch, env.safe));
    assert rest[j] in rest;
    assert FailsFast(rest, refused, env.exchange(i, rest));
    UsableAnswer(rest, refused, env.exchange(i, rest));
    RestIsDistinct(f, env, i);
    NotEarlier(rest, j);
  }

  lemma RestIsDistinct(f: Flush, env: Env, i: nat)
    requires Inv(f.db)
    ensures DistinctKeys(RestOf(f, env, i))
  {
    var batch := BatchOf(f, env, i);
    BatchIsHeld(f, env, i);
    WithoutOrder(batch, UnsafeKeys(batch, env.safe));
  }

  lemma NotEarlier(rows: seq<Row>, j: nat)
    requires DistinctKeys(rows) && j < |rows|
    ensures rows[j].ingestKey !in Keys(rows[..j])
  {
    assert forall k :: 0 <= k < j ==> rows[..j][k] == rows[k];
  }

  // ---- receipts --------------------------------------------------------------------------------

  lemma ConfirmGrows(t: Tables, acks: seq<(string, string)>, now: i64, k: string)
    requires Inv(t) && (k in t.receipts || (k in AckKeys(acks) && k in Keys(t.pending)))
    ensures k in Confirmed(t, acks, now).receipts
  {
    ConfirmedKeys(t, acks, now);
  }

  /** What a pass takes out of `pending` has a receipt afterwards, and no receipt is lost. */
  lemma RoundReceipts(f: Flush, env: Env, i: nat, k: string)
    requires Inv(f.db) && (k in f.db.receipts || (k in Leaving(f, env, i) && k in Keys(f.db.pending)))
    ensures k in Round(f, env, i).f.db.receipts
  {
    var batch, rest := BatchOf(f, env, i), RestOf(f, env, i);
    if env.budgetLeft(i) && batch != [] {
      var drop := UnsafeKeys(batch, env.safe);
      var g := AfterScreen(f, batch, env, i);
      ScreenedOk(f, env, i);
      UnsafeDrops(batch, env.safe);
      WithoutKeys(f.db.pending, drop);
      if k in f.db.receipts || k in drop {
        ConfirmGrows(f.db, Drops(batch, drop), env.now(i), k);
      }
      if rest != [] {
        DeliverReceipts(g, rest, env, i, k);
      }
    }
  }

  lemma SettledGrows(f: Flush, batch: seq<Row>, x: Exchange, at: i64, k: string)
    requires Inv(f.db) && Refusal(batch, x).None?
    requires k in f.db.receipts || (k in Keys(f.db.pending) && k in Acked(batch, x))
    ensures k in Settled(f, batch, x, at).db.receipts
  {
    AcceptedOfSound(|batch|, x.ack.value);
    var acks := Acks(batch, x.ack.value, Validate(|batch|, x.ack.value).value);
    ConfirmGrows(f.db, acks, at, k);
  }

  lemma DeliverReceipts(f: Flush, batch: seq<Row>, env: Env, i: nat, k: string)
    requires Inv(f.db) && BatchOk(f.db.pending, batch, None)
    requires k in f.db.receipts
             || (k in Keys(f.db.pending) && env.budgetToSend(i) && Refusal(batch, env.exchange(i, batch)).None?
                 && k in Acked(batch, env.exchange(i, batch)))
    ensures k in Deliver(f, batch, env, i).f.db.receipts
  {
    var marked := AfterStamp(f, batch, env.now(i));
    MarkedOk(f, batch, env.now(i));
    SameRowsKeys(f.db.pending, marked.db.pending);
    if env.budgetToSend(i) && Refusal(batch, env.exchange(i, batch)).None? {
      SettledGrows(marked, batch, env.exchange(i, batch), env.ackNow(i), k);
    }
  }

  // ---- the invariant over a pass ------------------------------------------------------------------

  lemma GoneGrows(p: seq<Row>, f: Flush, env: Env, i: nat, now: i64, refused: set<string>)
    requires Inv(f.db) && Draining(p, f, now, env, refused) && Steady(env, now, refused)
    ensures var gone, more := Gone(p, f.db.pending), Leaving(f, env, i);
            var q := Round(f, env, i).f.db.pending;
            Gone(p, q) == gone + more && Kept(Without(p, gone + more), q, now)
  {
    var gone, more := Gone(p, f.db.pending), Leaving(f, env, i);
    var q := Round(f, env, i).f.db.pending;
    RoundConserves(f, env, i);
    KeptKeys(p, gone, f.db.pending, now);
    KeptKeys(f.db.pending, more, q, now);
    forall k | k in more ensures k in Keys(f.db.pending) {
      var b := LeavingRow(f, env, i, now, refused, k);
    }
    WithoutTwice(p, gone, more);
    KeptWithout(Without(p, gone), f.db.pending, more, now);
    KeptTrans(Without(p, gone + more), Without(f.db.pending, more), q, now);
  }

  lemma LeavingIsRemovable(p: seq<Row>, f: Flush, env: Env, i: nat, now: i64, refused: set<string>)
    requires Ordered(p) && DistinctKeys(p)
    requires Inv(f.db) && Draining(p, f, now, env, refused) && Steady(env, now, refused)
    ensures Removable(p, Gone(p, f.db.pending) + Leaving(f, env, i), now, env, refused)
  {
    var gone, more := Gone(p, f.db.pending), Leaving(f, env, i);
    forall k | k in more
      ensures exists b: Row :: b.ingestKey == k && IsHead(f.db.pending, b) && !Stops(b, now, env, refused)
    {
      var b := LeavingRow(f, env, i, now, refused, k);
    }
    RemovableGrows(p, gone, f.db.pending, more, now, env, refused);
  }

  lemma StillHeld(p: seq<Row>, f: Flush, env: Env, i: nat, now: i64, refused: set<string>, s: SessionKey)
    requires Ordered(p) && DistinctKeys(p)
    requires Inv(f.db) && Draining(p, f, now, env, refused) && Steady(env, now, refused)
    requires Round(f, env, i).Again? && s in Round(f, env, i).f.run.deferred
    ensures HeldByRefusal(p, Gone(p, f.db.pending) + Leaving(f, env, i), s, env, refused)
  {
    var gone, more := Gone(p, f.db.pending), Leaving(f, env, i);
    if s in f.run.deferred {
      forall r | r in p && r.ingestKey in more ensures r.Session() != s {
        var b := LeavingRow(f, env, i, now, refused, r.ingestKey);
        var o := Original(p, gone, f.db.pending, now, b);
        FindUnique(p, r);
        FindUnique(p, o);
      }
      HeldGrows(p, gone, more, s, env, refused);
    } else {
      DeferredBy(f, env, i, now, refused, s);
      var b: Row :| b.Session() == s && IsHead(f.db.pending, b) && b.ingestKey in refused
        && env.safe(Bare(b)) && b.ingestKey !in more;
      NewlyHeld(p, gone, f.db.pending, more, now, b, env, refused);
    }
  }

  lemma RoundDrains(p: seq<Row>, f: Flush, env: Env, i: nat, now: i64, refused: set<string>)
    requires Ordered(p) && DistinctKeys(p)
    requires Inv(f.db) && Draining(p, f, now, env, refused) && Steady(env, now, refused)
    ensures Round(f, env, i).Again? ==> Draining(p, Round(f, env, i).f, now, env, refused)
    ensures Round(f, env, i).Stop? ==> BatchOf(f, env, i) == [] && Round(f, env, i).f.db == f.db
  {
    if Round(f, env, i).Stop? {
      StopsOnlyWhenEmpty(f, env, i, now, refused);
    } else {
      GoneGrows(p, f, env, i, now, refused);
      LeavingIsRemovable(p, f, env, i, now, refused);
      forall s | s in Round(f, env, i).f.run.deferred {
        StillHeld(p, f, env, i, now, refused, s);
      }
      forall k | k in Gone(p, f.db.pending) + Leaving(f, env, i)
        ensures k in Round(f, env, i).f.db.receipts
      {
        if k !in Gone(p, f.db.pending) {
          var b := LeavingRow(f, env, i, now, refused, k);
        }
        RoundReceipts(f, env, i, k);
      }
    }
  }

  lemma StopsOnlyWhenEmpty(f: Flush, env: Env, i: nat, now: i64, refused: set<string>)
    requires Steady(env, now, refused) && Round(f, env, i).Stop?
    ensures BatchOf(f, env, i) == [] && Round(f, env, i).f.db == f.db
  {
    var rest := RestOf(f, env, i);
    assert FailsFast(rest, refused, env.exchange(i, rest));
    UsableAnswer(rest, refused, env.exchange(i, rest));
  }

  // ---- the whole flush -----------------------------------------------------------------------------

  lemma PassesDrain(p: seq<Row>, env: Env, now: i64, refused: set<string>)
    requires Ordered(p) && DistinctKeys(p) && Steady(env, now, refused)
    ensures Progresses(Passes(env), (f: Flush) => Draining(p, f, now, env, refused))
  {
    forall f: Flush, i: nat | Inv(f.db) && Draining(p, f, now, env, refused)
      ensures var pass := Passes(env)(f, i);
              && Inv(pass.f.db)
              && (pass.Again? ==> Draining(p, pass.f, now, env, refused) && Work(pass.f) < Work(f))
    {
      PassKeeps(f, env, i);
      RoundDrains(p, f, env, i, now, refused);
    }
  }

  /** When nothing workable is left, what remains of a session starts at its first
      stopping row. */
  lemma LeftBehind(p: seq<Row>, f: Flush, env: Env, i: nat, now: i64, refused: set<string>, r: Row)
    requires Ordered(p) && DistinctKeys(p) && Inv(f.db)
    requires Draining(p, f, now, env, refused) && Steady(env, now, refused)
    requires BatchOf(f, env, i) == [] && r in p
    ensures r.ingestKey in Keys(f.db.pending) <==> StoppedBefore(p, r, now, env, refused)
  {
    var gone := Gone(p, f.db.pending);
    KeptKeys(p, gone, f.db.pending, now);
    if r.ingestKey in gone {
      forall o | o in p && o.Session() == r.Session() && o.id <= r.id ensures !Stops(o, now, env, refused) {
        if o.id == r.id {
          SameIdSameRow(p, o, r);
        }
      }
    } else {
      var b := StillThere(p, gone, f.db.pending, now, r);
      var h := SessionHead(f.db.pending, b);
      SelectionMeaning(f.db.pending, PickRequest(f.run.deferred, env.now(i), env.cost));
      HeadStops(p, f, now, env, refused, h);
      var o := Original(p, gone, f.db.pending, now, h);
    }
  }

  /** The oldest row of `b`'s session. */
  lemma SessionHead(p: seq<Row>, b: Row) returns (h: Row)
    requires b in p
    ensures IsHead(p, h) && h.Session() == b.Session() && h.id <= b.id
  {
    h := b;
    var i := 0;
    while i < |p|
      invariant 0 <= i <= |p|
      invariant h in p && h.Session() == b.Session() && h.id <= b.id
      invariant forall j :: 0 <= j < i && p[j].Session() == b.Session() ==> h.id <= p[j].id
    {
      if p[i].Session() == b.Session() && p[i].id < h.id {
        h := p[i];
      }
      i := i + 1;
    }
  }

  /** A head the flush gave up on stops its session. */
  lemma HeadStops(p: seq<Row>, f: Flush, now: i64, env: Env, refused: set<string>, h: Row)
    requires Ordered(p) && DistinctKeys(p) && Inv(f.db) && Draining(p, f, now, env, refused)
    requires IsHead(f.db.pending, h)
    requires h.Session() in f.run.deferred || IsExpired(h.firstAttempt, now)
    ensures exists o :: o in p && SameEvent(h, o) && Stops(o, now, env, refused)
  {
    var gone := Gone(p, f.db.pending);
    var o := Original(p, gone, f.db.pending, now, h);
    if h.Session() in f.run.deferred {
      var r :| r in p && r.Session() == h.Session() && r.ingestKey !in gone
        && r.ingestKey in refused && env.safe(Bare(r))
        && forall o :: o in p && o.Session() == h.Session() && o.id < r.id ==> o.ingestKey in gone;
      var c := StillThere(p, gone, f.db.pending, now, r);
      assert !(o.id < r.id);
      SameIdSameRow(p, o, r);
    }
  }

  /** Poisoned heads do not starve healthy sessions. With one pass more than the rows it
      may work on, a flush at a fixed clock ends with each session's rows cut down to the
      part that starts at its first refused or expired row; everything before that has
      its receipt, and what stays is unchanged but for its delivery marks. */
  lemma HealthyEventsAreDelivered(t: Tables, env: Env, n: nat, now: i64, refused: set<string>)
    requires Inv(t) && Steady(env, now, refused) && Work(Opened(t, now)) < n
    ensures var u := RunPasses(Passes(env), Opened(t, now), 0, n).db;
            && Inv(u)
            && (forall r :: r in t.pending ==>
                  (r.ingestKey in Keys(u.pending) <==> StoppedBefore(t.pending, r, now, env, refused)))
            && (forall r :: r in t.pending && !StoppedBefore(t.pending, r, now, env, refused)
                  ==> r.ingestKey in u.receipts)
            && Kept(Without(t.pending, Gone(t.pending, u.pending)), u.pending, now)
  {
    var f := Opened(t, now);
    PrunedMeaning(t, now);
    DrainingStarts(t, f, now, env, refused);
    PassesDrain(t.pending, env, now, refused);
    var last, k := RunStops(Passes(env), (g: Flush) => Draining(t.pending, g, now, env, refused), f, 0, n);
    EndState(t, env, now, refused, last, k);
  }

  lemma EndState(t: Tables, env: Env, now: i64, refused: set<string>, last: Flush, k: nat)
    requires Inv(t) && Steady(env, now, refused) && Inv(last.db)
    requires Draining(t.pending, last, now, env, refused) && Round(last, env, k).Stop?
    ensures var u := Round(last, env, k).f.db;
            && Inv(u)
            && (forall r :: r in t.pending ==>
                  (r.ingestKey in Keys(u.pending) <==> StoppedBefore(t.pending, r, now, env, refused)))
            && (forall r :: r in t.pending && !StoppedBefore(t.pending, r, now, env, refused)
                  ==> r.ingestKey in u.receipts)
            && Kept(Without(t.pending, Gone(t.pending, u.pending)), u.pending, now)
  {
    StopsOnlyWhenEmpty(last, env, k, now, refused);
    forall r | r in t.pending
      ensures r.ingestKey in Keys(last.db.pending) <==> StoppedBefore(t.pending, r, now, env, refused)
      ensures r.ingestKey !in Keys(last.db.pending) ==> r.ingestKey in last.db.receipts
    {
      LeftBehind(t.pending, last, env, k, now, refused, r);
    }
  }
}
