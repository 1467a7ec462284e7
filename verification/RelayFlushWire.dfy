/** The delivery guarantees for the flush loop itself: whatever has happened before it, the
    requests of a flush keep to the order, the window and the receipts. */
module RelayFlushWire {
  import opened Common
  import opened RelayTables
  import opened RelaySelect
  import opened RelayWorld
  import opened RelayDelivery
  import opened RelayFlush
  import opened RelayPassRuns

  // ---- a run that goes on ---------------------------------------------------------------------------

  function Last(ws: seq<World>): World
    requires ws != []
  {
    ws[|ws| - 1]
  }

  lemma RunStep(ws: seq<World>, steps: seq<Step>, s: Step)
    requires IsRun(ws, steps) && Enabled(Last(ws), s)
    ensures IsRun(ws + [Apply(Last(ws), s)], steps + [s])
  {
    var vs, all := ws + [Apply(Last(ws), s)], steps + [s];
    forall i | 0 <= i < |all|
      ensures Enabled(vs[i], all[i]) && vs[i + 1] == Apply(vs[i], all[i])
    {
      assert i < |steps| ==> vs[i] == ws[i] && vs[i + 1] == ws[i + 1] && all[i] == steps[i];
    }
  }

  /** Steps played from where a run ends make it a longer run. */
  lemma {:induction false} RunGoesOn(ws: seq<World>, steps: seq<Step>, more: seq<Step>) returns (vs: seq<World>)
    requires IsRun(ws, steps) && CanPlay(Last(ws), more)
    ensures IsRun(vs, steps + more) && Last(vs) == Play(Last(ws), more)
    ensures |vs| == |ws| + |more| && vs[..|ws|] == ws
  {
    if more == [] {
      vs := ws;
      assert steps + more == steps;
    } else {
      var n := |more| - 1;
      var us := RunGoesOn(ws, steps, more[..n]);
      RunStep(us, steps + more[..n], more[n]);
      vs := us + [Apply(Last(us), more[n])];
      assert steps + more == steps + more[..n] + [more[n]];
      assert vs[..|ws|] == us[..|ws|];
    }
  }

  // ---- one flush ------------------------------------------------------------------------------------

  /** A flush that may begin where a run ends. */
  ghost predicate MayFlush(ws: seq<World>, steps: seq<Step>, env: Env, pruneNow: i64) {
    && IsRun(ws, steps) && Last(ws).phase.Idle? && InOrder(env)
    && Last(ws).clock <= pruneNow <= env.now(0)
  }

  function FlushEnd(t: Tables, env: Env, pruneNow: i64, n: nat): Tables {
    RunPasses(Passes(env), Opened(t, pruneNow), 0, n).db
  }

  function FlushWire(t: Tables, env: Env, pruneNow: i64, n: nat): seq<Wired> {
    RunWire(env, Opened(t, pruneNow), 0, n)
  }

  /** A flush of at most `n` passes extends the run to one that ends in its tables and has
      put exactly its requests on the wire. */
  lemma FlushExtends(ws: seq<World>, steps: seq<Step>, env: Env, pruneNow: i64, n: nat)
    returns (vs: seq<World>, more: seq<Step>)
    requires MayFlush(ws, steps, env, pruneNow)
    ensures IsRun(vs, steps + more) && |vs| >= |ws| && vs[..|ws|] == ws
    ensures Last(vs).db == FlushEnd(Last(ws).db, env, pruneNow, n)
    ensures Puts(Last(ws), Last(vs), FlushWire(Last(ws).db, env, pruneNow, n))
  {
    var w := Last(ws);
    var begin := Begin(pruneNow);
    PlaysOne(w, begin);
    var u := Apply(w, begin);
    var passes, v := FlushIsRun(u, Opened(w.db, pruneNow), env, 0, n);
    PlaysAfter(w, [begin], u, passes, v, FlushWire(w.db, env, pruneNow, n));
    more := [begin] + passes;
    vs := RunGoesOn(ws, steps, more);
  }

  // ---- its guarantees -----------------------------------------------------------------------------------

  /** What every run keeps of the wire holds of the world the flush leaves. */
  lemma FlushLeaves(ws: seq<World>, steps: seq<Step>, env: Env, pruneNow: i64, n: nat) returns (v: World)
    requires MayFlush(ws, steps, env, pruneNow)
    ensures v.db == FlushEnd(Last(ws).db, env, pruneNow, n) && WireOk(v)
    ensures Puts(Last(ws), v, FlushWire(Last(ws).db, env, pruneNow, n))
  {
    var vs, more := FlushExtends(ws, steps, env, pruneNow, n);
    v := Last(vs);
    ReachableGood(vs, steps + more, |vs| - 1);
  }

  lemma InHistory(u: World, v: World, out: seq<Wired>, k: nat)
    requires Puts(u, v, out) && k < |out|
    ensures |u.posts| + k < |v.posts|
  {
  }

  /** Per session the requests never go back, neither among themselves nor behind `before`. */
  predicate NeverGoesBack(before: seq<Post>, out: seq<Wired>) {
    && (forall i, j, a, b ::
          (0 <= i <= j < |out| && a in out[i].rows && b in out[j].rows && a.Session() == b.Session())
          ==> a.id <= b.id)
    && (forall i, j, a, b ::
          (0 <= i < |before| && 0 <= j < |out| && a in before[i].rows && b in out[j].rows && a.Session() == b.Session())
          ==> a.id <= b.id)
  }

  lemma PutsInOrder(u: World, v: World, out: seq<Wired>)
    requires Puts(u, v, out) && PostsOrdered(v.posts)
    ensures NeverGoesBack(u.posts, out)
  {
    var n := |u.posts|;
    forall i, j, a, b | 0 <= i <= j < |out| && a in out[i].rows && b in out[j].rows && a.Session() == b.Session()
      ensures a.id <= b.id
    {
      assert WiredOf(v.posts[n + i]) == out[i] && WiredOf(v.posts[n + j]) == out[j];
    }
    forall i, j, a, b |
      0 <= i < |u.posts| && 0 <= j < |out| && a in u.posts[i].rows && b in out[j].rows && a.Session() == b.Session()
      ensures a.id <= b.id
    {
      assert v.posts[..n][i] == v.posts[i] && WiredOf(v.posts[n + j]) == out[j];
    }
  }

  lemma FlushNeverGoesBack(ws: seq<World>, steps: seq<Step>, env: Env, pruneNow: i64, n: nat)
    requires MayFlush(ws, steps, env, pruneNow)
    ensures NeverGoesBack(Last(ws).posts, FlushWire(Last(ws).db, env, pruneNow, n))
  {
    var v := FlushLeaves(ws, steps, env, pruneNow, n);
    PutsInOrder(Last(ws), v, FlushWire(Last(ws).db, env, pruneNow, n));
  }

  /** The request is admitted inside the window of every row it carries, and outside the
      window of every release of such a row in `released`. */
  predicate KeepsWindows(released: set<Release>, x: Wired) {
    forall r :: r in x.rows ==>
      && r.firstAttempt.Some? && r.firstAttempt.value <= x.at <= r.firstAttempt.value + RETRY_WINDOW_MS + x.lag
      && forall e :: e in released && e.key == r.ingestKey ==> x.at - e.firstAttempt > RETRY_WINDOW_MS
  }

  /** Where a run made its `n`th request, and what had been released by then. */
  lemma {:induction false} WhenSent(ws: seq<World>, steps: seq<Step>, n: nat) returns (i: nat)
    requires IsRun(ws, steps) && n < |Last(ws).posts|
    ensures i < |steps| && steps[i].Transmit? && |ws[i].posts| == n
    ensures Last(ws).posts[n].after == ws[i].released
    decreases |steps|
  {
    var m := |steps| - 1;
    if n < |ws[m].posts| {
      RunInit(ws, steps);
      i := WhenSent(ws[..m + 1], steps[..m], n);
    } else {
      i := m;
    }
  }

  lemma RunInit(ws: seq<World>, steps: seq<Step>)
    requires IsRun(ws, steps) && steps != []
    ensures IsRun(ws[..|steps|], steps[..|steps| - 1]) && Last(ws[..|steps|]) == ws[|steps| - 1]
    ensures ws[|steps| - 1].posts == Last(ws).posts[..|ws[|steps| - 1].posts|]
  {
    var m := |steps| - 1;
    assert Last(ws) == Apply(ws[m], steps[m]);
  }

  lemma PutsInTime(u: World, v: World, out: seq<Wired>, k: nat)
    requires Puts(u, v, out) && PostsTimely(v.posts) && k < |out|
    ensures KeepsWindows(v.posts[|u.posts| + k].after, out[k])
  {
    var post := v.posts[|u.posts| + k];
    assert WiredOf(post) == out[k];
    forall r | r in out[k].rows
      ensures Timely(post, r)
    {
    }
  }

  /** Every request of a flush keeps to the windows of the rows it carries, and to those of
      everything released before it was made: before the flush, or in an earlier pass of it. */
  lemma FlushKeepsWindows(ws: seq<World>, steps: seq<Step>, env: Env, pruneNow: i64, n: nat, k: nat)
    returns (vs: seq<World>, all: seq<Step>, i: nat)
    requires MayFlush(ws, steps, env, pruneNow) && k < |FlushWire(Last(ws).db, env, pruneNow, n)|
    ensures IsRun(vs, all) && |vs| >= |ws| && vs[..|ws|] == ws
    ensures Last(vs).db == FlushEnd(Last(ws).db, env, pruneNow, n)
    ensures i < |all| && all[i].Transmit? && |vs[i].posts| == |Last(ws).posts| + k
    ensures KeepsWindows(vs[i].released, FlushWire(Last(ws).db, env, pruneNow, n)[k])
  {
    var more: seq<Step>;
    vs, more := FlushExtends(ws, steps, env, pruneNow, n);
    all := steps + more;
    ReachableGood(vs, all, |vs| - 1);
    InHistory(Last(ws), Last(vs), FlushWire(Last(ws).db, env, pruneNow, n), k);
    i := WhenSent(vs, all, |Last(ws).posts| + k);
    PutsInTime(Last(ws), Last(vs), FlushWire(Last(ws).db, env, pruneNow, n), k);
  }

  /** No row of the request is newer than a pending row of its session. */
  predicate NotAhead(x: Wired, t: Tables) { forall r :: r in x.rows ==> Behind(r, t.pending, t.nextId) }

  lemma PutsBehind(u: World, v: World, out: seq<Wired>, k: nat)
    requires Puts(u, v, out) && PostsBehind(v.posts, v.db.pending, v.db.nextId) && k < |out|
    ensures NotAhead(out[k], v.db)
  {
    assert WiredOf(v.posts[|u.posts| + k]) == out[k];
  }

  /** What a flush has sent is never newer than what it leaves pending in that session. */
  lemma FlushSendsOldest(ws: seq<World>, steps: seq<Step>, env: Env, pruneNow: i64, n: nat)
    requires MayFlush(ws, steps, env, pruneNow)
    ensures var out := FlushWire(Last(ws).db, env, pruneNow, n);
            forall k :: 0 <= k < |out| ==> NotAhead(out[k], FlushEnd(Last(ws).db, env, pruneNow, n))
  {
    var out := FlushWire(Last(ws).db, env, pruneNow, n);
    var v := FlushLeaves(ws, steps, env, pruneNow, n);
    forall k | 0 <= k < |out|
      ensures NotAhead(out[k], v.db)
    {
      PutsBehind(Last(ws), v, out, k);
    }
  }

  /** When a pass sends a row, no older row of its session is pending. */
  lemma PassFifo(f: Flush, env: Env, i: nat, k: nat, r: Row, o: Row)
    requires Inv(f.db) && k < |PassWire(f, env, i)| && r in PassWire(f, env, i)[k].rows
    requires o in f.db.pending && o.sessionId == r.sessionId
    ensures r.id <= o.id
  {
    var batch := BatchOf(f, env, i);
    var rest := Without(batch, UnsafeKeys(batch, env.safe));
    SameRowsSent(env.postsAt(i, rest), StampRows(rest, env.now(i)), env.start(i) - env.sendNow(i), k);
    var j: nat :| j < |rest| && StampRows(rest, env.now(i))[j] == r;
    assert rest[j] in rest;
    RestIsHead(f, env, i, rest[j]);
    SessionIdDecides(f.db, rest[j], o);
  }

  lemma RestIsHead(f: Flush, env: Env, i: nat, b: Row)
    requires Inv(f.db) && b in Without(BatchOf(f, env, i), UnsafeKeys(BatchOf(f, env, i), env.safe))
    ensures IsHead(f.db.pending, b)
  {
    WithoutIn(BatchOf(f, env, i), UnsafeKeys(BatchOf(f, env, i), env.safe));
    SelectionMeaning(f.db.pending, PickRequest(f.run.deferred, env.now(i), env.cost));
  }

  lemma {:induction false} SameRowsSent(times: seq<i64>, rows: seq<Row>, lag: int, k: nat)
    requires k < |WiredAt(times, rows, lag)|
    ensures WiredAt(times, rows, lag)[k].rows == rows
  {
    SentOncePerTime(times[..|times| - 1], rows, lag);
    if k < |times| - 1 {
      SameRowsSent(times[..|times| - 1], rows, lag, k);
    }
  }

  lemma {:induction false} SentOncePerTime(times: seq<i64>, rows: seq<Row>, lag: int)
    ensures |WiredAt(times, rows, lag)| == |times|
  {
    if times != [] {
      SentOncePerTime(times[..|times| - 1], rows, lag);
    }
  }
}
