/** The requests of the sender are steps of the world: read in milliseconds, the times at
    which one call admits them are exactly times a transmission is allowed at. */
module RelayRequests {
  import opened Common
  import opened RelayWorld
  import opened RelayPassRuns
  import Sender = RelaySender

  /** A reading of the sender's clock in whole milliseconds. */
  function Millis(t: nat): i64
    requires t / Sender.MS <= I64_MAX
  {
    t / Sender.MS
  }

  predicate Readable(posts: seq<Sender.Attempt>) {
    forall p :: p in posts ==> p.admitted / Sender.MS <= I64_MAX
  }

  /** When the requests were admitted. */
  function Times(posts: seq<Sender.Attempt>): seq<i64>
    requires Readable(posts)
  {
    seq(|posts|, k requires 0 <= k < |posts| => (assert posts[k] in posts; Millis(posts[k].admitted)))
  }

  lemma {:induction false} AdmittedInTurn(posts: seq<Sender.Attempt>, items: nat, deadline: nat, late: nat, j: nat, k: nat)
    requires Sender.AllAllowed(posts, items, deadline, late) && Sender.Spaced(posts, deadline) && j <= k < |posts|
    ensures posts[j].admitted <= posts[k].admitted
  {
    if j < k {
      AdmittedInTurn(posts, items, deadline, late, j, k - 1);
      assert posts[k - 1] in posts;
    }
  }

  lemma MillisGrow(a: nat, b: nat)
    requires a <= b
    ensures a / Sender.MS <= b / Sender.MS
  {
  }

  lemma MillisBefore(t: nat, start: nat, ttl: nat)
    requires t < start + ttl * Sender.MS
    ensures t / Sender.MS <= start / Sender.MS + ttl
  {
    MillisGrow(t, start + ttl * Sender.MS);
    assert (start + ttl * Sender.MS) / Sender.MS == start / Sender.MS + ttl;
  }

  /** Whatever the host does and however requests fare, one call with a window of `ttl`
      milliseconds admits its requests when the world allows transmissions. */
  lemma CallAdmits(items: nat, remaining: nat, ttl: nat, start: nat, host: Sender.Host)
    requires start / Sender.MS <= I64_MAX
    requires Readable(Sender.Call(items, remaining, ttl * Sender.MS, start, host).posts)
    ensures Admits(Times(Sender.Call(items, remaining, ttl * Sender.MS, start, host).posts), Millis(start), ttl)
  {
    Sender.CallBounded(items, remaining, ttl * Sender.MS, start, host);
    var s := Sender.Call(items, remaining, ttl * Sender.MS, start, host);
    PostsAdmit(s.posts, items, start + Sender.Min(remaining, ttl * Sender.MS), Sender.Dawdle(host, s.ticks), start, ttl);
  }

  lemma PostsAdmit(posts: seq<Sender.Attempt>, items: nat, deadline: nat, late: nat, start: nat, ttl: nat)
    requires start / Sender.MS <= I64_MAX && Readable(posts) && |posts| <= MAX_POSTS
    requires Sender.Made(items, deadline, start, posts, late) && deadline <= start + ttl * Sender.MS
    requires ttl == 0 ==> posts == []
    ensures Admits(Times(posts), Millis(start), ttl)
  {
    forall k | 0 <= k < |posts|
      ensures Millis(start) <= Times(posts)[k] && InTime(Times(posts)[k], Millis(start), ttl)
    {
      assert posts[k] in posts;
      AdmittedInTurn(posts, items, deadline, late, 0, k);
      MillisGrow(start, posts[k].admitted);
      MillisBefore(posts[k].admitted, start, ttl);
    }
    forall j, k | 0 <= j < k < |posts|
      ensures Times(posts)[j] <= Times(posts)[k]
    {
      AdmittedInTurn(posts, items, deadline, late, j, k);
      MillisGrow(posts[j].admitted, posts[k].admitted);
    }
  }

  /** From an armed world, the requests of one call are transmissions that can be played. */
  lemma CallIsPlayed(w: World, items: nat, remaining: nat, start: nat, host: Sender.Host)
    returns (steps: seq<Step>, v: World)
    requires w.phase.Sending? && w.phase.batch != [] && w.phase.posts == 0
    requires start / Sender.MS <= I64_MAX && w.phase.start == w.clock == Millis(start)
    requires Readable(Sender.Call(items, remaining, TtlOf(w) * Sender.MS, start, host).posts)
    ensures var times := Times(Sender.Call(items, remaining, TtlOf(w) * Sender.MS, start, host).posts);
            && Plays(w, steps, v, WiredAt(times, StampRows(w.phase.batch, w.phase.now), w.phase.start - w.phase.sendNow))
            && Transmitted(w, v, times)
  {
    CallAdmits(items, remaining, TtlOf(w), start, host);
    steps, v := TransmitAll(w, Times(Sender.Call(items, remaining, TtlOf(w) * Sender.MS, start, host).posts));
  }

  /** The window of the batch about to be sent. */
  function TtlOf(w: World): nat
    requires w.phase.Sending? && w.phase.batch != []
  {
    TtlLeft(w.phase.batch, w.phase.now, w.phase.sendNow)
  }
}
