/** One batch under one shared deadline: `send_with_retries`, with time in nanoseconds. */
module RelaySender {
  import opened Common
  import opened RelayTables

  const MS: nat := 1_000_000
  const SECOND: nat := 1_000 * MS
  const TRANSPORT_RETRIES: nat := 2
  const PER_EVENT_TIMEOUT: nat := 2 * SECOND
  const MAX_BATCH_TIMEOUT: nat := 120 * SECOND
  const MAX_BACKOFF: nat := 2 * SECOND
  const FIRST_BACKOFF: nat := 250 * MS
  const U32_MAX: nat := 0xFFFF_FFFF

  function Min(a: nat, b: nat): nat { if a <= b then a else b }

  function Max(a: nat, b: nat): nat { if a >= b then a else b }

  /** Time left until `deadline`, never negative. */
  function Until(deadline: nat, t: nat): nat { if t >= deadline then 0 else deadline - t }

  /** Per-event timeout scaled by the item count, under an absolute cap and what is left,
      but never less than a millisecond. */
  function BatchTimeout(items: nat, remaining: nat): nat {
    Max(Min(Min(PER_EVENT_TIMEOUT * Min(Max(items, 1), U32_MAX), MAX_BATCH_TIMEOUT), remaining), MS)
  }

  /** Backoff after the failed attempt `attempt`, before the deadline cuts it. */
  function Backoff(attempt: nat): nat {
    Min(if attempt == 0 then FIRST_BACKOFF
        else if attempt == 1 then 2 * FIRST_BACKOFF
        else 4 * FIRST_BACKOFF, MAX_BACKOFF)
  }

  /** The timeout is the least of what the items ask for, the cap and the time left, raised
      to a millisecond if it is less. */
  lemma BatchTimeoutBounds(items: nat, remaining: nat)
    ensures var t := BatchTimeout(items, remaining);
            var asked := PER_EVENT_TIMEOUT * (if items == 0 then 1 else if items > U32_MAX then U32_MAX else items);
            && MS <= t <= MAX_BATCH_TIMEOUT && t <= asked
            && (t > MS ==> t <= remaining)
            && (t == asked || t == MAX_BATCH_TIMEOUT || t == remaining || (t == MS && remaining < MS))
  {
  }

  /** How one request fares: whether a response comes back, and after how long. */
  datatype Reply = Reply(delivered: bool, took: nat)

  /** The host: how long it dawdles before each clock reading, and what each attempt meets. */
  datatype Host = Host(lag: nat -> nat, reply: nat -> Reply)

  /** `admitted` is the clock reading that let the request go ahead. */
  datatype Attempt = Attempt(admitted: nat, start: nat, timeout: nat, end: nat, delivered: bool)

  datatype Outcome = Delivered | WindowClosed | BudgetExhausted | TransportFailed

  /** What one call comes to: its outcome, its requests, when it returned, and how many
      times the host had the chance to dawdle. */
  datatype Sent = Sent(r: Outcome, posts: seq<Attempt>, end: nat, ticks: nat)

  // ---- the retry loop ----------------------------------------------------------------------------

  function PostOnce(items: nat, t: nat, left: nat, lag: nat, reply: Reply): Attempt {
    var timeout := BatchTimeout(items, left);
    Attempt(t, t + lag, timeout, t + lag + Min(reply.took, timeout), reply.delivered)
  }

  /** How one turn of the loop ends. */
  datatype Turned = Over(s: Sent) | Again(posts: seq<Attempt>, t: nat, ticks: nat)

  /** One turn from time `t` on, after the requests `posts`: the window is checked first. */
  function Turn(items: nat, deadline: nat, ttlDeadline: nat, host: Host, posts: seq<Attempt>, t: nat, ticks: nat): Turned {
    var now := t + host.lag(ticks);
    if now >= ttlDeadline then Over(Sent(WindowClosed, posts, now, ticks + 1))
    else Admitted(items, deadline, host, posts, now, ticks + 1)
  }

  /** Then the budget. */
  function Admitted(items: nat, deadline: nat, host: Host, posts: seq<Attempt>, t: nat, ticks: nat): Turned {
    var now := t + host.lag(ticks);
    if Until(deadline, now) == 0 then Over(Sent(BudgetExhausted, posts, now, ticks + 1))
    else Requested(items, deadline, host, posts, now, ticks + 1)
  }

  /** If both allow it, the request is made. */
  function Requested(items: nat, deadline: nat, host: Host, posts: seq<Attempt>, now: nat, ticks: nat): Turned {
    var p := PostOnce(items, now, Until(deadline, now), host.lag(ticks), host.reply(|posts|));
    Settled(deadline, host, posts, p, ticks + 1)
  }

  /** The turn once its request has ended. */
  function Settled(deadline: nat, host: Host, posts: seq<Attempt>, p: Attempt, ticks: nat): Turned {
    if p.delivered then Over(Sent(Delivered, posts + [p], p.end, ticks))
    else if |posts| >= TRANSPORT_RETRIES then Over(Sent(TransportFailed, posts + [p], p.end, ticks))
    else
      var failed := p.end + host.lag(ticks);
      var backoff := Min(Backoff(|posts|), Until(deadline, failed));
      if backoff == 0 then Over(Sent(TransportFailed, posts + [p], failed, ticks + 1))
      else Again(posts + [p], failed + backoff, ticks + 1)
  }

  function Turns(items: nat, deadline: nat, ttlDeadline: nat, host: Host, posts: seq<Attempt>, t: nat, ticks: nat): Sent
    requires |posts| <= TRANSPORT_RETRIES
    decreases TRANSPORT_RETRIES - |posts|
  {
    match Turn(items, deadline, ttlDeadline, host, posts, t, ticks)
    case Over(s) => s
    case Again(made, later, after) => Turns(items, deadline, ttlDeadline, host, made, later, after)
  }

  /** A whole call. */
  function Call(items: nat, remaining: nat, ttlLeft: nat, start: nat, host: Host): Sent {
    Turns(items, start + Min(remaining, ttlLeft), start + ttlLeft, host, NO_POSTS, start, 0)
  }

  const NO_POSTS: seq<Attempt> := []

  method SendWithRetries(items: nat, remaining: nat, ttlLeft: nat, start: nat, host: Host) returns (s: Sent)
    ensures s == Call(items, remaining, ttlLeft, start, host)
    ensures Bounded(items, remaining, ttlLeft, start, host, s)
  {
    CallBounded(items, remaining, ttlLeft, start, host);
    s := RetryLoop(items, remaining, ttlLeft, start, host);
  }

  method RetryLoop(items: nat, remaining: nat, ttlLeft: nat, start: nat, host: Host) returns (s: Sent)
    ensures s == Call(items, remaining, ttlLeft, start, host)
  {
    var deadline, ttlDeadline := start + Min(remaining, ttlLeft), start + ttlLeft;
    var posts, t, ticks := NO_POSTS, start, 0;
    while true
      invariant |posts| <= TRANSPORT_RETRIES
      invariant Call(items, remaining, ttlLeft, start, host) == Turns(items, deadline, ttlDeadline, host, posts, t, ticks)
      decreases TRANSPORT_RETRIES - |posts|
    {
      var turned := TakeTurn(items, deadline, ttlDeadline, host, posts, t, ticks);
      if turned.Over? {
        return turned.s;
      }
      posts, t, ticks := turned.posts, turned.t, turned.ticks;
    }
  }

  /** The loop body: both clocks are read again before every request. */
  method TakeTurn(items: nat, deadline: nat, ttlDeadline: nat, host: Host, posts: seq<Attempt>, t: nat, ticks0: nat)
    returns (r: Turned)
    ensures r == Turn(items, deadline, ttlDeadline, host, posts, t, ticks0)
  {
    var end, ticks := t + host.lag(ticks0), ticks0 + 1;
    if end >= ttlDeadline {
      return Over(Sent(WindowClosed, posts, end, ticks));
    }
    end, ticks := end + host.lag(ticks), ticks + 1;
    var left := Until(deadline, end);
    if left == 0 {
      return Over(Sent(BudgetExhausted, posts, end, ticks));
    }
    var attempt := |posts|;
    var post := PostOnce(items, end, left, host.lag(ticks), host.reply(attempt));
    end, ticks := post.end, ticks + 1;
    if post.delivered {
      return Over(Sent(Delivered, posts + [post], end, ticks));
    }
    if attempt >= TRANSPORT_RETRIES {
      return Over(Sent(TransportFailed, posts + [post], end, ticks));
    }
    end, ticks := end + host.lag(ticks), ticks + 1;
    var backoff := Min(Backoff(attempt), Until(deadline, end));
    if backoff == 0 {
      return Over(Sent(TransportFailed, posts + [post], end, ticks));
    }
    return Again(posts + [post], end + backoff, ticks);
  }

  // ---- what every call keeps to --------------------------------------------------------------------

  /** Total dawdling over the first `ticks` readings. */
  function Dawdle(host: Host, ticks: nat): nat {
    if ticks == 0 then 0 else Dawdle(host, ticks - 1) + host.lag(ticks - 1)
  }

  /** Requests follow each other with the full backoff, or what the deadline leaves of it. */
  predicate Spaced(posts: seq<Attempt>, deadline: nat) {
    forall k :: 0 <= k < |posts| - 1 ==>
      posts[k + 1].admitted >= posts[k].end + Min(Backoff(k), Until(deadline, posts[k].end))
  }

  /** Every request is admitted before the deadline, starts within the host's dawdling, and
      ends within a timeout measured against the time left when it was admitted. */
  predicate Allowed(p: Attempt, items: nat, deadline: nat, late: nat) {
    && p.admitted < deadline
    && p.admitted <= p.start <= p.admitted + late
    && p.timeout == BatchTimeout(items, Until(deadline, p.admitted))
    && p.start <= p.end <= p.start + p.timeout
  }

  predicate AllAllowed(posts: seq<Attempt>, items: nat, deadline: nat, late: nat) {
    forall p :: p in posts ==> Allowed(p, items, deadline, late)
  }

  /** When the sender may try again. */
  predicate Rested(posts: seq<Attempt>, t: nat, deadline: nat) {
    posts != [] ==>
      t >= posts[|posts| - 1].end + Min(Backoff(|posts| - 1), Until(deadline, posts[|posts| - 1].end))
  }

  predicate AllFailed(posts: seq<Attempt>) { forall p :: p in posts ==> !p.delivered }

  /** The requests made so far. */
  predicate Made(items: nat, deadline: nat, start: nat, posts: seq<Attempt>, late: nat) {
    && AllAllowed(posts, items, deadline, late) && Spaced(posts, deadline)
    && (posts != [] ==> start <= posts[0].admitted)
  }

  /** At most three requests, only the last of which can have been answered. */
  predicate Tried(r: Outcome, posts: seq<Attempt>) {
    && |posts| <= 1 + TRANSPORT_RETRIES
    && (r.Delivered? <==> posts != [] && posts[|posts| - 1].delivered)
    && (posts != [] ==> AllFailed(posts[..|posts| - 1]))
  }

  /** When a call may return, and with what outcome. */
  predicate Ended(deadline: nat, ttlDeadline: nat, start: nat, s: Sent, late: nat) {
    && start <= s.end <= deadline + MS + late
    && (s.r.WindowClosed? ==> s.end >= ttlDeadline)
    && (s.r.BudgetExhausted? ==> s.end >= deadline)
    && (s.r.TransportFailed? ==> |s.posts| == 1 + TRANSPORT_RETRIES || s.end >= deadline)
  }

  /** The bounds of one call. */
  predicate Bounded(items: nat, remaining: nat, ttlLeft: nat, start: nat, host: Host, s: Sent) {
    && After(items, start + Min(remaining, ttlLeft), start + ttlLeft, start, host, s)
    && (ttlLeft == 0 ==> s.r == WindowClosed && s.posts == [])
  }

  /** Where the loop stands before a turn, and at every reading until it makes its request. */
  predicate Before(items: nat, deadline: nat, start: nat, posts: seq<Attempt>, t: nat, late: nat) {
    && |posts| <= TRANSPORT_RETRIES && start <= t <= deadline + late && AllFailed(posts)
    && Made(items, deadline, start, posts, late) && Rested(posts, t, deadline)
  }

  /** And where it stands once it has returned. */
  predicate After(items: nat, deadline: nat, ttlDeadline: nat, start: nat, host: Host, s: Sent) {
    && Tried(s.r, s.posts) && Made(items, deadline, start, s.posts, Dawdle(host, s.ticks))
    && Ended(deadline, ttlDeadline, start, s, Dawdle(host, s.ticks))
  }

  predicate TurnOk(items: nat, deadline: nat, ttlDeadline: nat, start: nat, host: Host, x: Turned) {
    match x
    case Over(s) => After(items, deadline, ttlDeadline, start, host, s)
    case Again(made, later, after) => Before(items, deadline, start, made, later, Dawdle(host, after))
  }

  lemma MadeLater(items: nat, deadline: nat, start: nat, posts: seq<Attempt>, late: nat, later: nat)
    requires Made(items, deadline, start, posts, late) && late <= later
    ensures Made(items, deadline, start, posts, later)
  {
  }

  /** The host may dawdle before a reading. */
  lemma Dawdles(items: nat, deadline: nat, start: nat, posts: seq<Attempt>, t: nat, host: Host, ticks: nat)
    requires Before(items, deadline, start, posts, t, Dawdle(host, ticks))
    ensures Before(items, deadline, start, posts, t + host.lag(ticks), Dawdle(host, ticks + 1))
  {
    MadeLater(items, deadline, start, posts, Dawdle(host, ticks), Dawdle(host, ticks + 1));
  }

  /** A request made now fits behind the earlier ones. */
  lemma PostExtends(before: seq<Attempt>, items: nat, t: nat, lag: nat, reply: Reply, deadline: nat, start: nat, late: nat)
    requires Before(items, deadline, start, before, t, late) && t < deadline
    ensures var p := PostOnce(items, t, Until(deadline, t), lag, reply);
            Made(items, deadline, start, before + [p], late + lag) && start <= p.end <= deadline + MS + lag
  {
    var p := PostOnce(items, t, Until(deadline, t), lag, reply);
    MadeLater(items, deadline, start, before, late, late + lag);
    BatchTimeoutBounds(items, Until(deadline, t));
    assert Allowed(p, items, deadline, late + lag);
  }

  lemma {:induction false} TurnsKeep(items: nat, deadline: nat, ttlDeadline: nat, host: Host, posts: seq<Attempt>,
                                     t: nat, ticks: nat, start: nat)
    requires deadline <= ttlDeadline && Before(items, deadline, start, posts, t, Dawdle(host, ticks))
    ensures After(items, deadline, ttlDeadline, start, host, Turns(items, deadline, ttlDeadline, host, posts, t, ticks))
    decreases TRANSPORT_RETRIES - |posts|
  {
    TurnKeeps(items, deadline, ttlDeadline, host, posts, t, ticks, start);
    match Turn(items, deadline, ttlDeadline, host, posts, t, ticks)
    case Over(_) =>
    case Again(made, later, after) =>
      TurnsKeep(items, deadline, ttlDeadline, host, made, later, after, start);
  }

  lemma TurnKeeps(items: nat, deadline: nat, ttlDeadline: nat, host: Host, posts: seq<Attempt>, t: nat, ticks: nat,
                  start: nat)
    requires deadline <= ttlDeadline && Before(items, deadline, start, posts, t, Dawdle(host, ticks))
    ensures TurnOk(items, deadline, ttlDeadline, start, host, Turn(items, deadline, ttlDeadline, host, posts, t, ticks))
  {
    var now := t + host.lag(ticks);
    Dawdles(items, deadline, start, posts, t, host, ticks);
    if now >= ttlDeadline {
      StopsHere(items, deadline, ttlDeadline, host, start, Sent(WindowClosed, posts, now, ticks + 1));
    } else {
      AdmittedKeeps(items, deadline, ttlDeadline, host, posts, now, ticks + 1, start);
      assert Turn(items, deadline, ttlDeadline, host, posts, t, ticks) == Admitted(items, deadline, host, posts, now, ticks + 1);
    }
  }

  lemma AdmittedKeeps(items: nat, deadline: nat, ttlDeadline: nat, host: Host, posts: seq<Attempt>, t: nat, ticks: nat,
                      start: nat)
    requires Before(items, deadline, start, posts, t, Dawdle(host, ticks))
    ensures TurnOk(items, deadline, ttlDeadline, start, host, Admitted(items, deadline, host, posts, t, ticks))
  {
    var now := t + host.lag(ticks);
    Dawdles(items, deadline, start, posts, t, host, ticks);
    if Until(deadline, now) == 0 {
      StopsHere(items, deadline, ttlDeadline, host, start, Sent(BudgetExhausted, posts, now, ticks + 1));
    } else {
      RequestKeeps(items, deadline, ttlDeadline, host, posts, now, ticks + 1, start);
      assert Admitted(items, deadline, host, posts, t, ticks) == Requested(items, deadline, host, posts, now, ticks + 1);
    }
  }

  /** A turn that makes no request. */
  lemma StopsHere(items: nat, deadline: nat, ttlDeadline: nat, host: Host, start: nat, s: Sent)
    requires Before(items, deadline, start, s.posts, s.end, Dawdle(host, s.ticks))
    requires (s.r == WindowClosed && s.end >= ttlDeadline) || (s.r == BudgetExhausted && s.end >= deadline)
    ensures After(items, deadline, ttlDeadline, start, host, s)
  {
    NoneDelivered(s.posts);
  }

  lemma NoneDelivered(posts: seq<Attempt>)
    requires AllFailed(posts)
    ensures posts != [] ==> !posts[|posts| - 1].delivered && AllFailed(posts[..|posts| - 1])
  {
    if posts != [] {
      assert posts[|posts| - 1] in posts;
      assert forall p :: p in posts[..|posts| - 1] ==> p in posts;
    }
  }

  /** A turn that makes one. */
  lemma RequestKeeps(items: nat, deadline: nat, ttlDeadline: nat, host: Host, posts: seq<Attempt>, now: nat,
                     ticks: nat, start: nat)
    requires Before(items, deadline, start, posts, now, Dawdle(host, ticks)) && now < deadline
    ensures TurnOk(items, deadline, ttlDeadline, start, host, Requested(items, deadline, host, posts, now, ticks))
  {
    var p := PostOnce(items, now, Until(deadline, now), host.lag(ticks), host.reply(|posts|));
    PostExtends(posts, items, now, host.lag(ticks), host.reply(|posts|), deadline, start, Dawdle(host, ticks));
    assert Dawdle(host, ticks + 1) == Dawdle(host, ticks) + host.lag(ticks);
    if p.delivered || |posts| >= TRANSPORT_RETRIES {
      SettledEnds(items, deadline, ttlDeadline, host, posts, p, ticks + 1, start);
    } else {
      SettledGoesOn(items, deadline, ttlDeadline, host, posts, p, ticks + 1, start);
    }
  }

  lemma SettledEnds(items: nat, deadline: nat, ttlDeadline: nat, host: Host, posts: seq<Attempt>, p: Attempt,
                    ticks: nat, start: nat)
    requires |posts| <= TRANSPORT_RETRIES && AllFailed(posts) && start <= p.end <= deadline + MS + Dawdle(host, ticks)
    requires Made(items, deadline, start, posts + [p], Dawdle(host, ticks))
    requires p.delivered || |posts| >= TRANSPORT_RETRIES
    ensures TurnOk(items, deadline, ttlDeadline, start, host, Settled(deadline, host, posts, p, ticks))
  {
    assert (posts + [p])[..|posts|] == posts;
  }

  lemma SettledGoesOn(items: nat, deadline: nat, ttlDeadline: nat, host: Host, posts: seq<Attempt>, p: Attempt,
                      ticks: nat, start: nat)
    requires |posts| < TRANSPORT_RETRIES && !p.delivered && AllFailed(posts)
    requires start <= p.end <= deadline + MS + Dawdle(host, ticks)
    requires Made(items, deadline, start, posts + [p], Dawdle(host, ticks))
    ensures TurnOk(items, deadline, ttlDeadline, start, host, Settled(deadline, host, posts, p, ticks))
  {
    var made := posts + [p];
    assert made[..|posts|] == posts;
    assert Dawdle(host, ticks + 1) == Dawdle(host, ticks) + host.lag(ticks);
    MadeLater(items, deadline, start, made, Dawdle(host, ticks), Dawdle(host, ticks + 1));
  }

  /** At most three requests, every one inside the deadline and its own timeout, backoff in
      between, and a return within the deadline plus a millisecond, up to the host's dawdling. */
  lemma CallBounded(items: nat, remaining: nat, ttlLeft: nat, start: nat, host: Host)
    ensures Bounded(items, remaining, ttlLeft, start, host, Call(items, remaining, ttlLeft, start, host))
  {
    CallKeeps(items, remaining, ttlLeft, start, host);
    if ttlLeft == 0 {
      NoWindow(items, remaining, start, host);
    }
  }

  /** Between a failed request and the next a quarter, then half a second passes, in full: a
      request that would not be left that long is not made. */
  lemma RequestsApart(items: nat, remaining: nat, ttlLeft: nat, start: nat, host: Host, k: nat)
    requires k + 1 < |Call(items, remaining, ttlLeft, start, host).posts|
    ensures var posts := Call(items, remaining, ttlLeft, start, host).posts;
            posts[k + 1].admitted >= posts[k].end + if k == 0 then 250_000_000 else 500_000_000
  {
    CallKeeps(items, remaining, ttlLeft, start, host);
    var s := Call(items, remaining, ttlLeft, start, host);
    Apart(s.posts, items, start + Min(remaining, ttlLeft), Dawdle(host, s.ticks), k);
  }

  lemma Apart(posts: seq<Attempt>, items: nat, deadline: nat, late: nat, k: nat)
    requires AllAllowed(posts, items, deadline, late) && Spaced(posts, deadline) && k + 1 < |posts| <= 3
    ensures posts[k + 1].admitted >= posts[k].end + if k == 0 then 250_000_000 else 500_000_000
  {
    assert posts[k + 1] in posts;
    assert Allowed(posts[k + 1], items, deadline, late);
  }

  lemma CallKeeps(items: nat, remaining: nat, ttlLeft: nat, start: nat, host: Host)
    ensures After(items, start + Min(remaining, ttlLeft), start + ttlLeft, start, host,
                  Call(items, remaining, ttlLeft, start, host))
  {
    var posts := NO_POSTS;
    CallIs(items, remaining, ttlLeft, start, host, posts);
    FirstTurnKeeps(items, start + Min(remaining, ttlLeft), start + ttlLeft, host, posts, start, 0);
  }

  lemma CallIs(items: nat, remaining: nat, ttlLeft: nat, start: nat, host: Host, posts: seq<Attempt>)
    requires posts == []
    ensures Call(items, remaining, ttlLeft, start, host)
            == Turns(items, start + Min(remaining, ttlLeft), start + ttlLeft, host, posts, start, 0)
  {
  }

  lemma FirstTurnKeeps(items: nat, deadline: nat, ttlDeadline: nat, host: Host, posts: seq<Attempt>, start: nat, ticks: nat)
    requires start <= deadline <= ttlDeadline && posts == []
    ensures After(items, deadline, ttlDeadline, start, host, Turns(items, deadline, ttlDeadline, host, posts, start, ticks))
  {
    TurnsKeep(items, deadline, ttlDeadline, host, posts, start, ticks, start);
  }

  lemma NoWindow(items: nat, remaining: nat, start: nat, host: Host)
    ensures var s := Call(items, remaining, 0, start, host); s.r == WindowClosed && s.posts == []
  {
  }

  lemma {:induction false} NoDawdle(host: Host, ticks: nat)
    requires forall k :: host.lag(k) == 0
    ensures Dawdle(host, ticks) == 0
  {
    if ticks > 0 {
      NoDawdle(host, ticks - 1);
    }
  }

  /** On a host that does not dawdle a call returns within the tighter deadline plus one
      millisecond, and starts no request after it. */
  lemma ExactSleeps(items: nat, remaining: nat, ttlLeft: nat, start: nat, host: Host)
    requires forall k :: host.lag(k) == 0
    ensures var s := Call(items, remaining, ttlLeft, start, host);
            && s.end <= start + Min(remaining, ttlLeft) + MS
            && forall p :: p in s.posts ==> p.start < start + Min(remaining, ttlLeft)
  {
    CallBounded(items, remaining, ttlLeft, start, host);
    NoDawdle(host, Call(items, remaining, ttlLeft, start, host).ticks);
  }

  // ---- the retry window on the wall clock ----------------------------------------------------

  /** A batch whose oldest first attempt was at `first`: the window is measured from a
      wall-clock reading taken at `readAt`, truncated to milliseconds, and the sender's own
      clock begins at `start`. */
  function SendBatch(items: nat, remaining: nat, first: nat, readAt: nat, start: nat, host: Host): Sent
    requires first <= I64_MAX && readAt / MS <= I64_MAX
  {
    Call(items, remaining, TtlRemaining(first, readAt / MS) * MS, start, host)
  }

  /** No request is admitted once the window of `first` has passed. */
  predicate InsideWindow(s: Sent, first: nat) {
    forall p :: p in s.posts ==> p.admitted < (first + RETRY_WINDOW_MS) * MS
  }

  /** Whatever the host does, every request is admitted inside the retry window: if and only
      if there is no time to send at all, or the tighter of budget and window, counted from
      the sender's own start, ends inside it. */
  lemma InsideWindowIff(items: nat, remaining: nat, first: nat, readAt: nat, start: nat)
    requires first <= I64_MAX && readAt / MS <= I64_MAX
    ensures var ttl := TtlRemaining(first, readAt / MS) * MS;
            (forall host: Host :: InsideWindow(SendBatch(items, remaining, first, readAt, start, host), first))
            <==> ttl == 0 || remaining == 0 || start + Min(remaining, ttl) <= (first + RETRY_WINDOW_MS) * MS
  {
    var ttl := TtlRemaining(first, readAt / MS) * MS;
    if ttl > 0 && remaining > 0 {
      LatestRequest(items, remaining, ttl, start);
      var late := Stalling(Min(remaining, ttl) - 1);
      assert SendBatch(items, remaining, first, readAt, start, late).posts != [];
      var p := SendBatch(items, remaining, first, readAt, start, late).posts[0];
      assert p in SendBatch(items, remaining, first, readAt, start, late).posts;
    }
    forall host: Host | ttl == 0 || remaining == 0 || start + Min(remaining, ttl) <= (first + RETRY_WINDOW_MS) * MS
      ensures InsideWindow(SendBatch(items, remaining, first, readAt, start, host), first)
    {
      CallBounded(items, remaining, ttl, start, host);
    }
  }

  /** A host that stalls once, before the first clock reading, and then answers at once. */
  function Stalling(stall: nat): Host {
    Host((k: nat) => if k == 0 then stall else 0, (k: nat) => Reply(true, 0))
  }

  lemma LatestRequest(items: nat, remaining: nat, ttlLeft: nat, start: nat)
    requires remaining > 0 && ttlLeft > 0
    ensures var s := Call(items, remaining, ttlLeft, start, Stalling(Min(remaining, ttlLeft) - 1));
            |s.posts| == 1 && s.posts[0].admitted == start + Min(remaining, ttlLeft) - 1
  {
  }

  /** The overshoot is less than the time between the reported millisecond and the start of
      the sender's clock; so a clock that starts on the reported millisecond has none. */
  lemma OvershootBounded(items: nat, remaining: nat, first: nat, readAt: nat, start: nat, host: Host)
    requires first <= readAt / MS <= I64_MAX && readAt <= start
    ensures forall p :: p in SendBatch(items, remaining, first, readAt, start, host).posts ==>
              p.admitted < (first + RETRY_WINDOW_MS) * MS + (start - readAt / MS * MS)
  {
    var ttl := TtlRemaining(first, readAt / MS);
    CallBounded(items, remaining, ttl * MS, start, host);
    if ttl > 0 {
      assert readAt / MS + ttl == first + RETRY_WINDOW_MS;
      assert (first + RETRY_WINDOW_MS) * MS == readAt / MS * MS + ttl * MS;
    }
  }

  const BUDGET: nat := 900 * SECOND

  /** An event whose first attempt lies thirty days less five milliseconds back, on a clock
      read late in its millisecond: with the whole flush budget left, its request is
      admitted after the window. */
  lemma AdmittedAfterWindow()
    ensures var readAt := (RETRY_WINDOW_MS - 5) * MS + (MS - 1);
            var s := SendBatch(1, BUDGET, 0, readAt, readAt, Stalling(5 * MS - 1));
            && TtlRemaining(0, readAt / MS) == 5
            && |s.posts| == 1 && s.posts[0].delivered
            && s.posts[0].admitted > RETRY_WINDOW_MS * MS
            && IsExpired(Some(0), s.posts[0].admitted / MS)
  {
    var readAt := (RETRY_WINDOW_MS - 5) * MS + (MS - 1);
    assert readAt / MS == RETRY_WINDOW_MS - 5;
    LatestRequest(1, BUDGET, 5 * MS, readAt);
    var p := SendBatch(1, BUDGET, 0, readAt, readAt, Stalling(5 * MS - 1)).posts[0];
    assert p.admitted == RETRY_WINDOW_MS * MS + (MS - 2);
    assert p.admitted / MS == RETRY_WINDOW_MS;
  }
}
