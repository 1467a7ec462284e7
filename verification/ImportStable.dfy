/** What a plan promises the server: keys that name one event each, and a replay of a longer
    conversation that repeats every event of the shorter one except its end. */
module ImportStable {
  import opened Common
  import opened ImportHash
  import opened ImportPlan

  // ---- keys -------------------------------------------------------------------------------------

  lemma {:induction false} AsciiDigits(a: string, b: string)
    requires Digits(a) && Digits(b) && Ascii(a) == Ascii(b)
    ensures a == b
  {
    forall i | 0 <= i < |a|
      ensures a[i] == b[i]
    {
      assert a[i] in a && b[i] in b;
      assert Ascii(a)[i] == Ascii(b)[i];
    }
  }

  /** Two keys agree exactly when they are of the same session, position, event and body. */
  lemma KeysAgreeIff(env: Env, s: Bytes, i: Index, n: Bytes, b: Body, s': Bytes, i': Index, n': Bytes, b': Body)
    requires CollisionFree(env.hash, {KeyInput(env, s, i, n, b), KeyInput(env, s', i', n', b')})
    ensures IngestKey(env, s, i, n, b) == IngestKey(env, s', i', n', b')
            <==> s == s' && i == i' && n == n' && env.encode(b) == env.encode(b')
  {
    var x, y := KeyParts(s, i, n, env.encode(b)), KeyParts(s', i', n', env.encode(b'));
    DigestDecidesParts(env.hash, x, y);
    if x == y {
      assert x[1] == y[1] && x[2] == y[2] && x[3] == y[3] && x[4] == y[4];
      DecimalDigits(i);
      DecimalDigits(i');
      AsciiDigits(Decimal(i), Decimal(i'));
      DecimalInjective(i, i');
    }
  }

  /** Conversations are planned for one session exactly when their identities are the same,
      unless the first halves of their digests collide. */
  lemma SessionsAgreeIff(env: Env, w: Bytes, e: Envelope, w': Bytes, e': Envelope)
    requires var x, y := Framed(SessionParts(w, e)), Framed(SessionParts(w', e'));
             env.hash(x)[..32] == env.hash(y)[..32] ==> x == y
    ensures SessionId(env, w, e) == SessionId(env, w', e')
            <==> w == w' && e.project == e'.project && e.source == e'.source && e.sessionId == e'.sessionId
  {
    var x, y := SessionParts(w, e), SessionParts(w', e');
    if SessionId(env, w, e) == SessionId(env, w', e') {
      var n := |Ascii("external-")|;
      assert SessionId(env, w, e)[n..] == env.hash(Framed(x))[..32];
      assert SessionId(env, w', e')[n..] == env.hash(Framed(y))[..32];
      FramedInjective(x, y);
      assert x[1] == y[1] && x[2] == y[2] && x[3] == y[3] && x[4] == y[4];
    }
  }

  // ---- fingerprints -------------------------------------------------------------------------------

  lemma RoleNamesDiffer(a: Role, b: Role)
    requires RoleName(a) == RoleName(b)
    ensures a == b
  {
    assert |RoleName(System)| == 6 && |RoleName(User)| == 4 && |RoleName(Assistant)| == 9;
  }

  lemma {:induction false} MessagePartsInjective(a: seq<Message>, b: seq<Message>)
    requires MessageParts(a) == MessageParts(b)
    ensures a == b
  {
    if a != [] && b != [] {
      var m, n := |a| - 1, |b| - 1;
      var x, y := MessageParts(a), MessageParts(b);
      assert x[|x| - 2] == RoleName(a[m].role) && x[|x| - 1] == a[m].content;
      assert y[|y| - 2] == RoleName(b[n].role) && y[|y| - 1] == b[n].content;
      RoleNamesDiffer(a[m].role, b[n].role);
      assert x[..|x| - 2] == MessageParts(a[..m]) && y[..|y| - 2] == MessageParts(b[..n]);
      MessagePartsInjective(a[..m], b[..n]);
      assert a == a[..m] + [a[m]] && b == b[..n] + [b[n]];
    }
  }

  /** A fingerprint names the whole conversation: every role and every word, in order. */
  lemma FingerprintDecides(env: Env, a: Envelope, b: Envelope)
    requires CollisionFree(env.hash, {Framed(FingerprintParts(a)), Framed(FingerprintParts(b))})
    ensures Fingerprint(env, a) == Fingerprint(env, b) <==> a == b
  {
    var x, y := FingerprintParts(a), FingerprintParts(b);
    DigestDecidesParts(env.hash, x, y);
    if x == y {
      assert x[1] == y[1] && x[2] == y[2] && x[3] == y[3];
      assert x[4..] == MessageParts(a.messages) && y[4..] == MessageParts(b.messages);
      MessagePartsInjective(a.messages, b.messages);
    }
  }

  // ---- what a plan consists of -----------------------------------------------------------------------

  /** Event `k` stands at position `k`, of this session, under its own key. */
  predicate Proper(env: Env, to: Destination, x: Event, k: nat) {
    x.index == k && x.key == IngestKey(env, to.session, x.index, x.name, x.body)
  }

  predicate AllProper(env: Env, to: Destination, events: seq<Event>) {
    forall k :: 0 <= k < |events| ==> Proper(env, to, events[k], k)
  }

  lemma DraftProper(env: Env, to: Destination, k: Index, d: Draft)
    requires PlannedEvent(env, to, k, d).Ok?
    ensures Proper(env, to, PlannedEvent(env, to, k, d).value, k) && PlannedEvent(env, to, k, d).value.name == d.name
    ensures PlannedEvent(env, to, k, d).value.role == d.role
  {
  }

  /** The names of the events before the end. */
  predicate IsNamed(x: Event, k: nat, ms: seq<Message>)
    requires k <= |ms|
  {
    x.name == (if k == 0 then Ascii("session-start") else MessageName(ms[k - 1].role))
    && x.role == if k == 0 then None else Some(ms[k - 1].role)
  }

  lemma {:induction false} EventsAre(env: Env, to: Destination, e: Envelope, ms: seq<Message>)
    requires |ms| <= MAX_MESSAGES && EventsBefore(env, to, e, ms).Ok?
    ensures var xs := EventsBefore(env, to, e, ms).value;
            && |xs| == |ms| + 1 && AllProper(env, to, xs)
            && forall k :: 0 <= k < |xs| ==> IsNamed(xs[k], k, ms)
  {
    if ms == [] {
      DraftProper(env, to, 0, StartDraft(e, to.session));
    } else {
      var n := |ms| - 1;
      EventsAre(env, to, e, ms[..n]);
      DraftProper(env, to, |ms|, MessageDraft(env, e.source, to.session, ms[n]));
      OneMore(env, to, EventsBefore(env, to, e, ms[..n]).value,
              PlannedEvent(env, to, |ms|, MessageDraft(env, e.source, to.session, ms[n])).value, ms);
    }
  }

  lemma OneMore(env: Env, to: Destination, xs: seq<Event>, x: Event, ms: seq<Message>)
    requires ms != [] && |xs| == |ms| && forall k :: 0 <= k < |xs| ==> IsNamed(xs[k], k, ms[..|ms| - 1])
    requires AllProper(env, to, xs) && Proper(env, to, x, |ms|) && IsNamed(x, |ms|, ms)
    ensures AllProper(env, to, xs + [x])
    ensures forall k :: 0 <= k < |xs + [x]| ==> IsNamed((xs + [x])[k], k, ms)
  {
  }

  /** A plan has a start, one event a message and an end, each at its own place. */
  lemma PlanIs(env: Env, to: Destination, e: Envelope)
    requires |e.messages| <= MAX_MESSAGES && PlannedEvents(env, to, e).Ok?
    ensures EventsBefore(env, to, e, e.messages).Ok?
    ensures var xs := PlannedEvents(env, to, e).value;
            && |xs| == |e.messages| + 2 && AllProper(env, to, xs)
            && xs[|xs| - 1].name == Ascii("session-end")
            && xs[..|xs| - 1] == EventsBefore(env, to, e, e.messages).value
            && forall k :: 0 <= k <= |e.messages| ==> IsNamed(xs[k], k, e.messages)
  {
    EventsAre(env, to, e, e.messages);
    DraftProper(env, to, |e.messages| + 1, EndDraft(e, to.session, Fingerprint(env, e)));
  }

  function InputOf(env: Env, to: Destination, x: Event): seq<byte> {
    KeyInput(env, to.session, x.index, x.name, x.body)
  }

  /** Every key of the events is the hash of one of these inputs. */
  predicate HashedFrom(env: Env, to: Destination, events: seq<Event>, inputs: set<seq<byte>>) {
    forall k :: 0 <= k < |events| ==> InputOf(env, to, events[k]) in inputs
  }

  lemma SameKey(env: Env, to: Destination, x: Event, y: Event, inputs: set<seq<byte>>)
    requires CollisionFree(env.hash, inputs) && InputOf(env, to, x) in inputs && InputOf(env, to, y) in inputs
    requires Proper(env, to, x, x.index) && Proper(env, to, y, y.index) && x.key == y.key
    ensures x.index == y.index && x.name == y.name
  {
    KeysAgreeIff(env, to.session, x.index, x.name, x.body, to.session, y.index, y.name, y.body);
  }

  /** No key is used twice in a plan. */
  lemma KeysDistinct(env: Env, to: Destination, e: Envelope, inputs: set<seq<byte>>, i: nat, j: nat)
    requires |e.messages| <= MAX_MESSAGES && PlannedEvents(env, to, e).Ok?
    requires var xs := PlannedEvents(env, to, e).value;
             CollisionFree(env.hash, inputs) && HashedFrom(env, to, xs, inputs) && i < |xs| && j < |xs|
    ensures PlannedEvents(env, to, e).value[i].key == PlannedEvents(env, to, e).value[j].key ==> i == j
  {
    PlanIs(env, to, e);
    var xs := PlannedEvents(env, to, e).value;
    assert Proper(env, to, xs[i], i) && Proper(env, to, xs[j], j);
    if xs[i].key == xs[j].key {
      SameKey(env, to, xs[i], xs[j], inputs);
    }
  }

  // ---- longer conversations -----------------------------------------------------------------------------

  lemma {:induction false} ChecksExtend(env: Env, ms: seq<Message>, more: seq<Message>)
    requires Checked(env, ms + more).Ok?
    ensures Checked(env, ms).Ok?
    ensures Checked(env, ms).value.messages <= Checked(env, ms + more).value.messages
  {
    if more == [] {
      assert ms + more == ms;
    } else {
      var n := |more| - 1;
      assert (ms + more)[..|ms + more| - 1] == ms + more[..n];
      ChecksExtend(env, ms, more[..n]);
    }
  }

  lemma {:induction false} EventsExtend(env: Env, to: Destination, e: Envelope, ms: seq<Message>, more: seq<Message>)
    requires |ms + more| <= MAX_MESSAGES && EventsBefore(env, to, e, ms + more).Ok?
    ensures EventsBefore(env, to, e, ms).Ok?
    ensures EventsBefore(env, to, e, ms).value <= EventsBefore(env, to, e, ms + more).value
  {
    if more == [] {
      assert ms + more == ms;
    } else {
      var n := |more| - 1;
      assert (ms + more)[..|ms + more| - 1] == ms + more[..n];
      EventsExtend(env, to, e, ms, more[..n]);
    }
  }

  /** The start and the message events do not depend on the messages of the envelope. */
  lemma {:induction false} EventsOfHeader(env: Env, to: Destination, e: Envelope, f: Envelope, ms: seq<Message>)
    requires |ms| <= MAX_MESSAGES && e.source == f.source && e.sessionId == f.sessionId
    ensures EventsBefore(env, to, e, ms) == EventsBefore(env, to, f, ms)
  {
    if ms != [] {
      EventsOfHeader(env, to, e, f, ms[..|ms| - 1]);
    }
  }

  lemma ReadyExtends(env: Env, w: Bytes, server: Bytes, file: Bytes, e: Envelope, more: seq<Message>)
    requires Ready(env, w, server, file, e).Ok? && Ready(env, w, server, file, e.(messages := e.messages + more)).Ok?
    ensures var a := Ready(env, w, server, file, e).value.0;
            var b := Ready(env, w, server, file, e.(messages := e.messages + more)).value.0;
            && a.project == b.project && a.source == b.source && a.sessionId == b.sessionId
            && a.messages <= b.messages
  {
    ReadyIs(env, w, server, file, e);
    ReadyIs(env, w, server, file, e.(messages := e.messages + more));
    ChecksExtend(env, e.messages, more);
  }

  /** What a checked envelope consists of. */
  lemma ReadyIs(env: Env, w: Bytes, server: Bytes, file: Bytes, e: Envelope)
    requires Ready(env, w, server, file, e).Ok?
    ensures env.labelled(e.project, 128).Some? && env.sourceName(e.source).Some? && Checked(env, e.messages).Ok?
    ensures Ready(env, w, server, file, e).value.0
            == Envelope(env.labelled(e.project, 128).value, env.sourceName(e.source).value, e.sessionId,
                        Checked(env, e.messages).value.messages)
  {
  }

  lemma SameSession(env: Env, w: Bytes, server: Bytes, a: Envelope, b: Envelope)
    requires a.project == b.project && a.source == b.source && a.sessionId == b.sessionId
    ensures DestinationOf(env, w, server, a) == DestinationOf(env, w, server, b)
  {
  }

  lemma EventsStable(env: Env, to: Destination, a: Envelope, b: Envelope)
    requires a.source == b.source && a.sessionId == b.sessionId
    requires a.messages <= b.messages && |b.messages| <= MAX_MESSAGES
    requires PlannedEvents(env, to, a).Ok? && PlannedEvents(env, to, b).Ok?
    ensures |PlannedEvents(env, to, a).value| == |a.messages| + 2
    ensures var n := |a.messages| + 1;
            PlannedEvents(env, to, a).value[..n] <= PlannedEvents(env, to, b).value
  {
    PlanIs(env, to, a);
    PlanIs(env, to, b);
    BeforeStable(env, to, a, b);
    PrefixOfFront(PlannedEvents(env, to, a).value, PlannedEvents(env, to, b).value, |a.messages| + 1);
  }

  lemma BeforeStable(env: Env, to: Destination, a: Envelope, b: Envelope)
    requires a.source == b.source && a.sessionId == b.sessionId
    requires a.messages <= b.messages && |b.messages| <= MAX_MESSAGES
    requires EventsBefore(env, to, b, b.messages).Ok?
    ensures EventsBefore(env, to, a, a.messages).Ok?
    ensures EventsBefore(env, to, a, a.messages).value <= EventsBefore(env, to, b, b.messages).value
  {
    var more := b.messages[|a.messages|..];
    assert b.messages == a.messages + more;
    EventsExtend(env, to, b, a.messages, more);
    EventsOfHeader(env, to, a, b, a.messages);
  }

  lemma PrefixOfFront(xs: seq<Event>, ys: seq<Event>, n: nat)
    requires n <= |xs| && ys != [] && xs[..n] <= ys[..|ys| - 1]
    ensures xs[..n] <= ys
  {
  }

  /** Prefix stability: a conversation that has grown since it was imported is replayed with
      every event but the last exactly as before. */
  lemma ReplayStable(env: Env, w: Bytes, server: Bytes, file: Bytes, e: Envelope, more: seq<Message>)
    requires Planned(env, w, server, file, e).Ok?
    requires Planned(env, w, server, file, e.(messages := e.messages + more)).Ok?
    ensures var p := Planned(env, w, server, file, e).value;
            var q := Planned(env, w, server, file, e.(messages := e.messages + more)).value;
            && p.session == q.session
            && |p.events| == |e.messages| + 2 && |q.events| == |e.messages| + |more| + 2
            && p.events[..|p.events| - 1] == q.events[..|p.events| - 1]
  {
    var f := e.(messages := e.messages + more);
    var a, b := Ready(env, w, server, file, e).value.0, Ready(env, w, server, file, f).value.0;
    ReadyExtends(env, w, server, file, e, more);
    ReadyBounded(env, w, server, file, e);
    ReadyBounded(env, w, server, file, f);
    SameSession(env, w, server, a, b);
    var to := DestinationOf(env, w, server, a);
    EventsStable(env, to, a, b);
    PlanIs(env, to, a);
    PlanIs(env, to, b);
  }

  lemma EndIsNotMessage(r: Role)
    ensures MessageName(r) != Ascii("session-end")
  {
    assert Ascii("session-end")[0] == 0x73 && Ascii("user-prompt")[0] == 0x75;
    assert |Ascii("session-end")| == 11;
    assert |Ascii("external.assistant-message")| == 26 && |Ascii("external.system-message")| == 23;
  }

  predicate KeyIn(key: Digest, events: seq<Event>) { exists k :: 0 <= k < |events| && events[k].key == key }

  /** Two plans of one session, the second of a longer conversation, and what was hashed. */
  predicate Grown(env: Env, to: Destination, a: Envelope, b: Envelope, inputs: set<seq<byte>>) {
    && a.source == b.source && a.sessionId == b.sessionId
    && a.messages <= b.messages && |a.messages| < |b.messages| <= MAX_MESSAGES
    && PlannedEvents(env, to, a).Ok? && PlannedEvents(env, to, b).Ok?
    && CollisionFree(env.hash, inputs)
    && HashedFrom(env, to, PlannedEvents(env, to, a).value, inputs)
    && HashedFrom(env, to, PlannedEvents(env, to, b).value, inputs)
  }

  /** The old end is never taken for an event of the longer replay. */
  lemma OldEndIsNew(env: Env, to: Destination, a: Envelope, b: Envelope, inputs: set<seq<byte>>, k: nat)
    requires Grown(env, to, a, b, inputs) && k < |PlannedEvents(env, to, b).value|
    ensures |PlannedEvents(env, to, a).value| == |a.messages| + 2
    ensures PlannedEvents(env, to, a).value[|a.messages| + 1].key != PlannedEvents(env, to, b).value[k].key
  {
    PlanIs(env, to, a);
    PlanIs(env, to, b);
    var n := |a.messages| + 1;
    var x, y := PlannedEvents(env, to, a).value[n], PlannedEvents(env, to, b).value[k];
    assert Proper(env, to, x, n) && Proper(env, to, y, k);
    if k == n {
      assert IsNamed(y, k, b.messages);
      EndIsNotMessage(b.messages[k - 1].role);
    }
    if x.key == y.key {
      SameKey(env, to, x, y, inputs);
    }
  }

  lemma KeyOnce(env: Env, to: Destination, a: Envelope, b: Envelope, inputs: set<seq<byte>>, k: nat)
    requires Grown(env, to, a, b, inputs) && k < |PlannedEvents(env, to, b).value|
    ensures KeyIn(PlannedEvents(env, to, b).value[k].key, PlannedEvents(env, to, a).value) <==> k <= |a.messages|
  {
    var xs, ys := PlannedEvents(env, to, a).value, PlannedEvents(env, to, b).value;
    EventsStable(env, to, a, b);
    if k <= |a.messages| {
      assert xs[..|a.messages| + 1][k] == ys[k];
    } else if KeyIn(ys[k].key, xs) {
      var j: nat :| j < |xs| && xs[j].key == ys[k].key;
      KeyTwice(env, to, a, b, inputs, j, k);
    }
  }

  lemma KeyTwice(env: Env, to: Destination, a: Envelope, b: Envelope, inputs: set<seq<byte>>, j: nat, k: nat)
    requires Grown(env, to, a, b, inputs)
    requires j < |PlannedEvents(env, to, a).value| && |a.messages| < k < |PlannedEvents(env, to, b).value|
    ensures PlannedEvents(env, to, a).value[j].key != PlannedEvents(env, to, b).value[k].key
  {
    var xs, ys := PlannedEvents(env, to, a).value, PlannedEvents(env, to, b).value;
    EventsStable(env, to, a, b);
    OldEndIsNew(env, to, a, b, inputs, k);
    if j <= |a.messages| {
      assert xs[..|a.messages| + 1][j] == ys[j];
      KeysDistinct(env, to, b, inputs, j, k);
    }
  }

  /** A server that drops the keys it has seen takes exactly the new events of a conversation
      that has grown, and its new end. */
  lemma GrownConversation(env: Env, w: Bytes, server: Bytes, file: Bytes, e: Envelope, more: seq<Message>,
                          inputs: set<seq<byte>>, k: nat)
    requires more != [] && CollisionFree(env.hash, inputs)
    requires Planned(env, w, server, file, e).Ok?
    requires Planned(env, w, server, file, e.(messages := e.messages + more)).Ok?
    requires var p := Planned(env, w, server, file, e).value;
             var q := Planned(env, w, server, file, e.(messages := e.messages + more)).value;
             var to := Destination(server, w, p.project, p.session);
             && HashedFrom(env, to, p.events, inputs) && HashedFrom(env, to, q.events, inputs)
             && k < |q.events|
    ensures var p := Planned(env, w, server, file, e).value;
            var q := Planned(env, w, server, file, e.(messages := e.messages + more)).value;
            KeyIn(q.events[k].key, p.events) <==> k <= |e.messages|
  {
    var f := e.(messages := e.messages + more);
    var a, b := Ready(env, w, server, file, e).value.0, Ready(env, w, server, file, f).value.0;
    ReadyExtends(env, w, server, file, e, more);
    ReadyBounded(env, w, server, file, e);
    ReadyBounded(env, w, server, file, f);
    SameSession(env, w, server, a, b);
    KeyOnce(env, DestinationOf(env, w, server, a), a, b, inputs, k);
  }
}
