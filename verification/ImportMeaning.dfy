/** What a plan says of the conversation it was made from: which conversations are planned, what
    becomes of each message, and what the events of the plan carry. */
module ImportMeaning {
  import opened Common
  import opened ImportHash
  import opened ImportPlan
  import opened ImportStable

  // ---- cutting a text ---------------------------------------------------------------------------

  /** `end` is the last character boundary of the text at or below `max`. */
  predicate LastBoundary(text: seq<byte>, end: nat, max: nat) {
    end <= max && IsBoundary(text, end) && forall i :: end < i <= max ==> !IsBoundary(text, i)
  }

  /** The last `[` before `end` opens a redaction marker that is not closed before `end`. */
  predicate OpensCutMarker(text: seq<byte>, start: nat, end: nat)
    requires end <= |text|
  {
    && start < end && text[start] == OPEN && (forall i :: start < i < end ==> text[i] != OPEN)
    && StartsWith(text[start..], Ascii("[REDACTED")) && CLOSE !in text[start..end]
  }

  lemma {:induction false} LastIndexIs(c: byte, s: seq<byte>)
    ensures LastIndex(c, s).None? ==> c !in s
    ensures LastIndex(c, s).Some? ==> forall i :: LastIndex(c, s).value < i < |s| ==> s[i] != c
  {
    if s != [] && s[|s| - 1] != c {
      var n := |s| - 1;
      LastIndexIs(c, s[..n]);
      assert s == s[..n] + [s[n]];
      assert forall i :: 0 <= i < n ==> s[..n][i] == s[i];
    }
  }

  /** A text that is too long is cut at the last character boundary that fits, or before the
      redaction marker that this would cut through. */
  lemma TruncationMeaning(text: seq<byte>, max: nat) returns (end: nat)
    requires |text| > max
    ensures LastBoundary(text, end, max) && end <= |text|
    ensures forall start: nat :: OpensCutMarker(text, start, end) ==> Truncated(text, max) == text[..start]
    ensures (forall start: nat :: !OpensCutMarker(text, start, end)) ==> Truncated(text, max) == text[..end]
  {
    end := BoundaryBefore(text, max);
    var last := LastIndex(OPEN, text[..end]);
    LastIndexIs(OPEN, text[..end]);
    assert forall i :: 0 <= i < end ==> text[..end][i] == text[i];
    forall start: nat | OpensCutMarker(text, start, end)
      ensures last == Some(start)
    {
      assert text[..end][start] == OPEN;
    }
    if last.Some? && CutsMarker(text, last.value, end) {
      assert OpensCutMarker(text, last.value, end);
    }
  }

  // ---- messages --------------------------------------------------------------------------------------

  /** `sent` is `text`, or its beginning up to a character boundary within `max`. */
  predicate Shortens(text: seq<byte>, sent: seq<byte>, max: nat) {
    && |sent| <= |text| && sent == text[..|sent|]
    && |sent| <= max && IsBoundary(text, |sent|)
    && (|text| <= max ==> sent == text)
  }

  function RoleLimit(r: Role): nat { if r == User then 16384 else 2000 }

  /** `m`, sanitized and cut to the limit of its role. */
  predicate MadeFrom(env: Env, m: Message, sent: Message) {
    sent.role == m.role && Shortens(env.sanitize(m.content), sent.content, RoleLimit(m.role))
  }

  predicate AllMadeFrom(env: Env, ms: seq<Message>, sent: seq<Message>) {
    |sent| == |ms| && forall k :: 0 <= k < |ms| ==> MadeFrom(env, ms[k], sent[k])
  }

  function ContentBytes(ms: seq<Message>): nat {
    if ms == [] then 0 else ContentBytes(ms[..|ms| - 1]) + |ms[|ms| - 1].content|
  }

  predicate TooLong(env: Env, m: Message) { |env.sanitize(m.content)| > RoleLimit(m.role) }

  function LongOnes(env: Env, ms: seq<Message>): set<nat> { set k | 0 <= k < |ms| && TooLong(env, ms[k]) }

  function UserOnes(ms: seq<Message>): set<nat> { set k | 0 <= k < |ms| && ms[k].role == User }

  predicate NoneBlank(env: Env, ms: seq<Message>) { forall m :: m in ms ==> !env.blank(Prepared(env, m).content) }

  lemma MadeFromIs(env: Env, m: Message)
    ensures MadeFrom(env, m, Prepared(env, m))
    ensures RoleLimit(m.role) == Cap(m.role)
  {
  }

  lemma CountSnoc(a: set<nat>, b: set<nat>, n: nat, more: bool)
    requires n !in a && (n in b <==> more) && forall k: nat :: k != n ==> (k in a <==> k in b)
    ensures |b| == |a| + if more then 1 else 0
  {
    assert b == a + if more then {n} else {};
  }

  lemma LongSnoc(env: Env, ms: seq<Message>)
    requires ms != []
    ensures var n := |ms| - 1;
            |LongOnes(env, ms)| == |LongOnes(env, ms[..n])| + if TooLong(env, ms[n]) then 1 else 0
  {
    var n := |ms| - 1;
    CountSnoc(LongOnes(env, ms[..n]), LongOnes(env, ms), n, TooLong(env, ms[n]));
  }

  lemma UsersSnoc(ms: seq<Message>)
    requires ms != []
    ensures var n := |ms| - 1; |UserOnes(ms)| == |UserOnes(ms[..n])| + if ms[n].role == User then 1 else 0
  {
    var n := |ms| - 1;
    CountSnoc(UserOnes(ms[..n]), UserOnes(ms), n, ms[n].role == User);
  }

  /** The loop's results, without the loop. */
  predicate Counted(env: Env, ms: seq<Message>, p: Progress) {
    && AllMadeFrom(env, ms, p.messages)
    && p.total == ContentBytes(ms) && p.users == |UserOnes(ms)| && p.truncated == |LongOnes(env, ms)|
  }

  /** Messages pass exactly when their original texts are within a mebibyte together and none is
      blank once sanitized and cut; then each is sent as it was made, and the counts are those of
      the user messages and of the messages that did not fit. */
  lemma {:induction false} CheckedMeaning(env: Env, ms: seq<Message>)
    ensures Checked(env, ms).Ok? <==> ContentBytes(ms) <= 1048576 && NoneBlank(env, ms)
    ensures Checked(env, ms).Ok? ==> Counted(env, ms, Checked(env, ms).value)
  {
    if ms == [] {
      assert UserOnes(ms) == {} && LongOnes(env, ms) == {};
    } else {
      var n := |ms| - 1;
      CheckedMeaning(env, ms[..n]);
      LastChecked(env, ms);
    }
  }

  lemma LastChecked(env: Env, ms: seq<Message>)
    requires ms != []
    requires var n := |ms| - 1;
             && (Checked(env, ms[..n]).Ok? <==> ContentBytes(ms[..n]) <= 1048576 && NoneBlank(env, ms[..n]))
             && (Checked(env, ms[..n]).Ok? ==> Counted(env, ms[..n], Checked(env, ms[..n]).value))
    ensures Checked(env, ms).Ok? <==> ContentBytes(ms) <= 1048576 && NoneBlank(env, ms)
    ensures Checked(env, ms).Ok? ==> Counted(env, ms, Checked(env, ms).value)
  {
    var n := |ms| - 1;
    BlankSnoc(env, ms);
    if Checked(env, ms[..n]).Ok? {
      var p := Checked(env, ms[..n]).value;
      MadeFromIs(env, ms[n]);
      if WithMessage(env, p, ms[n]).Ok? {
        CountedSnoc(env, ms, p);
      }
    }
  }

  lemma CountedSnoc(env: Env, ms: seq<Message>, p: Progress)
    requires ms != [] && Counted(env, ms[..|ms| - 1], p) && WithMessage(env, p, ms[|ms| - 1]).Ok?
    ensures Counted(env, ms, WithMessage(env, p, ms[|ms| - 1]).value)
  {
    var n := |ms| - 1;
    LongSnoc(env, ms);
    UsersSnoc(ms);
    MadeFromIs(env, ms[n]);
    MadeSnoc(env, ms, p.messages, Prepared(env, ms[n]));
  }

  lemma MadeSnoc(env: Env, ms: seq<Message>, sent: seq<Message>, last: Message)
    requires ms != [] && AllMadeFrom(env, ms[..|ms| - 1], sent) && MadeFrom(env, ms[|ms| - 1], last)
    ensures AllMadeFrom(env, ms, sent + [last])
  {
  }

  lemma BlankSnoc(env: Env, ms: seq<Message>)
    requires ms != []
    ensures var n := |ms| - 1;
            NoneBlank(env, ms) <==> NoneBlank(env, ms[..n]) && !env.blank(Prepared(env, ms[n]).content)
  {
    var n := |ms| - 1;
    assert ms == ms[..n] + [ms[n]];
    assert forall m :: m in ms <==> m in ms[..n] || m == ms[n];
  }

  /** The message `k` is the first that does not pass, and this is why. */
  predicate Refuses(env: Env, ms: seq<Message>, k: nat, why: Error) {
    && k < |ms| && NoneBlank(env, ms[..k]) && ContentBytes(ms[..k]) <= 1048576
    && (if ContentBytes(ms[..k + 1]) > 1048576 then why == TooLarge
        else why == EmptyMessage(k) && env.blank(Prepared(env, ms[k]).content))
  }

  /** A refusal is that of the first message that does not pass. */
  lemma {:induction false} RefusalMeaning(env: Env, ms: seq<Message>) returns (k: nat)
    requires Checked(env, ms).Err?
    ensures Refuses(env, ms, k, Checked(env, ms).error)
  {
    var n := |ms| - 1;
    if Checked(env, ms[..n]).Err? {
      k := RefusalMeaning(env, ms[..n]);
      RefusesLonger(env, ms, k, Checked(env, ms).error);
    } else {
      k := n;
      RefusesLast(env, ms);
    }
  }

  lemma RefusesLonger(env: Env, ms: seq<Message>, k: nat, why: Error)
    requires ms != [] && Refuses(env, ms[..|ms| - 1], k, why)
    ensures Refuses(env, ms, k, why)
  {
    assert ms[..|ms| - 1][..k] == ms[..k] && ms[..|ms| - 1][..k + 1] == ms[..k + 1];
  }

  lemma RefusesLast(env: Env, ms: seq<Message>)
    requires Checked(env, ms).Err? && ms != [] && Checked(env, ms[..|ms| - 1]).Ok?
    ensures Refuses(env, ms, |ms| - 1, Checked(env, ms).error)
  {
    CheckedMeaning(env, ms[..|ms| - 1]);
    assert ms[..|ms| - 1 + 1] == ms;
  }

  // ---- the conversation ---------------------------------------------------------------------------------

  /** The names are acceptable and nothing in them is a credential. */
  predicate WellNamed(env: Env, w: Bytes, server: Bytes, file: Bytes, e: Envelope) {
    && env.labelled(w, 128).Some? && env.labelled(e.project, 128).Some? && env.sourceName(e.source).Some?
    && |e.sessionId| <= 256 && !env.control(e.sessionId) && env.labelled(e.sessionId, 256).Some?
    && env.safe([w, server, file]) && env.safe([e.project, e.source, e.sessionId])
  }

  /** A conversation can be planned only if it has from 1 to 128 messages, one of a user, and its
      names and messages pass. */
  lemma ReadyIff(env: Env, w: Bytes, server: Bytes, file: Bytes, e: Envelope)
    ensures Ready(env, w, server, file, e).Ok?
            <==> && WellNamed(env, w, server, file, e) && 1 <= |e.messages| <= 128
                 && ContentBytes(e.messages) <= 1048576 && NoneBlank(env, e.messages)
                 && exists m :: m in e.messages && m.role == User
  {
    LabelledIff(env, w, server, file, e);
    CheckedMeaning(env, e.messages);
    SomeUser(e.messages);
  }

  lemma LabelledIff(env: Env, w: Bytes, server: Bytes, file: Bytes, e: Envelope)
    ensures Labelled(env, w, server, file, e).Ok? <==> WellNamed(env, w, server, file, e) && 1 <= |e.messages| <= 128
    ensures Labelled(env, w, server, file, e).Ok? ==> Labelled(env, w, server, file, e).value.messages == e.messages
  {
  }

  lemma SomeUser(ms: seq<Message>)
    ensures |UserOnes(ms)| > 0 <==> exists m :: m in ms && m.role == User
  {
    if m :| m in ms && m.role == User {
      var k :| 0 <= k < |ms| && ms[k] == m;
      assert k in UserOnes(ms);
    }
    if |UserOnes(ms)| > 0 {
      var k :| k in UserOnes(ms);
      assert ms[k] in ms;
    }
  }

  // ---- events ---------------------------------------------------------------------------------------------

  /** The draft passes every check on its way to an event. */
  predicate Sendable(env: Env, to: Destination, k: Index, d: Draft) {
    && env.safe([to.session, d.name] + (match d.sourceEvent case Some(s) => [s] case None => []))
    && env.safe([d.body.session])
    && env.clean(d.body).Some? && env.fits(env.clean(d.body).value)
    && var key := IngestKey(env, to.session, k, d.name, env.clean(d.body).value);
       env.url(to, d.name, key, d.sourceEvent).Some? && env.safe([env.url(to, d.name, key, d.sourceEvent).value])
  }

  /** The event goes to the hook of its own name, session and key, with the cleaned body. */
  predicate GoesOut(env: Env, to: Destination, x: Event, body: Body, sourceEvent: Option<seq<byte>>) {
    && env.clean(body) == Some(x.body) && env.fits(x.body)
    && env.url(to, x.name, x.key, sourceEvent) == Some(x.url) && env.safe([x.url])
  }

  lemma EventIs(env: Env, to: Destination, k: Index, d: Draft)
    ensures PlannedEvent(env, to, k, d).Ok? <==> Sendable(env, to, k, d)
    ensures PlannedEvent(env, to, k, d).Ok? ==> GoesOut(env, to, PlannedEvent(env, to, k, d).value, d.body, d.sourceEvent)
  {
  }

  /** What the start of an import carries. */
  ghost predicate Opens(env: Env, to: Destination, x: Event, source: Bytes, external: Bytes) {
    exists model ::
      && Shortens(Ascii("external:") + source, model, 160)
      && GoesOut(env, to, x, StartBody(to.session, model, source, external), None)
  }

  /** What its end carries. */
  predicate Closes(env: Env, to: Destination, x: Event, source: Bytes, external: Bytes, transcript: Digest) {
    GoesOut(env, to, x, EndBody(to.session, source, external, transcript), None)
  }

  /** What the event of a message carries: a prompt of the user, or a titled message of the
      assistant or the system, in which case the event says of which. */
  predicate Tells(env: Env, to: Destination, x: Event, m: Message, source: Bytes) {
    match m.role
    case User => GoesOut(env, to, x, PromptBody(to.session, m.content, source, Ascii("user")), None)
    case Assistant =>
      GoesOut(env, to, x, ExtensionBody(to.session, env.title(m.content, Assistant), m.content, source, Ascii("assistant")),
              Some(Ascii("assistant") + Ascii("-message")))
    case System =>
      GoesOut(env, to, x, ExtensionBody(to.session, env.title(m.content, System), m.content, source, Ascii("system")),
              Some(Ascii("system") + Ascii("-message")))
  }

  lemma MessageTells(env: Env, to: Destination, k: Index, source: Bytes, m: Message)
    requires PlannedEvent(env, to, k, MessageDraft(env, source, to.session, m)).Ok?
    ensures Tells(env, to, PlannedEvent(env, to, k, MessageDraft(env, source, to.session, m)).value, m, source)
  {
    EventIs(env, to, k, MessageDraft(env, source, to.session, m));
  }

  lemma StartOpens(env: Env, to: Destination, k: Index, e: Envelope)
    requires PlannedEvent(env, to, k, StartDraft(e, to.session)).Ok?
    ensures Opens(env, to, PlannedEvent(env, to, k, StartDraft(e, to.session)).value, e.source, e.sessionId)
  {
    EventIs(env, to, k, StartDraft(e, to.session));
    assert Shortens(Ascii("external:") + e.source, Truncated(Ascii("external:") + e.source, 160), 160);
  }

  predicate TellsAll(env: Env, to: Destination, xs: seq<Event>, ms: seq<Message>, source: Bytes)
    requires |xs| > |ms|
  {
    forall k :: 0 <= k < |ms| ==> Tells(env, to, xs[k + 1], ms[k], source)
  }

  lemma TellsSnoc(env: Env, to: Destination, xs: seq<Event>, x: Event, source: Bytes, ms: seq<Message>)
    requires ms != [] && |xs| == |ms|
    requires TellsAll(env, to, xs, ms[..|ms| - 1], source) && Tells(env, to, x, ms[|ms| - 1], source)
    ensures TellsAll(env, to, xs + [x], ms, source) && (xs + [x])[0] == xs[0]
  {
    var n := |ms| - 1;
    forall k | 0 <= k < |ms| ensures Tells(env, to, (xs + [x])[k + 1], ms[k], source) {
      assert k < n ==> ms[..n][k] == ms[k] && (xs + [x])[k + 1] == xs[k + 1];
    }
  }

  /** The start opens the events, and each message is in its own event, in order. */
  lemma {:induction false} MessagesAreSent(env: Env, to: Destination, e: Envelope, ms: seq<Message>)
    requires |ms| <= MAX_MESSAGES && EventsBefore(env, to, e, ms).Ok?
    ensures var xs := EventsBefore(env, to, e, ms).value;
            && |xs| == |ms| + 1 && Opens(env, to, xs[0], e.source, e.sessionId)
            && TellsAll(env, to, xs, ms, e.source)
  {
    if ms == [] {
      StartOpens(env, to, 0, e);
    } else {
      var n := |ms| - 1;
      MessagesAreSent(env, to, e, ms[..n]);
      MessageTells(env, to, |ms|, e.source, ms[n]);
      TellsSnoc(env, to, EventsBefore(env, to, e, ms[..n]).value,
                PlannedEvent(env, to, |ms|, MessageDraft(env, e.source, to.session, ms[n])).value, e.source, ms);
    }
  }

  /** Events, one after the other, that carry the messages between a start and an end. */
  ghost predicate Narrates(
    env: Env, to: Destination, xs: seq<Event>, sent: seq<Message>, source: Bytes, external: Bytes, transcript: Digest)
  {
    && |xs| == |sent| + 2
    && Opens(env, to, xs[0], source, external)
    && TellsAll(env, to, xs, sent, source)
    && Closes(env, to, xs[|sent| + 1], source, external, transcript)
  }

  lemma EventsNarrate(env: Env, to: Destination, e: Envelope)
    requires |e.messages| <= MAX_MESSAGES && PlannedEvents(env, to, e).Ok?
    ensures Narrates(env, to, PlannedEvents(env, to, e).value, e.messages, e.source, e.sessionId, Fingerprint(env, e))
  {
    MessagesAreSent(env, to, e, e.messages);
    EventIs(env, to, |e.messages| + 1, EndDraft(e, to.session, Fingerprint(env, e)));
  }

  /** The destination, named by what the plan says of itself. */
  function Target(p: Plan, server: Bytes): Destination { Destination(server, p.workspace, p.project, p.session) }

  /** A plan tells the conversation it was made from: each message, in order and under its role,
      as the whole-character beginning of its sanitized text within the limit of the role, all of
      it where that fits; between a start and an end that carry the source, the external id and
      the fingerprint of exactly these messages. The messages counted as truncated are those whose
      sanitized text did not fit. */
  lemma PlanTells(env: Env, w: Bytes, server: Bytes, file: Bytes, e: Envelope) returns (sent: seq<Message>)
    requires Planned(env, w, server, file, e).Ok?
    ensures var p := Planned(env, w, server, file, e).value;
            && env.labelled(e.project, 128) == Some(p.project) && env.sourceName(e.source) == Some(p.source)
            && p.external == e.sessionId && p.workspace == w
            && AllMadeFrom(env, e.messages, sent)
            && p.truncated == |LongOnes(env, e.messages)|
            && p.transcript == Fingerprint(env, Envelope(p.project, p.source, p.external, sent))
            && Narrates(env, Target(p, server), p.events, sent, p.source, p.external, p.transcript)
  {
    var ready := ReadyTells(env, w, server, file, e);
    sent := ready.messages;
    EventsNarrate(env, DestinationOf(env, w, server, ready), ready);
  }

  lemma ReadyTells(env: Env, w: Bytes, server: Bytes, file: Bytes, e: Envelope) returns (ready: Envelope)
    requires Ready(env, w, server, file, e).Ok?
    ensures Ready(env, w, server, file, e).value == (ready, |LongOnes(env, e.messages)|)
    ensures env.labelled(e.project, 128) == Some(ready.project) && env.sourceName(e.source) == Some(ready.source)
    ensures ready.sessionId == e.sessionId && AllMadeFrom(env, e.messages, ready.messages)
    ensures |ready.messages| <= MAX_MESSAGES
  {
    CheckedMeaning(env, e.messages);
    ReadyIs(env, w, server, file, e);
    ReadyBounded(env, w, server, file, e);
    ready := Ready(env, w, server, file, e).value.0;
  }

  // ---- which conversations are planned -----------------------------------------------------------------------

  /** The message `k` can be sent. */
  predicate MessageSendable(env: Env, to: Destination, source: Bytes, ms: seq<Message>, k: nat)
    requires k < |ms| <= MAX_MESSAGES
  {
    Sendable(env, to, k + 1, MessageDraft(env, source, to.session, ms[k]))
  }

  predicate AllSendable(env: Env, to: Destination, source: Bytes, ms: seq<Message>)
    requires |ms| <= MAX_MESSAGES
  {
    forall k :: 0 <= k < |ms| ==> MessageSendable(env, to, source, ms, k)
  }

  lemma SendableSnoc(env: Env, to: Destination, source: Bytes, ms: seq<Message>)
    requires 1 <= |ms| <= MAX_MESSAGES
    ensures var n := |ms| - 1;
            AllSendable(env, to, source, ms)
            <==> AllSendable(env, to, source, ms[..n]) && MessageSendable(env, to, source, ms, n)
  {
    var n := |ms| - 1;
    forall k | 0 <= k < n
      ensures MessageSendable(env, to, source, ms[..n], k) == MessageSendable(env, to, source, ms, k)
    {
    }
  }

  lemma {:induction false} BeforeIff(env: Env, to: Destination, e: Envelope, ms: seq<Message>)
    requires |ms| <= MAX_MESSAGES
    ensures EventsBefore(env, to, e, ms).Ok?
            <==> Sendable(env, to, 0, StartDraft(e, to.session)) && AllSendable(env, to, e.source, ms)
  {
    if ms == [] {
      EventIs(env, to, 0, StartDraft(e, to.session));
    } else {
      var n := |ms| - 1;
      BeforeIff(env, to, e, ms[..n]);
      SendableSnoc(env, to, e.source, ms);
      EventIs(env, to, |ms|, MessageDraft(env, e.source, to.session, ms[n]));
    }
  }

  /** A conversation that passes is planned exactly when every one of its events can be sent. */
  lemma PlannedIff(env: Env, w: Bytes, server: Bytes, file: Bytes, e: Envelope)
    requires Ready(env, w, server, file, e).Ok?
    ensures var ready := Ready(env, w, server, file, e).value.0;
            && |ready.messages| <= MAX_MESSAGES
            && (Planned(env, w, server, file, e).Ok? <==> EventsSendable(env, DestinationOf(env, w, server, ready), ready))
  {
    ReadyBounded(env, w, server, file, e);
    var ready := Ready(env, w, server, file, e).value.0;
    EventsIff(env, DestinationOf(env, w, server, ready), ready);
  }

  predicate EventsSendable(env: Env, to: Destination, e: Envelope)
    requires |e.messages| <= MAX_MESSAGES
  {
    && Sendable(env, to, 0, StartDraft(e, to.session))
    && AllSendable(env, to, e.source, e.messages)
    && Sendable(env, to, |e.messages| + 1, EndDraft(e, to.session, Fingerprint(env, e)))
  }

  lemma EventsIff(env: Env, to: Destination, e: Envelope)
    requires |e.messages| <= MAX_MESSAGES
    ensures PlannedEvents(env, to, e).Ok? <==> EventsSendable(env, to, e)
  {
    BeforeIff(env, to, e, e.messages);
    EventIs(env, to, |e.messages| + 1, EndDraft(e, to.session, Fingerprint(env, e)));
  }
}
