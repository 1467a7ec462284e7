/** Planning the hook events an external conversation is replayed as. */
module ImportPlan {
  import opened Common
  import opened ImportHash

  const IMPORT_VERSION := "external-conversation-v1"
  const MAX_MESSAGES: nat := 128
  const MAX_USER_BYTES: nat := 16 * 1024
  const MAX_EXTENSION_BYTES: nat := 2000
  const MAX_TOTAL_BYTES: nat := 1024 * 1024

  datatype Role = System | User | Assistant

  datatype Message = Message(role: Role, content: Bytes)

  datatype Envelope = Envelope(project: Bytes, source: Bytes, sessionId: Bytes, messages: seq<Message>)

  datatype Body =
    | StartBody(session: Bytes, model: seq<byte>, source: Bytes, external: Bytes)
    | PromptBody(session: Bytes, prompt: Bytes, source: Bytes, role: seq<byte>)
    | ExtensionBody(session: Bytes, title: Bytes, message: Bytes, source: Bytes, role: seq<byte>)
    | EndBody(session: Bytes, source: Bytes, external: Bytes, transcript: Digest)

  /** Where the events go. */
  datatype Destination = Destination(server: Bytes, workspace: Bytes, project: Bytes, session: Bytes)

  /** Where an event stands in its plan. */
  type Index = i: nat | i <= MAX_MESSAGES + 1

  datatype Event = Event(index: Index, name: Bytes, role: Option<Role>, key: Digest, url: Bytes, body: Body)

  datatype Plan = Plan(
    source: Bytes, external: Bytes, session: Bytes, transcript: Digest, workspace: Bytes, project: Bytes,
    truncated: nat, events: seq<Event>)

  datatype Error =
    | BadWorkspace | Sensitive | BadProject | BadSource | BadSession | NoMessages | TooManyMessages
    | TooLarge | EmptyMessage(index: nat) | NoUserMessage | Unsendable(index: nat)

  /** The code the planner calls: label checks, credential checks, sanitizing, titles, JSON
      and URL building, hashing. Any of them may be any function. */
  datatype Env = Env(
    labelled: (Bytes, nat) -> Option<Bytes>,
    sourceName: Bytes -> Option<Bytes>,
    control: Bytes -> bool,
    safe: seq<seq<byte>> -> bool,
    sanitize: Bytes -> Bytes,
    blank: Bytes -> bool,
    title: (Bytes, Role) -> Bytes,
    clean: Body -> Option<Body>,
    fits: Body -> bool,
    encode: Body -> Bytes,
    url: (Destination, Bytes, Digest, Option<seq<byte>>) -> Option<Bytes>,
    hash: seq<byte> -> Digest)

  function RoleName(r: Role): Bytes {
    match r
    case System => Ascii("system")
    case User => Ascii("user")
    case Assistant => Ascii("assistant")
  }

  // ---- truncation -------------------------------------------------------------------------------

  const OPEN: byte := 0x5B
  const CLOSE: byte := 0x5D

  /** A byte that starts a character, or the end of the text. */
  predicate IsBoundary(s: seq<byte>, i: nat) { i == 0 || i == |s| || (i < |s| && !(0x80 <= s[i] < 0xC0)) }

  function BoundaryBefore(s: seq<byte>, end: nat): (r: nat)
    ensures r <= end && IsBoundary(s, r) && forall i :: r < i <= end ==> !IsBoundary(s, i)
  {
    if end == 0 || IsBoundary(s, end) then end else BoundaryBefore(s, end - 1)
  }

  function LastIndex(c: byte, s: seq<byte>): (i: Option<nat>)
    ensures i.Some? ==> i.value < |s| && s[i.value] == c
  {
    if s == [] then None
    else if s[|s| - 1] == c then Some(|s| - 1)
    else LastIndex(c, s[..|s| - 1])
  }

  /** A redaction marker that `end` would cut through. */
  predicate CutsMarker(input: seq<byte>, start: nat, end: nat)
    requires start <= end <= |input|
  {
    StartsWith(input[start..], Ascii("[REDACTED")) && CLOSE !in input[start..end]
  }

  function TruncatedAt(input: seq<byte>, end: nat): seq<byte>
    requires end <= |input|
  {
    match LastIndex(OPEN, input[..end])
    case Some(start) => if CutsMarker(input, start, end) then input[..start] else input[..end]
    case None => input[..end]
  }

  /** At most `max` bytes of `input`, whole characters only. */
  function Truncated(input: seq<byte>, max: nat): (r: seq<byte>)
    ensures |r| <= |input| && r == input[..|r|] && |r| <= max
    ensures |input| <= max ==> r == input
    ensures IsBoundary(input, |r|)
  {
    if |input| <= max then input else TruncatedAt(input, BoundaryBefore(input, max))
  }

  method Truncate(input: seq<byte>, max: nat) returns (r: seq<byte>)
    ensures r == Truncated(input, max)
  {
    if |input| <= max {
      return input;
    }
    var end := max;
    while end > 0 && !IsBoundary(input, end)
      invariant 0 <= end <= max && BoundaryBefore(input, end) == BoundaryBefore(input, max)
    {
      end := end - 1;
    }
    r := TruncatedAt(input, end);
  }

  // ---- messages ---------------------------------------------------------------------------------

  /** The loop's counters and the messages it has rewritten. */
  datatype Progress = Progress(messages: seq<Message>, total: nat, users: nat, truncated: nat)

  function Cap(r: Role): nat { if r == User then MAX_USER_BYTES else MAX_EXTENSION_BYTES }

  /** A message as it is planned. */
  function Prepared(env: Env, m: Message): Message {
    Message(m.role, Truncated(env.sanitize(m.content), Cap(m.role)))
  }

  function WithMessage(env: Env, p: Progress, m: Message): Result<Progress, Error> {
    var total := p.total + |m.content|;
    var ready := Prepared(env, m);
    if total > MAX_TOTAL_BYTES then Err(TooLarge)
    else if env.blank(ready.content) then Err(EmptyMessage(|p.messages|))
    else Ok(Progress(p.messages + [ready], total, p.users + (if m.role == User then 1 else 0),
                     p.truncated + (if |env.sanitize(m.content)| > Cap(m.role) then 1 else 0)))
  }

  function Checked(env: Env, ms: seq<Message>): Result<Progress, Error> {
    if ms == [] then Ok(Progress([], 0, 0, 0))
    else
      var n := |ms| - 1;
      match Checked(env, ms[..n])
      case Ok(p) => WithMessage(env, p, ms[n])
      case Err(e) => Err(e)
  }

  method CheckMessage(env: Env, p: Progress, m: Message) returns (r: Result<Progress, Error>)
    ensures r == WithMessage(env, p, m)
  {
    var total := p.total + |m.content|;
    if total > MAX_TOTAL_BYTES {
      return Err(TooLarge);
    }
    var content := env.sanitize(m.content);
    var truncated := p.truncated;
    if |content| > Cap(m.role) {
      content := Truncate(content, Cap(m.role));
      truncated := truncated + 1;
    }
    if env.blank(content) {
      return Err(EmptyMessage(|p.messages|));
    }
    var users := if m.role == User then p.users + 1 else p.users;
    r := Ok(Progress(p.messages + [Message(m.role, content)], total, users, truncated));
  }

  method CheckMessages(env: Env, ms: seq<Message>) returns (r: Result<Progress, Error>)
    ensures r == Checked(env, ms)
  {
    r := Ok(Progress([], 0, 0, 0));
    var i := 0;
    while i < |ms| && r.Ok?
      invariant i <= |ms| && r == Checked(env, ms[..i])
    {
      assert ms[..i + 1][..i] == ms[..i];
      r := CheckMessage(env, r.value, ms[i]);
      i := i + 1;
    }
    if r.Err? {
      StaysRefused(env, ms, i);
    } else {
      assert ms[..i] == ms;
    }
  }

  /** A refused message refuses the conversation. */
  lemma {:induction false} StaysRefused(env: Env, ms: seq<Message>, i: nat)
    requires i <= |ms| && Checked(env, ms[..i]).Err?
    ensures Checked(env, ms) == Checked(env, ms[..i])
  {
    if i == |ms| {
      assert ms[..i] == ms;
    } else {
      var n := |ms| - 1;
      assert ms[..n][..i] == ms[..i];
      StaysRefused(env, ms[..n], i);
    }
  }

  // ---- the envelope -----------------------------------------------------------------------------

  function Labelled(env: Env, workspace: Bytes, server: Bytes, file: Bytes, e: Envelope): Result<Envelope, Error> {
    if env.labelled(workspace, 128).None? then Err(BadWorkspace)
    else if !env.safe([workspace, server, file]) then Err(Sensitive)
    else if !env.safe([e.project, e.source, e.sessionId]) then Err(Sensitive)
    else if env.labelled(e.project, 128).None? then Err(BadProject)
    else if env.sourceName(e.source).None? then Err(BadSource)
    else if |e.sessionId| > 256 || env.control(e.sessionId) || env.labelled(e.sessionId, 256).None? then Err(BadSession)
    else if e.messages == [] then Err(NoMessages)
    else if |e.messages| > MAX_MESSAGES then Err(TooManyMessages)
    else Ok(e.(project := env.labelled(e.project, 128).value, source := env.sourceName(e.source).value))
  }

  // ---- hashes -------------------------------------------------------------------------------------

  function SessionParts(workspace: Bytes, e: Envelope): seq<Bytes> {
    [Ascii(IMPORT_VERSION), workspace, e.project, e.source, e.sessionId]
  }

  function SessionId(env: Env, workspace: Bytes, e: Envelope): Bytes {
    Ascii("external-") + env.hash(Framed(SessionParts(workspace, e)))[..32]
  }

  function MessageParts(ms: seq<Message>): seq<Bytes> {
    if ms == [] then []
    else MessageParts(ms[..|ms| - 1]) + [RoleName(ms[|ms| - 1].role), ms[|ms| - 1].content]
  }

  function FingerprintParts(e: Envelope): seq<Bytes> {
    [Ascii(IMPORT_VERSION), e.project, e.source, e.sessionId] + MessageParts(e.messages)
  }

  function Fingerprint(env: Env, e: Envelope): Digest { env.hash(Framed(FingerprintParts(e))) }

  method ConversationFingerprint(env: Env, e: Envelope) returns (d: Digest)
    ensures d == Fingerprint(env, e)
  {
    var hasher := new Hasher();
    hasher.HashPart(Ascii(IMPORT_VERSION));
    hasher.HashPart(e.project);
    hasher.HashPart(e.source);
    hasher.HashPart(e.sessionId);
    var head: seq<Bytes> := [Ascii(IMPORT_VERSION), e.project, e.source, e.sessionId];
    FramedFour(Ascii(IMPORT_VERSION), e.project, e.source, e.sessionId);
    HashMessages(hasher, head, e.messages);
    d := env.hash(hasher.fed);
  }

  method HashMessages(hasher: Hasher, head: seq<Bytes>, ms: seq<Message>)
    requires hasher.fed == Framed(head)
    modifies hasher
    ensures hasher.fed == Framed(head + MessageParts(ms))
  {
    assert head + MessageParts([]) == head;
    for i := 0 to |ms|
      invariant hasher.fed == Framed(head + MessageParts(ms[..i]))
    {
      hasher.HashPart(RoleName(ms[i].role));
      hasher.HashPart(ms[i].content);
      FramedTwo(head + MessageParts(ms[..i]), RoleName(ms[i].role), ms[i].content);
      assert ms[..i + 1][..i] == ms[..i];
      assert head + MessageParts(ms[..i + 1])
          == head + MessageParts(ms[..i]) + [RoleName(ms[i].role), ms[i].content];
    }
    assert ms[..|ms|] == ms;
  }

  lemma FramedSnoc(parts: seq<Bytes>, a: Bytes)
    ensures Framed(parts + [a]) == Framed(parts) + Frame(a)
  {
    assert (parts + [a])[..|parts|] == parts;
  }

  lemma FramedTwo(parts: seq<Bytes>, a: Bytes, b: Bytes)
    ensures Framed(parts + [a, b]) == Framed(parts) + Frame(a) + Frame(b)
  {
    FramedSnoc(parts, a);
    FramedSnoc(parts + [a], b);
    assert parts + [a] + [b] == parts + [a, b];
  }

  lemma FramedFour(a: Bytes, b: Bytes, c: Bytes, d: Bytes)
    ensures Framed([a, b, c, d]) == [] + Frame(a) + Frame(b) + Frame(c) + Frame(d)
  {
    FramedTwo([], a, b);
    FramedTwo([a, b], c, d);
    assert [] + [a, b] == [a, b] && [a, b] + [c, d] == [a, b, c, d];
  }

  // ---- events ---------------------------------------------------------------------------------------

  function KeyParts(session: Bytes, index: Index, name: Bytes, body: Bytes): seq<Bytes> {
    DecimalDigits(index);
    [Ascii(IMPORT_VERSION), session, Ascii(Decimal(index)), name, body]
  }

  /** What an ingest key is the hash of. */
  function KeyInput(env: Env, session: Bytes, index: Index, name: Bytes, body: Body): seq<byte> {
    Framed(KeyParts(session, index, name, env.encode(body)))
  }

  function IngestKey(env: Env, session: Bytes, index: Index, name: Bytes, body: Body): Digest {
    env.hash(KeyInput(env, session, index, name, body))
  }

  /** What one event is made from. */
  datatype Draft = Draft(name: Bytes, role: Option<Role>, sourceEvent: Option<seq<byte>>, body: Body)

  function PlannedEvent(env: Env, to: Destination, index: Index, d: Draft): Result<Event, Error> {
    if !env.safe([to.session, d.name] + (match d.sourceEvent case Some(s) => [s] case None => [])) then Err(Sensitive)
    else if !env.safe([d.body.session]) then Err(Sensitive)
    else
      match env.clean(d.body)
      case None => Err(Unsendable(index))
      case Some(body) =>
        if !env.fits(body) then Err(Unsendable(index))
        else
          var key := IngestKey(env, to.session, index, d.name, body);
          match env.url(to, d.name, key, d.sourceEvent)
          case None => Err(Unsendable(index))
          case Some(url) =>
            if !env.safe([url]) then Err(Sensitive) else Ok(Event(index, d.name, d.role, key, url, body))
  }

  function StartDraft(e: Envelope, session: Bytes): Draft {
    Draft(Ascii("session-start"), None, None,
          StartBody(session, Truncated(Ascii("external:") + e.source, 160), e.source, e.sessionId))
  }

  function MessageName(r: Role): Bytes {
    match r
    case User => Ascii("user-prompt")
    case Assistant => Ascii("external.assistant-message")
    case System => Ascii("external.system-message")
  }

  function MessageDraft(env: Env, source: Bytes, session: Bytes, m: Message): Draft {
    if m.role == User then
      Draft(MessageName(User), Some(User), None, PromptBody(session, m.content, source, RoleName(User)))
    else
      Draft(MessageName(m.role), Some(m.role), Some(RoleName(m.role) + Ascii("-message")),
            ExtensionBody(session, env.title(m.content, m.role), m.content, source, RoleName(m.role)))
  }

  function EndDraft(e: Envelope, session: Bytes, transcript: Digest): Draft {
    Draft(Ascii("session-end"), None, None, EndBody(session, e.source, e.sessionId, transcript))
  }

  /** The start event and the events of `ms`. */
  function EventsBefore(env: Env, to: Destination, e: Envelope, ms: seq<Message>): Result<seq<Event>, Error>
    requires |ms| <= MAX_MESSAGES
  {
    if ms == [] then
      match PlannedEvent(env, to, 0, StartDraft(e, to.session))
      case Ok(x) => Ok([x])
      case Err(r) => Err(r)
    else
      match EventsBefore(env, to, e, ms[..|ms| - 1])
      case Err(r) => Err(r)
      case Ok(events) => AddEvent(env, to, events, |ms|, MessageDraft(env, e.source, to.session, ms[|ms| - 1]))
  }

  function AddEvent(env: Env, to: Destination, events: seq<Event>, index: Index, d: Draft): Result<seq<Event>, Error> {
    match PlannedEvent(env, to, index, d)
    case Ok(x) => Ok(events + [x])
    case Err(r) => Err(r)
  }

  function PlannedEvents(env: Env, to: Destination, e: Envelope): Result<seq<Event>, Error>
    requires |e.messages| <= MAX_MESSAGES
  {
    match EventsBefore(env, to, e, e.messages)
    case Err(r) => Err(r)
    case Ok(events) =>
      AddEvent(env, to, events, |e.messages| + 1, EndDraft(e, to.session, Fingerprint(env, e)))
  }

  method PlanEvents(env: Env, to: Destination, e: Envelope) returns (r: Result<seq<Event>, Error>)
    requires |e.messages| <= MAX_MESSAGES
    ensures r == PlannedEvents(env, to, e)
  {
    r := PlanMessages(env, to, e);
    if r.Ok? {
      var transcript := ConversationFingerprint(env, e);
      r := AddEvent(env, to, r.value, |e.messages| + 1, EndDraft(e, to.session, transcript));
    }
  }

  method PlanMessages(env: Env, to: Destination, e: Envelope) returns (r: Result<seq<Event>, Error>)
    requires |e.messages| <= MAX_MESSAGES
    ensures r == EventsBefore(env, to, e, e.messages)
  {
    var ms := e.messages;
    r := EventsBefore(env, to, e, []);
    var i := 0;
    assert ms[..0] == [];
    while i < |ms| && r.Ok?
      invariant i <= |ms| && r == EventsBefore(env, to, e, ms[..i])
    {
      assert ms[..i + 1][..i] == ms[..i];
      r := AddEvent(env, to, r.value, i + 1, MessageDraft(env, e.source, to.session, ms[i]));
      i := i + 1;
    }
    if r.Err? {
      StaysUnplanned(env, to, e, ms, i);
    } else {
      assert ms[..i] == ms;
    }
  }

  lemma {:induction false} StaysUnplanned(env: Env, to: Destination, e: Envelope, ms: seq<Message>, i: nat)
    requires i <= |ms| <= MAX_MESSAGES && EventsBefore(env, to, e, ms[..i]).Err?
    ensures EventsBefore(env, to, e, ms) == EventsBefore(env, to, e, ms[..i])
  {
    if i == |ms| {
      assert ms[..i] == ms;
    } else {
      var n := |ms| - 1;
      assert ms[..n][..i] == ms[..i];
      StaysUnplanned(env, to, e, ms[..n], i);
    }
  }

  // ---- the plan ---------------------------------------------------------------------------------------

  function DestinationOf(env: Env, workspace: Bytes, server: Bytes, e: Envelope): Destination {
    Destination(server, workspace, e.project, SessionId(env, workspace, e))
  }

  /** The checked envelope, its messages ready, and how many were cut. */
  function Ready(env: Env, workspace: Bytes, server: Bytes, file: Bytes, e: Envelope): Result<(Envelope, nat), Error> {
    match Labelled(env, workspace, server, file, e)
    case Err(r) => Err(r)
    case Ok(l) =>
      match Checked(env, l.messages)
      case Err(r) => Err(r)
      case Ok(p) =>
        if p.users == 0 then Err(NoUserMessage) else Ok((l.(messages := p.messages), p.truncated))
  }

  function PlanOf(env: Env, workspace: Bytes, e: Envelope, truncated: nat, events: seq<Event>): Plan {
    Plan(e.source, e.sessionId, SessionId(env, workspace, e), Fingerprint(env, e), workspace, e.project, truncated, events)
  }

  function Planned(env: Env, workspace: Bytes, server: Bytes, file: Bytes, e: Envelope): Result<Plan, Error> {
    match Ready(env, workspace, server, file, e)
    case Err(r) => Err(r)
    case Ok((ready, truncated)) =>
      ReadyBounded(env, workspace, server, file, e);
      match PlannedEvents(env, DestinationOf(env, workspace, server, ready), ready)
      case Err(r) => Err(r)
      case Ok(events) => Ok(PlanOf(env, workspace, ready, truncated, events))
  }

  lemma {:induction false} CheckedLength(env: Env, ms: seq<Message>)
    requires Checked(env, ms).Ok?
    ensures |Checked(env, ms).value.messages| == |ms|
  {
    if ms != [] {
      CheckedLength(env, ms[..|ms| - 1]);
    }
  }

  lemma ReadyBounded(env: Env, workspace: Bytes, server: Bytes, file: Bytes, e: Envelope)
    requires Ready(env, workspace, server, file, e).Ok?
    ensures |Ready(env, workspace, server, file, e).value.0.messages| == |e.messages| <= MAX_MESSAGES
  {
    CheckedLength(env, e.messages);
  }

  method Prepare(env: Env, workspace: Bytes, server: Bytes, file: Bytes, e: Envelope)
    returns (r: Result<(Envelope, nat), Error>)
    ensures r == Ready(env, workspace, server, file, e)
  {
    var l := Labelled(env, workspace, server, file, e);
    if l.Err? {
      return Err(l.error);
    }
    var p := CheckMessages(env, l.value.messages);
    if p.Err? {
      return Err(p.error);
    }
    r := if p.value.users == 0 then Err(NoUserMessage)
         else Ok((l.value.(messages := p.value.messages), p.value.truncated));
  }

  method StableSessionId(env: Env, workspace: Bytes, e: Envelope) returns (session: Bytes)
    ensures session == SessionId(env, workspace, e)
  {
    var digest := HashOfParts(env.hash, SessionParts(workspace, e));
    session := Ascii("external-") + digest[..32];
  }

  method PlanConversation(env: Env, workspace: Bytes, server: Bytes, file: Bytes, e: Envelope)
    returns (r: Result<Plan, Error>)
    ensures r == Planned(env, workspace, server, file, e)
  {
    var ready := Prepare(env, workspace, server, file, e);
    if ready.Err? {
      return Err(ready.error);
    }
    ReadyBounded(env, workspace, server, file, e);
    var c := ready.value.0;
    var session := StableSessionId(env, workspace, c);
    var events := PlanEvents(env, Destination(server, workspace, c.project, session), c);
    r := if events.Err? then Err(events.error) else Ok(PlanOf(env, workspace, c, ready.value.1, events.value));
  }
}
