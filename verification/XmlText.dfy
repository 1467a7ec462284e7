/** Text out of Office XML: one pass over the parser's events with two depth counters, and
    what that pass yields on the event stream of an element tree. */
module XmlText {
  import opened Common

  const MAX_WORKING_BYTES: nat := 2 * 1024 * 1024
  const NEWLINE: seq<byte> := [0x0A]
  const TAB: seq<byte> := [0x09]

  /** A parser event; tags by local name, a reference by what it resolves to. */
  datatype Event =
    | Start(name: string) | End(name: string) | Empty(name: string)
    | Text(s: seq<byte>) | CData(s: seq<byte>) | Ref(r: Option<seq<byte>>)
    | Other
    | Malformed

  datatype Error = BadXml | BadReference | TooLong

  /** The loop's variables. */
  datatype State = State(output: seq<byte>, text: nat, skipped: nat)

  predicate IsSkipped(name: string) {
    name == "del" || name == "delText" || name == "instrText" || name == "tabs" || name == "tabLst"
  }

  function PushBounded(output: seq<byte>, value: seq<byte>): Result<seq<byte>, Error> {
    if |output| + |value| > MAX_WORKING_BYTES then Err(TooLong) else Ok(output + value)
  }

  /** Most tags push nothing. */
  function Pushed(st: State, value: seq<byte>): Result<State, Error> {
    if value == [] then Ok(st)
    else match PushBounded(st.output, value)
    case Ok(output) => Ok(st.(output := output))
    case Err(e) => Err(e)
  }

  function Opening(name: string): seq<byte> {
    if name == "br" || name == "cr" then NEWLINE else if name == "tab" then TAB else []
  }

  function Closing(name: string): seq<byte> {
    if name == "p" || name == "tr" then NEWLINE else if name == "tc" then TAB else []
  }

  /** One event, its arms tried in the loop's order. */
  function Step(st: State, e: Event): Result<State, Error> {
    match e
    case Start(name) =>
      if st.skipped > 0 then Ok(st.(skipped := st.skipped + 1))
      else if IsSkipped(name) then Ok(st.(skipped := 1))
      else if name == "t" then Ok(st.(text := st.text + 1))
      else Pushed(st, Opening(name))
    case End(name) =>
      if st.skipped > 0 then Ok(st.(skipped := st.skipped - 1))
      else if name == "t" then Ok(st.(text := if st.text > 0 then st.text - 1 else 0))
      else Pushed(st, Closing(name))
    case Empty(name) => if st.skipped == 0 then Pushed(st, Opening(name)) else Ok(st)
    case Text(s) => if st.text > 0 then Pushed(st, s) else Ok(st)
    case CData(s) => if st.text > 0 then Pushed(st, s) else Ok(st)
    case Ref(r) =>
      if st.text == 0 then Ok(st) else (match r case Some(s) => Pushed(st, s) case None => Err(BadReference))
    case Other => Ok(st)
    case Malformed => Err(BadXml)
  }

  function Steps(r: Result<State, Error>, events: seq<Event>): Result<State, Error>
    decreases |events|
  {
    if events == [] || r.Err? then r else Steps(Step(r.value, events[0]), events[1..])
  }

  const BEGIN := State([], 0, 0)

  /** `xml_text` up to its final `normalize_text`. */
  method ExtractText(events: seq<Event>) returns (r: Result<seq<byte>, Error>)
    ensures r == match Steps(Ok(BEGIN), events) case Ok(st) => Ok(st.output) case Err(e) => Err(e)
  {
    var output: seq<byte> := [];
    var text, skipped := 0, 0;
    var failure: Option<Error> := None;
    var i := 0;
    while i < |events| && failure.None?
      invariant 0 <= i <= |events| && text >= 0 && skipped >= 0
      invariant failure.None? ==>
        Steps(Ok(State(output, text, skipped)), events[i..]) == Steps(Ok(BEGIN), events)
      invariant failure.Some? ==> Steps(Ok(BEGIN), events) == Err(failure.value)
    {
      assert events[i..][1..] == events[i + 1..];
      var e := events[i];
      assert Steps(Ok(State(output, text, skipped)), events[i..])
          == Steps(Step(State(output, text, skipped), e), events[i + 1..]);
      var pushed: seq<byte> := [];
      match e {
        case Start(name) =>
          if skipped > 0 {
            skipped := skipped + 1;
          } else if IsSkipped(name) {
            skipped := 1;
          } else if name == "t" {
            text := text + 1;
          } else {
            pushed := Opening(name);
          }
        case End(name) =>
          if skipped > 0 {
            skipped := skipped - 1;
          } else if name == "t" {
            text := if text > 0 then text - 1 else 0;
          } else {
            pushed := Closing(name);
          }
        case Empty(name) =>
          pushed := if skipped == 0 then Opening(name) else [];
        case Text(s) =>
          pushed := if text > 0 then s else [];
        case CData(s) =>
          pushed := if text > 0 then s else [];
        case Ref(r) =>
          if text > 0 {
            if r.Some? {
              pushed := r.value;
            } else {
              failure := Some(BadReference);
            }
          }
        case Other =>
        case Malformed =>
          failure := Some(BadXml);
      }
      if failure.None? && pushed != [] {
        if |output| + |pushed| > MAX_WORKING_BYTES {
          failure := Some(TooLong);
        } else {
          output := output + pushed;
        }
      }
      i := i + 1;
    }
    r := if failure.Some? then Err(failure.value) else Ok(output);
  }
}
