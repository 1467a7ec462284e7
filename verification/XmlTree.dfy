/** The streaming extractor against the tree it is fed: depth counters return to zero and the
    output is the recursive text of the tree, or the extraction fails. */
module XmlTree {
  import opened Common
  import opened XmlText

  datatype Node =
    | Element(name: string, kids: seq<Node>)
    | EmptyTag(tag: string)
    | Chars(s: seq<byte>)
    | Section(s: seq<byte>)
    | Reference(r: Option<seq<byte>>)
    | Comment

  /** A stretch of output, or a reference that resolves to nothing. */
  type Piece = Option<seq<byte>>

  // ---- the event stream of a tree -----------------------------------------------------------------

  function EventsOf(n: Node): seq<Event>
    decreases n
  {
    match n
    case Element(name, kids) => [Start(name)] + EventsAll(kids) + [End(name)]
    case EmptyTag(name) => [Empty(name)]
    case Chars(s) => [Text(s)]
    case Section(s) => [CData(s)]
    case Reference(r) => [Ref(r)]
    case Comment => [Other]
  }

  function EventsAll(ns: seq<Node>): seq<Event>
    decreases ns
  {
    if ns == [] then [] else EventsOf(ns[0]) + EventsAll(ns[1..])
  }

  // ---- the text of a tree -------------------------------------------------------------------------

  function Mark(s: seq<byte>): seq<Piece> { if s == [] then [] else [Some(s)] }

  /** The text of a node, `inside` telling whether an element `t` is around it. */
  function TextOf(n: Node, inside: bool): seq<Piece>
    decreases n
  {
    match n
    case Element(name, kids) =>
      if IsSkipped(name) then []
      else if name == "t" then TextAll(kids, true)
      else Mark(Opening(name)) + TextAll(kids, inside) + Mark(Closing(name))
    case EmptyTag(name) => Mark(Opening(name))
    case Chars(s) => if inside then [Some(s)] else []
    case Section(s) => if inside then [Some(s)] else []
    case Reference(r) => if inside then [r] else []
    case Comment => []
  }

  function TextAll(ns: seq<Node>, inside: bool): seq<Piece>
    decreases ns
  {
    if ns == [] then [] else TextOf(ns[0], inside) + TextAll(ns[1..], inside)
  }

  /** All characters below a node, whatever element they are in. */
  function RawOf(n: Node, inside: bool): seq<Piece>
    decreases n
  {
    match n
    case Element(name, kids) => RawAll(kids, inside)
    case EmptyTag(name) => []
    case Chars(s) => if inside then [Some(s)] else []
    case Section(s) => if inside then [Some(s)] else []
    case Reference(r) => if inside then [r] else []
    case Comment => []
  }

  function RawAll(ns: seq<Node>, inside: bool): seq<Piece>
    decreases ns
  {
    if ns == [] then [] else RawOf(ns[0], inside) + RawAll(ns[1..], inside)
  }

  /** What the pass pushes: the characters of a skipped element are kept when it stands
      inside a `t`, because the text arms look at one counter only. */
  function PushedOf(n: Node, inside: bool): seq<Piece>
    decreases n
  {
    match n
    case Element(name, kids) =>
      if IsSkipped(name) then RawAll(kids, inside)
      else if name == "t" then PushedAll(kids, true)
      else Mark(Opening(name)) + PushedAll(kids, inside) + Mark(Closing(name))
    case _ => TextOf(n, inside)
  }

  function PushedAll(ns: seq<Node>, inside: bool): seq<Piece>
    decreases ns
  {
    if ns == [] then [] else PushedOf(ns[0], inside) + PushedAll(ns[1..], inside)
  }

  // ---- pushing pieces -----------------------------------------------------------------------------

  function PushPiece(r: Result<seq<byte>, Error>, p: Piece): Result<seq<byte>, Error> {
    if r.Err? then r
    else match p
      case None => Err(BadReference)
      case Some(s) => if s == [] then r else PushBounded(r.value, s)
  }

  function Push(r: Result<seq<byte>, Error>, ps: seq<Piece>): Result<seq<byte>, Error>
    decreases |ps|
  {
    if ps == [] then r else Push(PushPiece(r, ps[0]), ps[1..])
  }

  /** The state with this output and these counters. */
  function At(r: Result<seq<byte>, Error>, text: nat, skipped: nat): Result<State, Error> {
    match r
    case Ok(o) => Ok(State(o, text, skipped))
    case Err(e) => Err(e)
  }

  lemma {:induction false} PushAppend(r: Result<seq<byte>, Error>, a: seq<Piece>, b: seq<Piece>)
    ensures Push(r, a + b) == Push(Push(r, a), b)
    decreases |a|
  {
    if a == [] {
      assert a + b == b;
    } else {
      assert (a + b)[1..] == a[1..] + b;
      PushAppend(PushPiece(r, a[0]), a[1..], b);
    }
  }

  lemma PushOne(r: Result<seq<byte>, Error>, p: Piece)
    ensures Push(r, [p]) == PushPiece(r, p)
  {
    assert [p][1..] == [];
  }

  lemma {:induction false} StepsAppend(r: Result<State, Error>, a: seq<Event>, b: seq<Event>)
    ensures Steps(r, a + b) == Steps(Steps(r, a), b)
    decreases |a|
  {
    if a == [] || r.Err? {
      assert a == [] ==> a + b == b;
    } else {
      assert (a + b)[1..] == a[1..] + b;
      StepsAppend(Step(r.value, a[0]), a[1..], b);
    }
  }

  lemma StepsOne(r: Result<State, Error>, e: Event)
    ensures Steps(r, [e]) == if r.Err? then r else Step(r.value, e)
  {
    if r.Ok? {
      assert [e][1..] == [];
      assert Steps(Step(r.value, e), []) == Step(r.value, e);
    }
  }

  lemma PushMark(r: Result<seq<byte>, Error>, s: seq<byte>, text: nat)
    ensures At(Push(r, Mark(s)), text, 0) == if r.Err? then At(r, text, 0) else Pushed(State(r.value, text, 0), s)
  {
    if s != [] {
      PushOne(r, Some(s));
    }
  }

  // ---- streaming is the tree's text -----------------------------------------------------------------

  /** A node that is not an element. */
  lemma LeafRun(n: Node, r: Result<seq<byte>, Error>, text: nat, skipped: nat)
    requires !n.Element?
    ensures skipped == 0 ==> Steps(At(r, text, 0), EventsOf(n)) == At(Push(r, PushedOf(n, text > 0)), text, 0)
    ensures skipped > 0 ==> Steps(At(r, text, skipped), EventsOf(n)) == At(Push(r, RawOf(n, text > 0)), text, skipped)
  {
    var e := EventsOf(n)[0];
    StepsOne(At(r, text, skipped), e);
    match n
    case EmptyTag(name) =>
      PushMark(r, Opening(name), text);
    case Chars(s) =>
      PushOne(r, Some(s));
    case Section(s) =>
      PushOne(r, Some(s));
    case Reference(p) =>
      PushOne(r, p);
    case Comment =>
  }

  lemma Tagged(r: Result<State, Error>, name: string, kids: seq<Node>)
    ensures Steps(r, EventsOf(Element(name, kids)))
            == Steps(Steps(Steps(r, [Start(name)]), EventsAll(kids)), [End(name)])
  {
    StepsAppend(r, [Start(name)] + EventsAll(kids), [End(name)]);
    StepsAppend(r, [Start(name)], EventsAll(kids));
  }

  /** Below a skipped element only characters count, and the counter comes back. */
  lemma {:induction false} RawRun(n: Node, r: Result<seq<byte>, Error>, text: nat, skipped: nat)
    requires skipped > 0
    ensures Steps(At(r, text, skipped), EventsOf(n)) == At(Push(r, RawOf(n, text > 0)), text, skipped)
    decreases n
  {
    if n.Element? {
      Tagged(At(r, text, skipped), n.name, n.kids);
      StepsOne(At(r, text, skipped), Start(n.name));
      RawRunAll(n.kids, r, text, skipped + 1);
      StepsOne(At(Push(r, RawAll(n.kids, text > 0)), text, skipped + 1), End(n.name));
    } else {
      LeafRun(n, r, text, skipped);
    }
  }

  lemma {:induction false} RawRunAll(ns: seq<Node>, r: Result<seq<byte>, Error>, text: nat, skipped: nat)
    requires skipped > 0
    ensures Steps(At(r, text, skipped), EventsAll(ns)) == At(Push(r, RawAll(ns, text > 0)), text, skipped)
    decreases ns
  {
    if ns != [] {
      StepsAppend(At(r, text, skipped), EventsOf(ns[0]), EventsAll(ns[1..]));
      RawRun(ns[0], r, text, skipped);
      RawRunAll(ns[1..], Push(r, RawOf(ns[0], text > 0)), text, skipped);
      PushAppend(r, RawOf(ns[0], text > 0), RawAll(ns[1..], text > 0));
    }
  }

  /** The event stream of a node pushes its pieces and leaves both counters as they were. */
  lemma {:induction false} NodeRun(n: Node, r: Result<seq<byte>, Error>, text: nat)
    ensures Steps(At(r, text, 0), EventsOf(n)) == At(Push(r, PushedOf(n, text > 0)), text, 0)
    decreases n
  {
    if !n.Element? {
      LeafRun(n, r, text, 0);
    } else if IsSkipped(n.name) {
      SkippedRun(n, r, text);
    } else if n.name == "t" {
      Tagged(At(r, text, 0), n.name, n.kids);
      StepsOne(At(r, text, 0), Start(n.name));
      ForestRun(n.kids, r, text + 1);
      StepsOne(At(Push(r, PushedAll(n.kids, true)), text + 1, 0), End(n.name));
    } else {
      var begun := Push(r, Mark(Opening(n.name)));
      ForestRun(n.kids, begun, text);
      PlainRun(n, r, text);
    }
  }

  lemma SkippedRun(n: Node, r: Result<seq<byte>, Error>, text: nat)
    requires n.Element? && IsSkipped(n.name)
    ensures Steps(At(r, text, 0), EventsOf(n)) == At(Push(r, PushedOf(n, text > 0)), text, 0)
  {
    Tagged(At(r, text, 0), n.name, n.kids);
    StepsOne(At(r, text, 0), Start(n.name));
    RawRunAll(n.kids, r, text, 1);
    StepsOne(At(Push(r, RawAll(n.kids, text > 0)), text, 1), End(n.name));
  }

  lemma PlainRun(n: Node, r: Result<seq<byte>, Error>, text: nat)
    requires n.Element? && !IsSkipped(n.name) && n.name != "t"
    requires var begun := Push(r, Mark(Opening(n.name)));
             Steps(At(begun, text, 0), EventsAll(n.kids)) == At(Push(begun, PushedAll(n.kids, text > 0)), text, 0)
    ensures Steps(At(r, text, 0), EventsOf(n)) == At(Push(r, PushedOf(n, text > 0)), text, 0)
  {
    var a, b, c := Mark(Opening(n.name)), PushedAll(n.kids, text > 0), Mark(Closing(n.name));
    Tagged(At(r, text, 0), n.name, n.kids);
    StepsOne(At(r, text, 0), Start(n.name));
    PushMark(r, Opening(n.name), text);
    StepsOne(At(Push(Push(r, a), b), text, 0), End(n.name));
    PushMark(Push(Push(r, a), b), Closing(n.name), text);
    PushAppend(r, a, b);
    PushAppend(r, a + b, c);
  }

  lemma {:induction false} ForestRun(ns: seq<Node>, r: Result<seq<byte>, Error>, text: nat)
    ensures Steps(At(r, text, 0), EventsAll(ns)) == At(Push(r, PushedAll(ns, text > 0)), text, 0)
    decreases ns
  {
    if ns != [] {
      StepsAppend(At(r, text, 0), EventsOf(ns[0]), EventsAll(ns[1..]));
      NodeRun(ns[0], r, text);
      ForestRun(ns[1..], Push(r, PushedOf(ns[0], text > 0)), text);
      PushAppend(r, PushedOf(ns[0], text > 0), PushedAll(ns[1..], text > 0));
    }
  }

  // ---- what the pieces show ---------------------------------------------------------------------------

  /** The pieces joined, if every reference among them resolves. */
  function Shown(ps: seq<Piece>): Option<seq<byte>> {
    if ps == [] then Some([])
    else match (ps[0], Shown(ps[1..]))
      case (Some(s), Some(t)) => Some(s + t)
      case _ => None
  }

  function Joined(a: Option<seq<byte>>, b: Option<seq<byte>>): Option<seq<byte>> {
    match (a, b)
    case (Some(s), Some(t)) => Some(s + t)
    case _ => None
  }

  lemma {:induction false} ShownAppend(a: seq<Piece>, b: seq<Piece>)
    ensures Shown(a + b) == Joined(Shown(a), Shown(b))
  {
    if a == [] {
      assert a + b == b;
      assert Shown(b).Some? ==> [] + Shown(b).value == Shown(b).value;
    } else {
      assert (a + b)[1..] == a[1..] + b;
      ShownAppend(a[1..], b);
      if a[0].Some? && Shown(a[1..]).Some? && Shown(b).Some? {
        assert a[0].value + (Shown(a[1..]).value + Shown(b).value) == a[0].value + Shown(a[1..]).value + Shown(b).value;
      }
    }
  }

  /** Pushing succeeds exactly when everything resolves and fits. */
  lemma {:induction false} PushShows(o: seq<byte>, ps: seq<Piece>)
    requires |o| <= MAX_WORKING_BYTES
    ensures Push(Ok(o), ps).Ok? <==> Shown(ps).Some? && |o| + |Shown(ps).value| <= MAX_WORKING_BYTES
    ensures Push(Ok(o), ps).Ok? ==> Push(Ok(o), ps).value == o + Shown(ps).value
    decreases |ps|
  {
    if ps != [] {
      var r := PushPiece(Ok(o), ps[0]);
      if r.Ok? {
        PushShows(r.value, ps[1..]);
      } else {
        PushFails(r.error, ps[1..]);
      }
    }
  }

  lemma {:induction false} PushFails(e: Error, ps: seq<Piece>)
    ensures Push(Err(e), ps) == Err(e)
    decreases |ps|
  {
    if ps != [] {
      PushFails(e, ps[1..]);
    }
  }

  // ---- skipped elements inside a `t` --------------------------------------------------------------------

  /** No skipped element inside a `t` holds any characters. */
  predicate Quiet(n: Node, inside: bool)
    decreases n
  {
    n.Element? ==>
      if IsSkipped(n.name) then Shown(RawAll(n.kids, inside)) == Some([])
      else QuietAll(n.kids, inside || n.name == "t")
  }

  predicate QuietAll(ns: seq<Node>, inside: bool)
    decreases ns
  {
    ns != [] ==> Quiet(ns[0], inside) && QuietAll(ns[1..], inside)
  }

  /** `pushed` shows what `text` shows, and perhaps more; nothing more exactly when `quiet`. */
  predicate Covers(pushed: seq<Piece>, text: seq<Piece>, quiet: bool) {
    Shown(text).Some? ==>
      && (quiet ==> Shown(pushed) == Shown(text))
      && (Shown(pushed).Some? ==> |Shown(pushed).value| >= |Shown(text).value|)
      && (Shown(pushed).Some? && |Shown(pushed).value| == |Shown(text).value| ==> quiet)
  }

  lemma CoversJoin(p: seq<Piece>, t: seq<Piece>, q: bool, p': seq<Piece>, t': seq<Piece>, q': bool)
    requires Covers(p, t, q) && Covers(p', t', q')
    ensures Covers(p + p', t + t', q && q')
  {
    ShownAppend(p, p');
    ShownAppend(t, t');
  }

  lemma CoversSame(p: seq<Piece>)
    ensures Covers(p, p, true)
  {
  }

  lemma {:induction false} NodeCovers(n: Node, inside: bool)
    ensures Covers(PushedOf(n, inside), TextOf(n, inside), Quiet(n, inside))
    decreases n
  {
    if !n.Element? {
      CoversSame(TextOf(n, inside));
    } else if !IsSkipped(n.name) {
      ForestCovers(n.kids, inside || n.name == "t");
      if n.name != "t" {
        var a, b, c := Mark(Opening(n.name)), PushedAll(n.kids, inside), Mark(Closing(n.name));
        CoversSame(a);
        CoversSame(c);
        CoversJoin(a, a, true, b, TextAll(n.kids, inside), QuietAll(n.kids, inside));
        CoversJoin(a + b, a + TextAll(n.kids, inside), QuietAll(n.kids, inside), c, c, true);
      }
    }
  }

  lemma {:induction false} ForestCovers(ns: seq<Node>, inside: bool)
    ensures Covers(PushedAll(ns, inside), TextAll(ns, inside), QuietAll(ns, inside))
    decreases ns
  {
    if ns == [] {
      CoversSame([]);
    } else {
      NodeCovers(ns[0], inside);
      ForestCovers(ns[1..], inside);
      CoversJoin(PushedOf(ns[0], inside), TextOf(ns[0], inside), Quiet(ns[0], inside),
                 PushedAll(ns[1..], inside), TextAll(ns[1..], inside), QuietAll(ns[1..], inside));
    }
  }

  // ---- the document -------------------------------------------------------------------------------------

  /** On any document the pass ends with both counters at zero and the pushed text as its
      output, or it fails: exactly when a reference does not resolve or the text is too long. */
  lemma StreamingIsRecursive(doc: seq<Node>)
    ensures var r := Steps(Ok(BEGIN), EventsAll(doc));
            var shown := Shown(PushedAll(doc, false));
            && (r.Ok? <==> shown.Some? && |shown.value| <= MAX_WORKING_BYTES)
            && (r.Ok? ==> r.value == State(shown.value, 0, 0))
  {
    ForestRun(doc, Ok([]), 0);
    PushShows([], PushedAll(doc, false));
  }

  /** Skipped elements contribute nothing to the output exactly when none of them holds
      characters inside a `t`. */
  lemma SkipsExactlyWhenQuiet(doc: seq<Node>)
    requires var shown := Shown(TextAll(doc, false)); shown.Some? && |shown.value| <= MAX_WORKING_BYTES
    ensures Steps(Ok(BEGIN), EventsAll(doc)) == Ok(State(Shown(TextAll(doc, false)).value, 0, 0))
            <==> QuietAll(doc, false)
  {
    StreamingIsRecursive(doc);
    ForestCovers(doc, false);
  }

  /** A deletion inside a `t` leaks its characters. */
  lemma DeletionInsideText()
    ensures var doc := [Element("t", [Element("del", [Chars([0x78])])])];
            && Shown(TextAll(doc, false)) == Some([])
            && Steps(Ok(BEGIN), EventsAll(doc)) == Ok(State([0x78], 0, 0))
  {
    var chars := Chars([0x78]);
    var del := Element("del", [chars]);
    assert RawAll([chars], true) == [Some([0x78])];
    assert PushedAll([del], true) == [Some([0x78])];
    assert PushedAll([Element("t", [del])], false) == [Some([0x78])];
    assert TextAll([del], true) == [];
    assert TextAll([Element("t", [del])], false) == [];
    assert Shown([Some([0x78])]) == Some([0x78] + []);
    assert [0x78] + [] == [0x78];
    StreamingIsRecursive([Element("t", [del])]);
  }
}
