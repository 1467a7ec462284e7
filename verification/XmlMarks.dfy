/** Where lines and cells end in the extracted text: what each element adds to the text of the
    nodes before, in and after it, at any depth of a document. */
module XmlMarks {
  import opened Common
  import opened XmlText
  import opened XmlTree

  /** What the pass shows of some nodes, `inside` telling whether a `t` is around them. */
  function ShownAll(ns: seq<Node>, inside: bool): Option<seq<byte>> { Shown(PushedAll(ns, inside)) }

  lemma {:induction false} PushedAppend(a: seq<Node>, b: seq<Node>, inside: bool)
    ensures PushedAll(a + b, inside) == PushedAll(a, inside) + PushedAll(b, inside)
  {
    if a == [] {
      assert a + b == b;
    } else {
      assert (a + b)[1..] == a[1..] + b;
      PushedAppend(a[1..], b, inside);
      assert PushedOf(a[0], inside) + (PushedAll(a[1..], inside) + PushedAll(b, inside))
          == PushedOf(a[0], inside) + PushedAll(a[1..], inside) + PushedAll(b, inside);
    }
  }

  lemma ShownNodes(a: seq<Node>, b: seq<Node>, inside: bool)
    ensures ShownAll(a + b, inside) == Joined(ShownAll(a, inside), ShownAll(b, inside))
  {
    PushedAppend(a, b, inside);
    ShownAppend(PushedAll(a, inside), PushedAll(b, inside));
  }

  lemma ShownOne(s: seq<byte>)
    ensures Shown([Some(s)]) == Some(s)
  {
    assert Shown([Some(s)][1..]) == Some([]);
    assert s + [] == s;
  }

  lemma OneNode(n: Node, inside: bool)
    ensures ShownAll([n], inside) == Shown(PushedOf(n, inside))
  {
    assert [n][1..] == [];
    assert PushedAll([n][1..], inside) == [];
    assert PushedOf(n, inside) + [] == PushedOf(n, inside);
  }

  /** A paragraph and a table row end a line: behind their text stands one line feed. */
  lemma LineEnds(name: string, kids: seq<Node>, inside: bool)
    requires name == "p" || name == "tr"
    ensures ShownAll([Element(name, kids)], inside) == Joined(ShownAll(kids, inside), Some([0x0A]))
  {
    Ends(name, kids, inside, [0x0A]);
  }

  /** A table cell ends in a tab. */
  lemma CellEnds(kids: seq<Node>, inside: bool)
    ensures ShownAll([Element("tc", kids)], inside) == Joined(ShownAll(kids, inside), Some([0x09]))
  {
    Ends("tc", kids, inside, [0x09]);
  }

  lemma Ends(name: string, kids: seq<Node>, inside: bool, mark: seq<byte>)
    requires !IsSkipped(name) && name != "t" && Opening(name) == [] && Closing(name) == mark != []
    ensures ShownAll([Element(name, kids)], inside) == Joined(ShownAll(kids, inside), Some(mark))
  {
    OneNode(Element(name, kids), inside);
    ShownOne(mark);
    ShownAppend(PushedAll(kids, inside), [Some(mark)]);
    assert [] + PushedAll(kids, inside) + [Some(mark)] == PushedAll(kids, inside) + [Some(mark)];
  }

  /** A break of any form starts a new line, and a tab is a tab; what such an element holds
      follows. */
  lemma Breaks(name: string, kids: seq<Node>, inside: bool)
    requires name == "br" || name == "cr" || name == "tab"
    ensures var mark := if name == "tab" then [0x09] else [0x0A];
            && ShownAll([EmptyTag(name)], inside) == Some(mark)
            && ShownAll([Element(name, kids)], inside) == Joined(Some(mark), ShownAll(kids, inside))
  {
    var mark := if name == "tab" then [0x09] else [0x0A];
    OneNode(EmptyTag(name), inside);
    OneNode(Element(name, kids), inside);
    ShownOne(mark);
    ShownAppend([Some(mark)], PushedAll(kids, inside));
    assert [Some(mark)] + PushedAll(kids, inside) + [] == [Some(mark)] + PushedAll(kids, inside);
  }

  predicate IsMark(name: string) {
    name == "p" || name == "tr" || name == "tc" || name == "br" || name == "cr" || name == "tab"
  }

  /** Every other element adds nothing of its own, and an empty tag shows nothing. */
  lemma OthersAddNothing(name: string, kids: seq<Node>, inside: bool)
    requires !IsMark(name) && !IsSkipped(name)
    ensures ShownAll([Element(name, kids)], inside) == ShownAll(kids, inside || name == "t")
    ensures ShownAll([EmptyTag(name)], inside) == Some([])
  {
    OneNode(EmptyTag(name), inside);
    OneNode(Element(name, kids), inside);
    assert [] + PushedAll(kids, inside) + [] == PushedAll(kids, inside);
  }

  /** Characters count only inside a `t`. */
  lemma OnlyInsideText(s: seq<byte>, inside: bool)
    ensures ShownAll([Chars(s)], inside) == Some(if inside then s else [])
    ensures ShownAll([Section(s)], inside) == Some(if inside then s else [])
  {
    OneNode(Chars(s), inside);
    OneNode(Section(s), inside);
    ShownOne(s);
  }

  /** The text extracted from a document, or nothing where extraction fails. */
  function Extracted(doc: seq<Node>): Option<seq<byte>> {
    match Steps(Ok(BEGIN), EventsAll(doc))
    case Ok(st) => Some(st.output)
    case Err(_) => None
  }

  /** Paragraph after paragraph, whatever they hold: each text on its own lines, and a line feed
      behind it. */
  lemma {:induction false} Paragraphs(texts: seq<seq<Node>>)
    requires Extracted(ParagraphsOf(texts)).Some?
    ensures Extracted(ParagraphsOf(texts)) == LinesOf(texts)
  {
    StreamingIsRecursive(ParagraphsOf(texts));
    ParagraphsShow(texts);
  }

  function ParagraphsOf(texts: seq<seq<Node>>): seq<Node> {
    if texts == [] then [] else ParagraphsOf(texts[..|texts| - 1]) + [Element("p", texts[|texts| - 1])]
  }

  /** Each text followed by a line feed. */
  function LinesOf(texts: seq<seq<Node>>): Option<seq<byte>> {
    if texts == [] then Some([])
    else Joined(LinesOf(texts[..|texts| - 1]), Joined(ShownAll(texts[|texts| - 1], false), Some([0x0A])))
  }

  lemma {:induction false} ParagraphsShow(texts: seq<seq<Node>>)
    ensures ShownAll(ParagraphsOf(texts), false) == LinesOf(texts)
  {
    if texts != [] {
      var n := |texts| - 1;
      ParagraphsShow(texts[..n]);
      LineEnds("p", texts[n], false);
      ShownNodes(ParagraphsOf(texts[..n]), [Element("p", texts[n])], false);
    }
  }
}
