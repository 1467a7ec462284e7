/** JSON texts, as RFC 8259 (sections 2 to 7) lets a generator print them, and the extractor
    run on a text that contains one. */
module JsonText {
  import opened Common
  import opened JsonScan

  predicate IsSpace(b: byte) { b == 0x20 || b == 0x09 || b == 0x0A || b == 0x0D }

  predicate IsDigit(b: byte) { 0x30 <= b <= 0x39 }

  predicate IsHex(b: byte) { IsDigit(b) || 0x41 <= b <= 0x46 || 0x61 <= b <= 0x66 }

  /** Section 7: what may follow a backslash, besides `u`. */
  predicate IsEscape(b: byte) {
    b == QUOTE || b == BACKSLASH || b == 0x2F || b == 0x62 || b == 0x66 || b == 0x6E || b == 0x72 || b == 0x74
  }

  datatype Unit = Raw(b: byte) | Short(b: byte) | Unicode(h1: byte, h2: byte, h3: byte, h4: byte)

  predicate UnitOk(u: Unit) {
    match u
    case Raw(b) => b >= 0x20 && b != QUOTE && b != BACKSLASH
    case Short(b) => IsEscape(b)
    case Unicode(a, b, c, d) => IsHex(a) && IsHex(b) && IsHex(c) && IsHex(d)
  }

  predicate Digits(s: seq<byte>) { s != [] && forall b :: b in s ==> IsDigit(b) }

  /** Section 6. `sign` and `exp` carry their own bytes. */
  datatype Number = Number(minus: bool, whole: seq<byte>, frac: Option<seq<byte>>, exp: Option<(byte, seq<byte>, seq<byte>)>)

  predicate NumberOk(n: Number) {
    && Digits(n.whole) && (n.whole[0] == 0x30 ==> |n.whole| == 1)
    && (n.frac.Some? ==> Digits(n.frac.value))
    && (n.exp.Some? ==>
          && (n.exp.value.0 == 0x65 || n.exp.value.0 == 0x45)
          && (n.exp.value.1 == [] || n.exp.value.1 == [0x2B] || n.exp.value.1 == [0x2D])
          && Digits(n.exp.value.2))
  }

  function PrintNumber(n: Number): seq<byte> {
    (if n.minus then [0x2D] else []) + n.whole
    + (if n.frac.Some? then [0x2E] + n.frac.value else [])
    + (if n.exp.Some? then [n.exp.value.0] + n.exp.value.1 + n.exp.value.2 else [])
  }

  datatype Value =
    | Null | True | False
    | Num(n: Number)
    | Str(units: seq<Unit>)
    | Arr(elements: Elements)
    | Obj(members: Members)

  /** White space is kept wherever section 2 allows it; `space` is what an empty structure
      holds. */
  datatype Elements = NoElements(space: seq<byte>) | Element(before: seq<byte>, v: Value, after: seq<byte>, rest: Option<Elements>)

  datatype Members =
    | NoMembers(space: seq<byte>)
    | Member(before: seq<byte>, key: seq<Unit>, mid: seq<byte>, mid': seq<byte>, v: Value, after: seq<byte>,
             rest: Option<Members>)

  predicate Spaces(s: seq<byte>) { forall b :: b in s ==> IsSpace(b) }

  predicate UnitsOk(us: seq<Unit>) { forall u :: u in us ==> UnitOk(u) }

  predicate ValueOk(v: Value) {
    match v
    case Num(n) => NumberOk(n)
    case Str(units) => UnitsOk(units)
    case Arr(elements) => ElementsOk(elements)
    case Obj(members) => MembersOk(members)
    case _ => true
  }

  predicate ElementsOk(x: Elements) {
    match x
    case NoElements(space) => Spaces(space)
    case Element(before, v, after, rest) =>
      Spaces(before) && ValueOk(v) && Spaces(after) && (rest.Some? ==> rest.value.Element? && ElementsOk(rest.value))
  }

  predicate MembersOk(x: Members) {
    match x
    case NoMembers(space) => Spaces(space)
    case Member(before, key, mid, mid', v, after, rest) =>
      && Spaces(before) && UnitsOk(key) && Spaces(mid) && Spaces(mid') && ValueOk(v) && Spaces(after)
      && (rest.Some? ==> rest.value.Member? && MembersOk(rest.value))
  }

  function PrintUnit(u: Unit): seq<byte> {
    match u
    case Raw(b) => [b]
    case Short(b) => [BACKSLASH, b]
    case Unicode(a, b, c, d) => [BACKSLASH, 0x75, a, b, c, d]
  }

  function PrintUnits(us: seq<Unit>): seq<byte> {
    if us == [] then [] else PrintUnit(us[0]) + PrintUnits(us[1..])
  }

  function PrintString(us: seq<Unit>): seq<byte> { [QUOTE] + PrintUnits(us) + [QUOTE] }

  function Print(v: Value): seq<byte> {
    match v
    case Null => [0x6E, 0x75, 0x6C, 0x6C]
    case True => [0x74, 0x72, 0x75, 0x65]
    case False => [0x66, 0x61, 0x6C, 0x73, 0x65]
    case Num(n) => PrintNumber(n)
    case Str(units) => PrintString(units)
    case Arr(elements) => [0x5B] + PrintElements(elements) + [0x5D]
    case Obj(members) => [OPEN] + PrintMembers(members) + [CLOSE]
  }

  function PrintElements(x: Elements): seq<byte> {
    match x
    case NoElements(space) => space
    case Element(before, v, after, rest) =>
      before + Print(v) + after + (if rest.Some? then [0x2C] + PrintElements(rest.value) else [])
  }

  function PrintMembers(x: Members): seq<byte> {
    match x
    case NoMembers(space) => space
    case Member(before, key, mid, mid', v, after, rest) =>
      before + PrintString(key) + mid + [0x3A] + mid' + Print(v) + after
      + (if rest.Some? then [0x2C] + PrintMembers(rest.value) else [])
  }

  // ---- every JSON text is made of block items -----------------------------------------------

  predicate Harmless(s: seq<byte>) { forall b :: b in s ==> b != QUOTE && b != OPEN && b != CLOSE }

  function PlainThen(s: seq<byte>, tail: Items): Items {
    if s == [] then tail else Items.Plain(s[0], PlainThen(s[1..], tail))
  }

  function UnitsParts(us: seq<Unit>): Parts {
    if us == [] then Closed
    else
      var rest := UnitsParts(us[1..]);
      match us[0]
      case Raw(b) => Char(b, rest)
      case Short(b) => Escaped(b, rest)
      case Unicode(a, b, c, d) => Escaped(0x75, Char(a, Char(b, Char(c, Char(d, rest)))))
  }

  function StringThen(us: seq<Unit>, tail: Items): Items { Quoted(UnitsParts(us), tail) }

  function ItemsOf(v: Value, tail: Items): Items {
    match v
    case Str(units) => StringThen(units, tail)
    case Arr(elements) => Items.Plain(0x5B, ElementItems(elements, Items.Plain(0x5D, tail)))
    case Obj(members) => Nested(MemberItems(members, End), tail)
    case _ => PlainThen(Print(v), tail)
  }

  function ElementItems(x: Elements, tail: Items): Items {
    match x
    case NoElements(space) => PlainThen(space, tail)
    case Element(before, v, after, rest) =>
      var more := if rest.Some? then Items.Plain(0x2C, ElementItems(rest.value, tail)) else tail;
      PlainThen(before, ItemsOf(v, PlainThen(after, more)))
  }

  function MemberItems(x: Members, tail: Items): Items {
    match x
    case NoMembers(space) => PlainThen(space, tail)
    case Member(before, key, mid, mid', v, after, rest) =>
      var more := if rest.Some? then Items.Plain(0x2C, MemberItems(rest.value, tail)) else tail;
      PlainThen(before, StringThen(key,
        PlainThen(mid, Items.Plain(0x3A, PlainThen(mid', ItemsOf(v, PlainThen(after, more)))))))
  }

  /** `x` prints as `s` followed by `tail`. */
  predicate Is(x: Items, s: seq<byte>, tail: Items) { ItemsOk(x) && PrintItems(x) == s + PrintItems(tail) }

  lemma {:induction false} PlainIs(s: seq<byte>, tail: Items)
    requires Harmless(s) && ItemsOk(tail)
    ensures Is(PlainThen(s, tail), s, tail)
  {
    if s == [] {
      assert s + PrintItems(tail) == PrintItems(tail);
    } else {
      assert s[0] in s && forall b :: b in s[1..] ==> b in s;
      PlainIs(s[1..], tail);
      assert s == [s[0]] + s[1..];
      assert s + PrintItems(tail) == [s[0]] + (s[1..] + PrintItems(tail));
    }
  }

  lemma {:induction false} PartsIs(us: seq<Unit>)
    requires UnitsOk(us)
    ensures PartsOk(UnitsParts(us)) && PrintParts(UnitsParts(us)) == PrintUnits(us) + [QUOTE]
  {
    if us != [] {
      PartsIs(us[1..]);
      UnitParts(us[0], us[1..], us);
    }
  }

  lemma UnitParts(u: Unit, rest: seq<Unit>, us: seq<Unit>)
    requires us != [] && us[0] == u && us[1..] == rest && UnitOk(u)
    requires PartsOk(UnitsParts(rest)) && PrintParts(UnitsParts(rest)) == PrintUnits(rest) + [QUOTE]
    ensures PartsOk(UnitsParts(us)) && PrintParts(UnitsParts(us)) == PrintUnits(us) + [QUOTE]
  {
    match u
    case Raw(b) =>
    case Short(b) =>
    case Unicode(a, b, c, d) =>
      var p := UnitsParts(rest);
      HexChar(d, p);
      HexChar(c, Char(d, p));
      HexChar(b, Char(c, Char(d, p)));
      HexChar(a, Char(b, Char(c, Char(d, p))));
      assert PrintParts(UnitsParts(us)) == [BACKSLASH, 0x75, a, b, c, d] + PrintParts(p);
  }

  lemma HexChar(h: byte, p: Parts)
    requires IsHex(h) && PartsOk(p)
    ensures PartsOk(Char(h, p)) && PrintParts(Char(h, p)) == [h] + PrintParts(p)
  {
  }

  lemma StringIs(us: seq<Unit>, tail: Items)
    requires UnitsOk(us) && ItemsOk(tail)
    ensures Is(StringThen(us, tail), PrintString(us), tail)
  {
    PartsIs(us);
  }

  /** Two pieces in a row. */
  lemma Follow(x: Items, a: seq<byte>, y: Items, b: seq<byte>, tail: Items)
    requires Is(x, a, y) && Is(y, b, tail)
    ensures Is(x, a + b, tail)
  {
  }

  lemma OneIs(b: byte, tail: Items)
    requires b != QUOTE && b != OPEN && b != CLOSE && ItemsOk(tail)
    ensures Is(Items.Plain(b, tail), [b], tail)
  {
  }

  lemma NumberHarmless(n: Number)
    requires NumberOk(n)
    ensures Harmless(PrintNumber(n))
  {
  }

  lemma {:induction false} ValueIs(v: Value, tail: Items)
    requires ValueOk(v) && ItemsOk(tail)
    ensures Is(ItemsOf(v, tail), Print(v), tail)
    decreases v, 0
  {
    match v
    case Null => PlainIs(Print(v), tail);
    case True => PlainIs(Print(v), tail);
    case False => PlainIs(Print(v), tail);
    case Num(n) =>
      NumberHarmless(n);
      PlainIs(Print(v), tail);
    case Str(units) => StringIs(units, tail);
    case Arr(elements) => ArrayIs(elements, tail);
    case Obj(members) => ObjectIs(members, tail);
  }

  lemma {:induction false} ArrayIs(x: Elements, tail: Items)
    requires ElementsOk(x) && ItemsOk(tail)
    ensures Is(ItemsOf(Arr(x), tail), Print(Arr(x)), tail)
    decreases x, 1
  {
    var last := Items.Plain(0x5D, tail);
    OneIs(0x5D, tail);
    ElementsIs(x, last);
    OneIs(0x5B, ElementItems(x, last));
    Follow(ItemsOf(Arr(x), tail), [0x5B], ElementItems(x, last), PrintElements(x), last);
    Follow(ItemsOf(Arr(x), tail), [0x5B] + PrintElements(x), last, [0x5D], tail);
  }

  lemma {:induction false} ObjectIs(x: Members, tail: Items)
    requires MembersOk(x) && ItemsOk(tail)
    ensures Is(ItemsOf(Obj(x), tail), Print(Obj(x)), tail)
    ensures ItemsOk(MemberItems(x, End)) && Braced(MemberItems(x, End)) == Print(Obj(x))
    decreases x, 1
  {
    MembersIs(x, End);
    assert PrintMembers(x) + PrintItems(End) == PrintMembers(x);
  }

  lemma {:induction false} ElementsIs(x: Elements, tail: Items)
    requires ElementsOk(x) && ItemsOk(tail)
    ensures Is(ElementItems(x, tail), PrintElements(x), tail)
    decreases x, 0
  {
    match x
    case NoElements(space) => PlainIs(space, tail);
    case Element(before, v, after, rest) =>
      var more := MoreElements(rest, tail);
      ElementsTail(rest, tail);
      PlainIs(after, more);
      ValueIs(v, PlainThen(after, more));
      PlainIs(before, ItemsOf(v, PlainThen(after, more)));
      var all := ElementItems(x, tail);
      Follow(all, before, ItemsOf(v, PlainThen(after, more)), Print(v), PlainThen(after, more));
      Follow(all, before + Print(v), PlainThen(after, more), after, more);
      Follow(all, before + Print(v) + after, more, PrintMoreElements(rest), tail);
  }

  function MoreElements(rest: Option<Elements>, tail: Items): Items {
    if rest.Some? then Items.Plain(0x2C, ElementItems(rest.value, tail)) else tail
  }

  function PrintMoreElements(rest: Option<Elements>): seq<byte> {
    if rest.Some? then [0x2C] + PrintElements(rest.value) else []
  }

  lemma {:induction false} ElementsTail(rest: Option<Elements>, tail: Items)
    requires (rest.Some? ==> ElementsOk(rest.value)) && ItemsOk(tail)
    ensures Is(MoreElements(rest, tail), PrintMoreElements(rest), tail)
    decreases rest, 1
  {
    if rest.Some? {
      ElementsIs(rest.value, tail);
      OneIs(0x2C, ElementItems(rest.value, tail));
      Follow(MoreElements(rest, tail), [0x2C], ElementItems(rest.value, tail), PrintElements(rest.value), tail);
    } else {
      assert [] + PrintItems(tail) == PrintItems(tail);
    }
  }

  function MoreMembers(rest: Option<Members>, tail: Items): Items {
    if rest.Some? then Items.Plain(0x2C, MemberItems(rest.value, tail)) else tail
  }

  function PrintMoreMembers(rest: Option<Members>): seq<byte> {
    if rest.Some? then [0x2C] + PrintMembers(rest.value) else []
  }

  lemma {:induction false} MembersTail(rest: Option<Members>, tail: Items)
    requires (rest.Some? ==> MembersOk(rest.value)) && ItemsOk(tail)
    ensures Is(MoreMembers(rest, tail), PrintMoreMembers(rest), tail)
    decreases rest, 1
  {
    if rest.Some? {
      MembersIs(rest.value, tail);
      OneIs(0x2C, MemberItems(rest.value, tail));
      Follow(MoreMembers(rest, tail), [0x2C], MemberItems(rest.value, tail), PrintMembers(rest.value), tail);
    } else {
      assert [] + PrintItems(tail) == PrintItems(tail);
    }
  }

  /** The value half of a member: `: value`, its white space, and what follows. */
  lemma {:induction false} MemberValueIs(mid': seq<byte>, v: Value, after: seq<byte>, more: Items)
    requires Spaces(mid') && ValueOk(v) && Spaces(after) && ItemsOk(more)
    ensures Is(Items.Plain(0x3A, PlainThen(mid', ItemsOf(v, PlainThen(after, more)))),
               [0x3A] + mid' + Print(v) + after, more)
    decreases v, 1
  {
    var x3 := PlainThen(after, more);
    var x2 := ItemsOf(v, x3);
    var x1 := PlainThen(mid', x2);
    PlainIs(after, more);
    ValueIs(v, x3);
    PlainIs(mid', x2);
    OneIs(0x3A, x1);
    Follow(Items.Plain(0x3A, x1), [0x3A], x1, mid', x2);
    Follow(Items.Plain(0x3A, x1), [0x3A] + mid', x2, Print(v), x3);
    Follow(Items.Plain(0x3A, x1), [0x3A] + mid' + Print(v), x3, after, more);
  }

  lemma {:induction false} MembersIs(x: Members, tail: Items)
    requires MembersOk(x) && ItemsOk(tail)
    ensures Is(MemberItems(x, tail), PrintMembers(x), tail)
    decreases x, 0
  {
    match x
    case NoMembers(space) => PlainIs(space, tail);
    case Member(before, key, mid, mid', v, after, rest) =>
      var more := MoreMembers(rest, tail);
      MembersTail(rest, tail);
      MemberValueIs(mid', v, after, more);
      MemberIs(x, tail, more);
  }

  lemma MemberIs(x: Members, tail: Items, more: Items)
    requires x.Member? && MembersOk(x) && more == MoreMembers(x.rest, tail)
    requires Is(more, PrintMoreMembers(x.rest), tail)
    requires Is(Items.Plain(0x3A, PlainThen(x.mid', ItemsOf(x.v, PlainThen(x.after, more)))),
                [0x3A] + x.mid' + Print(x.v) + x.after, more)
    ensures Is(MemberItems(x, tail), PrintMembers(x), tail)
  {
    var y := Items.Plain(0x3A, PlainThen(x.mid', ItemsOf(x.v, PlainThen(x.after, more))));
    var colon := [0x3A] + x.mid' + Print(x.v) + x.after;
    var x2 := PlainThen(x.mid, y);
    var x1 := StringThen(x.key, x2);
    var x0 := PlainThen(x.before, x1);
    PlainIs(x.mid, y);
    StringIs(x.key, x2);
    PlainIs(x.before, x1);
    Follow(x0, x.before, x1, PrintString(x.key), x2);
    Follow(x0, x.before + PrintString(x.key), x2, x.mid, y);
    Follow(x0, x.before + PrintString(x.key) + x.mid, y, colon, more);
    Follow(x0, x.before + PrintString(x.key) + x.mid + colon, more, PrintMoreMembers(x.rest), tail);
    MemberText(x, colon);
  }

  lemma MemberText(x: Members, colon: seq<byte>)
    requires x.Member? && colon == [0x3A] + x.mid' + Print(x.v) + x.after
    ensures x.before + PrintString(x.key) + x.mid + colon + PrintMoreMembers(x.rest) == PrintMembers(x)
  {
    var head := x.before + PrintString(x.key) + x.mid;
    assert head + colon == head + [0x3A] + x.mid' + Print(x.v) + x.after;
  }

  /** Whatever stands before the object, as long as it holds no opening brace, and whatever
      follows it, the extractor returns exactly the object as it was printed. */
  lemma ExtractsTheObject(prefix: seq<byte>, members: Members, tail: seq<byte>)
    requires MembersOk(members) && OPEN !in prefix
    ensures FirstBlock(prefix + Print(Obj(members)) + tail) == Some(Print(Obj(members)))
  {
    var printed := Print(Obj(members));
    var text := prefix + printed + tail;
    ObjectIs(members, End);
    assert printed[0] == OPEN && text[|prefix|] == OPEN;
    assert forall k :: 0 <= k < |prefix| ==> text[k] != OPEN by {
      assert forall k :: 0 <= k < |prefix| ==> text[k] == prefix[k];
    }
    assert text[|prefix|..|prefix| + |printed|] == printed;
    FindsBlock(text, MemberItems(members, End));
  }
}
