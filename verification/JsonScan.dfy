/** The evaluator's best-effort object extractor: a byte machine that ignores braces inside
    strings, against the blocks it should find and the JSON texts it is meant for. */
module JsonScan {
  import opened Common

  const QUOTE: byte := 0x22
  const BACKSLASH: byte := 0x5C
  const OPEN: byte := 0x7B
  const CLOSE: byte := 0x7D
  const I32_MAX: nat := 0x7FFF_FFFF

  /** A 32-bit signed result. */
  function Wrap32(x: int): int { (x + 0x8000_0000) % 0x1_0000_0000 - 0x8000_0000 }

  // ---- blocks ----------------------------------------------------------------------------

  /** The inside of a string literal, up to its closing quote; a backslash takes the next
      byte with it, whatever it is. */
  datatype Parts = Closed | Char(b: byte, rest: Parts) | Escaped(b: byte, rest: Parts)

  /** The inside of a block. */
  datatype Items =
    | End
    | Plain(b: byte, rest: Items)
    | Quoted(parts: Parts, rest: Items)
    | Nested(inner: Items, rest: Items)

  predicate PartsOk(p: Parts) {
    match p
    case Closed => true
    case Char(b, rest) => b != QUOTE && b != BACKSLASH && PartsOk(rest)
    case Escaped(_, rest) => PartsOk(rest)
  }

  predicate ItemsOk(x: Items) {
    match x
    case End => true
    case Plain(b, rest) => b != QUOTE && b != OPEN && b != CLOSE && ItemsOk(rest)
    case Quoted(parts, rest) => PartsOk(parts) && ItemsOk(rest)
    case Nested(inner, rest) => ItemsOk(inner) && ItemsOk(rest)
  }

  function PrintParts(p: Parts): seq<byte> {
    match p
    case Closed => [QUOTE]
    case Char(b, rest) => [b] + PrintParts(rest)
    case Escaped(b, rest) => [BACKSLASH, b] + PrintParts(rest)
  }

  function PrintItems(x: Items): seq<byte>
    decreases x, 0
  {
    match x
    case End => []
    case Plain(b, rest) => [b] + PrintItems(rest)
    case Quoted(parts, rest) => [QUOTE] + PrintParts(parts) + PrintItems(rest)
    case Nested(inner, rest) => Braced(inner) + PrintItems(rest)
  }

  function Braced(x: Items): seq<byte>
    decreases x, 1
  {
    [OPEN] + PrintItems(x) + [CLOSE]
  }

  // ---- the machine --------------------------------------------------------------------------

  /** Position of the brace that closes the block open at `depth`, reading from `i`. */
  function CloseAt(text: seq<byte>, i: nat, depth: nat): Option<nat>
    requires i <= |text| && depth > 0
    decreases |text| - i, 1
  {
    if i == |text| then None
    else if text[i] == QUOTE then InString(text, i + 1, depth)
    else if text[i] == OPEN then CloseAt(text, i + 1, depth + 1)
    else if text[i] == CLOSE then if depth == 1 then Some(i) else CloseAt(text, i + 1, depth - 1)
    else CloseAt(text, i + 1, depth)
  }

  function InString(text: seq<byte>, i: nat, depth: nat): Option<nat>
    requires i <= |text| && depth > 0
    decreases |text| - i, 0
  {
    if i == |text| then None
    else if text[i] == BACKSLASH then if i + 1 == |text| then None else InString(text, i + 2, depth)
    else if text[i] == QUOTE then CloseAt(text, i + 1, depth)
    else InString(text, i + 1, depth)
  }

  lemma {:induction false} CloseInside(text: seq<byte>, i: nat, depth: nat)
    requires i <= |text| && depth > 0
    ensures CloseAt(text, i, depth).Some? ==> i <= CloseAt(text, i, depth).value < |text|
    decreases |text| - i, 1
  {
    if i < |text| {
      if text[i] == QUOTE {
        StringInside(text, i + 1, depth);
      } else if text[i] == OPEN {
        CloseInside(text, i + 1, depth + 1);
      } else if text[i] == CLOSE {
        if depth > 1 {
          CloseInside(text, i + 1, depth - 1);
        }
      } else {
        CloseInside(text, i + 1, depth);
      }
    }
  }

  lemma {:induction false} StringInside(text: seq<byte>, i: nat, depth: nat)
    requires i <= |text| && depth > 0
    ensures InString(text, i, depth).Some? ==> i <= InString(text, i, depth).value < |text|
    decreases |text| - i, 0
  {
    if i < |text| {
      if text[i] == BACKSLASH {
        if i + 1 < |text| {
          StringInside(text, i + 2, depth);
        }
      } else if text[i] == QUOTE {
        CloseInside(text, i + 1, depth);
      } else {
        StringInside(text, i + 1, depth);
      }
    }
  }

  /** First position of an opening brace, or the length. */
  function FirstOpen(text: seq<byte>, from: nat := 0): (i: nat)
    requires from <= |text|
    ensures from <= i <= |text|
    ensures forall k :: from <= k < i ==> text[k] != OPEN
    ensures i < |text| ==> text[i] == OPEN
    decreases |text| - from
  {
    if from == |text| || text[from] == OPEN then from else FirstOpen(text, from + 1)
  }

  function FirstBlock(text: seq<byte>): Option<seq<byte>> {
    var start := FirstOpen(text);
    if start == |text| then None
    else
      match CloseAt(text, start + 1, 1)
      case None => None
      case Some(i) =>
        CloseInside(text, start + 1, 1);
        Some(text[start..i + 1])
  }

  /** What is left to do from the machine's state before byte `i`. */
  function Rest(text: seq<byte>, i: nat, depth: nat, inString: bool, escape: bool): Option<nat>
    requires i <= |text| && depth > 0
  {
    if inString && escape then if i == |text| then None else InString(text, i + 1, depth)
    else if inString then InString(text, i, depth)
    else CloseAt(text, i, depth)
  }

  /** Opening braces among the first `i` bytes. */
  function OpensBefore(text: seq<byte>, i: nat): nat
    requires i <= |text|
  {
    if i == 0 then 0 else OpensBefore(text, i - 1) + if text[i - 1] == OPEN then 1 else 0
  }

  lemma {:induction false} OpensGrow(text: seq<byte>, i: nat, j: nat)
    requires i <= j <= |text|
    ensures OpensBefore(text, i) <= OpensBefore(text, j)
  {
    if i < j {
      OpensGrow(text, i, j - 1);
    }
  }

  /** Too few braces for the depth to overflow, however long the text. */
  predicate DepthFits(text: seq<byte>) { OpensBefore(text, |text|) <= I32_MAX }

  method ExtractFirstBalancedObject(text: seq<byte>) returns (r: Option<seq<byte>>)
    ensures DepthFits(text) ==> r == FirstBlock(text)
  {
    var start := 0;
    while start < |text| && text[start] != OPEN
      invariant start <= |text| && FirstOpen(text) == FirstOpen(text, start)
    {
      start := start + 1;
    }
    if start == |text| {
      return None;
    }
    var depth := 0;
    var inString, escape := false, false;
    var i := start;
    while i < |text|
      invariant start <= i <= |text| && (escape ==> inString)
      invariant DepthFits(text) ==> 0 <= depth <= OpensBefore(text, i)
      invariant i == start ==> depth == 0 && !inString
      invariant DepthFits(text) && i > start ==>
                  depth > 0 && CloseAt(text, start + 1, 1) == Rest(text, i, depth, inString, escape)
    {
      OpensGrow(text, i + 1, |text|);
      var b := text[i];
      i := i + 1;
      if inString {
        if escape {
          escape := false;
        } else if b == BACKSLASH {
          escape := true;
        } else if b == QUOTE {
          inString := false;
        }
        continue;
      }
      if b == QUOTE {
        inString := true;
        continue;
      }
      if b == OPEN {
        depth := Wrap32(depth + 1);
      } else if b == CLOSE {
        depth := Wrap32(depth - 1);
        if depth == 0 {
          return Some(text[start..i]);
        }
      }
    }
    return None;
  }

  // ---- the machine finds exactly the blocks ---------------------------------------------------

  predicate At(text: seq<byte>, i: nat, s: seq<byte>) { i + |s| <= |text| && text[i..i + |s|] == s }

  lemma AtSplit(text: seq<byte>, i: nat, a: seq<byte>, b: seq<byte>)
    requires At(text, i, a + b)
    ensures At(text, i, a) && At(text, i + |a|, b)
  {
    var s := a + b;
    assert text[i..i + |s|] == s;
    assert text[i..i + |a|] == s[..|a|];
    assert text[i + |a|..i + |s|] == s[|a|..];
  }

  lemma AtJoin(text: seq<byte>, i: nat, a: seq<byte>, b: seq<byte>)
    requires At(text, i, a) && At(text, i + |a|, b)
    ensures At(text, i, a + b)
  {
    assert text[i..i + |a| + |b|] == text[i..i + |a|] + text[i + |a|..i + |a| + |b|];
  }

  /** A well-formed string is skipped whole. */
  lemma {:induction false} SkipsString(text: seq<byte>, i: nat, depth: nat, p: Parts)
    requires depth > 0 && PartsOk(p) && At(text, i, PrintParts(p))
    ensures InString(text, i, depth) == CloseAt(text, i + |PrintParts(p)|, depth)
    decreases p
  {
    var printed := PrintParts(p);
    assert text[i] == text[i..i + |printed|][0];
    match p
    case Closed =>
    case Char(b, rest) =>
      AtSplit(text, i, [b], PrintParts(rest));
      SkipsString(text, i + 1, depth, rest);
    case Escaped(b, rest) =>
      AtSplit(text, i, [BACKSLASH, b], PrintParts(rest));
      SkipsString(text, i + 2, depth, rest);
  }

  /** The inside of a block leaves the machine at the depth it found it. */
  lemma {:induction false} SkipsItems(text: seq<byte>, i: nat, depth: nat, x: Items)
    requires depth > 0 && ItemsOk(x) && At(text, i, PrintItems(x))
    ensures CloseAt(text, i, depth) == CloseAt(text, i + |PrintItems(x)|, depth)
    decreases x, 1
  {
    match x
    case End =>
    case Plain(b, rest) =>
      AtSplit(text, i, [b], PrintItems(rest));
      SkipsPlain(text, i, depth, b);
      SkipsItems(text, i + 1, depth, rest);
    case Quoted(parts, rest) =>
      SkipsPiece(text, i, depth, [QUOTE] + PrintParts(parts), x, rest);
    case Nested(inner, rest) =>
      SkipsPiece(text, i, depth, Braced(inner), x, rest);
  }

  /** A string or a block in front, then the rest. */
  lemma {:induction false} SkipsPiece(text: seq<byte>, i: nat, depth: nat, piece: seq<byte>, x: Items, rest: Items)
    requires depth > 0 && ItemsOk(x) && (x.Quoted? || x.Nested?) && rest == x.rest
    requires piece == if x.Quoted? then [QUOTE] + PrintParts(x.parts) else Braced(x.inner)
    requires At(text, i, piece + PrintItems(rest))
    ensures CloseAt(text, i, depth) == CloseAt(text, i + |piece + PrintItems(rest)|, depth)
    decreases x, 0
  {
    AtSplit(text, i, piece, PrintItems(rest));
    if x.Quoted? {
      SkipsQuoted(text, i, depth, x.parts);
    } else {
      SkipsBlock(text, i, depth, x.inner);
    }
    SkipsItems(text, i + |piece|, depth, rest);
  }

  lemma SkipsPlain(text: seq<byte>, i: nat, depth: nat, b: byte)
    requires depth > 0 && b != QUOTE && b != OPEN && b != CLOSE && At(text, i, [b])
    ensures CloseAt(text, i, depth) == CloseAt(text, i + 1, depth)
  {
    assert text[i] == text[i..i + 1][0];
  }

  lemma SkipsQuoted(text: seq<byte>, i: nat, depth: nat, parts: Parts)
    requires depth > 0 && PartsOk(parts) && At(text, i, [QUOTE] + PrintParts(parts))
    ensures CloseAt(text, i, depth) == CloseAt(text, i + 1 + |PrintParts(parts)|, depth)
  {
    AtSplit(text, i, [QUOTE], PrintParts(parts));
    assert text[i] == text[i..i + 1][0];
    SkipsString(text, i + 1, depth, parts);
  }

  lemma {:induction false} SkipsBlock(text: seq<byte>, i: nat, depth: nat, x: Items)
    requires depth > 0 && ItemsOk(x) && At(text, i, Braced(x))
    ensures CloseAt(text, i, depth) == CloseAt(text, i + |Braced(x)|, depth)
    decreases x, 2
  {
    BlockEnds(text, i, x);
    AtSplit(text, i, [OPEN], PrintItems(x));
    SkipsItems(text, i + 1, depth + 1, x);
  }

  lemma BlockEnds(text: seq<byte>, i: nat, x: Items)
    requires At(text, i, Braced(x))
    ensures At(text, i, [OPEN] + PrintItems(x)) && text[i] == OPEN
    ensures i + 1 + |PrintItems(x)| < |text| && text[i + 1 + |PrintItems(x)|] == CLOSE
  {
    AtSplit(text, i, [OPEN] + PrintItems(x), [CLOSE]);
    AtSplit(text, i, [OPEN], PrintItems(x));
    assert text[i] == text[i..i + 1][0];
    var j := i + 1 + |PrintItems(x)|;
    assert text[j] == text[j..j + 1][0];
  }

  /** Completeness: a block that starts at the first opening brace is what is found. */
  lemma FindsBlock(text: seq<byte>, x: Items)
    requires ItemsOk(x) && At(text, FirstOpen(text), Braced(x))
    ensures FirstBlock(text) == Some(Braced(x))
  {
    var i := FirstOpen(text);
    BlockEnds(text, i, x);
    BlockCloses(text, i, x);
  }

  /** From inside a block the machine stops at its closing brace. */
  lemma BlockCloses(text: seq<byte>, i: nat, x: Items)
    requires ItemsOk(x) && At(text, i, Braced(x))
    ensures i + 1 + |PrintItems(x)| < |text|
    ensures CloseAt(text, i + 1, 1) == Some(i + 1 + |PrintItems(x)|)
  {
    BlockEnds(text, i, x);
    AtSplit(text, i, [OPEN], PrintItems(x));
    SkipsItems(text, i + 1, 1, x);
  }

  lemma {:induction false} ParseString(text: seq<byte>, i: nat, depth: nat) returns (p: Parts)
    requires i <= |text| && depth > 0 && InString(text, i, depth).Some?
    ensures PartsOk(p) && At(text, i, PrintParts(p))
    decreases |text| - i
  {
    if text[i] == QUOTE {
      p := Closed;
      assert text[i..i + 1] == [QUOTE];
    } else if text[i] == BACKSLASH {
      var rest := ParseString(text, i + 2, depth);
      p := Escaped(text[i + 1], rest);
      assert text[i..i + 2] == [BACKSLASH, text[i + 1]];
      AtJoin(text, i, [BACKSLASH, text[i + 1]], PrintParts(rest));
    } else {
      var rest := ParseString(text, i + 1, depth);
      p := Char(text[i], rest);
      assert text[i..i + 1] == [text[i]];
      AtJoin(text, i, [text[i]], PrintParts(rest));
    }
  }

  /** When the machine closes its block from here, what it read is the inside of one. */
  lemma {:induction false} ParseItems(text: seq<byte>, i: nat, depth: nat) returns (x: Items)
    requires i <= |text| && depth > 0 && CloseAt(text, i, depth).Some?
    ensures ItemsOk(x) && At(text, i, PrintItems(x))
    ensures i + |PrintItems(x)| < |text| && text[i + |PrintItems(x)|] == CLOSE
    decreases |text| - i, 1
  {
    if text[i] == CLOSE {
      x := End;
      assert text[i..i] == [];
    } else if text[i] == QUOTE {
      x := ParseQuoted(text, i, depth);
    } else if text[i] == OPEN {
      x := ParseNested(text, i, depth);
    } else {
      var rest := ParseItems(text, i + 1, depth);
      x := Plain(text[i], rest);
      assert text[i..i + 1] == [text[i]];
      AtJoin(text, i, [text[i]], PrintItems(rest));
    }
  }

  lemma {:induction false} ParseNested(text: seq<byte>, i: nat, depth: nat) returns (x: Items)
    requires i < |text| && depth > 0 && text[i] == OPEN && CloseAt(text, i, depth).Some?
    ensures ItemsOk(x) && At(text, i, PrintItems(x))
    ensures i + |PrintItems(x)| < |text| && text[i + |PrintItems(x)|] == CLOSE
    decreases |text| - i, 0
  {
    var inner := ParseItems(text, i + 1, depth + 1);
    var k := i + 1 + |PrintItems(inner)|;
    SkipsItems(text, i + 1, depth + 1, inner);
    var rest := ParseItems(text, k + 1, depth);
    x := Nested(inner, rest);
    BracedAt(text, i, inner);
    AtJoin(text, i, Braced(inner), PrintItems(rest));
  }

  lemma {:induction false} ParseQuoted(text: seq<byte>, i: nat, depth: nat) returns (x: Items)
    requires i < |text| && depth > 0 && text[i] == QUOTE && CloseAt(text, i, depth).Some?
    ensures ItemsOk(x) && At(text, i, PrintItems(x))
    ensures i + |PrintItems(x)| < |text| && text[i + |PrintItems(x)|] == CLOSE
    decreases |text| - i, 0
  {
    var parts := ParseString(text, i + 1, depth);
    assert text[i..i + 1] == [QUOTE];
    AtJoin(text, i, [QUOTE], PrintParts(parts));
    SkipsQuoted(text, i, depth, parts);
    var rest := ParseItems(text, i + 1 + |PrintParts(parts)|, depth);
    x := Quoted(parts, rest);
    AtJoin(text, i, [QUOTE] + PrintParts(parts), PrintItems(rest));
  }

  lemma BracedAt(text: seq<byte>, i: nat, x: Items)
    requires i < |text| && text[i] == OPEN && At(text, i + 1, PrintItems(x))
    requires i + 1 + |PrintItems(x)| < |text| && text[i + 1 + |PrintItems(x)|] == CLOSE
    ensures At(text, i, Braced(x))
  {
    var k := i + 1 + |PrintItems(x)|;
    assert text[i..i + 1] == [OPEN] && text[k..k + 1] == [CLOSE];
    AtJoin(text, i, [OPEN], PrintItems(x));
    AtJoin(text, i, [OPEN] + PrintItems(x), [CLOSE]);
  }

  /** Exactness: the extractor returns a block if and only if one starts at the first
      opening brace, and then that one. A block is never a proper prefix of another, so it
      is also the shortest; nothing is found exactly when no block starts there. */
  lemma FindsExactly(text: seq<byte>, s: seq<byte>)
    ensures FirstBlock(text) == Some(s)
            <==> At(text, FirstOpen(text), s) && exists x :: ItemsOk(x) && s == Braced(x)
  {
    var i := FirstOpen(text);
    if x :| ItemsOk(x) && s == Braced(x) && At(text, i, s) {
      FindsBlock(text, x);
    }
    if FirstBlock(text) == Some(s) {
      var x := ParseItems(text, i + 1, 1);
      BracedAt(text, i, x);
      FindsBlock(text, x);
    }
  }

  lemma NothingFound(text: seq<byte>)
    ensures FirstBlock(text).None? <==> forall x :: ItemsOk(x) ==> !At(text, FirstOpen(text), Braced(x))
  {
    if FirstBlock(text).Some? {
      FindsExactly(text, FirstBlock(text).value);
    }
    forall x | ItemsOk(x) && At(text, FirstOpen(text), Braced(x)) ensures FirstBlock(text).Some? {
      FindsBlock(text, x);
    }
  }
}
