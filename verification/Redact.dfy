/** The client's credential scrub, as far as it does not depend on which pattern matches:
    the removal of hidden characters, and the rewrite of a match found in text from which
    the invisible characters were taken out. Offsets are UTF-8 byte offsets, as in the
    source; a slice off a character boundary would be a panic, so every slice here proves
    that it is on one. */
module Redact {

  function Utf8Len(c: char): (n: nat)
    ensures 1 <= n <= 4
  {
    var u := c as int;
    if u < 0x80 then 1 else if u < 0x800 then 2 else if u < 0x1_0000 then 3 else 4
  }

  function Bytes(s: string): nat {
    if s == [] then 0 else Bytes(s[..|s| - 1]) + Utf8Len(s[|s| - 1])
  }

  /** Byte offset of character `k`. */
  function Off(s: string, k: nat): nat
    requires k <= |s|
  {
    Bytes(s[..k])
  }

  predicate IsBoundary(s: string, offset: nat) { exists k :: 0 <= k <= |s| && Off(s, k) == offset }

  lemma OffNext(s: string, k: nat)
    requires k < |s|
    ensures Off(s, k + 1) == Off(s, k) + Utf8Len(s[k])
  {
    assert s[..k + 1][..k] == s[..k];
  }

  lemma {:induction false} OffGrows(s: string, j: nat, k: nat)
    requires j <= k <= |s|
    ensures Off(s, j) + (k - j) <= Off(s, k)
    decreases k
  {
    if j < k {
      OffGrows(s, j, k - 1);
      OffNext(s, k - 1);
    }
  }

  lemma OffPrefix(s: string, t: string, k: nat)
    requires k <= |s| <= |t| && s == t[..|s|]
    ensures Off(s, k) == Off(t, k)
  {
    assert s[..k] == t[..k];
  }

  /** The character that starts at a boundary. */
  function CharAt(s: string, offset: nat): (k: nat)
    requires IsBoundary(s, offset)
    ensures k <= |s| && Off(s, k) == offset
  {
    CharFrom(s, offset, 0)
  }

  function CharFrom(s: string, offset: nat, from: nat): (k: nat)
    requires exists k :: from <= k <= |s| && Off(s, k) == offset
    ensures from <= k <= |s| && Off(s, k) == offset
    decreases |s| - from
  {
    if from <= |s| && Off(s, from) == offset then from else CharFrom(s, offset, from + 1)
  }

  lemma CharAtOff(s: string, k: nat)
    requires k <= |s|
    ensures IsBoundary(s, Off(s, k)) && CharAt(s, Off(s, k)) == k
  {
    var j := CharAt(s, Off(s, k));
    if j < k {
      OffGrows(s, j, k);
    } else if k < j {
      OffGrows(s, k, j);
    }
  }

  /** `&s[a..b]`. */
  function Slice(s: string, a: nat, b: nat): string
    requires IsBoundary(s, a) && IsBoundary(s, b) && CharAt(s, a) <= CharAt(s, b)
  {
    s[CharAt(s, a)..CharAt(s, b)]
  }

  lemma SliceIs(s: string, i: nat, j: nat)
    requires i <= j <= |s|
    ensures IsBoundary(s, Off(s, i)) && IsBoundary(s, Off(s, j))
    ensures CharAt(s, Off(s, i)) == i && CharAt(s, Off(s, j)) == j
    ensures Slice(s, Off(s, i), Off(s, j)) == s[i..j]
  {
    CharAtOff(s, i);
    CharAtOff(s, j);
  }

  /** Unicode `Default_Ignorable_Code_Point` (UAX #44). */
  predicate IsDefaultIgnorable(c: char) {
    var u := c as int;
    || u == 0xAD || u == 0x34F || u == 0x61C || u == 0x115F || u == 0x1160 || u == 0x17B4 || u == 0x17B5
    || 0x180B <= u <= 0x180F || 0x200B <= u <= 0x200F || 0x202A <= u <= 0x202E
    || 0x2060 <= u <= 0x206F || u == 0x3164 || 0xFE00 <= u <= 0xFE0F || u == 0xFEFF
    || u == 0xFFA0 || 0xFFF0 <= u <= 0xFFF8 || 0x1BCA0 <= u <= 0x1BCA3
    || 0x1D173 <= u <= 0x1D17A || 0xE0000 <= u <= 0xE0FFF
  }

  // ---- the rewrite through invisible characters ------------------------------------------

  function Strip(s: string): string {
    if s == [] then []
    else if IsDefaultIgnorable(s[|s| - 1]) then Strip(s[..|s| - 1])
    else Strip(s[..|s| - 1]) + [s[|s| - 1]]
  }

  /** Positions of the visible characters. */
  function Visible(s: string): (v: seq<nat>)
    ensures |v| == |Strip(s)|
    ensures forall j :: 0 <= j < |v| ==> v[j] < |s|
  {
    if s == [] then []
    else if IsDefaultIgnorable(s[|s| - 1]) then Visible(s[..|s| - 1])
    else Visible(s[..|s| - 1]) + [|s| - 1]
  }

  lemma {:induction false} StripConcat(a: string, b: string)
    ensures Strip(a + b) == Strip(a) + Strip(b)
  {
    if b == [] {
      assert a + b == a;
    } else {
      StripConcat(a, b[..|b| - 1]);
      assert (a + b)[..|a + b| - 1] == a + b[..|b| - 1];
    }
  }

  lemma {:induction false} StripOfVisible(s: string)
    requires forall c :: c in s ==> !IsDefaultIgnorable(c)
    ensures Strip(s) == s
  {
    if s != [] {
      StripOfVisible(s[..|s| - 1]);
      assert s[|s| - 1] in s;
    }
  }

  lemma {:induction false} StripIsVisible(s: string)
    ensures forall c :: c in Strip(s) ==> !IsDefaultIgnorable(c)
  {
    if s != [] {
      StripIsVisible(s[..|s| - 1]);
    }
  }

  /** Visible character `j` of the text is character `j` of the stripped text, and exactly
      the first `j` visible characters come before it. */
  lemma {:induction false} VisibleMeaning(s: string, j: nat)
    requires j < |Visible(s)|
    ensures s[Visible(s)[j]] == Strip(s)[j] && !IsDefaultIgnorable(s[Visible(s)[j]])
    ensures Strip(s[..Visible(s)[j]]) == Strip(s)[..j]
    ensures Strip(s[..Visible(s)[j] + 1]) == Strip(s)[..j + 1]
  {
    var init := s[..|s| - 1];
    if j < |Visible(init)| {
      VisibleMeaning(init, j);
      assert init[..Visible(s)[j]] == s[..Visible(s)[j]];
      assert init[..Visible(s)[j] + 1] == s[..Visible(s)[j] + 1];
    } else {
      assert s[..|s|] == s;
    }
  }

  lemma {:induction false} VisibleAscends(s: string, i: nat, j: nat)
    requires i < j < |Visible(s)|
    ensures Visible(s)[i] < Visible(s)[j]
  {
    if j < |Visible(s[..|s| - 1])| {
      VisibleAscends(s[..|s| - 1], i, j);
    }
  }

  /** One match of a rule on the stripped text, in characters, and what the rule makes of
      it. */
  datatype Match = Match(from: nat, to: nat, replaced: string)

  /** What a regular expression yields: matches in order, not overlapping, inside the text. */
  predicate MatchesFrom(ms: seq<Match>, p: nat, shadow: string) {
    ms != [] ==> p <= ms[0].from <= ms[0].to <= |shadow| && MatchesFrom(ms[1..], ms[0].to, shadow)
  }

  predicate IsKept(shadow: string, m: Match)
    requires m.from <= m.to <= |shadow|
  {
    m.replaced == shadow[m.from..m.to]
  }

  /** The span of the text a match covers: from its first visible character to its last. */
  function Start(text: string, m: Match): (k: nat)
    ensures k <= |text|
  {
    if m.from < |Visible(text)| then Visible(text)[m.from] else |text|
  }

  function End(text: string, m: Match): (k: nat)
    requires m.to <= |Strip(text)|
    ensures k <= |text|
  {
    if m.from < m.to then Visible(text)[m.to - 1] + 1 else Start(text, m)
  }

  /** The rewritten text from character `c` on. */
  function Redacted(text: string, ms: seq<Match>, c: nat): string
    requires c <= |text| && MatchesFrom(ms, 0, Strip(text))
    decreases |ms|
  {
    if ms == [] then text[c..]
    else
      MatchesEarlier(ms[1..], ms[0].to, Strip(text));
      if Start(text, ms[0]) < c || IsKept(Strip(text), ms[0]) then Redacted(text, ms[1..], c)
      else text[c..Start(text, ms[0])] + ms[0].replaced + Redacted(text, ms[1..], End(text, ms[0]))
  }

  lemma MatchesEarlier(ms: seq<Match>, p: nat, shadow: string)
    requires MatchesFrom(ms, p, shadow)
    ensures MatchesFrom(ms, 0, shadow)
  {
  }

  /** The same matches replaced directly in text that has no invisible characters. */
  function ReplaceAll(shadow: string, ms: seq<Match>, p: nat): string
    requires p <= |shadow| && MatchesFrom(ms, p, shadow)
    decreases |ms|
  {
    if ms == [] then shadow[p..]
    else shadow[p..ms[0].from] + Strip(ms[0].replaced) + ReplaceAll(shadow, ms[1..], ms[0].to)
  }

  /** `c` characters of the text are the first `p` visible ones, and `c` is not past the
      next. */
  predicate InStep(text: string, c: nat, p: nat) {
    && c <= |text| && p <= |Strip(text)| && Strip(text[..c]) == Strip(text)[..p]
    && (forall j :: p <= j < |Visible(text)| ==> c <= Visible(text)[j])
  }

  lemma StartInStep(text: string, c: nat, p: nat, m: Match)
    requires InStep(text, c, p) && p <= m.from <= |Strip(text)|
    ensures c <= Start(text, m)
    ensures Strip(text[..Start(text, m)]) == Strip(text)[..m.from]
  {
    if m.from < |Visible(text)| {
      VisibleMeaning(text, m.from);
    } else {
      assert text[..|text|] == text;
    }
  }

  lemma AllVisibleLater(text: string, j: nat, from: nat, c: nat)
    requires from <= |Visible(text)| && (from < |Visible(text)| ==> c <= Visible(text)[from])
    requires from <= j < |Visible(text)|
    ensures c <= Visible(text)[j]
  {
    if from < j {
      VisibleAscends(text, from, j);
    }
  }

  lemma AllLater(text: string, from: nat, c: nat)
    requires from <= |Visible(text)| && (from < |Visible(text)| ==> c <= Visible(text)[from])
    ensures forall j :: from <= j < |Visible(text)| ==> c <= Visible(text)[j]
  {
    forall j | from <= j < |Visible(text)| ensures c <= Visible(text)[j] {
      AllVisibleLater(text, j, from, c);
    }
  }

  lemma EndOfNonEmpty(text: string, m: Match)
    requires m.from < m.to <= |Strip(text)|
    ensures Start(text, m) <= End(text, m) && InStep(text, End(text, m), m.to)
  {
    EndTaken(text, m);
    EndAfterStart(text, m);
    AllLater(text, m.to, End(text, m));
  }

  lemma EndTaken(text: string, m: Match)
    requires m.from < m.to <= |Strip(text)|
    ensures Strip(text[..End(text, m)]) == Strip(text)[..m.to] && m.to <= |Visible(text)|
  {
    VisibleMeaning(text, m.to - 1);
  }

  lemma EndAfterStart(text: string, m: Match)
    requires m.from < m.to <= |Strip(text)|
    ensures Start(text, m) <= End(text, m)
    ensures m.to < |Visible(text)| ==> End(text, m) <= Visible(text)[m.to]
  {
    if m.from < m.to - 1 {
      VisibleAscends(text, m.from, m.to - 1);
    }
    if m.to < |Visible(text)| {
      VisibleAscends(text, m.to - 1, m.to);
    }
  }

  lemma EndInStep(text: string, c: nat, p: nat, m: Match)
    requires InStep(text, c, p) && p <= m.from <= m.to <= |Strip(text)|
    ensures Start(text, m) <= End(text, m)
    ensures InStep(text, End(text, m), m.to)
  {
    if m.from < m.to {
      EndOfNonEmpty(text, m);
    } else {
      StartInStep(text, c, p, m);
      forall j | m.to <= j < |Visible(text)| ensures End(text, m) <= Visible(text)[j] {
        AllVisibleLater(text, j, m.to, End(text, m));
      }
    }
  }

  /** What is copied between two positions in step strips to what lies between them. */
  lemma CopiedStrips(text: string, c: nat, p: nat, k: nat, q: nat)
    requires c <= k <= |text| && p <= q <= |Strip(text)|
    requires Strip(text[..c]) == Strip(text)[..p] && Strip(text[..k]) == Strip(text)[..q]
    ensures Strip(text[c..k]) == Strip(text)[p..q]
  {
    assert text[..k] == text[..c] + text[c..k];
    StripConcat(text[..c], text[c..k]);
    assert Strip(text)[..q] == Strip(text)[..p] + Strip(text)[p..q];
  }

  lemma SliceJoin(s: string, i: nat, j: nat, k: nat)
    requires i <= j <= k <= |s|
    ensures s[i..k] == s[i..j] + s[j..k]
  {
  }

  lemma Assoc(a: string, b: string, c: string, d: string)
    ensures a + b + c + d == a + (b + c + d)
  {
  }

  lemma ReplaceLater(shadow: string, ms: seq<Match>, p: nat, q: nat)
    requires p <= q <= |shadow| && MatchesFrom(ms, q, shadow)
    ensures MatchesFrom(ms, p, shadow)
    ensures ReplaceAll(shadow, ms, p) == shadow[p..q] + ReplaceAll(shadow, ms, q)
  {
    if ms == [] {
      SliceJoin(shadow, p, q, |shadow|);
    } else {
      var m := ms[0];
      SliceJoin(shadow, p, q, m.from);
      Assoc(shadow[p..q], shadow[q..m.from], Strip(m.replaced), ReplaceAll(shadow, ms[1..], m.to));
    }
  }

  /** Taking the invisible characters out of the rewritten text gives what replacing the
      matches in the stripped text gives. */
  lemma {:induction false} RedactedStrips(text: string, ms: seq<Match>, c: nat, p: nat)
    requires MatchesFrom(ms, p, Strip(text)) && MatchesFrom(ms, 0, Strip(text)) && InStep(text, c, p)
    ensures Strip(Redacted(text, ms, c)) == ReplaceAll(Strip(text), ms, p)
    decreases |ms|
  {
    var shadow := Strip(text);
    if ms == [] {
      assert text[..|text|] == text;
      CopiedStrips(text, c, p, |text|, |shadow|);
      assert text[c..|text|] == text[c..];
    } else {
      var m, rest := ms[0], ms[1..];
      MatchesEarlier(rest, m.to, shadow);
      StartInStep(text, c, p, m);
      EndInStep(text, c, p, m);
      if IsKept(shadow, m) {
        KeptStrips(text, ms, c, p);
      } else {
        var tail := Redacted(text, rest, End(text, m));
        RedactedStrips(text, rest, End(text, m), m.to);
        CopiedStrips(text, c, p, Start(text, m), m.from);
        StripConcat(text[c..Start(text, m)] + m.replaced, tail);
        StripConcat(text[c..Start(text, m)], m.replaced);
      }
    }
  }

  lemma {:induction false} KeptStrips(text: string, ms: seq<Match>, c: nat, p: nat)
    requires ms != [] && MatchesFrom(ms, p, Strip(text)) && MatchesFrom(ms, 0, Strip(text)) && InStep(text, c, p)
    requires IsKept(Strip(text), ms[0])
    ensures Strip(Redacted(text, ms, c)) == ReplaceAll(Strip(text), ms, p)
    decreases |ms|, 0
  {
    var shadow, m, rest := Strip(text), ms[0], ms[1..];
    MatchesEarlier(rest, m.to, shadow);
    assert MatchesFrom(rest, p, shadow);
    RedactedStrips(text, rest, c, p);
    ReplaceLater(shadow, rest, p, m.to);
    KeptIsVisible(text, m);
    assert shadow[p..m.to] == shadow[p..m.from] + shadow[m.from..m.to];
  }

  lemma KeptIsVisible(text: string, m: Match)
    requires m.from <= m.to <= |Strip(text)| && IsKept(Strip(text), m)
    ensures Strip(m.replaced) == m.replaced
  {
    StripIsVisible(text);
    assert forall x :: x in m.replaced ==> x in Strip(text);
    StripOfVisible(m.replaced);
  }

  /** Strip-then-replace commutes with the rewrite, for every text and every list of
      matches. */
  lemma StripCommutes(text: string, ms: seq<Match>)
    requires MatchesFrom(ms, 0, Strip(text))
    ensures Strip(Redacted(text, ms, 0)) == ReplaceAll(Strip(text), ms, 0)
  {
    assert text[..0] == [];
    RedactedStrips(text, ms, 0, 0);
  }

  // ---- nothing else is touched -----------------------------------------------------------------

  /** Pieces of text with something between each two. */
  function Weave(pieces: seq<string>, between: seq<string>): string
    requires |pieces| == |between| + 1
  {
    if between == [] then pieces[0] else pieces[0] + between[0] + Weave(pieces[1..], between[1..])
  }

  /** The matches that are not kept. */
  function Changed(shadow: string, ms: seq<Match>): seq<Match>
    requires MatchesFrom(ms, 0, shadow)
  {
    if ms == [] then []
    else
      MatchesEarlier(ms[1..], ms[0].to, shadow);
      (if IsKept(shadow, ms[0]) then [] else [ms[0]]) + Changed(shadow, ms[1..])
  }

  function Replacements(ms: seq<Match>): seq<string> {
    if ms == [] then [] else [ms[0].replaced] + Replacements(ms[1..])
  }

  /** Each span covers its match, with a visible character at either end. */
  predicate SpansOf(text: string, ms: seq<Match>, spans: seq<string>) {
    |spans| == |ms| && forall i :: 0 <= i < |ms| ==> Tight(text, ms[i], spans[i])
  }

  predicate Tight(text: string, m: Match, span: string) {
    && m.from <= m.to <= |Strip(text)|
    && Strip(span) == Strip(text)[m.from..m.to]
    && (span != [] ==> !IsDefaultIgnorable(span[0]) && !IsDefaultIgnorable(span[|span| - 1]))
  }

  lemma SpanStrips(text: string, m: Match, c: nat, p: nat)
    requires InStep(text, c, p) && p <= m.from <= m.to <= |Strip(text)|
    ensures Start(text, m) <= End(text, m)
    ensures Strip(text[Start(text, m)..End(text, m)]) == Strip(text)[m.from..m.to]
  {
    StartInStep(text, c, p, m);
    EndInStep(text, c, p, m);
    CopiedStrips(text, Start(text, m), m.from, End(text, m), m.to);
  }

  lemma SpanIsTight(text: string, m: Match, c: nat, p: nat)
    requires InStep(text, c, p) && p <= m.from <= m.to <= |Strip(text)|
    ensures Start(text, m) <= End(text, m)
    ensures Tight(text, m, text[Start(text, m)..End(text, m)])
  {
    SpanStrips(text, m, c, p);
    if m.from < m.to {
      SpanEnds(text, m);
    }
  }

  lemma SpanEnds(text: string, m: Match)
    requires m.from < m.to <= |Strip(text)|
    requires Start(text, m) <= End(text, m)
    ensures var span := text[Start(text, m)..End(text, m)];
            span != [] ==> !IsDefaultIgnorable(span[0]) && !IsDefaultIgnorable(span[|span| - 1])
  {
    SpanStart(text, m);
    SpanLast(text, m);
  }

  lemma SpanStart(text: string, m: Match)
    requires m.from < m.to <= |Strip(text)|
    ensures Start(text, m) < |text| && !IsDefaultIgnorable(text[Start(text, m)])
  {
    VisibleMeaning(text, m.from);
  }

  lemma SpanLast(text: string, m: Match)
    requires m.from < m.to <= |Strip(text)|
    ensures 0 < End(text, m) <= |text| && !IsDefaultIgnorable(text[End(text, m) - 1])
  {
    VisibleMeaning(text, m.to - 1);
  }

  lemma WeaveCons(piece: string, span: string, pieces: seq<string>, spans: seq<string>)
    requires |pieces| == |spans| + 1
    ensures Weave([piece] + pieces, [span] + spans) == piece + span + Weave(pieces, spans)
  {
    assert ([piece] + pieces)[1..] == pieces;
    assert ([span] + spans)[1..] == spans;
  }

  lemma SpansCons(text: string, m: Match, ms: seq<Match>, span: string, spans: seq<string>)
    requires SpansOf(text, ms, spans) && Tight(text, m, span)
    ensures SpansOf(text, [m] + ms, [span] + spans)
  {
  }

  /** Outside the replaced spans the text survives unchanged and in order, invisible
      characters included; a span starts and ends with a visible character, so only
      invisible characters strictly inside a replaced match go with it. */
  lemma {:induction false} UntouchedOutside(text: string, ms: seq<Match>, c: nat, p: nat)
    returns (pieces: seq<string>, spans: seq<string>)
    requires MatchesFrom(ms, p, Strip(text)) && MatchesFrom(ms, 0, Strip(text)) && InStep(text, c, p)
    ensures SpansOf(text, Changed(Strip(text), ms), spans) && |pieces| == |spans| + 1
    ensures text[c..] == Weave(pieces, spans)
    ensures |Replacements(Changed(Strip(text), ms))| == |spans|
    ensures Redacted(text, ms, c) == Weave(pieces, Replacements(Changed(Strip(text), ms)))
    decreases |ms|
  {
    var shadow := Strip(text);
    if ms == [] {
      pieces, spans := [text[c..]], [];
    } else {
      var m, rest := ms[0], ms[1..];
      MatchesEarlier(rest, m.to, shadow);
      StartInStep(text, c, p, m);
      if IsKept(shadow, m) {
        assert MatchesFrom(rest, p, shadow);
        pieces, spans := UntouchedOutside(text, rest, c, p);
        assert Changed(shadow, ms) == Changed(shadow, rest);
      } else {
        EndInStep(text, c, p, m);
        var ps, ss := UntouchedOutside(text, rest, End(text, m), m.to);
        pieces, spans := AddPiece(text, c, p, m, Changed(shadow, rest), ps, ss);
      }
    }
  }

  lemma {:induction false} AddPiece(
    text: string, c: nat, p: nat, m: Match, changed: seq<Match>, ps: seq<string>, ss: seq<string>)
    returns (pieces: seq<string>, spans: seq<string>)
    requires InStep(text, c, p) && p <= m.from <= m.to <= |Strip(text)|
    requires c <= Start(text, m) <= End(text, m)
    requires SpansOf(text, changed, ss) && |ps| == |ss| + 1 && |Replacements(changed)| == |ss|
    requires text[End(text, m)..] == Weave(ps, ss)
    ensures SpansOf(text, [m] + changed, spans) && |pieces| == |spans| + 1
    ensures text[c..] == Weave(pieces, spans)
    ensures |Replacements([m] + changed)| == |spans|
    ensures Weave(pieces, Replacements([m] + changed))
            == text[c..Start(text, m)] + m.replaced + Weave(ps, Replacements(changed))
  {
    var piece, span := text[c..Start(text, m)], text[Start(text, m)..End(text, m)];
    pieces, spans := [piece] + ps, [span] + ss;
    SpanIsTight(text, m, c, p);
    SpansCons(text, m, changed, span, ss);
    WeaveCons(piece, span, ps, ss);
    WeaveCons(piece, m.replaced, ps, Replacements(changed));
    assert ([m] + changed)[1..] == changed;
    PieceAndSpan(text, c, Start(text, m), End(text, m));
  }

  lemma PieceAndSpan(text: string, c: nat, start: nat, end: nat)
    requires c <= start <= end <= |text|
    ensures text[c..] == text[c..start] + text[start..end] + text[end..]
  {
    SliceJoin(text, c, start, |text|);
    SliceJoin(text, start, end, |text|);
  }

  // ---- the loops -----------------------------------------------------------------------------------

  /** Byte `d` of the stripped text's character `j` came from byte `d` of the same character
      of the text. */
  ghost predicate ByteFrom(text: string, shadow: string, origin: seq<nat>, j: nat, d: nat)
    requires j < |shadow| && |shadow| == |Visible(text)|
  {
    Off(shadow, j) + d < |origin| && origin[Off(shadow, j) + d] == Off(text, Visible(text)[j]) + d
  }

  ghost predicate OriginOf(text: string, shadow: string, origin: seq<nat>) {
    && shadow == Strip(text) && |origin| == Bytes(shadow)
    && forall j: nat, d: nat :: j < |shadow| && d < Utf8Len(shadow[j]) ==> ByteFrom(text, shadow, origin, j, d)
  }

  lemma OriginSkips(text: string, c: char, shadow: string, origin: seq<nat>)
    requires OriginOf(text, shadow, origin) && IsDefaultIgnorable(c)
    ensures OriginOf(text + [c], shadow, origin)
  {
    var longer := text + [c];
    assert longer[..|text|] == text;
    forall j: nat, d: nat | j < |shadow| && d < Utf8Len(shadow[j])
      ensures ByteFrom(longer, shadow, origin, j, d)
    {
      assert ByteFrom(text, shadow, origin, j, d);
      OffPrefix(text, longer, Visible(text)[j]);
    }
  }

  /** `index..index + len`. */
  function Run(index: nat, len: nat): seq<nat> { seq(len, d => index + d) }

  lemma OldByte(text: string, c: char, shadow: string, origin: seq<nat>, more: seq<nat>, j: nat, d: nat)
    requires |shadow| == |Visible(text)| && j < |shadow| && !IsDefaultIgnorable(c)
    requires ByteFrom(text, shadow, origin, j, d)
    ensures |shadow + [c]| == |Visible(text + [c])|
    ensures ByteFrom(text + [c], shadow + [c], origin + more, j, d)
  {
    assert (text + [c])[..|text|] == text;
    OffPrefix(shadow, shadow + [c], j);
    OffPrefix(text, text + [c], Visible(text)[j]);
  }

  lemma NewByte(text: string, c: char, shadow: string, origin: seq<nat>, d: nat)
    requires |shadow| == |Visible(text)| && !IsDefaultIgnorable(c) && |origin| == Bytes(shadow) && d < Utf8Len(c)
    ensures |shadow + [c]| == |Visible(text + [c])|
    ensures ByteFrom(text + [c], shadow + [c], origin + Run(Bytes(text), Utf8Len(c)), |shadow|, d)
  {
    assert (text + [c])[..|text|] == text && (shadow + [c])[..|shadow|] == shadow;
  }

  lemma OriginAdds(text: string, c: char, shadow: string, origin: seq<nat>)
    requires OriginOf(text, shadow, origin) && !IsDefaultIgnorable(c)
    ensures OriginOf(text + [c], shadow + [c], origin + Run(Bytes(text), Utf8Len(c)))
  {
    var longer, shadow', origin' := text + [c], shadow + [c], origin + Run(Bytes(text), Utf8Len(c));
    assert longer[..|text|] == text && shadow'[..|shadow|] == shadow;
    forall j: nat, d: nat | j < |shadow'| && d < Utf8Len(shadow'[j])
      ensures ByteFrom(longer, shadow', origin', j, d)
    {
      if j < |shadow| {
        assert ByteFrom(text, shadow, origin, j, d);
        OldByte(text, c, shadow, origin, Run(Bytes(text), Utf8Len(c)), j, d);
      } else {
        NewByte(text, c, shadow, origin, d);
      }
    }
  }

  method BuildShadow(text: string) returns (shadow: string, origin: seq<nat>)
    ensures OriginOf(text, shadow, origin)
  {
    shadow, origin := [], [];
    var index: nat := 0;
    for k := 0 to |text|
      invariant index == Off(text, k)
      invariant OriginOf(text[..k], shadow, origin)
    {
      assert text[..k + 1] == text[..k] + [text[k]];
      OffNext(text, k);
      if IsDefaultIgnorable(text[k]) {
        OriginSkips(text[..k], text[k], shadow, origin);
      } else {
        OriginAdds(text[..k], text[k], shadow, origin);
        shadow, origin := shadow + [text[k]], origin + Run(index, Utf8Len(text[k]));
      }
      index := index + Utf8Len(text[k]);
    }
    assert text[..|text|] == text;
  }

  /** A match's byte span in the text, looked up through `origin`. */
  method SpanOf(text: string, shadow: string, origin: seq<nat>, m: Match) returns (start: nat, end: nat)
    requires OriginOf(text, shadow, origin) && m.from <= m.to <= |shadow|
    ensures start == Off(text, Start(text, m)) && end == Off(text, End(text, m))
  {
    var found, last := Off(shadow, m.from), Off(shadow, m.to);
    FoundOffsets(shadow, m.from);
    assert text[..|text|] == text;
    if m.from < |shadow| {
      assert ByteFrom(text, shadow, origin, m.from, 0);
    }
    start := if found < |origin| then origin[found] else Bytes(text);
    if m.from < m.to {
      LastByte(text, shadow, origin, m.to);
      OffGrows(shadow, m.from, m.to);
      assert last > found;
    }
    end := if last > found then origin[last - 1] + 1 else start;
  }

  lemma FoundOffsets(shadow: string, k: nat)
    requires k <= |shadow|
    ensures k < |shadow| <==> Off(shadow, k) < Bytes(shadow)
  {
    assert shadow[..|shadow|] == shadow;
    OffGrows(shadow, k, |shadow|);
  }

  lemma LastByte(text: string, shadow: string, origin: seq<nat>, to: nat)
    requires OriginOf(text, shadow, origin) && 0 < to <= |shadow|
    ensures 0 < Off(shadow, to) <= |origin|
    ensures origin[Off(shadow, to) - 1] + 1 == Off(text, Visible(text)[to - 1] + 1)
  {
    OffNext(shadow, to - 1);
    OffNext(text, Visible(text)[to - 1]);
    VisibleMeaning(text, to - 1);
    var d := Utf8Len(shadow[to - 1]) - 1;
    assert ByteFrom(text, shadow, origin, to - 1, d);
  }

  /** `redact_through_invisibles`, for a rule whose matches on the stripped text are
      `matches`. */
  method RedactThroughInvisibles(text: string, matches: seq<Match>) returns (output: string)
    requires MatchesFrom(matches, 0, Strip(text))
    ensures output == Redacted(text, matches, 0)
  {
    var shadow, origin := BuildShadow(text);
    output := [];
    var copied: nat := 0;
    ghost var c: nat := 0;
    var i := 0;
    assert matches[0..] == matches && text[..0] == [];
    while i < |matches|
      invariant i <= |matches| && c <= |text| && copied == Off(text, c)
      invariant MatchesFrom(matches[i..], 0, shadow)
      invariant output + Redacted(text, matches[i..], c) == Redacted(text, matches, 0)
    {
      output, copied, c := RewriteOne(text, shadow, origin, matches[i..], output, copied, c);
      assert matches[i..][1..] == matches[i + 1..];
      i := i + 1;
    }
    SliceIs(text, c, |text|);
    assert text[..|text|] == text;
    output := output + Slice(text, copied, Bytes(text));
  }

  /** The body of the loop, for the first of the matches that are left. */
  method RewriteOne(text: string, shadow: string, origin: seq<nat>, ms: seq<Match>, done: string, copied: nat, ghost c: nat)
    returns (output: string, copied': nat, ghost c': nat)
    requires OriginOf(text, shadow, origin) && ms != [] && MatchesFrom(ms, 0, shadow)
    requires c <= |text| && copied == Off(text, c)
    ensures c' <= |text| && copied' == Off(text, c') && MatchesFrom(ms[1..], 0, shadow)
    ensures output + Redacted(text, ms[1..], c') == done + Redacted(text, ms, c)
  {
    var m := ms[0];
    MatchesEarlier(ms[1..], m.to, shadow);
    var start, end := SpanOf(text, shadow, origin, m);
    if start < copied || m.replaced == shadow[m.from..m.to] {
      BeforeCopied(text, Start(text, m), c);
      return done, copied, c;
    }
    BeforeCopied(text, Start(text, m), c);
    SliceIs(text, c, Start(text, m));
    output := done + Slice(text, copied, start) + m.replaced;
    copied', c' := end, End(text, m);
    assert output + Redacted(text, ms[1..], c') == done + (text[c..Start(text, m)] + m.replaced + Redacted(text, ms[1..], c'));
  }

  lemma BeforeCopied(text: string, k: nat, c: nat)
    requires k <= |text| && c <= |text|
    ensures Off(text, k) < Off(text, c) <==> k < c
  {
    if k < c {
      OffGrows(text, k, c);
    } else {
      OffGrows(text, c, k);
    }
  }
}
