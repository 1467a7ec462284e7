/** The scrub's first pass: control and hidden characters are taken out before any pattern
    is tried, except inside a complete emoji flag sequence. */
module HiddenText {
  import opened Common
  import opened Redact

  predicate IsHidden(first: bool, c: char) {
    0x2061 <= c as int <= 0x2064 || 0xE0000 <= c as int <= 0xE007F || (c as int == 0xFEFF && !first)
  }

  predicate IsBidi(c: char) { 0x202A <= c as int <= 0x202E || 0x2066 <= c as int <= 0x2069 }

  /** `first`: the character is at byte offset 0. */
  predicate Kept(first: bool, c: char) {
    c == '\n' || c == '\r' || c == '\t' || !(IsControl(c) || IsBidi(c) || IsHidden(first, c))
  }

  predicate IsFlag(c: char) { c as int == 0x1F3F4 }

  predicate IsTag(c: char) { 0xE0020 <= c as int <= 0xE007E }

  predicate IsCancel(c: char) { c as int == 0xE007F }

  /** If `rest` opens with tag letters closed by a cancel tag, how many characters that is;
      otherwise 0. */
  function TagRun(rest: string, k: nat := 0): (n: nat)
    requires k <= |rest|
    ensures n <= |rest|
    decreases |rest| - k
  {
    if k == |rest| then 0
    else if IsTag(rest[k]) then TagRun(rest, k + 1)
    else if IsCancel(rest[k]) && k > 0 then k + 1
    else 0
  }

  method EmojiTagRunLen(rest: string) returns (len: nat)
    ensures len == Off(rest, TagRun(rest))
  {
    len := 0;
    assert rest[..0] == [];
    for k := 0 to |rest|
      invariant len == Off(rest, k)
      invariant TagRun(rest) == TagRun(rest, k)
      invariant len > 0 <==> k > 0
    {
      OffNext(rest, k);
      if IsTag(rest[k]) {
        len := len + Utf8Len(rest[k]);
      } else if IsCancel(rest[k]) && len > 0 {
        return len + Utf8Len(rest[k]);
      } else {
        return 0;
      }
    }
    return 0;
  }

  /** The text that survives the first pass. */
  function Cleaned(s: string, first: bool): string
    decreases |s|
  {
    if s == [] then []
    else if IsFlag(s[0]) then
      var n := TagRun(s[1..]);
      s[..1 + n] + Cleaned(s[1 + n..], false)
    else if Kept(first, s[0]) then [s[0]] + Cleaned(s[1..], false)
    else Cleaned(s[1..], false)
  }

  /** The first pass of `sanitize_external_text`. */
  method RemoveHidden(input: string) returns (cleaned: string)
    ensures cleaned == Cleaned(input, true)
  {
    cleaned := [];
    var offset: nat := 0;
    ghost var k := 0;
    assert input[..0] == [] && input[0..] == input;
    FoundOffsets(input, 0);
    while offset < Bytes(input)
      invariant k <= |input| && offset == Off(input, k)
      invariant cleaned + Cleaned(input[k..], k == 0) == Cleaned(input, true)
      decreases |input| - k
    {
      FoundOffsets(input, k);
      var copied: string;
      copied, offset, k := TakeNext(input, offset, k);
      cleaned := cleaned + copied;
    }
    FoundOffsets(input, k);
  }

  /** The next character, or the whole flag sequence it opens: what is copied of it, and
      the offset after it. */
  method TakeNext(input: string, offset: nat, ghost k: nat) returns (copied: string, next: nat, ghost after: nat)
    requires k < |input| && offset == Off(input, k)
    ensures k < after <= |input| && next == Off(input, after)
    ensures copied + Cleaned(input[after..], false) == Cleaned(input[k..], k == 0)
  {
    CharAtOff(input, k);
    var ch := input[CharAt(input, offset)];
    OffNext(input, k);
    OffGrows(input, 0, k);
    assert input[..0] == [];
    next := offset + Utf8Len(ch);
    if IsFlag(ch) {
      copied, next, after := TakeFlag(input, offset, next, k);
    } else {
      PlainStep(input, k);
      copied, after := if Kept(offset == 0, ch) then [ch] else [], k + 1;
    }
  }

  lemma FlagEnd(input: string, k: nat) returns (after: nat)
    requires k < |input| && IsFlag(input[k])
    ensures k < after <= |input|
    ensures Off(input, k + 1) + Off(input[k + 1..], TagRun(input[k + 1..])) == Off(input, after)
    ensures IsBoundary(input, Off(input, k)) && IsBoundary(input, Off(input, after))
    ensures CharAt(input, Off(input, k)) == k && CharAt(input, Off(input, after)) == after
    ensures input[k..after] + Cleaned(input[after..], false) == Cleaned(input[k..], k == 0)
  {
    var n := TagRun(input[k + 1..]);
    after := k + 1 + n;
    OffTail(input, k + 1, n);
    SliceIs(input, k, after);
    FlagStep(input, k);
  }

  method TakeFlag(input: string, offset: nat, next: nat, ghost k: nat)
    returns (copied: string, end: nat, ghost after: nat)
    requires k < |input| && offset == Off(input, k) && next == Off(input, k + 1) && IsFlag(input[k])
    ensures k < after <= |input| && end == Off(input, after)
    ensures copied + Cleaned(input[after..], false) == Cleaned(input[k..], k == 0)
  {
    CharAtOff(input, k + 1);
    var tags := EmojiTagRunLen(input[CharAt(input, next)..]);
    after := FlagEnd(input, k);
    end := next + tags;
    copied := Slice(input, offset, end);
  }

  lemma {:induction false} OffTail(s: string, k: nat, n: nat)
    requires k <= |s| && n <= |s[k..]|
    ensures Off(s, k) + Off(s[k..], n) == Off(s, k + n)
    decreases n
  {
    if n == 0 {
      assert s[k..][..0] == [];
    } else {
      OffTail(s, k, n - 1);
      OffNext(s, k + n - 1);
      OffNext(s[k..], n - 1);
    }
  }

  lemma FlagStep(input: string, k: nat)
    requires k < |input| && IsFlag(input[k])
    ensures var n := TagRun(input[k + 1..]);
            Cleaned(input[k..], k == 0) == input[k..k + 1 + n] + Cleaned(input[k + 1 + n..], false)
  {
    assert input[k..][1..] == input[k + 1..];
    var n := TagRun(input[k + 1..]);
    assert input[k..][..1 + n] == input[k..k + 1 + n];
    assert input[k..][1 + n..] == input[k + 1 + n..];
  }

  lemma PlainStep(input: string, k: nat)
    requires k < |input| && !IsFlag(input[k])
    ensures Cleaned(input[k..], k == 0)
            == (if Kept(k == 0, input[k]) then [input[k]] else []) + Cleaned(input[k + 1..], false)
  {
    assert input[k..][1..] == input[k + 1..];
  }

  // ---- meaning --------------------------------------------------------------------------------

  /** What is left never starts with a loose tag, so no new flag sequence appears. */
  lemma {:induction false} StartsWithoutTag(s: string, first: bool)
    ensures Cleaned(s, first) != [] ==> !IsTag(Cleaned(s, first)[0]) && !IsCancel(Cleaned(s, first)[0])
    decreases |s|
  {
    if s != [] && !IsFlag(s[0]) && !Kept(first, s[0]) {
      StartsWithoutTag(s[1..], false);
    }
  }

  lemma {:induction false} RunIsWhole(rest: string, tail: string, k: nat)
    requires k <= |rest| && k <= TagRun(rest, k) && TagRun(rest, k) > 0
    ensures k <= TagRun(rest, k) <= |rest|
    ensures TagRun(rest[..TagRun(rest, k)] + tail, k) == TagRun(rest, k)
    decreases |rest| - k
  {
    var n := TagRun(rest, k);
    RunReaches(rest, k);
    if IsTag(rest[k]) {
      RunIsWhole(rest, tail, k + 1);
    }
  }

  lemma {:induction false} RunReaches(rest: string, k: nat)
    requires k <= |rest| && TagRun(rest, k) > 0
    ensures k < TagRun(rest, k)
    decreases |rest| - k
  {
    if IsTag(rest[k]) {
      RunReaches(rest, k + 1);
    }
  }

  /** Scrubbing hidden characters once is enough. */
  lemma {:induction false} CleanedTwice(s: string, first: bool, again: bool)
    requires first ==> again
    ensures Cleaned(Cleaned(s, first), again) == Cleaned(s, first)
    decreases |s|
  {
    if s != [] {
      if IsFlag(s[0]) {
        FlagTwice(s, first, again);
      } else {
        CleanedTwice(s[1..], false, false);
        CleanedTwice(s[1..], false, again);
        if Kept(first, s[0]) {
          assert ([s[0]] + Cleaned(s[1..], false))[1..] == Cleaned(s[1..], false);
        }
      }
    }
  }

  lemma {:induction false} FlagTwice(s: string, first: bool, again: bool)
    requires s != [] && IsFlag(s[0])
    ensures Cleaned(Cleaned(s, first), again) == Cleaned(s, first)
    decreases |s|, 0
  {
    var n := TagRun(s[1..]);
    var tail := Cleaned(s[1 + n..], false);
    var out := s[..1 + n] + tail;
    CleanedTwice(s[1 + n..], false, false);
    FlagStays(s, tail);
    assert out[1 + n..] == tail && out[..1 + n] == s[..1 + n];
  }

  /** The characters the pass may remove, by code point: controls other than tab, line feed and
      carriage return, the bidirectional controls, the invisible operators, the tags, and the byte
      order mark. */
  predicate Removable(c: char) {
    var n := c as int;
    || (n < 0x20 && n != 0x09 && n != 0x0A && n != 0x0D) || 0x7F <= n <= 0x9F
    || 0x202A <= n <= 0x202E || 0x2066 <= n <= 0x2069 || 0x2061 <= n <= 0x2064
    || 0xE0000 <= n <= 0xE007F || n == 0xFEFF
  }

  /** Tag letters closed by a cancel tag at the start of `rest`, the cancel tag at `m`. */
  predicate ClosedRun(rest: string, m: nat) {
    0 < m < |rest| && (forall i :: 0 <= i < m ==> 0xE0020 <= rest[i] as int <= 0xE007E) && rest[m] as int == 0xE007F
  }

  /** A run counts if and only if it is closed, and counts up to the cancel tag. */
  lemma TagRunMeaning(rest: string, m: nat)
    ensures ClosedRun(rest, m) <==> TagRun(rest) == m + 1
  {
    TagRunFrom(rest, 0, m);
    if TagRun(rest) == m + 1 {
      RunReaches(rest, 0);
    }
  }

  lemma {:induction false} TagRunFrom(rest: string, k: nat, m: nat)
    requires k <= |rest| && forall i :: 0 <= i < k ==> IsTag(rest[i])
    ensures k <= m && ClosedRun(rest, m) ==> TagRun(rest, k) == m + 1
    ensures TagRun(rest, k) == m + 1 ==> ClosedRun(rest, m)
    decreases |rest| - k
  {
    if k < |rest| && IsTag(rest[k]) {
      TagRunFrom(rest, k + 1, m);
    }
  }

  /** The character at `i` belongs to the closed run behind a black flag. */
  predicate InFlag(s: string, i: nat) {
    exists j :: 0 <= j < i <= |s| && s[j] as int == 0x1F3F4 && i <= j + TagRun(s[j + 1..])
  }

  lemma InFlagBehind(x: string, s: string, i: nat)
    requires InFlag(s, i)
    ensures InFlag(x + s, |x| + i)
  {
    var j :| 0 <= j < i <= |s| && s[j] as int == 0x1F3F4 && i <= j + TagRun(s[j + 1..]);
    assert (x + s)[|x| + j] == s[j] && (x + s)[|x| + j + 1..] == s[j + 1..];
  }

  /** What the pass removes is gone: of those characters only a byte order mark at the very start
      and the closed tag runs of flags are left. */
  lemma {:induction false} NothingHidden(s: string, first: bool, i: nat)
    requires i < |Cleaned(s, first)| && Removable(Cleaned(s, first)[i])
    ensures (first && i == 0 && Cleaned(s, first)[0] as int == 0xFEFF) || InFlag(Cleaned(s, first), i)
    decreases |s|
  {
    if IsFlag(s[0]) {
      var n := TagRun(s[1..]);
      var tail := Cleaned(s[1 + n..], false);
      if i <= n {
        FlagStays(s, tail);
        assert Cleaned(s, first)[0] == s[0];
      } else {
        NothingHidden(s[1 + n..], false, i - 1 - n);
        InFlagBehind(s[..1 + n], tail, i - 1 - n);
      }
    } else if !Kept(first, s[0]) {
      NothingHidden(s[1..], false, i);
    } else if i > 0 {
      NothingHidden(s[1..], false, i - 1);
      InFlagBehind([s[0]], Cleaned(s[1..], false), i - 1);
    }
  }

  lemma FlagStays(s: string, tail: string)
    requires s != [] && IsFlag(s[0]) && tail == Cleaned(s[1 + TagRun(s[1..])..], false)
    ensures TagRun((s[..1 + TagRun(s[1..])] + tail)[1..]) == TagRun(s[1..])
  {
    var n := TagRun(s[1..]);
    assert (s[..1 + n] + tail)[1..] == s[1..][..n] + tail;
    if n == 0 {
      StartsWithoutTag(s[1..], false);
      assert s[1..][..0] + tail == tail && s[1 + n..] == s[1..];
    } else {
      RunIsWhole(s[1..], tail, 0);
    }
  }

  /** A byte order mark at the very start stays. */
  lemma FirstMarkStays(s: string)
    requires s != [] && s[0] as int == 0xFEFF
    ensures Cleaned(s, true) == [s[0]] + Cleaned(s[1..], false)
  {
  }

  /** The characters the pass never removes, wherever they stand. */
  function Plain(s: string): string {
    if s == [] then [] else (if Removable(s[0]) then [] else [s[0]]) + Plain(s[1..])
  }

  lemma {:induction false} PlainConcat(a: string, b: string)
    ensures Plain(a + b) == Plain(a) + Plain(b)
  {
    if a == [] {
      assert a + b == b;
    } else {
      assert (a + b)[1..] == a[1..] + b && (a + b)[0] == a[0];
      PlainConcat(a[1..], b);
      Regroup(if Removable(a[0]) then [] else [a[0]], Plain(a[1..]), Plain(b));
    }
  }

  lemma Regroup(a: string, b: string, c: string)
    ensures a + (b + c) == a + b + c
  {
  }

  /** No plain character is lost, added or moved. */
  lemma {:induction false} PlainSurvives(s: string, first: bool)
    ensures Plain(Cleaned(s, first)) == Plain(s)
    decreases |s|
  {
    if s != [] {
      if IsFlag(s[0]) {
        var n := TagRun(s[1..]);
        PlainSurvives(s[1 + n..], false);
        PlainConcat(s[..1 + n], Cleaned(s[1 + n..], false));
        PlainConcat(s[..1 + n], s[1 + n..]);
        assert s == s[..1 + n] + s[1 + n..];
      } else {
        PlainSurvives(s[1..], false);
        if Kept(first, s[0]) {
          assert ([s[0]] + Cleaned(s[1..], false))[1..] == Cleaned(s[1..], false);
        }
      }
    }
  }
}
