/** What becomes of the text above the first section: archiving replaces the archive note, or adds
    one, and keeps everything else. */
module ChangelogPreamble {
  import opened Common
  import opened TextLines
  import opened Changelog
  import opened ChangelogSplit
  import opened ChangelogNote
  import ChangelogArchive

  // ---- finding ------------------------------------------------------------------------------

  predicate OccursAt(s: string, p: string, i: nat) { i + |p| <= |s| && s[i..i + |p|] == p }

  /** `p` stands in `s` at `i` and nowhere before. */
  predicate FirstAt(s: string, p: string, i: nat) { OccursAt(s, p, i) && forall j :: 0 <= j < i ==> !OccursAt(s, p, j) }

  predicate Absent(s: string, p: string) { forall j :: 0 <= j <= |s| ==> !OccursAt(s, p, j) }

  lemma OccursLater(s: string, p: string, i: nat)
    requires s != "" && i > 0
    ensures OccursAt(s, p, i) <==> OccursAt(s[1..], p, i - 1)
  {
    if i + |p| <= |s| {
      assert s[i..i + |p|] == s[1..][i - 1..i - 1 + |p|];
    }
  }

  lemma {:induction false} FindMeaning(s: string, p: string)
    ensures Find(s, p).Some? ==> FirstAt(s, p, Find(s, p).value)
    ensures Find(s, p).None? ==> Absent(s, p)
  {
    if !StartsWith(s, p) && s != "" {
      FindMeaning(s[1..], p);
      forall j: nat | j > 0 ensures OccursAt(s, p, j) <==> OccursAt(s[1..], p, j - 1) {
        OccursLater(s, p, j);
      }
      NotAtStart(s, p);
      if Find(s[1..], p).Some? {
        FirstLater(s, p, Find(s[1..], p).value);
      }
    } else {
      assert StartsWith(s, p) ==> OccursAt(s, p, 0);
    }
  }

  lemma NotAtStart(s: string, p: string)
    requires !StartsWith(s, p)
    ensures !OccursAt(s, p, 0)
  {
  }

  lemma FirstLater(s: string, p: string, i: nat)
    requires s != "" && !OccursAt(s, p, 0) && FirstAt(s[1..], p, i)
    ensures FirstAt(s, p, i + 1)
  {
    OccursLater(s, p, i + 1);
    forall j: nat | j < i + 1 ensures !OccursAt(s, p, j) {
      if j > 0 {
        OccursLater(s, p, j);
      }
    }
  }

  lemma FindIs(s: string, p: string, i: nat)
    requires FirstAt(s, p, i)
    ensures Find(s, p) == Some(i)
  {
    FindMeaning(s, p);
  }

  lemma FindNone(s: string, p: string)
    requires Absent(s, p)
    ensures Find(s, p).None?
  {
    FindMeaning(s, p);
  }

  // ---- replacing the note -----------------------------------------------------------------------

  const GAP := "\n\n"

  /** `s` holds an archive note: the first marker stands after `a`, and the first blank line after
      it before `rest`. */
  predicate NoteStands(s: string, a: string, note: string, rest: string) {
    && s == a + (MARKER + (note + (GAP + rest)))
    && FirstAt(s, MARKER, |a|) && FirstAt(note + (GAP + rest), GAP, |note|)
  }

  /** `s` ends in an archive note, with no blank line after the marker. */
  predicate NoteEnds(s: string, a: string, note: string) {
    s == a + (MARKER + note) && FirstAt(s, MARKER, |a|) && Absent(note, GAP)
  }

  lemma AfterMarker(s: string, a: string, more: string)
    requires s == a + (MARKER + more)
    ensures |a| + |MARKER| <= |s| && s[..|a|] == a && s[|a| + |MARKER|..] == more
  {
  }

  /** Between the untouched `a` and `rest`, the note is rewritten. */
  lemma NoteReplaced(s: string, a: string, note: string, rest: string, majors: seq<nat>)
    requires NoteStands(s, a, note, rest) && majors != []
    ensures WithNote(s, majors) == a + Note(majors) + GAP + rest
  {
    FindIs(s, MARKER, |a|);
    AfterMarker(s, a, note + (GAP + rest));
    FindIs(note + (GAP + rest), GAP, |note|);
    assert (note + (GAP + rest))[|note| + 2..] == rest;
    Reassembled(s, a, note + (GAP + rest), |note|, rest, majors);
  }

  lemma Reassembled(s: string, a: string, more: string, j: nat, rest: string, majors: seq<nat>)
    requires majors != [] && Find(s, MARKER) == Some(|a|) && s[..|a|] == a && s[|a| + |MARKER|..] == more
    requires Find(more, GAP) == Some(j) && more[j + 2..] == rest
    ensures WithNote(s, majors) == a + Note(majors) + GAP + rest
  {
    Closed(a + Note(majors), rest);
  }

  lemma Closed(x: string, rest: string)
    ensures x + "\n" + "" + "\n" + rest == x + GAP + rest
  {
  }

  lemma LastNoteReplaced(s: string, a: string, note: string, majors: seq<nat>)
    requires NoteEnds(s, a, note) && majors != []
    ensures WithNote(s, majors) == a + Note(majors) + GAP + ""
  {
    FindIs(s, MARKER, |a|);
    AfterMarker(s, a, note);
    FindNone(note, GAP);
    Closed(a + Note(majors), "");
  }

  /** Without a note, one is added behind the text. */
  lemma FirstNote(s: string, majors: seq<nat>)
    requires Absent(s, MARKER) && majors != []
    ensures WithNote(s, majors) == RStrip(s) + GAP + Note(majors) + GAP + ""
  {
    FindNone(s, MARKER);
    Closed(RStrip(s), Note(majors));
    Closed(RStrip(s) + GAP + Note(majors), "");
  }

  /** Every text is of one of the three kinds, in one way. */
  lemma ThreeKinds(s: string) returns (a: string, note: string, rest: string)
    ensures NoteStands(s, a, note, rest) || NoteEnds(s, a, note) || Absent(s, MARKER)
  {
    a, note, rest := "", "", "";
    FindMeaning(s, MARKER);
    if Find(s, MARKER).Some? {
      var i := Find(s, MARKER).value;
      a := s[..i];
      var more := s[i + |MARKER|..];
      CutAt(s, MARKER, i);
      note, rest := TwoKinds(more);
    }
  }

  lemma CutAt(s: string, p: string, i: nat)
    requires OccursAt(s, p, i)
    ensures s == s[..i] + (p + s[i + |p|..])
  {
  }

  lemma TwoKinds(more: string) returns (note: string, rest: string)
    ensures (more == note + (GAP + rest) && FirstAt(more, GAP, |note|)) || (more == note && Absent(note, GAP))
  {
    note, rest := more, "";
    FindMeaning(more, GAP);
    if Find(more, GAP).Some? {
      var j := Find(more, GAP).value;
      CutAt(more, GAP, j);
      note, rest := more[..j], more[j + 2..];
    }
  }

  /** What stands before the note and behind it, for a text of any kind. */
  ghost predicate Around(s: string, a: string, rest: string) {
    || (exists note :: NoteStands(s, a, note, rest))
    || (rest == "" && exists note :: NoteEnds(s, a, note))
    || (rest == "" && Absent(s, MARKER) && a == RStrip(s) + GAP)
  }

  lemma AroundSome(s: string) returns (a: string, rest: string)
    ensures Around(s, a, rest)
  {
    var note: string;
    a, note, rest := ThreeKinds(s);
    if Absent(s, MARKER) {
      a, rest := RStrip(s) + GAP, "";
    } else if !NoteStands(s, a, note, rest) {
      rest := "";
    }
  }

  /** Rewriting the note keeps what is around it. */
  lemma WithNoteIs(s: string, a: string, rest: string, majors: seq<nat>)
    requires Around(s, a, rest) && majors != []
    ensures WithNote(s, majors) == a + Note(majors) + GAP + rest
  {
    if note :| NoteStands(s, a, note, rest) {
      NoteReplaced(s, a, note, rest, majors);
    } else if note :| NoteEnds(s, a, note) && rest == "" {
      LastNoteReplaced(s, a, note, majors);
    } else {
      FirstNote(s, majors);
    }
  }

  // ---- the note itself ------------------------------------------------------------------------------

  /** No blank line inside, none begun at the end. */
  predicate Tight(x: string) {
    && x != "" && x[0] != '\n' && x[|x| - 1] != '\n'
    && forall i :: 0 <= i < |x| - 1 ==> !(x[i] == '\n' && x[i + 1] == '\n')
  }

  lemma TightLine(x: string)
    requires OneLine(x) && x != ""
    ensures Tight(x)
  {
    assert forall i :: 0 <= i < |x| ==> x[i] in x;
  }

  lemma TightLines(x: string, y: string)
    requires Tight(x) && Tight(y)
    ensures Tight(x + "\n" + y)
  {
    var z := x + "\n" + y;
    forall i | 0 <= i < |z| - 1 ensures !(z[i] == '\n' && z[i + 1] == '\n') {
      if i > |x| {
        assert z[i] == y[i - |x| - 1];
      }
    }
  }

  lemma TightEnds(x: string, rest: string)
    requires Tight(x)
    ensures FirstAt(x + (GAP + rest), GAP, |x|) && Absent(x + "\n", GAP)
  {
    var z := x + (GAP + rest);
    assert z[|x|..|x| + 2] == GAP;
    forall j | 0 <= j < |x| ensures !OccursAt(z, GAP, j) {
      assert z[j..j + 2][0] == x[j] && z[j..j + 2][1] == z[j + 1];
    }
    var y := x + "\n";
    forall j | 0 <= j <= |y| ensures !OccursAt(y, GAP, j) {
      if j + 2 <= |y| {
        assert y[j..j + 2][0] == x[j] && y[j..j + 2][1] == y[j + 1];
      }
    }
  }

  const NOTE_START := " Earlier lines are archived per major"

  /** The note is the marker and a text without a blank line. */
  lemma NoteIs(majors: seq<nat>) returns (tail: string)
    requires majors != []
    ensures Note(majors) == MARKER + tail && Tight(tail)
  {
    tail := NOTE_START + "\n" + NOTE_DIR + "\n" + (Listed(majors) + ".");
    ListedTight(majors);
    NoteDirTight();
    ThreeTight(NOTE_START, NOTE_DIR, Listed(majors) + ".");
    NoteJoined(MARKER, NOTE_START, NOTE_DIR, Listed(majors) + ".");
  }

  lemma NoteJoined(m: string, a: string, b: string, c: string)
    ensures m + a + "\n" + b + "\n" + c == m + (a + "\n" + b + "\n" + c)
  {
  }

  lemma ThreeTight(a: string, b: string, c: string)
    requires Tight(a) && Tight(b) && Tight(c)
    ensures Tight(a + "\n" + b + "\n" + c)
  {
    TightLines(a, b);
    TightLines(a + "\n" + b, c);
  }

  lemma ListedTight(majors: seq<nat>)
    requires majors != []
    ensures Tight(Listed(majors) + ".")
  {
    ListedIs(majors);
    TightLine(Listed(majors) + ".");
  }

  lemma NoteDirTight()
    ensures Tight(NOTE_START) && Tight(NOTE_DIR)
  {
    assert OneLine(NOTE_START);
    TightLine(NOTE_START);
    TightLine(NOTE_DIR);
  }

  // ---- what the note says --------------------------------------------------------------------------

  /** The links of a text, in order: each ends at a `)` and starts at the nearest `[` before. */
  function LinksIn(s: string): seq<string> {
    if s == "" then []
    else
      var n := |s| - 1;
      match if s[n] == ')' then LastOpen(s) else None
      case Some(i) => LinksIn(s[..i]) + [s[i..]]
      case None => LinksIn(s[..n])
  }

  function LastOpen(s: string): (i: Option<nat>)
    ensures i.Some? ==> i.value < |s|
  {
    if s == "" then None
    else if s[|s| - 1] == '[' then Some(|s| - 1)
    else LastOpen(s[..|s| - 1])
  }

  lemma {:induction false} LastOpenIs(a: string, b: string)
    requires b != "" && b[0] == '[' && '[' !in b[1..]
    ensures LastOpen(a + b) == Some(|a|)
  {
    var n := |b| - 1;
    assert (a + b)[|a + b| - 1] == b[n];
    if n > 0 {
      assert b[1..][n - 1] == b[n];
      assert (a + b)[..|a| + n] == a + b[..n];
      assert b[..n][1..] == b[1..][..n - 1];
      LastOpenIs(a, b[..n]);
    }
  }

  /** A `[`, a `)` at the end and neither between. */
  predicate LinkShaped(l: string) {
    l != "" && l[0] == '[' && '[' !in l[1..] && l[|l| - 1] == ')'
  }

  lemma LinkRead(a: string, l: string)
    requires LinkShaped(l)
    ensures LinksIn(a + l) == LinksIn(a) + [l]
  {
    LastOpenIs(a, l);
    assert (a + l)[|a + l| - 1] == l[|l| - 1];
    assert (a + l)[..|a|] == a && (a + l)[|a|..] == l;
  }

  lemma {:induction false} NoLinkRead(a: string, x: string)
    requires ')' !in x
    ensures LinksIn(a + x) == LinksIn(a)
  {
    if x == "" {
      assert a + x == a;
    } else {
      var n := |x| - 1;
      assert x[n] in x && (a + x)[|a + x| - 1] == x[n];
      assert (a + x)[..|a + x| - 1] == a + x[..n];
      assert forall c :: c in x[..n] ==> c in x;
      NoLinkRead(a, x[..n]);
    }
  }

  /** The link to the archive file of a major line. */
  function LinkTo(major: nat): string {
    "[" + Decimal(major) + ".x](docs/changelog/" + Decimal(major) + ".x.md)"
  }

  function LinksTo(majors: seq<nat>): seq<string> {
    seq(|majors|, k requires 0 <= k < |majors| => LinkTo(majors[k]))
  }

  lemma LinkToIs(major: nat)
    ensures NoteLink(major) == LinkTo(major) && LinkShaped(LinkTo(major))
  {
    var d := Decimal(major);
    DecimalDigits(major);
    assert forall c :: c in d ==> c != '[';
    SameLink(d);
    OneOpen(d, ".x](docs/changelog/", ".x.md)");
  }

  lemma SameLink(d: string)
    ensures "[" + d + ".x](" + ARCHIVE_DIR + "/" + d + ".x.md)" == "[" + d + ".x](docs/changelog/" + d + ".x.md)"
  {
    assert ".x](" + ARCHIVE_DIR + "/" == ".x](docs/changelog/";
    Regrouped("[" + d, ".x](", ARCHIVE_DIR, "/");
  }

  lemma Regrouped(a: string, b: string, c: string, d: string)
    ensures a + b + c + d == a + (b + c + d)
  {
  }

  lemma OneOpen(d: string, x: string, y: string)
    requires '[' !in d && '[' !in x && y != "" && '[' !in y && y[|y| - 1] == ')'
    ensures LinkShaped("[" + d + x + d + y)
  {
    assert ("[" + d + x + d + y)[1..] == d + x + d + y;
  }

  lemma ListedRead(before: string, majors: seq<nat>)
    requires majors != []
    ensures LinksIn(before + Listed(majors)) == LinksIn(before) + LinksTo(majors)
  {
    var n := |majors| - 1;
    LinkToIs(majors[n]);
    LinksSnoc(majors);
    if n == 0 {
      OneRead(before, majors);
    } else {
      JoinedRead(before, majors[..n]);
      AndHasNoLink();
      NextLink(before, Join(", ", NoteLinks(majors[..n])), " and ", LinkTo(majors[n]));
      Appended(LinksIn(before), LinksTo(majors[..n]), LinkTo(majors[n]));
    }
  }

  lemma AndHasNoLink()
    ensures ')' !in " and " && ')' !in ", "
  {
  }

  lemma Appended(a: seq<string>, b: seq<string>, l: string)
    ensures a + b + [l] == a + (b + [l])
  {
  }

  lemma LinksSnoc(majors: seq<nat>)
    requires majors != []
    ensures LinksTo(majors) == LinksTo(majors[..|majors| - 1]) + [LinkTo(majors[|majors| - 1])]
  {
  }

  lemma OneRead(before: string, majors: seq<nat>)
    requires |majors| == 1
    ensures NoteLinks(majors) == [NoteLink(majors[0])]
    ensures LinksIn(before + NoteLink(majors[0])) == LinksIn(before) + LinksTo(majors)
  {
    LinkToIs(majors[0]);
    LinkRead(before, LinkTo(majors[0]));
    assert LinksTo(majors) == [LinkTo(majors[0])];
  }

  lemma NextLink(before: string, front: string, sep: string, l: string)
    requires ')' !in sep && LinkShaped(l)
    ensures LinksIn(before + (front + sep + l)) == LinksIn(before + front) + [l]
  {
    NoLinkRead(before + front, sep);
    LinkRead(before + front + sep, l);
    Regrouped(before, front, sep, l);
  }

  lemma {:induction false} JoinedRead(before: string, majors: seq<nat>)
    requires majors != []
    ensures LinksIn(before + Join(", ", NoteLinks(majors))) == LinksIn(before) + LinksTo(majors)
  {
    var n := |majors| - 1;
    if n == 0 {
      OneRead(before, majors);
    } else {
      LinkToIs(majors[n]);
      LinksSnoc(majors);
      JoinedRead(before, majors[..n]);
      NoteLinksJoin(majors);
      AndHasNoLink();
      NextLink(before, Join(", ", NoteLinks(majors[..n])), ", ", LinkTo(majors[n]));
      Appended(LinksIn(before), LinksTo(majors[..n]), LinkTo(majors[n]));
    }
  }

  lemma NoteLinksJoin(majors: seq<nat>)
    requires |majors| > 1
    ensures var n := |majors| - 1;
            Join(", ", NoteLinks(majors)) == Join(", ", NoteLinks(majors[..n])) + ", " + NoteLink(majors[n])
  {
    var n := |majors| - 1;
    NoteLinksSize(majors[..n]);
    JoinSnoc(", ", NoteLinks(majors[..n]), NoteLink(majors[n]));
  }

  lemma {:induction false} NoteLinksSize(majors: seq<nat>)
    ensures |NoteLinks(majors)| == |majors|
  {
    if majors != [] {
      NoteLinksSize(majors[..|majors| - 1]);
    }
  }

  const DIR_LINK := "[" + ("`" + ARCHIVE_DIR + "/`](" + ARCHIVE_DIR + "/)")

  /** The links of the note: one to the directory, then one to the archive of each major line, in
      the order given. */
  lemma NoteReads(majors: seq<nat>)
    requires majors != []
    ensures LinksIn(Note(majors)) == [DIR_LINK] + LinksTo(majors)
  {
    var head := MARKER + NOTE_START + "\n" + NOTE_DIR + "\n";
    HeadReads();
    ListedRead(head, majors);
    DotRead(head, Listed(majors));
    NoteSplit(MARKER, majors);
  }

  lemma DotRead(head: string, listed: string)
    ensures LinksIn(head + (listed + ".")) == LinksIn(head + listed)
  {
    assert ')' !in ".";
    NoLinkRead(head + listed, ".");
    assert head + listed + "." == head + (listed + ".");
  }

  lemma NoteSplit(m: string, majors: seq<nat>)
    requires m == MARKER && majors != []
    ensures Note(majors) == m + NOTE_START + "\n" + NOTE_DIR + "\n" + (Listed(majors) + ".")
  {
  }

  lemma HeadReads()
    ensures LinksIn(MARKER + NOTE_START + "\n" + NOTE_DIR + "\n") == [DIR_LINK]
  {
    var open := MARKER + NOTE_START + "\n" + "version in ";
    OpenReads();
    DirLinkShape();
    LinkRead(open, DIR_LINK);
    assert ')' !in ":\n";
    NoLinkRead(open + DIR_LINK, ":\n");
    assert LinksIn(open) + [DIR_LINK] == [DIR_LINK];
    DirIs();
    HeadSplit(MARKER + NOTE_START + "\n");
  }

  lemma OpenReads()
    ensures LinksIn(MARKER + NOTE_START + "\n" + "version in ") == []
  {
    assert ')' !in MARKER && ')' !in NOTE_START && ')' !in "version in ";
    var open := MARKER + NOTE_START + "\n" + "version in ";
    assert ')' !in open;
    NoLinkRead("", open);
    assert "" + open == open;
  }

  lemma DirLinkShape()
    ensures LinkShaped(DIR_LINK)
  {
    assert '[' !in ARCHIVE_DIR;
    ShapedByEnd("`" + ARCHIVE_DIR + "/`](" + ARCHIVE_DIR + "/)");
  }

  lemma ShapedByEnd(x: string)
    requires '[' !in x && x != "" && x[|x| - 1] == ')'
    ensures LinkShaped("[" + x)
  {
    assert ("[" + x)[1..] == x;
  }

  lemma DirIs()
    ensures NOTE_DIR == "version in " + DIR_LINK + ":"
  {
    DirPieces(ARCHIVE_DIR);
  }

  lemma DirPieces(d: string)
    ensures "version in [`" + d + "/`](" + d + "/):" == "version in " + ("[" + ("`" + d + "/`](" + d + "/)")) + ":"
  {
  }

  lemma HeadSplit(a: string)
    requires NOTE_DIR == "version in " + DIR_LINK + ":"
    ensures a + NOTE_DIR + "\n" == a + "version in " + DIR_LINK + ":\n"
  {
  }

  // ---- rewriting again ---------------------------------------------------------------------------

  /** A marker put behind `a` is the first. */
  predicate Clear(a: string) { FirstAt(a + MARKER, MARKER, |a|) }

  lemma ClearStart(s: string, a: string, more: string)
    requires s == a + (MARKER + more)
    ensures FirstAt(s, MARKER, |a|) <==> Clear(a)
  {
    var t := a + MARKER;
    assert s[..|t|] == t;
    forall j | 0 <= j <= |a| ensures OccursAt(s, MARKER, j) <==> OccursAt(t, MARKER, j) {
      SlicesAgree(s, t, j, |MARKER|);
    }
  }

  lemma SlicesAgree(s: string, t: string, j: nat, n: nat)
    requires |t| <= |s| && s[..|t|] == t && j + n <= |t|
    ensures s[j..j + n] == t[j..j + n]
  {
    forall k | j <= k < j + n ensures s[k] == t[k] {
      assert s[..|t|][k] == t[k];
    }
  }

  lemma {:induction false} RStripStart(s: string)
    ensures |RStrip(s)| <= |s| && s[..|RStrip(s)|] == RStrip(s)
  {
    if s != "" && s[|s| - 1] == '\n' {
      RStripStart(s[..|s| - 1]);
    }
  }

  lemma ClearBehind(s: string)
    requires Absent(s, MARKER)
    ensures Clear(RStrip(s) + GAP)
  {
    var q, a := RStrip(s), RStrip(s) + GAP;
    var t := a + MARKER;
    RStripStart(s);
    MarkerIsLine();
    assert t[|a|..|a| + |MARKER|] == MARKER;
    forall j | 0 <= j < |a| ensures !OccursAt(t, MARKER, j) {
      if j + |MARKER| <= |q| {
        SlicesAgree(s, q, j, |MARKER|);
        SlicesAgree(t, q, j, |MARKER|);
        assert !OccursAt(s, MARKER, j);
      } else {
        var k := if j <= |q| then |q| else j;
        assert t[k] == '\n' && t[j..j + |MARKER|][k - j] == t[k];
      }
    }
  }

  lemma MarkerIsLine()
    ensures OneLine(MARKER) && |MARKER| > 2
  {
  }

  lemma AroundClear(s: string, a: string, rest: string)
    requires Around(s, a, rest)
    ensures Clear(a)
  {
    if note :| NoteStands(s, a, note, rest) {
      ClearStart(s, a, note + (GAP + rest));
    } else if note :| NoteEnds(s, a, note) {
      ClearStart(s, a, note);
    } else {
      ClearBehind(s);
    }
  }

  lemma {:induction false} RStripBehind(x: string, y: string)
    requires RStrip(y) != ""
    ensures RStrip(x + y) == x + RStrip(y)
  {
    if y[|y| - 1] == '\n' {
      assert (x + y)[..|x + y| - 1] == x + y[..|y| - 1];
      RStripBehind(x, y[..|y| - 1]);
    }
  }

  lemma {:induction false} RStripAway(x: string, y: string)
    requires RStrip(y) == ""
    ensures RStrip(x + y) == RStrip(x)
  {
    if y != "" {
      assert (x + y)[..|x + y| - 1] == x + y[..|y| - 1];
      RStripAway(x, y[..|y| - 1]);
    } else {
      assert x + y == x;
    }
  }

  /** What follows the note once the text is stripped. */
  function Ending(rest: string): string { if RStrip(rest) == "" then "" else GAP + RStrip(rest) }

  lemma GapStripped(rest: string)
    ensures RStrip(GAP + rest) == Ending(rest)
  {
    if RStrip(rest) == "" {
      RStripAway(GAP, rest);
      assert GAP[..1] == "\n" && "\n"[..0] == "";
      assert RStrip("\n") == "" && RStrip(GAP) == RStrip("\n");
    } else {
      RStripBehind(GAP, rest);
    }
  }

  lemma StrippedNote(a: string, tail: string, rest: string)
    requires Tight(tail)
    ensures RStrip(a + (MARKER + tail) + GAP + rest) == a + (MARKER + tail) + Ending(rest)
  {
    var x := a + (MARKER + tail);
    GapStripped(rest);
    assert x + GAP + rest == x + (GAP + rest);
    if RStrip(rest) == "" {
      RStripAway(x, GAP + rest);
      assert x[|x| - 1] == tail[|tail| - 1];
      assert x + "" == x;
    } else {
      RStripBehind(x, GAP + rest);
    }
  }

  /** The changelog keeps the text above its sections except for the note: what stood before the
      note and, up to newlines at the end, what stood behind it. */
  lemma OpeningIs(s: string, a: string, rest: string, majors: seq<nat>)
    requires Around(s, a, rest) && majors != []
    ensures RStrip(WithNote(s, majors)) == a + Note(majors) + Ending(rest)
  {
    WithNoteIs(s, a, rest, majors);
    var tail := NoteIs(majors);
    StrippedNote(a, tail, rest);
  }

  /** What stands behind the note once it has been written back and read again. */
  function RestAgain(rest: string): string { if RStrip(rest) == "" then "" else RStrip(rest) + "\n" }

  lemma AroundAgain(a: string, rest: string, majors: seq<nat>)
    requires Clear(a) && majors != []
    ensures Around(a + Note(majors) + Ending(rest) + "\n", a, RestAgain(rest))
  {
    var tail := NoteIs(majors);
    var s := a + Note(majors) + Ending(rest) + "\n";
    if RStrip(rest) == "" {
      assert s == a + (MARKER + (tail + "\n"));
      ClearStart(s, a, tail + "\n");
      TightEnds(tail, "");
      assert NoteEnds(s, a, tail + "\n");
    } else {
      var more := RStrip(rest) + "\n";
      FourPieces(a, MARKER, tail, GAP, RStrip(rest));
      ClearStart(s, a, tail + (GAP + more));
      TightEnds(tail, more);
      assert NoteStands(s, a, tail, more);
    }
  }

  lemma FourPieces(a: string, m: string, t: string, g: string, r: string)
    ensures a + (m + t) + (g + r) + "\n" == a + (m + (t + (g + (r + "\n"))))
  {
  }

  lemma EndingAgain(rest: string)
    ensures Ending(RestAgain(rest)) == Ending(rest)
  {
    if RStrip(rest) != "" {
      RStripNewline(RStrip(rest));
      RStripTwice(rest);
    }
  }

  lemma {:induction false} RStripTwice(s: string)
    ensures RStrip(RStrip(s)) == RStrip(s)
  {
    if s != "" && s[|s| - 1] == '\n' {
      RStripTwice(s[..|s| - 1]);
    }
  }

  /** Written back, read again and rewritten, the text is what it was: with the same major lines
      exactly, with others but for the list of links. */
  lemma RewrittenAgain(s: string, majors: seq<nat>, more: seq<nat>) returns (a: string, rest: string)
    requires majors != [] && more != []
    ensures Around(s, a, rest)
    ensures RStrip(WithNote(s, majors)) == a + Note(majors) + Ending(rest)
    ensures RStrip(WithNote(RStrip(WithNote(s, majors)) + "\n", more)) == a + Note(more) + Ending(rest)
  {
    a, rest := AroundSome(s);
    AroundClear(s, a, rest);
    OpeningIs(s, a, rest, majors);
    AroundAgain(a, rest, majors);
    OpeningIs(a + Note(majors) + Ending(rest) + "\n", a, RestAgain(rest), more);
    EndingAgain(rest);
  }

  // ---- the changelog ---------------------------------------------------------------------------------

  /** The changelog starts with `a` and ends its opening with `rest`; the note between links to the
      archives of exactly the archived major lines, newest first. */
  predicate NoteRewritten(u: Tree, a: string, rest: string) {
    var majors := Majors(u.archives);
    && majors != [] && Descending(majors)
    && LinksIn(Note(majors)) == [DIR_LINK] + LinksTo(majors)
    && StartsWith(u.main, a + Note(majors) + Ending(rest) + GAP)
  }

  /** Archiving rewrites only the note of the text above the sections, or adds one at its end, and
      that is read back. Only a negative major line, whose file is none of a major line, can leave
      a changelog without a note. */
  lemma ArchivedPreamble(t: Tree, p: Parts, major: int, a: string, rest: string)
    requires p == SplitText(t.main) && Moved(p, major) != [] && Around(p.preamble, a, rest)
    ensures var u := Archived(t, major);
            && (forall m: nat :: m in Majors(u.archives) <==> HasMajor(u.archives, m))
            && (major >= 0 ==> major in Majors(u.archives))
            && (if Majors(u.archives) == [] then StartsWith(u.main, RStrip(p.preamble) + GAP)
                else NoteRewritten(u, a, rest))
  {
    var majors := Majors(Rewritten(t, p, major).archives);
    MajorsMeaning(Rewritten(t, p, major).archives);
    PrintedStarts(RStrip(WithNote(p.preamble, majors)), Kept(p, major), KeptLinks(p, major));
    if majors != [] {
      NoteReads(majors);
      OpeningIs(p.preamble, a, rest, majors);
    }
    if major >= 0 {
      MajorIsListed(t, p, major);
    }
  }

  lemma MajorIsListed(t: Tree, p: Parts, major: nat)
    ensures major in Majors(Rewritten(t, p, major).archives)
  {
    var files := Rewritten(t, p, major).archives;
    MajorsMeaning(files);
    TargetIsMajor(major);
    ChangelogArchive.PutHolds(t.archives, Target(major), MovedText(p, major));
    assert HasMajor(files, major);
  }

  /** The archive file opens with a title and a paragraph that name its major line. */
  lemma ArchiveOpening(t: Tree, p: Parts, major: int)
    requires p == SplitText(t.main) && Moved(p, major) != []
    ensures SplitText(MovedText(p, major)).preamble
            == "# Changelog: " + Shown(major) + ".x releases (archived)\n\nThe " + Shown(major)
               + ARCHIVE_INTRO + "\n" + ARCHIVE_OUTRO + "\n"
  {
    SplitYields(t.main);
    ThoseIn(p.sections, Moves(Prefix(major)));
    ThoseIn(p.links, LinkMoves(Prefix(major)));
    HeadPlain(major);
    SplitPrinted(ArchiveHead(major), Moved(p, major), MovedLinks(p, major));
    HeadText(Shown(major));
  }

  lemma HeadText(v: string)
    ensures "# Changelog: " + v + ".x releases (archived)" + "\n" + "" + "\n"
            + ("The " + v + ARCHIVE_INTRO) + "\n" + ARCHIVE_OUTRO + "\n"
            == "# Changelog: " + v + ".x releases (archived)\n\nThe " + v
               + ARCHIVE_INTRO + "\n" + ARCHIVE_OUTRO + "\n"
  {
    TitleEnd();
    Eight("# Changelog: " + v, ".x releases (archived)", "The ", v, ARCHIVE_INTRO, ARCHIVE_OUTRO);
  }

  lemma TitleEnd()
    ensures ".x releases (archived)" + "\n\n" + "The " == ".x releases (archived)\n\nThe "
  {
  }

  lemma Eight(a: string, b: string, c: string, d: string, e: string, f: string)
    ensures a + b + "\n" + "" + "\n" + (c + d + e) + "\n" + f + "\n" == a + (b + "\n\n" + c) + d + e + "\n" + f + "\n"
  {
  }

  /** Read back, the text above the sections is that opening and an empty line. */
  lemma PreambleReadBack(t: Tree, p: Parts, major: int, a: string, rest: string)
    requires p == SplitText(t.main) && Moved(p, major) != [] && Kept(p, major) != []
    requires Around(p.preamble, a, rest) && Majors(Archived(t, major).archives) != []
    ensures var u := Archived(t, major);
            SplitText(u.main).preamble == a + Note(Majors(u.archives)) + Ending(rest) + "\n"
  {
    var majors := Majors(Rewritten(t, p, major).archives);
    OpeningIs(p.preamble, a, rest, majors);
    KeptPreamble(t, p, major, majors);
  }

  lemma PrintedStarts(opening: string, sections: seq<Section>, links: seq<string>)
    ensures StartsWith(Printed(opening, sections, links), opening + GAP)
  {
  }

  lemma KeptPreamble(t: Tree, p: Parts, major: int, majors: seq<nat>)
    requires p == SplitText(t.main) && Kept(p, major) != []
    ensures SplitText(KeptText(p, major, majors)).preamble == RStrip(WithNote(p.preamble, majors)) + "\n"
  {
    SplitYields(t.main);
    ThoseIn(p.sections, Stays(Prefix(major)));
    ThoseIn(p.links, LinkStays(Prefix(major)));
    WithNotePlain(p.preamble, majors);
    PlainStripped(WithNote(p.preamble, majors));
    SplitPrinted(RStrip(WithNote(p.preamble, majors)), Kept(p, major), KeptLinks(p, major));
  }
}
