/** The texts archiving writes above the first section never hold a section heading. */
module ChangelogNote {
  import opened Common
  import opened TextLines
  import opened Changelog

  predicate Plain(s: string) { NoHeading(Lines(s)) }

  lemma PlainAppend(a: string, b: string)
    ensures Plain(a + "\n" + b) <==> Plain(a) && Plain(b)
  {
    LinesAppend(a, b);
    var la, lb := Lines(a), Lines(b);
    assert forall l :: l in la + lb <==> l in la || l in lb;
  }

  lemma PlainStripped(s: string)
    requires Plain(s)
    ensures Plain(RStrip(s))
  {
    RStripDropsLines(s);
  }

  /** A single line that does not start with two hashes. */
  predicate Body(s: string) { OneLine(s) && (|s| > 1 ==> s[0] != '#' || s[1] != '#') }

  lemma PlainOne(s: string)
    requires Body(s)
    ensures Plain(s)
  {
    LinesOfOne(s);
    assert |s| > 2 ==> s[..3][0] == s[0] && s[..3][1] == s[1];
  }

  // ---- what is written ------------------------------------------------------------------------

  lemma ShownStart(n: int)
    ensures Shown(n) != "" && OneLine(Shown(n)) && (Shown(n)[0] == '-' || IsDigit(Shown(n)[0]))
  {
    DecimalDigits(if n < 0 then -n else n);
  }

  lemma NoteLinkIs(m: nat)
    ensures NoteLink(m) != "" && NoteLink(m)[0] == '[' && OneLine(NoteLink(m))
  {
    DecimalDigits(m);
  }

  lemma {:induction false} JoinedLinks(majors: seq<nat>)
    requires majors != []
    ensures var s := Join(", ", NoteLinks(majors)); s != "" && s[0] == '[' && OneLine(s)
  {
    var n := |majors| - 1;
    NoteLinkIs(majors[n]);
    if n > 0 {
      JoinedLinks(majors[..n]);
      assert NoteLinks(majors[..n]) != [];
      JoinSnoc(", ", NoteLinks(majors[..n]), NoteLink(majors[n]));
    } else {
      assert NoteLinks(majors) == [NoteLink(majors[0])];
    }
  }

  lemma ListedIs(majors: seq<nat>)
    requires majors != []
    ensures Listed(majors) != "" && Listed(majors)[0] == '[' && OneLine(Listed(majors))
  {
    var n := |majors| - 1;
    NoteLinkIs(majors[n]);
    if n > 0 {
      JoinedLinks(majors[..n]);
    }
  }

  lemma ListedPlain(majors: seq<nat>)
    requires majors != []
    ensures Plain(Listed(majors) + ".")
  {
    ListedIs(majors);
    PlainDot(Listed(majors));
  }

  lemma PlainDot(s: string)
    requires s != "" && s[0] == '[' && OneLine(s)
    ensures Plain(s + ".")
  {
    PlainOne(s + ".");
  }

  lemma NoteDirPlain()
    ensures Plain(NOTE_DIR)
  {
    assert NOTE_DIR[0] == 'v';
    PlainOne(NOTE_DIR);
  }

  lemma FourLines(a: string, b: string, c: string, d: string)
    requires Plain(a) && Plain(b) && Plain(c) && Plain(d)
    ensures Plain(a + "\n" + b + "\n" + c + "\n" + d)
  {
    PlainAppend(a, b);
    PlainAppend(a + "\n" + b, c);
    PlainAppend(a + "\n" + b + "\n" + c, d);
  }

  lemma TitlePlain(v: string)
    requires OneLine(v)
    ensures Plain("# Changelog: " + v + ".x releases (archived)")
  {
    var one := "# Changelog: " + v + ".x releases (archived)";
    assert OneLine("# Changelog: ") && OneLine(".x releases (archived)") && one[1] == ' ';
    PlainOne(one);
  }

  lemma IntroPlain(v: string)
    requires OneLine(v)
    ensures Plain("The " + v + ARCHIVE_INTRO)
  {
    var two := "The " + v + ARCHIVE_INTRO;
    assert OneLine(".x release notes, moved out of") && OneLine(" the root `CHANGELOG.md` when the");
    assert two[0] == 'T';
    PlainOne(two);
  }

  lemma OutroPlain()
    ensures Plain(ARCHIVE_OUTRO)
  {
    var a, b := "next major line began.", " They are frozen like every released section.";
    assert OneLine(a) && OneLine(b);
    assert ARCHIVE_OUTRO == a + b && ARCHIVE_OUTRO[0] == 'n';
    PlainOne(a + b);
  }

  lemma HeadPlain(major: int)
    ensures Plain(ArchiveHead(major))
  {
    ShownStart(major);
    TitlePlain(Shown(major));
    IntroPlain(Shown(major));
    PlainOne("");
    OutroPlain();
    FourLines("# Changelog: " + Shown(major) + ".x releases (archived)", "",
              "The " + Shown(major) + ARCHIVE_INTRO,
              ARCHIVE_OUTRO);
  }

  // ---- the rewritten preamble -------------------------------------------------------------------

  /** The last line of `a` runs on into the first of `b`. */
  function Glued(a: seq<string>, b: seq<string>): seq<string>
    requires a != [] && b != []
  {
    var n := |a| - 1;
    a[..n] + [a[n] + b[0]] + b[1..]
  }

  lemma {:induction false} LinesGlue(a: string, b: string)
    ensures Lines(a + b) == Glued(Lines(a), Lines(b))
  {
    if a == "" {
      assert a + b == b && "" + Lines(b)[0] == Lines(b)[0];
      assert [Lines(b)[0]] + Lines(b)[1..] == Lines(b);
    } else {
      assert (a + b)[1..] == a[1..] + b;
      LinesGlue(a[1..], b);
      if a[0] == '\n' {
        GlueMore(Lines(a[1..]), Lines(b));
      } else {
        GlueLonger(a[0], Lines(a[1..]), Lines(b));
      }
    }
  }

  lemma GlueMore(a: seq<string>, b: seq<string>)
    requires a != [] && b != []
    ensures Glued([""] + a, b) == [""] + Glued(a, b)
  {
  }

  lemma GlueLonger(c: char, a: seq<string>, b: seq<string>)
    requires a != [] && b != []
    ensures Glued([[c] + a[0]] + a[1..], b) == [[c] + Glued(a, b)[0]] + Glued(a, b)[1..]
  {
    if |a| == 1 {
      assert [c] + a[0] + b[0] == [c] + (a[0] + b[0]);
    }
  }

  /** Whether a line is a heading is settled by what stands before its first `]`. */
  lemma HeadingIsLocal(l: string, x: string, y: string)
    requires ']' !in x && Heading(l + x).Some?
    ensures Heading(l + y).Some?
  {
    var i := IndexOf(']', (l + x)[3..][1..]);
    assert (l + x)[3..][1..][i] == (l + x)[i + 4];
    assert i + 4 < |l|;
    assert (l + y)[..3] == (l + x)[..3];
    assert (l + y)[3..][0] == (l + x)[3..][0];
    var t := (l + y)[3..][1..];
    assert t[..i] == (l + x)[3..][1..][..i] && t[i] == ']';
    IndexIs(']', t, i);
    assert (l + x)[3..][0] == '[' && 0 < i;
    assert StartsWith(l + y, "## ");
    assert Bracketed((l + y)[3..]).Some?;
  }

  lemma {:induction false} IndexIs(c: char, s: string, i: nat)
    requires i < |s| && s[i] == c && c !in s[..i]
    ensures IndexOf(c, s) == i
  {
    if i > 0 {
      assert s[..i][0] != c && s[1..][..i - 1] == s[..i][1..];
      IndexIs(c, s[1..], i - 1);
    }
  }

  /** A line cut at the marker and continued without a `]` is no heading either. */
  lemma PlainContinued(a: string, rest: string, more: string)
    requires Plain(a + (MARKER + rest)) && OneLine(more) && ']' !in more
    ensures Plain(a + (MARKER + more))
  {
    LinesOfOne(MARKER + more);
    assert ']' !in MARKER + more;
    PlainSwapped(a, MARKER + rest, MARKER + more);
  }

  lemma PlainSwapped(a: string, y: string, x: string)
    requires Plain(a + y) && Lines(x) == [x] && ']' !in x
    ensures Plain(a + x)
  {
    var n := |Lines(a)| - 1;
    var l := Lines(a)[n];
    LinesGlue(a, x);
    LinesGlue(a, y);
    assert l + Lines(y)[0] in Lines(a + y);
    if Heading(l + x).Some? {
      HeadingIsLocal(l, x, Lines(y)[0]);
    }
    assert forall k :: k in Lines(a)[..n] ==> k in Lines(a + y);
    assert Lines(a + x) == Lines(a)[..n] + [l + x];
  }

  lemma NotePlain(a: string, rest: string, majors: seq<nat>)
    requires Plain(a + (MARKER + rest)) && majors != []
    ensures Plain(a + Note(majors))
  {
    var more := " Earlier lines are archived per major";
    PlainContinued(a, rest, more);
    NoteDirPlain();
    ListedPlain(majors);
    ThreeLines(a, MARKER + more, NOTE_DIR, Listed(majors) + ".");
  }

  lemma ThreeLines(a: string, b: string, c: string, d: string)
    requires Plain(a + b) && Plain(c) && Plain(d)
    ensures Plain(a + (b + "\n" + c + "\n" + d))
  {
    PlainAppend(a + b, c);
    PlainAppend(a + b + "\n" + c, d);
    assert a + (b + "\n" + c + "\n" + d) == a + b + "\n" + c + "\n" + d;
  }

  lemma NoteClosed(a: string, after: string)
    requires Plain(a) && Plain(after)
    ensures Plain(a + "\n" + "" + "\n" + after)
  {
    PlainOne("");
    PlainAppend(a, "");
    PlainAppend(a + "\n" + "", after);
  }

  lemma AfterNote(preamble: string, i: nat, j: nat)
    requires i + |MARKER| + j + 2 <= |preamble| && Plain(preamble)
    requires preamble[i + |MARKER|..][j..j + 2] == "\n\n"
    ensures Plain(preamble[i + |MARKER|..][j + 2..])
  {
    var k := i + |MARKER| + j;
    assert preamble == preamble[..k] + "\n\n" + preamble[k + 2..];
    assert preamble[..k] + "\n\n" + preamble[k + 2..] == preamble[..k] + "\n" + ("\n" + preamble[k + 2..]);
    assert "\n" + preamble[k + 2..] == "" + "\n" + preamble[k + 2..];
    PlainAppend(preamble[..k], "\n" + preamble[k + 2..]);
    PlainAppend("", preamble[k + 2..]);
    assert preamble[i + |MARKER|..][j + 2..] == preamble[k + 2..];
  }

  lemma WithNotePlain(preamble: string, majors: seq<nat>)
    requires Plain(preamble)
    ensures Plain(WithNote(preamble, majors))
  {
    if majors != [] {
      match Find(preamble, MARKER)
      case None =>
        NoteAdded(preamble, majors);
      case Some(i) =>
        var rest := preamble[i + |MARKER|..];
        assert preamble == preamble[..i] + (MARKER + rest);
        NotePlain(preamble[..i], rest, majors);
        var after := match Find(rest, "\n\n") case Some(j) => rest[j + 2..] case None => "";
        PlainOne("");
        match Find(rest, "\n\n") {
          case Some(j) => AfterNote(preamble, i, j);
          case None =>
        }
        NoteClosed(preamble[..i] + Note(majors), after);
    }
  }

  lemma NoteAdded(preamble: string, majors: seq<nat>)
    requires Plain(preamble) && majors != []
    ensures Plain(RStrip(preamble) + "\n" + "" + "\n" + Note(majors) + "\n" + "" + "\n" + "")
  {
    PlainStripped(preamble);
    NoteAlone(majors);
    NoteClosed(RStrip(preamble), Note(majors));
    PlainOne("");
    NoteClosed(RStrip(preamble) + "\n" + "" + "\n" + Note(majors), "");
  }

  lemma NoteAlone(majors: seq<nat>)
    requires majors != []
    ensures Plain(Note(majors))
  {
    MarkerPlain();
    NotePlain("", "", majors);
    assert "" + Note(majors) == Note(majors);
  }

  lemma MarkerPlain()
    ensures Plain("" + (MARKER + ""))
  {
    assert "" + (MARKER + "") == MARKER && MARKER[0] == 'T';
    PlainOne(MARKER);
  }

  // ---- the majors the note lists --------------------------------------------------------------

  predicate Descending(ns: seq<nat>) { forall i, j :: 0 <= i < j < |ns| ==> ns[i] >= ns[j] }

  function MajorOf(name: string): nat
    requires IsMajorFile(name)
  {
    Number(name[..IndexOf('.', name)])
  }

  lemma DescendingCons(n: nat, down: seq<nat>)
    requires Descending(down) && forall m :: m in down ==> n >= m
    ensures Descending([n] + down)
  {
    forall j | 0 < j < |[n] + down|
      ensures n >= ([n] + down)[j]
    {
      assert down[j - 1] in down;
    }
  }

  lemma {:induction false} Inserted(n: nat, down: seq<nat>)
    requires Descending(down)
    ensures Descending(Insert(n, down)) && forall m :: m in Insert(n, down) <==> m == n || m in down
  {
    if down != [] && n < down[0] {
      var rest := down[1..];
      Inserted(n, rest);
      assert down == [down[0]] + rest;
      forall m | m in Insert(n, rest)
        ensures down[0] >= m
      {
        if m in rest {
          var i :| 0 <= i < |rest| && rest[i] == m;
          assert down[i + 1] == m;
        }
      }
      DescendingCons(down[0], Insert(n, rest));
    }
  }

  /** The note lists every archived major line, newest first, and nothing else. */
  lemma {:induction false} MajorsMeaning(files: seq<File>)
    ensures Descending(Majors(files))
    ensures forall m: nat :: m in Majors(files) <==> HasMajor(files, m)
  {
    if files != [] {
      var f, rest := files[0], files[1..];
      MajorsMeaning(rest);
      if IsMajorFile(f.name) {
        Inserted(MajorOf(f.name), Majors(rest));
      }
      forall m: nat
        ensures HasMajor(files, m) <==> (IsMajorFile(f.name) && MajorOf(f.name) == m) || HasMajor(rest, m)
      {
        MajorCons(f, rest, m);
        assert files == [f] + rest;
      }
    }
  }

  predicate HasMajor(files: seq<File>, m: nat) {
    exists f :: f in files && IsMajorFile(f.name) && MajorOf(f.name) == m
  }

  lemma MajorCons(f: File, rest: seq<File>, m: nat)
    ensures HasMajor([f] + rest, m) <==> (IsMajorFile(f.name) && MajorOf(f.name) == m) || HasMajor(rest, m)
  {
    var all := [f] + rest;
    if IsMajorFile(f.name) && MajorOf(f.name) == m {
      assert f in all;
    }
    if HasMajor(rest, m) {
      var g :| g in rest && IsMajorFile(g.name) && MajorOf(g.name) == m;
      assert g in all;
    }
  }

  lemma {:induction false} NumberOfDecimal(n: nat)
    ensures Digits(Decimal(n)) && Number(Decimal(n)) == n
  {
    DecimalDigits(n);
    if n >= 10 {
      NumberOfDecimal(n / 10);
      assert Decimal(n)[..|Decimal(n)| - 1] == Decimal(n / 10);
    } else {
      assert Decimal(n)[..0] == "";
    }
  }

  /** The file archiving writes is one of them. */
  lemma TargetIsMajor(major: nat)
    ensures IsMajorFile(Target(major)) && MajorOf(Target(major)) == major
  {
    NumberOfDecimal(major);
    var name, n := Target(major), |Decimal(major)|;
    assert name[..n] == Decimal(major) && name[n..] == ".x.md";
    assert forall c :: c in Decimal(major) ==> IsDigit(c);
    IndexIs('.', name, n);
  }
}
