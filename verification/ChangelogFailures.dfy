/** Ways in which archiving a major line changes what is read back, each as a tree for which
    the comparison with the base runs and reports the change: a section that runs into the
    link list, an archive file that is overwritten, a version that an earlier archive file
    holds with another text, and a link left to a changelog without sections. */
module ChangelogFailures {
  import opened Common
  import opened TextLines
  import opened Changelog
  import opened ChangelogSplit
  import opened ChangelogNote
  import opened ChangelogCollect
  import opened ChangelogArchive

  // ---- small files ----------------------------------------------------------------------------------

  function HeadingLine(v: string): string { "## [" + v + "]" }

  function LinkLine(v: string): string { "[" + v + "]: u" }

  /** A section of nothing but its heading. */
  function Bare(v: string): Section { Section(v, HeadingLine(v)) }

  /** A section whose last line is a link reference. */
  function Trailing(v: string): Section { Section(v, HeadingLine(v) + "\n" + LinkLine("n")) }

  predicate IsName(v: string) { v != "" && ']' !in v && OneLine(v) }

  lemma BracketedIs(v: string, rest: string)
    requires IsName(v)
    ensures Bracketed("[" + v + "]" + rest) == Some(v)
  {
    var s := "[" + v + "]" + rest;
    assert s[1..] == v + "]" + rest;
    assert s[1..][..|v|] == v;
    IndexIs(']', s[1..], |v|);
    assert s[1..|v| + 1] == v;
  }

  lemma HeadingIs(v: string)
    requires IsName(v)
    ensures Heading(HeadingLine(v)) == Some(v) && OneLine(HeadingLine(v)) && Lines(HeadingLine(v)) == [HeadingLine(v)]
  {
    var line := HeadingLine(v);
    assert line[..3] == "## " && line[3..] == "[" + v + "]" + "";
    BracketedIs(v, "");
    LinesOfOne(line);
  }

  lemma LinkIs(v: string)
    requires IsName(v)
    ensures LinkRef(LinkLine(v)) == Some(v) && Heading(LinkLine(v)).None?
    ensures OneLine(LinkLine(v)) && Lines(LinkLine(v)) == [LinkLine(v)]
  {
    var line := LinkLine(v);
    assert line == "[" + v + "]" + ": u";
    BracketedIs(v, ": u");
    assert line[|v| + 2..] == ": u";
    LinkIsNoHeading(line);
    LinesOfOne(line);
  }

  lemma BareIs(v: string)
    requires IsName(v)
    ensures IsSection(Bare(v)) && EndsWell(Bare(v))
  {
    HeadingIs(v);
    HeadingIsNoTail(HeadingLine(v));
  }

  lemma TrailingIs(v: string)
    requires IsName(v)
    ensures IsSection(Trailing(v)) && !EndsWell(Trailing(v))
  {
    HeadingIs(v);
    LinkIs("n");
    LinesAppend(HeadingLine(v), LinkLine("n"));
    assert Lines(Trailing(v).text) == [HeadingLine(v), LinkLine("n")];
    assert Lines(Trailing(v).text)[1..] == [LinkLine("n")];
  }

  const TITLE := "# Changelog"

  lemma TitlePlain()
    ensures Plain(TITLE)
  {
    assert TITLE[1] == ' ';
    PlainOne(TITLE);
  }

  const NO_FILES := Shelf(NOTHING, NOTHING, NOTHING)

  lemma OneInMap(s: Section)
    requires s.version != UNRELEASED
    ensures SectionMap([s]) == map[s.version := s.text]
  {
    MapSnoc([], s);
    assert [] + [s] == [s];
  }

  /** One section stays and one moves. */
  predicate OneEach(p: Parts, major: int, s: Section, m: Section) {
    && p.sections == [s, m] && Kept(p, major) == [s] && Moved(p, major) == [m]
    && s.version != UNRELEASED && m.version != UNRELEASED && s.version != m.version
    && IsSection(s) && IsSection(m) && EndsWell(m)
  }

  lemma ThoseOne<T>(a: T, p: T -> bool)
    ensures Those([a], p) == if p(a) then [a] else []
  {
    assert [a][..0] == [];
  }

  lemma ThoseTwo<T>(a: T, b: T, p: T -> bool)
    ensures Those([a, b], p) == (if p(a) then [a] else []) + (if p(b) then [b] else [])
  {
    assert [a, b][..1] == [a];
    ThoseOne(a, p);
  }

  lemma PartsOfTwo(p: Parts, major: int, s: Section, m: Section)
    requires p.sections == [s, m] && !StartsWith(s.version, Prefix(major)) && StartsWith(m.version, Prefix(major))
    ensures Kept(p, major) == [s] && Moved(p, major) == [m]
  {
    ThoseTwo(s, m, Stays(Prefix(major)));
    ThoseTwo(s, m, Moves(Prefix(major)));
  }

  lemma TwoSections(s: Section, m: Section, links: seq<string>)
    requires IsSection(s) && IsSection(m) && EndsWell(m) && AreLinks(links)
    ensures SplitText(Printed(TITLE, [s, m], links)).sections == [s, m]
    ensures SplitText(Printed(TITLE, [s, m], links)).links == links
  {
    TitlePlain();
    SplitUndoesPrint(TITLE, [s, m], links);
  }

  lemma KeptOne(p: Parts, major: int, s: Section)
    requires Kept(p, major) == [s] && s.version != UNRELEASED
    ensures KeptRead(p, major).sections == map[s.version := AtEnd(s).text]
  {
    assert [s][..0] + [AtEnd(s)] == [AtEnd(s)];
    OneInMap(AtEnd(s));
  }

  // ---- reported problems ------------------------------------------------------------------------------

  /** The comparison of the archived tree with the tree itself runs and reports `x`. */
  ghost predicate Refused(t: Tree, major: int, x: Problem) {
    && Comparable(t, Collected(Texts(Archived(t, major))))
    && IsProblem(Collected(Texts(t)), Collected(Texts(Archived(t, major))), x)
  }

  lemma RefusedFor(t: Tree, p: Parts, major: int, s: Section, x: Problem)
    requires p == SplitText(t.main) && Moved(p, major) != [] && s in p.sections && s.version != UNRELEASED
    requires IsProblem(Before(p, ShelfOf(t, major)), After(p, major, ShelfOf(t, major)), x)
    ensures Refused(t, major, x)
  {
    ThoseIn(p.sections, (s: Section) => s.version != UNRELEASED);
    assert s in Released(p.sections);
    ComparedAfter(t, p, major);
    TwoReadings(t, p, major);
  }

  lemma AtKept(k: map<string, string>, m: map<string, string>, k': map<string, string>, m': map<string, string>,
               a: map<string, string>, o: map<string, string>, b: map<string, string>, v: string)
    requires v in k && v in k' && v !in m && v !in m' && v !in a && v !in o && v !in b
    ensures v in (k + m) + ((a + o) + b) && ((k + m) + ((a + o) + b))[v] == k[v]
    ensures v in k' + ((a + m') + b) && (k' + ((a + m') + b))[v] == k'[v]
  {
  }

  lemma AtMoved(k: map<string, string>, m: map<string, string>, k': map<string, string>, m': map<string, string>,
                a: map<string, string>, o: map<string, string>, b: map<string, string>, v: string)
    requires v in m' && v in a && v !in o && v !in b
    ensures v in (k + m) + ((a + o) + b) && ((k + m) + ((a + o) + b))[v] == a[v]
    ensures v in k' + ((a + m') + b) && (k' + ((a + m') + b))[v] == m'[v]
  {
  }

  lemma AtOverwritten(k: map<string, string>, m: map<string, string>, k': map<string, string>, m': map<string, string>,
                      a: map<string, string>, o: map<string, string>, b: map<string, string>, v: string)
    requires v in o && v !in k' && v !in m' && v !in a && v !in b
    ensures v in (k + m) + ((a + o) + b) && v !in k' + ((a + m') + b)
  {
  }

  // ---- a section that runs into the link list -------------------------------------------------------------

  /** The newer section ends in a link line; left last in the changelog, it loses it. */
  const BAD_ENDING := Tree(Printed(TITLE, [Trailing("2.0"), Bare("1.1")], []), [])

  lemma EndingDiffers(p: Parts, major: int, s: Section, shelf: Shelf)
    requires Sound(p) && Kept(p, major) == [s] && s.version != UNRELEASED && IsSection(s) && !EndsWell(s)
    requires shelf == NO_FILES
    ensures IsProblem(Before(p, shelf), After(p, major, shelf), Differs(s.version))
  {
    OneInMap(s);
    AtEndDiffers(s);
    KeptOne(p, major, s);
    MapsApart(p, major);
    MapsBack(p, major);
    AtKept(SectionMap(Kept(p, major)), SectionMap(Moved(p, major)), KeptRead(p, major).sections,
           MovedRead(p, major).sections, map[], map[], map[], s.version);
  }

  lemma EndingLost()
    ensures Refused(BAD_ENDING, 1, Differs("2.0"))
  {
    TrailingIs("2.0");
    BareIs("1.1");
    TwoSections(Trailing("2.0"), Bare("1.1"), []);
    Versions();
    PartsOfTwo(SplitText(BAD_ENDING.main), 1, Trailing("2.0"), Bare("1.1"));
    NothingShelved(BAD_ENDING, 1);
    RefusesEnding(BAD_ENDING, 1, Trailing("2.0"));
  }

  lemma RefusesEnding(t: Tree, major: int, s: Section)
    requires Kept(SplitText(t.main), major) == [s] && Moved(SplitText(t.main), major) != []
    requires s in SplitText(t.main).sections
    requires s.version != UNRELEASED && IsSection(s) && !EndsWell(s) && ShelfOf(t, major) == NO_FILES
    ensures Refused(t, major, Differs(s.version))
  {
    SplitYields(t.main);
    EndingDiffers(SplitText(t.main), major, s, ShelfOf(t, major));
    RefusedFor(t, SplitText(t.main), major, s, Differs(s.version));
  }

  lemma Versions()
    ensures Prefix(1) == "1." && Target(1) == "1.x.md"
    ensures !StartsWith("2.0", Prefix(1)) && StartsWith("1.1", Prefix(1)) && StartsWith("1.0", Prefix(1))
  {
    assert Decimal(1) == ['1'];
    assert "2.0"[..2][0] == '2' && "1.1"[..2] == "1." && "1.0"[..2] == "1.";
  }

  lemma NothingShelved(t: Tree, major: int)
    requires t.archives == []
    ensures ShelfOf(t, major) == NO_FILES
  {
  }

  // ---- an archive file that is already there ----------------------------------------------------------------

  /** The major line has an archive file already, which holds an older section. */
  const OVERWRITES := Tree(Printed(TITLE, [Bare("2.0"), Bare("1.1")], []),
                           [File("1.x.md", Printed(TITLE, [Bare("1.0")], []))])

  lemma OverwrittenIsRemoved(p: Parts, major: int, s: Section, m: Section, shelf: Shelf, v: string)
    requires Sound(p) && OneEach(p, major, s, m) && shelf.earlier == NOTHING && shelf.later == NOTHING
    requires v in shelf.overwritten.sections && v != s.version && v != m.version
    ensures IsProblem(Before(p, shelf), After(p, major, shelf), Removed(v))
  {
    OneInMap(s);
    OneInMap(m);
    MapsApart(p, major);
    MapsBack(p, major);
    AtOverwritten(SectionMap(Kept(p, major)), SectionMap(Moved(p, major)), KeptRead(p, major).sections,
                  MovedRead(p, major).sections, map[], shelf.overwritten.sections, map[], v);
  }

  lemma ArchiveOverwritten()
    ensures Refused(OVERWRITES, 1, Removed("1.0"))
  {
    PartsHere();
    RefusesRemoved(OVERWRITES, 1, Bare("2.0"), Bare("1.1"), "1.0");
  }

  lemma RefusesRemoved(t: Tree, major: int, s: Section, m: Section, v: string)
    requires OneEach(SplitText(t.main), major, s, m) && v != s.version && v != m.version
    requires var shelf := ShelfOf(t, major);
             shelf.earlier == NOTHING && shelf.later == NOTHING && v in shelf.overwritten.sections
    ensures Refused(t, major, Removed(v))
  {
    SplitYields(t.main);
    OverwrittenIsRemoved(SplitText(t.main), major, s, m, ShelfOf(t, major), v);
    RefusedFor(t, SplitText(t.main), major, s, Removed(v));
  }

  lemma PartsHere()
    ensures OneEach(SplitText(OVERWRITES.main), 1, Bare("2.0"), Bare("1.1"))
    ensures var shelf := ShelfOf(OVERWRITES, 1);
            shelf.earlier == NOTHING && shelf.later == NOTHING && "1.0" in shelf.overwritten.sections
  {
    BareIs("2.0");
    BareIs("1.1");
    TwoSections(Bare("2.0"), Bare("1.1"), []);
    Versions();
    PartsOfTwo(SplitText(OVERWRITES.main), 1, Bare("2.0"), Bare("1.1"));
    SameName(OVERWRITES, 1);
    BareIs("1.0");
    FileOf(Bare("1.0"));
  }

  lemma SameName(t: Tree, major: int)
    requires |t.archives| == 1 && t.archives[0].name == Target(major)
    ensures ShelfOf(t, major) == Shelf(NOTHING, Read(t.archives[0].text), NOTHING)
  {
    assert t.archives[0] in t.archives;
    assert t.archives[..0] == [] && t.archives[1..] == [];
  }

  // ---- a version that stands in an earlier file as well --------------------------------------------------------

  /** A section of a heading and one line. */
  function Longer(v: string): Section { Section(v, HeadingLine(v) + "\n" + "x") }

  lemma LongerIs(v: string)
    requires IsName(v)
    ensures IsSection(Longer(v)) && EndsWell(Longer(v)) && Longer(v).text != HeadingLine(v)
  {
    HeadingIs(v);
    LinesAppend(HeadingLine(v), "x");
    LinesOfOne("x");
    assert Lines(Longer(v).text) == [HeadingLine(v), "x"];
    assert Lines(Longer(v).text)[1..] == ["x"];
    assert 'x' in "x" && !IsSpace('x');
  }

  /** An archive file read before the new one holds the version that moves, with another text:
      so far that text was read, and now the moved one is. */
  const TWICE := Tree(Printed(TITLE, [Bare("2.0"), Bare("1.1")], []),
                      [File("0.x.md", Printed(TITLE, [Longer("1.1")], []))])

  lemma EarlierDiffers(p: Parts, major: int, s: Section, m: Section, shelf: Shelf)
    requires Sound(p) && OneEach(p, major, s, m) && shelf.overwritten == NOTHING && shelf.later == NOTHING
    requires m.version in shelf.earlier.sections && shelf.earlier.sections[m.version] != m.text
    ensures IsProblem(Before(p, shelf), After(p, major, shelf), Differs(m.version))
  {
    MapsApart(p, major);
    MovedOne(p, major, m);
    AtMoved(SectionMap(Kept(p, major)), SectionMap(Moved(p, major)), KeptRead(p, major).sections,
            MovedRead(p, major).sections, shelf.earlier.sections, map[], map[], m.version);
  }

  lemma MovedOne(p: Parts, major: int, m: Section)
    requires Moved(p, major) == [m] && IsSection(m) && EndsWell(m) && m.version != UNRELEASED
    ensures MovedRead(p, major).sections == map[m.version := m.text]
  {
    ReadAsIs([m]);
    OneInMap(m);
  }

  lemma EarlierOverridden()
    ensures Refused(TWICE, 1, Differs("1.1"))
  {
    TwiceHere();
    RefusesEarlier(TWICE, 1, Bare("2.0"), Bare("1.1"));
  }

  lemma RefusesEarlier(t: Tree, major: int, s: Section, m: Section)
    requires OneEach(SplitText(t.main), major, s, m)
    requires var shelf := ShelfOf(t, major);
             && shelf.overwritten == NOTHING && shelf.later == NOTHING
             && m.version in shelf.earlier.sections && shelf.earlier.sections[m.version] != m.text
    ensures Refused(t, major, Differs(m.version))
  {
    SplitYields(t.main);
    EarlierDiffers(SplitText(t.main), major, s, m, ShelfOf(t, major));
    RefusedFor(t, SplitText(t.main), major, s, Differs(m.version));
  }

  lemma TwiceHere()
    ensures OneEach(SplitText(TWICE.main), 1, Bare("2.0"), Bare("1.1"))
    ensures var shelf := ShelfOf(TWICE, 1);
            && shelf.overwritten == NOTHING && shelf.later == NOTHING
            && "1.1" in shelf.earlier.sections && shelf.earlier.sections["1.1"] != HeadingLine("1.1")
  {
    BareIs("2.0");
    BareIs("1.1");
    TwoSections(Bare("2.0"), Bare("1.1"), []);
    Versions();
    PartsOfTwo(SplitText(TWICE.main), 1, Bare("2.0"), Bare("1.1"));
    LongerIs("1.1");
    FileOf(Longer("1.1"));
    EarlierName(TWICE, 1);
  }

  /** A file of one well ended section reads as that section. */
  lemma FileOf(s: Section)
    requires IsSection(s) && EndsWell(s) && s.version != UNRELEASED
    ensures Read(Printed(TITLE, [s], [])) == Collection(map[s.version := s.text], {})
  {
    TitlePlain();
    SplitUndoesPrint(TITLE, [s], []);
    OneInMap(s);
  }

  lemma EarlierName(t: Tree, major: int)
    requires |t.archives| == 1 && t.archives[0].name != "" && Target(major) != ""
    requires t.archives[0].name[0] < Target(major)[0]
    ensures ShelfOf(t, major) == Shelf(Read(t.archives[0].text), NOTHING, NOTHING)
  {
    var files := t.archives;
    assert !HasFile(files, Target(major)) && !NameBefore(Target(major), files[0].name);
    assert files[1..] == [] && files[..1] == files;
    assert PlaceFor(files, Target(major)) == 1;
    CollectedOne(files[0].text);
    assert ArchiveTexts(files) == [files[0].text];
  }

  // ---- a changelog left without sections ----------------------------------------------------------------------

  /** Only the major line is left in the changelog, and one link, whose section is archived. */
  const NO_SECTION := Tree(Printed(TITLE, [Bare("1.1")], [LinkLine("2.0")]),
                           [File("2.x.md", Printed(TITLE, [Bare("2.0")], []))])

  /** One section moves and one link is left over. */
  predicate OnlyMoved(p: Parts, major: int, m: Section, l: string) {
    && p.sections == [m] && Moved(p, major) == [m] && Kept(p, major) == []
    && p.links == [l] && MovedLinks(p, major) == []
    && IsSection(m) && EndsWell(m) && m.version != UNRELEASED
  }

  lemma LinkIsLost(p: Parts, major: int, m: Section, l: string, shelf: Shelf)
    requires Sound(p) && OnlyMoved(p, major, m, l) && shelf.earlier == NOTHING && shelf.overwritten == NOTHING
    requires KeptLinks(p, major) == [l] && LinkVersion(l) in shelf.later.sections && l !in shelf.later.links
    ensures IsProblem(Before(p, shelf), After(p, major, shelf), LinkLost(l))
  {
    MovedLinksHeld(p, major);
    KeptLinksHeld(p, major);
    assert LinkSet(MovedLinks(p, major)) == {};
    NotHeld(p, major, l, shelf);
    LinksAfter(p, major, shelf);
    KeysAfter(p, major, shelf);
    assert l in LinkSet(p.links);
  }

  lemma NotHeld(p: Parts, major: int, l: string, shelf: Shelf)
    requires KeptRead(p, major).links == {} && MovedRead(p, major).links == {} && shelf.earlier.links == {}
    requires l !in shelf.later.links && Kept(p, major) == [] && l in KeptLinks(p, major)
    ensures l in AtRisk(p, major, shelf) && l !in HeldLinks(p, major, shelf)
  {
  }

  lemma LinkWithoutFile()
    ensures Refused(NO_SECTION, 1, LinkLost(LinkLine("2.0")))
  {
    LinkHere();
    RefusesLost(NO_SECTION, 1, Bare("1.1"), LinkLine("2.0"));
  }

  lemma RefusesLost(t: Tree, major: int, m: Section, l: string)
    requires OnlyMoved(SplitText(t.main), major, m, l) && KeptLinks(SplitText(t.main), major) == [l]
    requires var shelf := ShelfOf(t, major);
             && shelf.earlier == NOTHING && shelf.overwritten == NOTHING
             && LinkVersion(l) in shelf.later.sections && l !in shelf.later.links
    ensures Refused(t, major, LinkLost(l))
  {
    SplitYields(t.main);
    LinkIsLost(SplitText(t.main), major, m, l, ShelfOf(t, major));
    RefusedFor(t, SplitText(t.main), major, m, LinkLost(l));
  }

  lemma LinkHere()
    ensures OnlyMoved(SplitText(NO_SECTION.main), 1, Bare("1.1"), LinkLine("2.0"))
    ensures KeptLinks(SplitText(NO_SECTION.main), 1) == [LinkLine("2.0")]
    ensures var shelf := ShelfOf(NO_SECTION, 1);
            && shelf.earlier == NOTHING && shelf.overwritten == NOTHING
            && LinkVersion(LinkLine("2.0")) in shelf.later.sections && LinkLine("2.0") !in shelf.later.links
  {
    BareIs("1.1");
    LinkIs("2.0");
    TitlePlain();
    SplitUndoesPrint(TITLE, [Bare("1.1")], [LinkLine("2.0")]);
    Versions();
    PartsOfOne(SplitText(NO_SECTION.main), 1, Bare("1.1"), LinkLine("2.0"));
    LaterName(NO_SECTION, 1);
    BareIs("2.0");
    FileOf(Bare("2.0"));
  }

  lemma PartsOfOne(p: Parts, major: int, m: Section, l: string)
    requires p.sections == [m] && StartsWith(m.version, Prefix(major))
    requires p.links == [l] && !StartsWith(LinkVersion(l), Prefix(major))
    ensures Moved(p, major) == [m] && Kept(p, major) == [] && MovedLinks(p, major) == [] && KeptLinks(p, major) == [l]
  {
    ThoseOne(m, Moves(Prefix(major)));
    ThoseOne(m, Stays(Prefix(major)));
    ThoseOne(l, LinkMoves(Prefix(major)));
    ThoseOne(l, LinkStays(Prefix(major)));
  }

  lemma LaterName(t: Tree, major: int)
    requires |t.archives| == 1 && t.archives[0].name != "" && Target(major) != ""
    requires Target(major)[0] < t.archives[0].name[0]
    ensures ShelfOf(t, major) == Shelf(NOTHING, NOTHING, Read(t.archives[0].text))
  {
    var files := t.archives;
    assert !HasFile(files, Target(major)) && NameBefore(Target(major), files[0].name);
    assert files[..0] == [] && files[0..] == files && files[1..] == [];
    CollectedOne(files[0].text);
    assert ArchiveTexts(files) == [files[0].text];
  }
}
