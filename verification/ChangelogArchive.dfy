/** What archiving a major line changes of what is read back: exactly when nothing, and what
    every release keeps. */
module ChangelogArchive {
  import opened Common
  import opened TextLines
  import opened Changelog
  import opened ChangelogSplit
  import opened ChangelogNote
  import opened ChangelogCollect

  // ---- before and after ------------------------------------------------------------------------------

  /** What the archive files before and after the one to be written read as, and that one if
      it is there already. */
  datatype Shelf = Shelf(earlier: Collection, overwritten: Collection, later: Collection)

  function ShelfOf(t: Tree, major: int): Shelf {
    Shelf(Archive(Earlier(t.archives, Target(major))), Overwritten(t.archives, Target(major)),
          Archive(Later(t.archives, Target(major))))
  }

  function Before(p: Parts, s: Shelf): Collection {
    Merge(ReadParts(p), Merge(Merge(s.earlier, s.overwritten), s.later))
  }

  function KeptRead(p: Parts, major: int): Collection { PrintedRead(Kept(p, major), KeptLinks(p, major)) }

  function MovedRead(p: Parts, major: int): Collection { PrintedRead(Moved(p, major), MovedLinks(p, major)) }

  function After(p: Parts, major: int, s: Shelf): Collection {
    Merge(KeptRead(p, major), Merge(Merge(s.earlier, MovedRead(p, major)), s.later))
  }

  lemma MovedReads(p: Parts, major: int)
    requires Sound(p)
    ensures Read(MovedText(p, major)) == PrintedRead(Moved(p, major), MovedLinks(p, major))
    ensures SplitText(MovedText(p, major)).sections == ReadBack(Moved(p, major))
    ensures SplitText(MovedText(p, major)).links == LinksBack(Moved(p, major), MovedLinks(p, major))
  {
    ThoseSections(p, major);
    HeadPlain(major);
    PrintedReads(ArchiveHead(major), Moved(p, major), MovedLinks(p, major));
  }

  lemma KeptReads(p: Parts, major: int, majors: seq<nat>)
    requires Sound(p)
    ensures Read(KeptText(p, major, majors)) == PrintedRead(Kept(p, major), KeptLinks(p, major))
    ensures SplitText(KeptText(p, major, majors)).sections == ReadBack(Kept(p, major))
    ensures SplitText(KeptText(p, major, majors)).links == LinksBack(Kept(p, major), KeptLinks(p, major))
  {
    ThoseSections(p, major);
    WithNotePlain(p.preamble, majors);
    PlainStripped(WithNote(p.preamble, majors));
    PrintedReads(RStrip(WithNote(p.preamble, majors)), Kept(p, major), KeptLinks(p, major));
  }

  /** Both readings of a tree, taken apart. */
  lemma TwoReadings(t: Tree, p: Parts, major: int)
    requires p == SplitText(t.main) && Moved(p, major) != []
    ensures Sound(p)
    ensures Collected(Texts(t)) == Before(p, ShelfOf(t, major))
    ensures Collected(Texts(Archived(t, major))) == After(p, major, ShelfOf(t, major))
  {
    SplitYields(t.main);
    CollectedTree(t);
    ArchiveSplit(t.archives, Target(major));
    ReadRewritten(t, p, major);
  }

  lemma ReadRewritten(t: Tree, p: Parts, major: int)
    requires Sound(p)
    ensures var s := ShelfOf(t, major);
            Archive(Rewritten(t, p, major).archives) == Merge(Merge(s.earlier, MovedRead(p, major)), s.later)
    ensures Collected(Texts(Rewritten(t, p, major))) == After(p, major, ShelfOf(t, major))
  {
    var text := MovedText(p, major);
    CollectedTree(Rewritten(t, p, major));
    PutReads(t.archives, Target(major), text);
    MovedReads(p, major);
    KeptReads(p, major, Majors(Put(t.archives, Target(major), text)));
  }

  lemma MapsApart(p: Parts, major: int)
    ensures var k, m := SectionMap(Kept(p, major)), SectionMap(Moved(p, major));
            k.Keys !! m.Keys && SectionMap(p.sections) == k + m
  {
    MapsPart(p.sections, Prefix(major));
  }

  lemma MapsBack(p: Parts, major: int)
    requires Sound(p)
    ensures KeptRead(p, major).sections.Keys == SectionMap(Kept(p, major)).Keys
    ensures MovedRead(p, major).sections.Keys == SectionMap(Moved(p, major)).Keys
    ensures EndingsKept(p, major)
            <==> KeptRead(p, major).sections == SectionMap(Kept(p, major))
                 && MovedRead(p, major).sections == SectionMap(Moved(p, major))
  {
    ThoseSections(p, major);
    ReadBackMap(Kept(p, major));
    ReadBackMap(Moved(p, major));
    MovedIsReleased(p, major);
  }

  lemma MovedIsReleased(p: Parts, major: int)
    ensures var m := Moved(p, major); m == [] || m[|m| - 1].version != UNRELEASED
  {
    ThoseIn(p.sections, Moves(Prefix(major)));
    NeverUnreleased(major);
    var m := Moved(p, major);
    assert m != [] ==> m[|m| - 1] in m;
  }

  /** Neither file is left ending in a released section that runs into the link list. */
  predicate EndingsKept(p: Parts, major: int) {
    && WellEnded(Moved(p, major))
    && (WellEnded(Kept(p, major)) || Kept(p, major)[|Kept(p, major)| - 1].version == UNRELEASED)
  }

  // ---- sections: the exact condition -----------------------------------------------------------------

  /** Of the sections `k` that stay, those no archive file overrides read from the end of
      their file as they did. */
  predicate KeptStand(k: map<string, string>, k': map<string, string>, a: map<string, string>, o: map<string, string>,
                      b: map<string, string>)
    requires k.Keys == k'.Keys
  {
    forall v :: v in k ==> v in a || v in o || v in b || k'[v] == k[v]
  }

  /** Of the sections `m` that move, those no later file overrides read from their new file
      what was read for them so far. */
  predicate MovedStand(m: map<string, string>, m': map<string, string>, a: map<string, string>, o: map<string, string>,
                       b: map<string, string>)
    requires m.Keys == m'.Keys
  {
    forall v :: v in m ==> v in b || m'[v] == (m + a + o)[v]
  }

  /** Of the sections `o` that are overwritten, those that are neither moved nor overridden
      are held elsewhere with the same text. */
  predicate OverwrittenStand(k': map<string, string>, m: map<string, string>, a: map<string, string>,
                             o: map<string, string>, b: map<string, string>)
  {
    forall v :: v in o ==> v in b || v in m || (v in k' + a && (k' + a)[v] == o[v])
  }

  lemma MapsStand(k: map<string, string>, m: map<string, string>, k': map<string, string>, m': map<string, string>,
                  a: map<string, string>, o: map<string, string>, b: map<string, string>)
    requires k.Keys == k'.Keys && m.Keys == m'.Keys && k.Keys !! m.Keys
    ensures (k' + ((a + m') + b)).Keys <= ((k + m) + ((a + o) + b)).Keys
    ensures k' + ((a + m') + b) == (k + m) + ((a + o) + b)
            <==> KeptStand(k, k', a, o, b) && MovedStand(m, m', a, o, b) && OverwrittenStand(k', m, a, o, b)
  {
    var x, y := k' + ((a + m') + b), (k + m) + ((a + o) + b);
    if x == y {
      StandsIfSame(k, m, k', m', a, o, b);
    }
    if KeptStand(k, k', a, o, b) && MovedStand(m, m', a, o, b) && OverwrittenStand(k', m, a, o, b) {
      SameIfStands(k, m, k', m', a, o, b);
    }
  }

  lemma StandsIfSame(k: map<string, string>, m: map<string, string>, k': map<string, string>, m': map<string, string>,
                     a: map<string, string>, o: map<string, string>, b: map<string, string>)
    requires k.Keys == k'.Keys && m.Keys == m'.Keys && k.Keys !! m.Keys
    requires k' + ((a + m') + b) == (k + m) + ((a + o) + b)
    ensures KeptStand(k, k', a, o, b) && MovedStand(m, m', a, o, b) && OverwrittenStand(k', m, a, o, b)
  {
    var x, y := k' + ((a + m') + b), (k + m) + ((a + o) + b);
    forall v | v in k && v !in a && v !in o && v !in b
      ensures k'[v] == k[v]
    {
      assert x[v] == k'[v] && y[v] == k[v];
    }
    forall v | v in m && v !in b
      ensures m'[v] == (m + a + o)[v]
    {
      assert x[v] == m'[v] && y[v] == (m + a + o)[v];
    }
    forall v | v in o && v !in b && v !in m
      ensures v in k' + a && (k' + a)[v] == o[v]
    {
      assert v in y && y[v] == o[v];
      assert v in x;
    }
  }

  lemma SameIfStands(k: map<string, string>, m: map<string, string>, k': map<string, string>, m': map<string, string>,
                     a: map<string, string>, o: map<string, string>, b: map<string, string>)
    requires k.Keys == k'.Keys && m.Keys == m'.Keys && k.Keys !! m.Keys
    requires KeptStand(k, k', a, o, b) && MovedStand(m, m', a, o, b) && OverwrittenStand(k', m, a, o, b)
    ensures k' + ((a + m') + b) == (k + m) + ((a + o) + b)
  {
    var x, y := k' + ((a + m') + b), (k + m) + ((a + o) + b);
    forall v | v in y
      ensures v in x && x[v] == y[v]
    {
      SameAt(k, m, k', m', a, o, b, v);
    }
    NoNewKeys(k, m, k', m', a, o, b);
  }

  lemma SameAt(k: map<string, string>, m: map<string, string>, k': map<string, string>, m': map<string, string>,
               a: map<string, string>, o: map<string, string>, b: map<string, string>, v: string)
    requires k.Keys == k'.Keys && m.Keys == m'.Keys && k.Keys !! m.Keys
    requires KeptStand(k, k', a, o, b) && MovedStand(m, m', a, o, b) && OverwrittenStand(k', m, a, o, b)
    requires v in (k + m) + ((a + o) + b)
    ensures v in k' + ((a + m') + b)
    ensures (k' + ((a + m') + b))[v] == ((k + m) + ((a + o) + b))[v]
  {
    if v in b {
    } else if v in m {
      assert m'[v] == (m + a + o)[v];
    } else if v in o {
      assert v in k' + a && (k' + a)[v] == o[v];
    } else if v !in a {
      assert k'[v] == k[v];
    }
  }

  lemma NoNewKeys(k: map<string, string>, m: map<string, string>, k': map<string, string>, m': map<string, string>,
                  a: map<string, string>, o: map<string, string>, b: map<string, string>)
    requires k.Keys == k'.Keys && m.Keys == m'.Keys
    ensures (k' + ((a + m') + b)).Keys <= ((k + m) + ((a + o) + b)).Keys
  {
  }

  /** All three, for one archiving. */
  predicate SectionsStand(p: Parts, major: int, s: Shelf)
    requires Sound(p)
  {
    MapsBack(p, major);
    var k, m := SectionMap(Kept(p, major)), SectionMap(Moved(p, major));
    var a, o, b := s.earlier.sections, s.overwritten.sections, s.later.sections;
    && KeptStand(k, KeptRead(p, major).sections, a, o, b)
    && MovedStand(m, MovedRead(p, major).sections, a, o, b)
    && OverwrittenStand(KeptRead(p, major).sections, m, a, o, b)
  }

  lemma SectionsIff(p: Parts, major: int, s: Shelf)
    requires Sound(p)
    ensures After(p, major, s).sections.Keys <= Before(p, s).sections.Keys
    ensures After(p, major, s).sections == Before(p, s).sections <==> SectionsStand(p, major, s)
  {
    MapsApart(p, major);
    MapsBack(p, major);
    MapsStand(SectionMap(Kept(p, major)), SectionMap(Moved(p, major)), KeptRead(p, major).sections,
              MovedRead(p, major).sections, s.earlier.sections, s.overwritten.sections, s.later.sections);
  }

  /** Archiving keeps every released text exactly when the kept, the moved and the overwritten
      sections stand. */
  lemma SectionsSurviveIff(t: Tree, p: Parts, major: int)
    requires p == SplitText(t.main)
    ensures Sound(p)
    ensures Collected(Texts(Archived(t, major))).sections == Collected(Texts(t)).sections
            <==> Moved(p, major) == [] || SectionsStand(p, major, ShelfOf(t, major))
  {
    SplitYields(t.main);
    if Moved(p, major) != [] {
      TwoReadings(t, p, major);
      SectionsIff(p, major, ShelfOf(t, major));
    }
  }

  // ---- links: the exact condition --------------------------------------------------------------------

  /** The links no file holds on to by itself: those overwritten, and those of a changelog
      left without sections. */
  function AtRisk(p: Parts, major: int, s: Shelf): set<string> {
    s.overwritten.links + if Kept(p, major) == [] then LinkSet(KeptLinks(p, major)) else {}
  }

  function HeldLinks(p: Parts, major: int, s: Shelf): set<string> {
    KeptRead(p, major).links + ((s.earlier.links + MovedRead(p, major).links) + s.later.links)
  }

  lemma LinksPart(p: Parts, major: int)
    ensures LinkSet(p.links) == LinkSet(KeptLinks(p, major)) + LinkSet(MovedLinks(p, major))
  {
    ThoseIn(p.links, LinkMoves(Prefix(major)));
    ThoseIn(p.links, LinkStays(Prefix(major)));
  }

  lemma MovedLinksHeld(p: Parts, major: int)
    requires Sound(p) && Moved(p, major) != []
    ensures LinkSet(MovedLinks(p, major)) <= MovedRead(p, major).links
    ensures WellEnded(Moved(p, major)) ==> MovedRead(p, major).links == LinkSet(MovedLinks(p, major))
  {
    ThoseSections(p, major);
    LinksBackIs(Moved(p, major), MovedLinks(p, major));
  }

  lemma KeptLinksHeld(p: Parts, major: int)
    requires Sound(p)
    ensures Kept(p, major) != [] ==> LinkSet(KeptLinks(p, major)) <= KeptRead(p, major).links
    ensures Kept(p, major) == [] ==> KeptRead(p, major).links == {}
    ensures WellEnded(Kept(p, major)) && Kept(p, major) != [] ==> KeptRead(p, major).links == LinkSet(KeptLinks(p, major))
  {
    if Kept(p, major) != [] {
      ThoseSections(p, major);
      LinksBackIs(Kept(p, major), KeptLinks(p, major));
    }
  }

  lemma Unions(k: set<string>, m: set<string>, k': set<string>, m': set<string>, a: set<string>, o: set<string>,
               b: set<string>, none: bool)
    requires m <= m' && (if none then k' == {} else k <= k')
    ensures var x, y := k' + ((a + m') + b), (k + m) + ((a + o) + b);
            forall l :: l in y <==> l in (o + if none then k else {}) || (l in y && l in x)
  {
  }

  lemma SameUnions(k: set<string>, m: set<string>, k': set<string>, m': set<string>, a: set<string>, o: set<string>,
                   b: set<string>, none: bool)
    requires m <= m' && (if none then k' == {} else k <= k')
    ensures var x, y := k' + ((a + m') + b), (k + m) + ((a + o) + b);
            x == y <==> o + (if none then k else {}) <= x && k' + m' <= y
  {
  }

  lemma LinksApart(p: Parts, major: int, s: Shelf)
    requires Sound(p) && Moved(p, major) != []
    ensures forall l :: l in Before(p, s).links <==>
              l in AtRisk(p, major, s) || (l in Before(p, s).links && l in HeldLinks(p, major, s))
  {
    LinksPart(p, major);
    MovedLinksHeld(p, major);
    KeptLinksHeld(p, major);
    Unions(LinkSet(KeptLinks(p, major)), LinkSet(MovedLinks(p, major)), KeptRead(p, major).links,
           MovedRead(p, major).links, s.earlier.links, s.overwritten.links, s.later.links, Kept(p, major) == []);
  }

  lemma LinksSameIff(p: Parts, major: int, s: Shelf)
    requires Sound(p) && Moved(p, major) != []
    ensures HeldLinks(p, major, s) == Before(p, s).links
            <==> AtRisk(p, major, s) <= HeldLinks(p, major, s)
                 && KeptRead(p, major).links + MovedRead(p, major).links <= Before(p, s).links
  {
    LinksPart(p, major);
    MovedLinksHeld(p, major);
    KeptLinksHeld(p, major);
    SameUnions(LinkSet(KeptLinks(p, major)), LinkSet(MovedLinks(p, major)), KeptRead(p, major).links,
               MovedRead(p, major).links, s.earlier.links, s.overwritten.links, s.later.links, Kept(p, major) == []);
  }

  lemma LinksAfter(p: Parts, major: int, s: Shelf)
    ensures After(p, major, s).links == HeldLinks(p, major, s)
  {
  }

  /** Every link line survives, and none appears, exactly when the links at risk are held and
      the two files read back no link that was not one before. */
  lemma LinksSurviveIff(t: Tree, p: Parts, major: int)
    requires p == SplitText(t.main)
    ensures Collected(Texts(Archived(t, major))).links == Collected(Texts(t)).links
            <==> Moved(p, major) == []
                 || (AtRisk(p, major, ShelfOf(t, major)) <= HeldLinks(p, major, ShelfOf(t, major))
                     && KeptRead(p, major).links + MovedRead(p, major).links <= Before(p, ShelfOf(t, major)).links)
  {
    if Moved(p, major) != [] {
      TwoReadings(t, p, major);
      LinksAfter(p, major, ShelfOf(t, major));
      LinksSameIff(p, major, ShelfOf(t, major));
    }
  }

  // ---- the comparison with the base -------------------------------------------------------------------

  /** The links at risk that a section still needs are held. */
  predicate NeededLinksKept(p: Parts, major: int, s: Shelf) {
    forall l :: l in AtRisk(p, major, s) && LinkVersion(l) in Before(p, s).sections ==> l in HeldLinks(p, major, s)
  }

  /** What the comparison lets pass when no version is new. */
  predicate Passes(b: Collection, h: Collection) {
    b.sections == h.sections && forall l :: l in b.links && LinkVersion(l) in b.sections ==> l in h.links
  }

  lemma NoProblemMeans(b: Collection, h: Collection)
    requires h.sections.Keys <= b.sections.Keys
    ensures NoProblem(b, h) <==> Passes(b, h)
  {
    if NoProblem(b, h) {
      forall v | v in b.sections
        ensures v in h.sections && b.sections[v] == h.sections[v]
      {
        assert !IsProblem(b, h, Removed(v)) && !IsProblem(b, h, Differs(v));
      }
      forall l | l in b.links && LinkVersion(l) in h.sections
        ensures l in h.links
      {
        assert !IsProblem(b, h, LinkLost(l));
      }
    }
  }

  lemma PassesIff(p: Parts, major: int, s: Shelf)
    requires Sound(p) && Moved(p, major) != []
    ensures Passes(Before(p, s), After(p, major, s)) <==> SectionsStand(p, major, s) && NeededLinksKept(p, major, s)
  {
    SectionsIff(p, major, s);
    LinksAfter(p, major, s);
    LinksApart(p, major, s);
  }

  lemma SamePasses(c: Collection)
    ensures NoProblem(c, c)
  {
  }

  /** The check run after archiving passes exactly when there is nothing to move, or the
      sections stand and the links they need are held. */
  lemma FrozenPassesIff(t: Tree, p: Parts, major: int)
    requires p == SplitText(t.main)
    ensures Sound(p)
    ensures NoProblem(Collected(Texts(t)), Collected(Texts(Archived(t, major))))
            <==> Moved(p, major) == []
                 || (SectionsStand(p, major, ShelfOf(t, major)) && NeededLinksKept(p, major, ShelfOf(t, major)))
  {
    SplitYields(t.main);
    if Moved(p, major) == [] {
      SamePasses(Collected(Texts(t)));
    } else {
      TwoReadings(t, p, major);
      SectionsIff(p, major, ShelfOf(t, major));
      NoProblemMeans(Before(p, ShelfOf(t, major)), After(p, major, ShelfOf(t, major)));
      PassesIff(p, major, ShelfOf(t, major));
    }
  }

  lemma {:induction false} ReleasedInMap(sections: seq<Section>, s: Section)
    requires s in sections && s.version != UNRELEASED
    ensures s.version in SectionMap(sections)
  {
    var n := |sections| - 1;
    assert sections == sections[..n] + [sections[n]];
    if s in sections[..n] {
      ReleasedInMap(sections[..n], s);
    }
  }

  /** The versions of the changelog are read after archiving too. */
  lemma StillRead(t: Tree, p: Parts, major: int)
    requires p == SplitText(t.main)
    ensures SectionMap(p.sections).Keys <= Collected(Texts(Archived(t, major))).sections.Keys
  {
    if Moved(p, major) == [] {
      CollectedTree(t);
    } else {
      TwoReadings(t, p, major);
      MapsApart(p, major);
      MapsBack(p, major);
      KeysAfter(p, major, ShelfOf(t, major));
    }
  }

  lemma KeysAfter(p: Parts, major: int, s: Shelf)
    ensures After(p, major, s).sections.Keys
            == KeptRead(p, major).sections.Keys + s.earlier.sections.Keys + MovedRead(p, major).sections.Keys
               + s.later.sections.Keys
  {
    FourKeys(KeptRead(p, major).sections, s.earlier.sections, MovedRead(p, major).sections, s.later.sections);
  }

  lemma FourKeys(k: map<string, string>, a: map<string, string>, m: map<string, string>, b: map<string, string>)
    ensures (k + ((a + m) + b)).Keys == k.Keys + a.Keys + m.Keys + b.Keys
  {
  }

  /** A changelog with a release is compared with what archiving makes of it. */
  lemma ComparedAfter(t: Tree, p: Parts, major: int)
    requires p == SplitText(t.main) && Released(p.sections) != []
    ensures Comparable(t, Collected(Texts(Archived(t, major))))
  {
    var s := Released(p.sections)[0];
    ThoseIn(p.sections, (s: Section) => s.version != UNRELEASED);
    assert s in Released(p.sections);
    ReleasedInMap(p.sections, s);
    StillRead(t, p, major);
  }

  lemma VerdictIs(base: Tree, head: Tree, v: Verdict)
    requires Says(base, head, v) && Comparable(base, Collected(Texts(head)))
    ensures v == Unmodified <==> NoProblem(Collected(Texts(base)), Collected(Texts(head)))
  {
    if v.Modified? {
      assert v.problems[0] in v.problems;
      assert IsProblem(Collected(Texts(base)), Collected(Texts(head)), v.problems[0]);
    }
  }

  /** The verdict on an archived changelog that has a release: nothing was modified, exactly
      under that condition. */
  lemma VerdictIff(t: Tree, p: Parts, major: int, v: Verdict)
    requires p == SplitText(t.main) && Released(p.sections) != [] && Says(t, Archived(t, major), v)
    ensures Sound(p)
    ensures v == Unmodified
            <==> Moved(p, major) == []
                 || (SectionsStand(p, major, ShelfOf(t, major)) && NeededLinksKept(p, major, ShelfOf(t, major)))
  {
    ComparedAfter(t, p, major);
    VerdictIs(t, Archived(t, major), v);
    FrozenPassesIff(t, p, major);
  }

  // ---- distinct versions --------------------------------------------------------------------------------

  /** No released version of the changelog is archived already. */
  predicate Apart(p: Parts, archive: Collection) { SectionMap(p.sections).Keys !! archive.sections.Keys }

  function Shelved(s: Shelf): Collection { Merge(Merge(s.earlier, s.overwritten), s.later) }

  /** Everything the overwritten file holds is held by another archive file as well. */
  predicate HeldElsewhere(s: Shelf) {
    forall v :: v in s.overwritten.sections ==>
      v in s.later.sections || (v in s.earlier.sections && s.earlier.sections[v] == s.overwritten.sections[v])
  }

  /** With no version in two places, the sections stand exactly when both files end well and
      nothing is overwritten that is not held elsewhere. */
  lemma DistinctStand(p: Parts, major: int, s: Shelf)
    requires Sound(p) && Apart(p, Shelved(s))
    ensures SectionsStand(p, major, s) <==> EndingsKept(p, major) && HeldElsewhere(s)
  {
    MapsApart(p, major);
    MapsBack(p, major);
    var k, m := SectionMap(Kept(p, major)), SectionMap(Moved(p, major));
    assert (k + m).Keys == k.Keys + m.Keys;
    DistinctMaps(k, m, KeptRead(p, major).sections, MovedRead(p, major).sections, s.earlier.sections,
                 s.overwritten.sections, s.later.sections);
  }

  lemma DistinctMaps(k: map<string, string>, m: map<string, string>, k': map<string, string>, m': map<string, string>,
                     a: map<string, string>, o: map<string, string>, b: map<string, string>)
    requires k.Keys == k'.Keys && m.Keys == m'.Keys && (k.Keys + m.Keys) !! (a.Keys + o.Keys + b.Keys)
    ensures KeptStand(k, k', a, o, b) <==> k' == k
    ensures MovedStand(m, m', a, o, b) <==> m' == m
    ensures OverwrittenStand(k', m, a, o, b) <==> forall v :: v in o ==> v in b || (v in a && a[v] == o[v])
  {
  }

  /** The link was in the overwritten file, or in a changelog left without sections. */
  predicate Loose(p: Parts, major: int, s: Shelf, l: string) {
    l in s.overwritten.links || (Kept(p, major) == [] && l in KeptLinks(p, major))
  }

  /** The link stands in the changelog that is left, in the new archive file, or in another. */
  predicate StandsElsewhere(p: Parts, major: int, s: Shelf, l: string) {
    || (Kept(p, major) != [] && l in KeptLinks(p, major))
    || l in MovedLinks(p, major) || l in s.earlier.links || l in s.later.links
  }

  lemma LooseIs(p: Parts, major: int, s: Shelf, l: string)
    ensures l in AtRisk(p, major, s) <==> Loose(p, major, s, l)
  {
  }

  lemma ElsewhereIs(p: Parts, major: int, s: Shelf, l: string)
    requires Sound(p) && Moved(p, major) != [] && WellEnded(Moved(p, major)) && WellEnded(Kept(p, major))
    ensures l in HeldLinks(p, major, s) <==> StandsElsewhere(p, major, s, l)
  {
    MovedLinksHeld(p, major);
    KeptLinksHeld(p, major);
    assert l in HeldLinks(p, major, s)
      <==> l in KeptRead(p, major).links || l in s.earlier.links || l in MovedRead(p, major).links || l in s.later.links;
  }

  /** For well ended files the condition on links: an overwritten link, or one of a changelog
      left without sections, that a section still needs stands elsewhere. */
  lemma WellEndedLinks(p: Parts, major: int, s: Shelf)
    requires Sound(p) && Moved(p, major) != [] && WellEnded(Moved(p, major)) && WellEnded(Kept(p, major))
    ensures NeededLinksKept(p, major, s)
            <==> forall l :: Loose(p, major, s, l) && LinkVersion(l) in Before(p, s).sections
                             ==> StandsElsewhere(p, major, s, l)
  {
    forall l
      ensures l in AtRisk(p, major, s) <==> Loose(p, major, s, l)
      ensures l in HeldLinks(p, major, s) <==> StandsElsewhere(p, major, s, l)
    {
      LooseIs(p, major, s, l);
      ElsewhereIs(p, major, s, l);
    }
  }

  /** An archive file that is new, distinct versions, and something to move. */
  ghost predicate Ready(t: Tree, p: Parts, major: int) {
    && p == SplitText(t.main)
    && !HasFile(t.archives, Target(major))
    && Apart(p, Archive(t.archives))
    && Moved(p, major) != []
  }

  /** Everything survives. */
  lemma ArchiveKeepsAll(t: Tree, p: Parts, major: int)
    requires Ready(t, p, major) && WellEnded(Moved(p, major)) && WellEnded(Kept(p, major))
    requires Kept(p, major) != []
    ensures Collected(Texts(Archived(t, major))) == Collected(Texts(t))
  {
    SplitYields(t.main);
    ArchiveSplit(t.archives, Target(major));
    DistinctStand(p, major, ShelfOf(t, major));
    SectionsSurviveIff(t, p, major);
    MovedLinksHeld(p, major);
    KeptLinksHeld(p, major);
    LinksPart(p, major);
    LinksSurviveIff(t, p, major);
  }

  /** A section is moved when its version is of the major line, and kept when it is not. */
  lemma MovedByVersion(p: Parts, major: int)
    ensures forall s :: s in Moved(p, major) <==> s in p.sections && StartsWith(s.version, Prefix(major))
    ensures forall s :: s in Kept(p, major) <==> s in p.sections && !StartsWith(s.version, Prefix(major))
    ensures forall l :: l in MovedLinks(p, major) <==> l in p.links && StartsWith(LinkVersion(l), Prefix(major))
    ensures forall l :: l in KeptLinks(p, major) <==> l in p.links && !StartsWith(LinkVersion(l), Prefix(major))
  {
    ThoseIn(p.sections, Moves(Prefix(major)));
    ThoseIn(p.sections, Stays(Prefix(major)));
    ThoseIn(p.links, LinkMoves(Prefix(major)));
    ThoseIn(p.links, LinkStays(Prefix(major)));
  }

  /** Everything is where it belongs: the archive file holds the sections and links of the
      major line, the changelog all others, both in their old order. */
  lemma ArchivePlaces(t: Tree, p: Parts, major: int)
    requires p == SplitText(t.main) && Moved(p, major) != [] && Kept(p, major) != []
    requires WellEnded(Moved(p, major)) && WellEnded(Kept(p, major))
    ensures File(Target(major), MovedText(p, major)) in Archived(t, major).archives
    ensures SplitText(Archived(t, major).main).sections == Kept(p, major)
    ensures SplitText(Archived(t, major).main).links == KeptLinks(p, major)
    ensures SplitText(MovedText(p, major)).sections == Moved(p, major)
    ensures SplitText(MovedText(p, major)).links == MovedLinks(p, major)
  {
    SplitYields(t.main);
    PutHolds(t.archives, Target(major), MovedText(p, major));
    PartsPlaced(p, major, Majors(Rewritten(t, p, major).archives));
  }

  lemma PartsPlaced(p: Parts, major: int, majors: seq<nat>)
    requires Sound(p) && Moved(p, major) != [] && Kept(p, major) != []
    requires WellEnded(Moved(p, major)) && WellEnded(Kept(p, major))
    ensures SplitText(KeptText(p, major, majors)).sections == Kept(p, major)
    ensures SplitText(KeptText(p, major, majors)).links == KeptLinks(p, major)
    ensures SplitText(MovedText(p, major)).sections == Moved(p, major)
    ensures SplitText(MovedText(p, major)).links == MovedLinks(p, major)
  {
    ThoseSections(p, major);
    KeptReads(p, major, majors);
    MovedReads(p, major);
    BackUnchanged(Kept(p, major), KeptLinks(p, major));
    BackUnchanged(Moved(p, major), MovedLinks(p, major));
  }

  lemma BackUnchanged(sections: seq<Section>, links: seq<string>)
    requires AreSections(sections) && AreLinks(links) && sections != [] && WellEnded(sections)
    ensures ReadBack(sections) == sections && LinksBack(sections, links) == links
  {
    ReadAsIs(sections);
    LinksBackIs(sections, links);
  }

  lemma PutHolds(files: seq<File>, name: string, text: string)
    ensures File(name, text) in Put(files, name, text)
  {
  }

  // ---- release after release ----------------------------------------------------------------------------

  /** What every release keeps: an `[Unreleased]` section, well ended sections, and no
      version in two places. */
  ghost predicate Tidy(t: Tree) {
    TidySections(SplitText(t.main).sections) && Apart(SplitText(t.main), Archive(t.archives))
  }

  ghost predicate TidySections(sections: seq<Section>) {
    && (exists s :: s in sections && s.version == UNRELEASED)
    && (forall s :: s in sections ==> EndsWell(s))
  }

  lemma TidyEnds(p: Parts, major: int)
    requires TidySections(p.sections)
    ensures WellEnded(Moved(p, major)) && WellEnded(Kept(p, major))
    ensures Kept(p, major) != [] && TidySections(Kept(p, major))
  {
    var kept, moved := Kept(p, major), Moved(p, major);
    ThoseIn(p.sections, Moves(Prefix(major)));
    ThoseIn(p.sections, Stays(Prefix(major)));
    NeverUnreleased(major);
    var s :| s in p.sections && s.version == UNRELEASED;
    assert s in kept;
    assert kept[|kept| - 1] in kept;
    assert moved != [] ==> moved[|moved| - 1] in moved;
  }

  lemma ArchiveStaysTidy(t: Tree, p: Parts, major: int)
    requires p == SplitText(t.main) && Tidy(t) && !HasFile(t.archives, Target(major))
    ensures Tidy(Archived(t, major)) && Collected(Texts(Archived(t, major))) == Collected(Texts(t))
  {
    if Moved(p, major) != [] {
      TidyEnds(p, major);
      ArchiveKeepsAll(t, p, major);
      SplitYields(t.main);
      RewrittenTidy(t, p, major);
    }
  }

  lemma RewrittenTidy(t: Tree, p: Parts, major: int)
    requires Sound(p) && TidySections(p.sections) && Apart(p, Archive(t.archives))
    ensures Tidy(Rewritten(t, p, major))
  {
    var u := Rewritten(t, p, major);
    RewrittenSections(p, major, Majors(u.archives));
    TidyEnds(p, major);
    ArchiveSplit(t.archives, Target(major));
    ReadRewritten(t, p, major);
    StillApart(p, major, ShelfOf(t, major));
  }

  lemma RewrittenSections(p: Parts, major: int, majors: seq<nat>)
    requires Sound(p) && TidySections(p.sections)
    ensures SplitText(KeptText(p, major, majors)).sections == Kept(p, major)
  {
    TidyEnds(p, major);
    ThoseSections(p, major);
    BackUnchanged(Kept(p, major), KeptLinks(p, major));
    KeptReads(p, major, majors);
  }

  lemma StillApart(p: Parts, major: int, s: Shelf)
    requires Sound(p) && Apart(p, Shelved(s))
    ensures SectionMap(Kept(p, major)).Keys !! Merge(Merge(s.earlier, MovedRead(p, major)), s.later).sections.Keys
  {
    MapsApart(p, major);
    MapsBack(p, major);
    var k, m := SectionMap(Kept(p, major)), SectionMap(Moved(p, major));
    assert (k + m).Keys == k.Keys + m.Keys;
  }

  lemma TargetsDiffer(a: int, b: int)
    requires Target(a) == Target(b)
    ensures a == b
  {
    assert Target(a)[..|Target(a)| - 5] == Shown(a) && Target(b)[..|Target(b)| - 5] == Shown(b);
    ShownStart(a);
    ShownStart(b);
    ShownDecimal(a);
    ShownDecimal(b);
    if a >= 0 {
      DecimalInjective(a, b);
    } else {
      assert Shown(a)[1..] == Decimal(-a) && Shown(b)[1..] == Decimal(-b);
      DecimalInjective(-a, -b);
    }
  }

  lemma ShownDecimal(n: int)
    ensures Shown(n) != "" && (Shown(n)[0] == '-' <==> n < 0)
  {
    if n >= 0 {
      DecimalDigits(n);
      assert Shown(n)[0] in Shown(n);
    }
  }

  lemma PutNames(files: seq<File>, name: string, text: string, other: string)
    requires other != name
    ensures HasFile(Put(files, name, text), other) <==> HasFile(files, other)
  {
    var a, b := Earlier(files, name), Later(files, name);
    NamesAppend(a + [File(name, text)], b, other);
    NamesAppend(a, [File(name, text)], other);
    if HasFile(files, name) {
      var k := FileAt(files, name);
      assert files == a + [files[k]] + b;
      NamesAppend(a + [files[k]], b, other);
      NamesAppend(a, [files[k]], other);
    } else {
      assert files == a + b;
      NamesAppend(a, b, other);
    }
  }

  lemma NamesAppend(a: seq<File>, b: seq<File>, name: string)
    ensures HasFile(a + b, name) <==> HasFile(a, name) || HasFile(b, name)
  {
    if HasFile(a, name) {
      var f :| f in a && f.name == name;
      assert f in a + b;
    }
    if HasFile(b, name) {
      var f :| f in b && f.name == name;
      assert f in a + b;
    }
  }

  function ArchivedAll(t: Tree, majors: seq<int>): Tree {
    if majors == [] then t else Archived(ArchivedAll(t, majors[..|majors| - 1]), majors[|majors| - 1])
  }

  /** Every archiving of the list writes a file that is not there yet. */
  ghost predicate AllNew(files: seq<File>, majors: seq<int>) {
    forall i :: 0 <= i < |majors| ==> !HasFile(files, Target(majors[i])) && majors[i] !in majors[..i]
  }

  ghost predicate SameOthers(t: Tree, u: Tree, majors: seq<int>) {
    forall m: int :: m !in majors ==> (HasFile(u.archives, Target(m)) <==> HasFile(t.archives, Target(m)))
  }

  /** Over any history of releases, each archiving a major line of its own, no released text
      and no link changes. */
  lemma {:induction false} HistoryKeepsAll(t: Tree, majors: seq<int>)
    requires Tidy(t) && AllNew(t.archives, majors)
    ensures Tidy(ArchivedAll(t, majors)) && SameOthers(t, ArchivedAll(t, majors), majors)
    ensures Collected(Texts(ArchivedAll(t, majors))) == Collected(Texts(t))
  {
    if majors != [] {
      var n := |majors| - 1;
      AllNewInit(t.archives, majors);
      HistoryKeepsAll(t, majors[..n]);
      var u := ArchivedAll(t, majors[..n]);
      ArchiveStaysTidy(u, SplitText(u.main), majors[n]);
      OthersStay(t, u, majors);
    }
  }

  lemma AllNewInit(files: seq<File>, majors: seq<int>)
    requires AllNew(files, majors) && majors != []
    ensures AllNew(files, majors[..|majors| - 1]) && majors[|majors| - 1] !in majors[..|majors| - 1]
  {
    var init := majors[..|majors| - 1];
    assert forall i :: 0 <= i < |init| ==> init[i] == majors[i] && init[..i] == majors[..i];
  }

  lemma OthersStay(t: Tree, u: Tree, majors: seq<int>)
    requires majors != [] && SameOthers(t, u, majors[..|majors| - 1])
    ensures SameOthers(t, Archived(u, majors[|majors| - 1]), majors)
  {
    var n := |majors| - 1;
    assert majors == majors[..n] + [majors[n]];
    forall m: int | m !in majors
      ensures HasFile(Archived(u, majors[n]).archives, Target(m)) <==> HasFile(u.archives, Target(m))
    {
      OtherStays(u, majors[n], m);
    }
  }

  lemma OtherStays(t: Tree, major: int, other: int)
    requires major != other
    ensures HasFile(Archived(t, major).archives, Target(other)) <==> HasFile(t.archives, Target(other))
  {
    if Target(other) == Target(major) {
      TargetsDiffer(other, major);
    } else {
      PutNames(t.archives, Target(major), MovedText(SplitText(t.main), major), Target(other));
    }
  }
}
