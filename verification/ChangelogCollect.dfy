/** What files read as, one after the other, and what a printed file reads back as. */
module ChangelogCollect {
  import opened Common
  import opened TextLines
  import opened Changelog
  import opened ChangelogSplit
  import opened ChangelogNote

  // ---- collections ------------------------------------------------------------------------------

  function Merge(a: Collection, b: Collection): Collection {
    Collection(a.sections + b.sections, a.links + b.links)
  }

  function ReadParts(p: Parts): Collection { Collection(SectionMap(p.sections), LinkSet(p.links)) }

  function Read(text: string): Collection { ReadParts(SplitText(text)) }

  lemma MergeAssoc(a: Collection, b: Collection, c: Collection)
    ensures Merge(Merge(a, b), c) == Merge(a, Merge(b, c))
  {
  }

  lemma CollectedSnoc(texts: seq<string>, x: string)
    ensures Collected(texts + [x]) == Merge(Collected(texts), Read(x))
  {
    assert (texts + [x])[..|texts|] == texts;
  }

  lemma {:induction false} CollectedAppend(a: seq<string>, b: seq<string>)
    ensures Collected(a + b) == Merge(Collected(a), Collected(b))
  {
    if b == [] {
      AppendNone(a);
    } else {
      var n := |b| - 1;
      SnocOf(a, b);
      CollectedAppend(a, b[..n]);
      AppendOne(a, b[..n], b[n]);
    }
  }

  lemma SnocOf<T>(a: seq<T>, b: seq<T>)
    requires b != []
    ensures a + b == a + b[..|b| - 1] + [b[|b| - 1]] && b == b[..|b| - 1] + [b[|b| - 1]]
  {
  }

  lemma AppendNone(a: seq<string>)
    ensures Collected(a + []) == Merge(Collected(a), Collected([]))
  {
    assert a + [] == a;
    MergeNothing(Collected(a));
  }

  const NOTHING := Collection(map[], {})

  lemma MergeNothing(c: Collection)
    ensures Merge(c, NOTHING) == c && Merge(NOTHING, c) == c
  {
    assert c.sections + map[] == c.sections && map[] + c.sections == c.sections;
  }

  lemma AppendOne(a: seq<string>, b: seq<string>, x: string)
    requires Collected(a + b) == Merge(Collected(a), Collected(b))
    ensures Collected(a + b + [x]) == Merge(Collected(a), Collected(b + [x]))
  {
    CollectedSnoc(a + b, x);
    CollectedSnoc(b, x);
    MergeAssoc(Collected(a), Collected(b), Read(x));
  }

  lemma CollectedOne(text: string)
    ensures Collected([text]) == Read(text)
  {
    CollectedSnoc([], text);
    assert [] + [text] == [text];
    MergeNothing(Read(text));
  }

  function Archive(files: seq<File>): Collection { Collected(ArchiveTexts(files)) }

  lemma CollectedTree(t: Tree)
    ensures Collected(Texts(t)) == Merge(Read(t.main), Archive(t.archives))
  {
    CollectedAppend([t.main], ArchiveTexts(t.archives));
    CollectedOne(t.main);
  }

  lemma {:induction false} ArchiveAppend(a: seq<File>, b: seq<File>)
    ensures Archive(a + b) == Merge(Archive(a), Archive(b))
  {
    TextsAppend(a, b);
    CollectedAppend(ArchiveTexts(a), ArchiveTexts(b));
  }

  lemma {:induction false} TextsAppend(a: seq<File>, b: seq<File>)
    ensures ArchiveTexts(a + b) == ArchiveTexts(a) + ArchiveTexts(b)
  {
    if a == [] {
      assert a + b == b;
    } else {
      assert (a + b)[1..] == a[1..] + b;
      TextsAppend(a[1..], b);
    }
  }

  lemma ArchiveAround(before: seq<File>, f: File, after: seq<File>)
    ensures Archive(before + [f] + after) == Merge(Merge(Archive(before), Read(f.text)), Archive(after))
  {
    ArchiveAppend(before + [f], after);
    ArchiveAppend(before, [f]);
    assert ArchiveTexts([f]) == [f.text];
    CollectedOne(f.text);
  }

  /** The file a new one of that name would overwrite, or nothing. */
  function Overwritten(files: seq<File>, name: string): Collection {
    if HasFile(files, name) then Read(files[FileAt(files, name)].text) else NOTHING
  }

  lemma ArchiveSplit(files: seq<File>, name: string)
    ensures Archive(files)
            == Merge(Merge(Archive(Earlier(files, name)), Overwritten(files, name)), Archive(Later(files, name)))
  {
    if HasFile(files, name) {
      var k := FileAt(files, name);
      assert files == files[..k] + [files[k]] + files[k + 1..];
      ArchiveAround(files[..k], files[k], files[k + 1..]);
    } else {
      var k := PlaceFor(files, name);
      assert files == files[..k] + files[k..];
      ArchiveAppend(files[..k], files[k..]);
      MergeNothing(Archive(files[..k]));
    }
  }

  lemma PutReads(files: seq<File>, name: string, text: string)
    ensures Archive(Put(files, name, text))
            == Merge(Merge(Archive(Earlier(files, name)), Read(text)), Archive(Later(files, name)))
  {
    ArchiveAround(Earlier(files, name), File(name, text), Later(files, name));
  }

  // ---- moved and kept -----------------------------------------------------------------------------

  lemma OtherStart(s: string, p: string)
    requires s != "" && p != "" && s[0] != p[0]
    ensures !StartsWith(s, p)
  {
    assert |p| <= |s| ==> s[..|p|][0] == s[0];
  }

  lemma NeverUnreleased(major: int)
    ensures !StartsWith(UNRELEASED, Prefix(major))
  {
    ShownStart(major);
    OtherStart(UNRELEASED, Prefix(major));
  }

  predicate InMajor(m: map<string, string>, prefix: string) { forall v :: v in m ==> StartsWith(v, prefix) }

  predicate OutsideMajor(m: map<string, string>, prefix: string) { forall v :: v in m ==> !StartsWith(v, prefix) }

  /** Moved and kept sections share no version and lose none. */
  lemma {:induction false} MapsPart(sections: seq<Section>, prefix: string)
    ensures InMajor(SectionMap(Those(sections, Moves(prefix))), prefix)
    ensures OutsideMajor(SectionMap(Those(sections, Stays(prefix))), prefix)
    ensures SectionMap(sections)
            == SectionMap(Those(sections, Stays(prefix))) + SectionMap(Those(sections, Moves(prefix)))
  {
    if sections != [] {
      var n := |sections| - 1;
      MapsPart(sections[..n], prefix);
      var s := sections[n];
      var kept, moved := Those(sections[..n], Stays(prefix)), Those(sections[..n], Moves(prefix));
      if StartsWith(s.version, prefix) {
        MapSnoc(moved, s);
        PutRight(SectionMap(kept), SectionMap(moved), s);
        assert kept + [] == kept;
      } else {
        MapSnoc(kept, s);
        PutLeft(SectionMap(kept), SectionMap(moved), s, prefix);
        assert moved + [] == moved;
      }
    }
  }

  function With(m: map<string, string>, s: Section): map<string, string> {
    if s.version == UNRELEASED then m else m[s.version := s.text]
  }

  lemma MapSnoc(sections: seq<Section>, s: Section)
    ensures SectionMap(sections + [s]) == With(SectionMap(sections), s)
  {
    assert (sections + [s])[..|sections|] == sections;
  }

  lemma PutRight(a: map<string, string>, b: map<string, string>, s: Section)
    ensures With(a + b, s) == a + With(b, s)
  {
  }

  lemma PutLeft(a: map<string, string>, b: map<string, string>, s: Section, prefix: string)
    requires InMajor(b, prefix) && !StartsWith(s.version, prefix)
    ensures With(a + b, s) == With(a, s) + b
  {
    assert s.version !in b;
  }

  // ---- the two files ------------------------------------------------------------------------------

  /** Parts that can be printed. */
  predicate Sound(p: Parts) { Plain(p.preamble) && AreSections(p.sections) && AreLinks(p.links) }

  lemma ThoseSections(p: Parts, major: int)
    requires Sound(p)
    ensures AreSections(Moved(p, major)) && AreSections(Kept(p, major))
    ensures AreLinks(MovedLinks(p, major)) && AreLinks(KeptLinks(p, major))
  {
    ThoseIn(p.sections, Moves(Prefix(major)));
    ThoseIn(p.sections, Stays(Prefix(major)));
    ThoseIn(p.links, LinkMoves(Prefix(major)));
    ThoseIn(p.links, LinkStays(Prefix(major)));
  }

  lemma {:induction false} NoFirstHeading(lines: seq<string>)
    requires NoHeading(lines)
    ensures FirstHeading(lines) == |lines|
  {
    if lines != [] {
      assert lines[0] in lines;
      NoFirstHeading(lines[1..]);
    }
  }

  /** A file printed without sections loses its links as well. */
  lemma SplitWithoutSections(opening: string, links: seq<string>)
    requires Plain(opening) && AreLinks(links)
    ensures SplitText(Printed(opening, [], links)).sections == []
    ensures SplitText(Printed(opening, [], links)).links == []
  {
    var text := Printed(opening, [], links);
    ThreePieces(opening, "", Join("\n", links));
    if links != [] {
      LinesOfJoin(links);
    }
    LinksAreNoHeadings(links);
    assert Heading("").None?;
    NoFirstHeading(Lines(text));
  }

  lemma LinksAreNoHeadings(links: seq<string>)
    requires AreLinks(links)
    ensures NoHeading(links)
  {
    forall l | l in links
      ensures Heading(l).None?
    {
      LinkIsNoHeading(l);
    }
  }

  lemma LinkIsNoHeading(l: string)
    requires IsLink(l)
    ensures Heading(l).None?
  {
    assert l[0] == '[';
    assert |l| >= 3 ==> l[..3][0] == '[';
  }

  predicate WellEnded(sections: seq<Section>) { sections == [] || EndsWell(sections[|sections| - 1]) }

  /** The sections and the links a printed file gives back. */
  function ReadBack(sections: seq<Section>): seq<Section> { if sections == [] then [] else ReadAs(sections) }

  function LinksBack(sections: seq<Section>, links: seq<string>): seq<string> {
    if sections == [] then [] else Those(Eaten(sections) + ([""] + LinkLines(links) + [""]), IsLink)
  }

  function PrintedRead(sections: seq<Section>, links: seq<string>): Collection {
    Collection(SectionMap(ReadBack(sections)), LinkSet(LinksBack(sections, links)))
  }

  lemma PrintedReads(opening: string, sections: seq<Section>, links: seq<string>)
    requires Plain(opening) && AreSections(sections) && AreLinks(links)
    ensures SplitText(Printed(opening, sections, links)).sections == ReadBack(sections)
    ensures SplitText(Printed(opening, sections, links)).links == LinksBack(sections, links)
    ensures Read(Printed(opening, sections, links)) == PrintedRead(sections, links)
  {
    if sections == [] {
      SplitWithoutSections(opening, links);
    } else {
      SplitPrinted(opening, sections, links);
    }
  }

  lemma LinksBackIs(sections: seq<Section>, links: seq<string>)
    requires AreSections(sections) && AreLinks(links) && sections != []
    ensures LinkSet(links) <= LinkSet(LinksBack(sections, links))
    ensures WellEnded(sections) ==> LinksBack(sections, links) == links
  {
    var tail := [""] + LinkLines(links) + [""];
    LinksReadBack(links);
    ThoseAppend(Eaten(sections), tail, IsLink);
    if WellEnded(sections) {
      ReadAsIs(sections);
      assert [] + tail == tail;
    }
  }

  lemma AtEndIs(s: Section)
    requires IsSection(s)
    ensures AtEnd(s).text == s.text <==> EndsWell(s)
  {
    if EndsWell(s) {
      WrittenBack(s);
    } else {
      AtEndDiffers(s);
    }
  }

  /** Only a released last section that does not end well makes a difference to the map. */
  lemma ReadBackMap(sections: seq<Section>)
    requires AreSections(sections)
    ensures SectionMap(ReadBack(sections)).Keys == SectionMap(sections).Keys
    ensures SectionMap(ReadBack(sections)) == SectionMap(sections)
            <==> WellEnded(sections) || sections[|sections| - 1].version == UNRELEASED
  {
    if sections != [] {
      var n := |sections| - 1;
      assert sections[n] in sections;
      LastBackMap(sections[..n], sections[n]);
      SnocOf([], sections);
    }
  }

  lemma LastBackMap(before: seq<Section>, s: Section)
    requires IsSection(s)
    ensures SectionMap(before + [AtEnd(s)]).Keys == SectionMap(before + [s]).Keys
    ensures SectionMap(before + [AtEnd(s)]) == SectionMap(before + [s]) <==> EndsWell(s) || s.version == UNRELEASED
  {
    MapSnoc(before, s);
    MapSnoc(before, AtEnd(s));
    AtEndIs(s);
    SameUnless(SectionMap(before), s, AtEnd(s));
  }

  lemma SameUnless(m: map<string, string>, s: Section, r: Section)
    requires s.version == r.version
    ensures With(m, r).Keys == With(m, s).Keys
    ensures With(m, r) == With(m, s) <==> r.text == s.text || s.version == UNRELEASED
  {
    if s.version != UNRELEASED {
      assert With(m, r)[s.version] == r.text && With(m, s)[s.version] == s.text;
    }
  }
}
