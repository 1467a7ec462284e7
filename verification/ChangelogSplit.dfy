/** What splitting a text yields, and that it reads back what was printed. */
module ChangelogSplit {
  import opened Common
  import opened TextLines
  import opened Changelog

  /** One heading line, then lines that are not headings, the last one not empty. */
  predicate IsBlock(v: string, body: seq<string>) {
    && body != [] && Heading(body[0]) == Some(v) && NoHeading(body[1..]) && AllOneLine(body)
  }

  predicate IsSection(s: Section) {
    IsBlock(s.version, Lines(s.text)) && Lines(s.text)[|Lines(s.text)| - 1] != ""
  }

  predicate AreSections(sections: seq<Section>) { forall s :: s in sections ==> IsSection(s) }

  predicate AreLinks(links: seq<string>) { forall l :: l in links ==> IsLink(l) && OneLine(l) }

  lemma HeadingIsNoTail(line: string)
    requires Heading(line).Some?
    ensures !Tail(line) && line != ""
  {
    assert line[..3][0] == '#' && '#' in line;
    assert !IsSpace('#');
  }

  // ---- trailing lines --------------------------------------------------------------------------

  predicate AllTail(lines: seq<string>) { forall l :: l in lines ==> Tail(l) }

  lemma {:induction false} CutTailDrops(lines: seq<string>, tail: seq<string>)
    requires AllTail(tail)
    ensures CutTail(lines + tail) == CutTail(lines)
  {
    var n := |tail| - 1;
    if tail == [] {
      assert lines + tail == lines;
    } else {
      assert (lines + tail)[..|lines + tail| - 1] == lines + tail[..n];
      assert tail[n] in tail && AllTail(tail[..n]);
      CutTailDrops(lines, tail[..n]);
    }
  }

  /** A line that is not part of a tail protects everything before it. */
  lemma {:induction false} CutTailStops(before: seq<string>, lines: seq<string>)
    requires lines != [] && !Tail(lines[0])
    ensures CutTail(before + lines) == before + CutTail(lines) && CutTail(lines) != []
  {
    var n := |lines| - 1;
    assert (before + lines)[..|before + lines| - 1] == before + lines[..n];
    if n > 0 && Tail(lines[n]) {
      CutTailStops(before, lines[..n]);
    }
  }

  // ---- blocks ----------------------------------------------------------------------------------

  /** A block after others is read as one more block. */
  lemma {:induction false} ParseBlock(before: seq<string>, v: string, body: seq<string>)
    requires IsBlock(v, body)
    ensures Parse(before + body) == Parse(before) + [Block(v, body)]
  {
    var n := |body| - 1;
    assert (before + body)[..|before + body| - 1] == before + body[..n];
    assert (before + body)[|before + body| - 1] == body[n];
    if n == 0 {
      assert before + body[..n] == before && body == [body[0]];
    } else {
      assert body[n] == body[1..][n - 1];
      assert body[..n][1..] == body[1..][..n - 1];
      ParseBlock(before, v, body[..n]);
      assert body == body[..n] + [body[n]];
    }
  }

  lemma SectionsSnoc(blocks: seq<Block>, b: Block)
    ensures Sections(blocks + [b]) == Sections(blocks) + [Written(b)]
  {
    assert (blocks + [b])[..|blocks|] == blocks;
  }

  /** The lines of printed sections, each but the last followed by an empty one. */
  function Flat(sections: seq<Section>): seq<string>
    decreases |sections|, 0
  {
    if sections == [] then []
    else
      var n := |sections| - 1;
      Spaced(sections[..n]) + Lines(sections[n].text)
  }

  function Spaced(sections: seq<Section>): seq<string>
    decreases |sections|, 1
  {
    if sections == [] then [] else Flat(sections) + [""]
  }

  lemma BodiesSnoc(sections: seq<Section>)
    requires |sections| > 1
    ensures Bodies(sections[..|sections| - 1]) != []
    ensures Join("\n\n", Bodies(sections))
            == Join("\n\n", Bodies(sections[..|sections| - 1])) + "\n\n" + sections[|sections| - 1].text
  {
    var n := |sections| - 1;
    assert sections[..n] != [];
    JoinSnoc("\n\n", Bodies(sections[..n]), sections[n].text);
  }

  lemma LinesApart(a: string, b: string)
    ensures Lines(a + "\n\n" + b) == Lines(a) + [""] + Lines(b)
  {
    assert a + "\n\n" + b == a + "\n" + "" + "\n" + b;
    LinesAppend(a + "\n" + "", b);
    LinesAppend(a, "");
  }

  lemma {:induction false} LinesOfBodies(sections: seq<Section>)
    requires sections != []
    ensures Lines(Join("\n\n", Bodies(sections))) == Flat(sections)
  {
    var n := |sections| - 1;
    if n == 0 {
      assert Bodies(sections) == [sections[0].text];
      assert Spaced(sections[..n]) == [];
    } else {
      BodiesSnoc(sections);
      LinesOfBodies(sections[..n]);
      LinesApart(Join("\n\n", Bodies(sections[..n])), sections[n].text);
    }
  }

  lemma WrittenBack(s: Section)
    requires IsSection(s)
    ensures Written(Block(s.version, Lines(s.text))) == s
    ensures Written(Block(s.version, Lines(s.text) + [""])) == s
  {
    JoinOfLines(s.text);
    JoinSnoc("\n", Lines(s.text), "");
    assert s.text + "\n" + "" == s.text + "\n";
    RStripNewline(s.text);
    RStripKeeps(s.text);
  }

  lemma {:induction false} SpacedReadBack(sections: seq<Section>)
    requires AreSections(sections)
    ensures Sections(Parse(Spaced(sections))) == sections
  {
    if sections != [] {
      var n := |sections| - 1;
      var s := sections[n];
      assert s in sections;
      SpacedReadBack(sections[..n]);
      SpacedSnoc(sections);
      LastSection(sections);
      OneMore(Spaced(sections[..n]), s);
    }
  }

  lemma SpacedSnoc(sections: seq<Section>)
    requires sections != []
    ensures var n := |sections| - 1;
            Spaced(sections) == Spaced(sections[..n]) + (Lines(sections[n].text) + [""])
  {
    var n := |sections| - 1;
    Regroup(Spaced(sections[..n]), Lines(sections[n].text), [""]);
  }

  lemma Regroup(a: seq<string>, b: seq<string>, c: seq<string>)
    ensures a + b + c == a + (b + c)
  {
  }

  lemma LastSection(sections: seq<Section>)
    requires sections != []
    ensures sections == sections[..|sections| - 1] + [sections[|sections| - 1]]
  {
  }

  lemma OneMore(before: seq<string>, s: Section)
    requires IsSection(s)
    ensures Sections(Parse(before + (Lines(s.text) + [""]))) == Sections(Parse(before)) + [s]
  {
    var body := Lines(s.text) + [""];
    BlockWithGap(s);
    ParseBlock(before, s.version, body);
    SectionsSnoc(Parse(before), Block(s.version, body));
    WrittenBack(s);
  }

  lemma BlockWithGap(s: Section)
    requires IsSection(s)
    ensures IsBlock(s.version, Lines(s.text) + [""])
  {
    var ls := Lines(s.text);
    assert (ls + [""])[1..] == ls[1..] + [""];
    assert !StartsWith("", "## ");
  }

  // ---- reading back a printed file ---------------------------------------------------------------

  /** The section as it is read when it is the last one of its file. */
  function AtEnd(s: Section): Section { Section(s.version, RStrip(Join("\n", CutTail(Lines(s.text))))) }

  /** It does not end in a line that belongs to the link list. */
  predicate EndsWell(s: Section) { !Tail(Lines(s.text)[|Lines(s.text)| - 1]) }

  function ReadAs(sections: seq<Section>): seq<Section>
    requires sections != []
  {
    sections[..|sections| - 1] + [AtEnd(sections[|sections| - 1])]
  }

  /** What a printed file splits into. */
  lemma SplitPrinted(opening: string, sections: seq<Section>, links: seq<string>)
    requires NoHeading(Lines(opening)) && sections != [] && AreSections(sections) && AreLinks(links)
    ensures SplitText(Printed(opening, sections, links)).preamble == opening + "\n"
    ensures SplitText(Printed(opening, sections, links)).sections == ReadAs(sections)
    ensures SplitText(Printed(opening, sections, links)).links
            == Those(Eaten(sections) + ([""] + LinkLines(links) + [""]), IsLink)
  {
    var before := Lines(opening) + [""];
    OpeningBack(opening);
    var body := Flat(sections);
    var tail := [""] + LinkLines(links) + [""];
    PrintedLines(opening, sections, links);
    FlatStarts(sections);
    LinkLinesAreTail(links);
    FirstHeadingAt(before, body + tail);
    CutTailDrops(body, tail);
    EatenLines(sections);
    Parted(body, CutTail(body), Eaten(sections), tail);
    SplitAround(before, CutTail(body), Eaten(sections) + tail);
    FlatReadBack(sections);
  }

  lemma OpeningBack(opening: string)
    ensures Join("\n", Lines(opening) + [""]) == opening + "\n"
  {
    JoinSnoc("\n", Lines(opening), "");
    JoinOfLines(opening);
  }

  lemma Parted(body: seq<string>, cut: seq<string>, eaten: seq<string>, tail: seq<string>)
    requires |cut| <= |body| && cut == body[..|cut|] && eaten == body[|cut|..]
    ensures body + tail == cut + (eaten + tail)
  {
  }

  lemma EatenLines(sections: seq<Section>)
    requires sections != [] && AreSections(sections)
    ensures Flat(sections)[|CutTail(Flat(sections))|..] == Eaten(sections)
  {
    CutFlat(sections);
  }

  function PartsOf(before: seq<string>, cut: seq<string>, rest: seq<string>): Parts {
    Parts(Join("\n", before), Sections(Parse(cut)), Those(rest, IsLink))
  }

  lemma SplitAround(before: seq<string>, cut: seq<string>, rest: seq<string>)
    requires FirstHeading(before + (cut + rest)) == |before| && CutTail(cut + rest) == cut
    ensures SplitLines(before + (cut + rest)) == PartsOf(before, cut, rest)
  {
    LinksAround(before, cut, rest);
    SplitIs(before + (cut + rest), |before|, |before| + |cut|);
    PartsAround(before, cut, rest);
  }

  lemma SplitIs(lines: seq<string>, first: nat, at: nat)
    requires first <= at <= |lines| && FirstHeading(lines) == first && LinksAt(lines) == at
    ensures SplitLines(lines) == SplitAt(lines, first, at)
  {
    assert SplitLines(lines) == SplitAt(lines, FirstHeading(lines), LinksAt(lines));
  }

  lemma LinksAround(before: seq<string>, cut: seq<string>, rest: seq<string>)
    requires FirstHeading(before + (cut + rest)) == |before| && CutTail(cut + rest) == cut
    ensures LinksAt(before + (cut + rest)) == |before| + |cut|
  {
    assert (before + (cut + rest))[|before|..] == cut + rest;
  }

  lemma PartsAround(before: seq<string>, cut: seq<string>, rest: seq<string>)
    ensures SplitAt(before + (cut + rest), |before|, |before| + |cut|) == PartsOf(before, cut, rest)
  {
    var lines := before + (cut + rest);
    assert lines[..|before|] == before;
    assert lines[|before|..|before| + |cut|] == cut;
    assert lines[|before| + |cut|..] == rest;
  }

  /** The lines of the last section that the link scan takes from it. */
  function Eaten(sections: seq<Section>): seq<string>
    requires sections != []
  {
    var ls := Lines(sections[|sections| - 1].text);
    ls[|CutTail(ls)|..]
  }

  function LinkLines(links: seq<string>): seq<string> { if links == [] then [""] else links }

  lemma PrintedLines(opening: string, sections: seq<Section>, links: seq<string>)
    requires sections != [] && AreLinks(links)
    ensures Lines(Printed(opening, sections, links))
            == (Lines(opening) + [""]) + (Flat(sections) + ([""] + LinkLines(links) + [""]))
  {
    ThreePieces(opening, Join("\n\n", Bodies(sections)), Join("\n", links));
    LinesOfBodies(sections);
    if links != [] {
      LinesOfJoin(links);
    }
  }

  lemma ThreePieces(a: string, b: string, c: string)
    ensures Lines(a + "\n\n" + b + "\n\n" + c + "\n")
            == (Lines(a) + [""]) + (Lines(b) + ([""] + Lines(c) + [""]))
  {
    LinesApart(a, b);
    LinesApart(a + "\n\n" + b, c);
    LastEmpty(a + "\n\n" + b + "\n\n" + c);
    RegroupPieces(Lines(a), Lines(b), Lines(c));
  }

  lemma LastEmpty(all: string)
    ensures Lines(all + "\n") == Lines(all) + [""]
  {
    LinesAppend(all, "");
    assert all + "\n" + "" == all + "\n";
  }

  lemma RegroupPieces(a: seq<string>, b: seq<string>, c: seq<string>)
    ensures a + [""] + b + [""] + c + [""] == (a + [""]) + (b + ([""] + c + [""]))
  {
  }

  lemma FlatStarts(sections: seq<Section>)
    requires sections != [] && AreSections(sections)
    ensures Flat(sections) != [] && Heading(Flat(sections)[0]).Some?
  {
    var n := |sections| - 1;
    assert sections[n] in sections;
    if n > 0 {
      FlatStarts(sections[..n]);
    }
  }

  lemma {:induction false} FirstHeadingAt(before: seq<string>, rest: seq<string>)
    requires NoHeading(before) && rest != [] && Heading(rest[0]).Some?
    ensures FirstHeading(before + rest) == |before|
  {
    if before == [] {
      assert before + rest == rest;
    } else {
      assert (before + rest)[1..] == before[1..] + rest;
      assert before[0] in before;
      FirstHeadingAt(before[1..], rest);
    }
  }

  lemma LinkLinesAreTail(links: seq<string>)
    requires AreLinks(links)
    ensures AllTail([""] + LinkLines(links) + [""])
  {
    assert Blank("");
  }

  lemma CutFlat(sections: seq<Section>)
    requires sections != [] && AreSections(sections)
    ensures var n := |sections| - 1;
            CutTail(Flat(sections)) == Spaced(sections[..n]) + CutTail(Lines(sections[n].text))
  {
    var n := |sections| - 1;
    var ls := Lines(sections[n].text);
    assert sections[n] in sections;
    HeadingIsNoTail(ls[0]);
    CutTailStops(Spaced(sections[..n]), ls);
  }

  lemma FlatReadBack(sections: seq<Section>)
    requires sections != [] && AreSections(sections)
    ensures Sections(Parse(CutTail(Flat(sections)))) == ReadAs(sections)
  {
    var n := |sections| - 1;
    var s := sections[n];
    var ls := Lines(s.text);
    assert s in sections;
    CutFlat(sections);
    CutBlock(s);
    ParseBlock(Spaced(sections[..n]), s.version, CutTail(ls));
    SectionsSnoc(Parse(Spaced(sections[..n])), Block(s.version, CutTail(ls)));
    SpacedReadBack(sections[..n]);
  }

  lemma CutBlock(s: Section)
    requires IsSection(s)
    ensures IsBlock(s.version, CutTail(Lines(s.text)))
  {
    var ls := Lines(s.text);
    HeadingIsNoTail(ls[0]);
    CutTailStops([], ls);
    assert [] + ls == ls;
    assert CutTail(ls)[1..] == ls[1..][..|CutTail(ls)| - 1];
  }

  lemma {:induction false} ThoseAppend<T>(xs: seq<T>, ys: seq<T>, p: T -> bool)
    ensures Those(xs + ys, p) == Those(xs, p) + Those(ys, p)
  {
    var n := |ys| - 1;
    if ys == [] {
      assert xs + ys == xs;
    } else {
      assert (xs + ys)[..|xs + ys| - 1] == xs + ys[..n];
      ThoseAppend(xs, ys[..n], p);
    }
  }

  lemma LinksReadBack(links: seq<string>)
    requires AreLinks(links)
    ensures Those([""] + LinkLines(links) + [""], IsLink) == links
  {
    ThoseAppend([""] + LinkLines(links), [""], IsLink);
    ThoseAppend([""], LinkLines(links), IsLink);
    assert LinkRef("").None?;
    ThoseAll(links, IsLink);
  }

  lemma {:induction false} ThoseAll<T>(xs: seq<T>, p: T -> bool)
    requires forall x :: x in xs ==> p(x)
    ensures Those(xs, p) == xs
  {
    if xs != [] {
      var n := |xs| - 1;
      assert xs[n] in xs;
      ThoseAll(xs[..n], p);
      assert xs == xs[..n] + [xs[n]];
    }
  }

  lemma {:induction false} ThoseIn<T>(xs: seq<T>, p: T -> bool)
    ensures forall x :: x in Those(xs, p) <==> x in xs && p(x)
  {
    if xs != [] {
      var n := |xs| - 1;
      ThoseIn(xs[..n], p);
      assert xs == xs[..n] + [xs[n]];
    }
  }

  /** With a well ended last section, splitting undoes printing. */
  lemma SplitUndoesPrint(opening: string, sections: seq<Section>, links: seq<string>)
    requires NoHeading(Lines(opening)) && sections != [] && AreSections(sections) && AreLinks(links)
    requires EndsWell(sections[|sections| - 1])
    ensures SplitText(Printed(opening, sections, links)).sections == sections
    ensures SplitText(Printed(opening, sections, links)).links == links
  {
    SplitPrinted(opening, sections, links);
    ReadAsIs(sections);
    LinksReadBack(links);
    var tail := [""] + LinkLines(links) + [""];
    assert [] + tail == tail;
  }

  lemma ReadAsIs(sections: seq<Section>)
    requires sections != [] && AreSections(sections) && EndsWell(sections[|sections| - 1])
    ensures ReadAs(sections) == sections && Eaten(sections) == []
  {
    var s := sections[|sections| - 1];
    assert s in sections;
    WrittenBack(s);
    assert sections == sections[..|sections| - 1] + [s];
  }

  /** Otherwise the last section comes back with a different text. */
  lemma AtEndDiffers(s: Section)
    requires IsSection(s) && !EndsWell(s)
    ensures AtEnd(s).text != s.text
  {
    var ls := Lines(s.text);
    var cut := CutTail(ls);
    CutBlock(s);
    assert |cut| < |ls|;
    LinesOfJoin(cut);
    RStripDropsLines(Join("\n", cut));
  }

  // ---- what any text yields -----------------------------------------------------------------------

  predicate AreBlocks(blocks: seq<Block>) { forall b :: b in blocks ==> IsBlock(b.version, b.body) }

  lemma {:induction false} ParsedBlocks(lines: seq<string>)
    requires AllOneLine(lines)
    ensures AreBlocks(Parse(lines))
  {
    if lines != [] {
      var n := |lines| - 1;
      assert lines[n] in lines;
      ParsedBlocks(lines[..n]);
      WithLineBlocks(Parse(lines[..n]), lines[n]);
    }
  }

  lemma WithLineBlocks(blocks: seq<Block>, line: string)
    requires AreBlocks(blocks) && OneLine(line)
    ensures AreBlocks(WithLine(blocks, line))
  {
    if Heading(line).None? && blocks != [] {
      var b := blocks[|blocks| - 1];
      assert b in blocks;
      assert (b.body + [line])[1..] == b.body[1..] + [line];
    }
  }

  lemma BlockPrefix(v: string, body: seq<string>, ls: seq<string>)
    requires IsBlock(v, body) && 0 < |ls| <= |body| && ls == body[..|ls|]
    ensures IsBlock(v, ls)
  {
    assert ls[1..] == body[1..][..|ls| - 1];
  }

  lemma WrittenIsSection(b: Block)
    requires IsBlock(b.version, b.body)
    ensures IsSection(Written(b))
  {
    var text := Join("\n", b.body);
    LinesOfJoin(b.body);
    RStripDropsLines(text);
    RStripEnds(text);
    HeadingIsNoTail(b.body[0]);
    BlockPrefix(b.version, b.body, Lines(RStrip(text)));
  }

  lemma {:induction false} WrittenSections(blocks: seq<Block>)
    requires AreBlocks(blocks)
    ensures AreSections(Sections(blocks))
  {
    if blocks != [] {
      var n := |blocks| - 1;
      assert blocks[n] in blocks;
      WrittenSections(blocks[..n]);
      WrittenIsSection(blocks[n]);
    }
  }

  /** Whatever the text, its parts can be printed and read back. */
  lemma SplitYields(text: string)
    ensures var p := SplitText(text);
            NoHeading(Lines(p.preamble)) && AreSections(p.sections) && AreLinks(p.links)
  {
    var lines := Lines(text);
    var first, at := FirstHeading(lines), LinksAt(lines);
    LinesAreOneLine(text);
    if first > 0 {
      LinesOfJoin(lines[..first]);
    } else {
      assert lines[..first] == [];
    }
    ParsedBlocks(lines[first..at]);
    WrittenSections(Parse(lines[first..at]));
    ThoseIn(lines[at..], IsLink);
  }

  /** The lines of the blocks, one block after the other. */
  function LinesIn(blocks: seq<Block>): seq<string> {
    if blocks == [] then [] else LinesIn(blocks[..|blocks| - 1]) + blocks[|blocks| - 1].body
  }

  lemma WithLineAdds(blocks: seq<Block>, line: string)
    requires blocks != [] || Heading(line).Some?
    ensures WithLine(blocks, line) != [] && LinesIn(WithLine(blocks, line)) == LinesIn(blocks) + [line]
  {
    var after := WithLine(blocks, line);
    if Heading(line).Some? {
      assert after[..|after| - 1] == blocks;
    } else {
      var n := |blocks| - 1;
      assert after[..|after| - 1] == blocks[..n] && after[n].body == blocks[n].body + [line];
    }
  }

  lemma {:induction false} ParseCovers(lines: seq<string>)
    requires lines != [] ==> Heading(lines[0]).Some?
    ensures LinesIn(Parse(lines)) == lines && (lines != [] ==> Parse(lines) != [])
  {
    if lines != [] {
      var n := |lines| - 1;
      assert lines[..n] + [lines[n]] == lines;
      ParseCovers(lines[..n]);
      WithLineAdds(Parse(lines[..n]), lines[n]);
    }
  }

  lemma {:induction false} CutTailMeaning(lines: seq<string>)
    ensures AllTail(lines[|CutTail(lines)|..])
    ensures CutTail(lines) != [] ==> !Tail(CutTail(lines)[|CutTail(lines)| - 1])
  {
    if lines != [] && Tail(lines[|lines| - 1]) {
      var init := lines[..|lines| - 1];
      CutTailMeaning(init);
      assert lines[|CutTail(init)|..] == init[|CutTail(init)|..] + [lines[|lines| - 1]];
    }
  }

  /** The blocks are those of the lines between `above` and `tail`, from each heading to the next. */
  predicate Covers(lines: seq<string>, above: seq<string>, blocks: seq<Block>, tail: seq<string>) {
    && lines == above + LinesIn(blocks) + tail
    && NoHeading(above) && AreBlocks(blocks) && AllTail(tail)
    && (LinesIn(blocks) != [] ==> !Tail(LinesIn(blocks)[|LinesIn(blocks)| - 1]))
  }

  /** Nothing of a text is passed over: its lines are those above the first heading, the blocks,
      and the longest tail of link and blank lines, from which the links are. */
  lemma SplitCovers(text: string) returns (above: seq<string>, blocks: seq<Block>, tail: seq<string>)
    ensures Covers(Lines(text), above, blocks, tail)
    ensures SplitText(text) == Parts(Join("\n", above), Sections(blocks), Those(tail, IsLink))
  {
    LinesAreOneLine(text);
    above, blocks, tail := LinesCovered(Lines(text));
  }

  lemma LinesCovered(lines: seq<string>) returns (above: seq<string>, blocks: seq<Block>, tail: seq<string>)
    requires AllOneLine(lines)
    ensures Covers(lines, above, blocks, tail)
    ensures SplitLines(lines) == Parts(Join("\n", above), Sections(blocks), Those(tail, IsLink))
  {
    var first, at := FirstHeading(lines), LinksAt(lines);
    above, tail := lines[..first], lines[at..];
    var mid := lines[first..at];
    BlockLines(lines);
    Covered(lines, first, at);
    blocks := BlocksOf(mid);
  }

  lemma BlocksOf(mid: seq<string>) returns (blocks: seq<Block>)
    requires AllOneLine(mid) && (mid != [] ==> Heading(mid[0]).Some?)
    ensures blocks == Parse(mid) && LinesIn(blocks) == mid && AreBlocks(blocks)
  {
    blocks := Parse(mid);
    ParsedBlocks(mid);
    ParseCovers(mid);
  }

  /** Where the blocks of a text stand. */
  lemma BlockLines(lines: seq<string>)
    ensures var mid := lines[FirstHeading(lines)..LinksAt(lines)];
            mid != [] ==> Heading(mid[0]).Some? && !Tail(mid[|mid| - 1])
    ensures AllTail(lines[LinksAt(lines)..])
  {
    var below := lines[FirstHeading(lines)..];
    CutTailMeaning(below);
    assert lines[FirstHeading(lines)..LinksAt(lines)] == CutTail(below);
    assert lines[LinksAt(lines)..] == below[|CutTail(below)|..];
  }

  lemma Covered(lines: seq<string>, first: nat, at: nat)
    requires first <= at <= |lines|
    ensures lines == lines[..first] + lines[first..at] + lines[at..]
  {
  }
}
