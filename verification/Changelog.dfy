/** The changelog and its archived major lines: reading sections and links out of a text,
    moving a major line to a file of its own, and comparing a tree with its base. */
module Changelog {
  import opened Common
  import opened TextLines

  // ---- lines ------------------------------------------------------------------------------

  predicate IsSpace(c: char) {
    var n := c as int;
    || 0x09 <= n <= 0x0D || 0x1C <= n <= 0x20 || n == 0x85 || n == 0xA0 || n == 0x1680
    || 0x2000 <= n <= 0x200A || n == 0x2028 || n == 0x2029 || n == 0x202F || n == 0x205F || n == 0x3000
  }

  function IndexOf(c: char, s: string): (i: nat)
    ensures i <= |s| && (i < |s| ==> s[i] == c) && c !in s[..i]
  {
    if s == "" || s[0] == c then 0
    else
      var i := IndexOf(c, s[1..]) + 1;
      assert s[..i] == [s[0]] + s[1..][..i - 1];
      i
  }

  /** The name in `[name]` at the start of `s`; a name is not empty. */
  function Bracketed(s: string): (name: Option<string>)
    ensures name.Some? ==> |name.value| + 2 <= |s|
  {
    if s == "" || s[0] != '[' then None
    else
      var i := IndexOf(']', s[1..]);
      if 0 < i < |s| - 1 then Some(s[1..i + 1]) else None
  }

  /** `## [version]`. */
  function Heading(line: string): Option<string> {
    if StartsWith(line, "## ") then Bracketed(line[3..]) else None
  }

  /** `[version]: target`. */
  function LinkRef(line: string): Option<string> {
    match Bracketed(line)
    case None => None
    case Some(v) =>
      var rest := line[|v| + 2..];
      if StartsWith(rest, ": ") && |rest| > 2 && !IsSpace(rest[2]) then Some(v) else None
  }

  predicate Blank(line: string) { forall c :: c in line ==> IsSpace(c) }

  /** A line the link list at the end of a file is made of. */
  predicate Tail(line: string) { LinkRef(line).Some? || Blank(line) }

  function LinkVersion(line: string): string { LinkRef(line).GetOr("") }

  // ---- split --------------------------------------------------------------------------------

  datatype Section = Section(version: string, text: string)

  /** A section while its lines are being read. */
  datatype Block = Block(version: string, body: seq<string>)

  datatype Parts = Parts(preamble: string, sections: seq<Section>, links: seq<string>)

  /** The elements of `xs` that `p` keeps, in order. */
  function Those<T>(xs: seq<T>, p: T -> bool): seq<T> {
    if xs == [] then []
    else Those(xs[..|xs| - 1], p) + (if p(xs[|xs| - 1]) then [xs[|xs| - 1]] else [])
  }

  function FirstHeading(lines: seq<string>): (i: nat)
    ensures i <= |lines| && (i < |lines| ==> Heading(lines[i]).Some?)
    ensures NoHeading(lines[..i])
  {
    if lines == [] || Heading(lines[0]).Some? then 0
    else
      var i := FirstHeading(lines[1..]) + 1;
      assert lines[..i] == [lines[0]] + lines[1..][..i - 1];
      i
  }

  predicate NoHeading(lines: seq<string>) { forall l :: l in lines ==> Heading(l).None? }

  /** `lines` without its trailing link references and blank lines. */
  function CutTail(lines: seq<string>): (r: seq<string>)
    ensures |r| <= |lines| && r == lines[..|r|]
  {
    if lines != [] && Tail(lines[|lines| - 1]) then CutTail(lines[..|lines| - 1]) else lines
  }

  /** A heading opens a block, any other line joins the open one. */
  function WithLine(blocks: seq<Block>, line: string): seq<Block> {
    match Heading(line)
    case Some(v) => blocks + [Block(v, [line])]
    case None =>
      if blocks == [] then []
      else
        var n := |blocks| - 1;
        blocks[..n] + [blocks[n].(body := blocks[n].body + [line])]
  }

  function Parse(lines: seq<string>): seq<Block> {
    if lines == [] then [] else WithLine(Parse(lines[..|lines| - 1]), lines[|lines| - 1])
  }

  function Written(b: Block): Section { Section(b.version, RStrip(Join("\n", b.body))) }

  function Sections(blocks: seq<Block>): seq<Section> {
    if blocks == [] then [] else Sections(blocks[..|blocks| - 1]) + [Written(blocks[|blocks| - 1])]
  }

  predicate IsLink(line: string) { LinkRef(line).Some? }

  /** The parts of a text whose sections start at `first` and whose links start at `at`. */
  function SplitAt(lines: seq<string>, first: nat, at: nat): Parts
    requires first <= at <= |lines|
  {
    Assembled(lines, first, at, Parse(lines[first..at]))
  }

  function Assembled(lines: seq<string>, first: nat, at: nat, blocks: seq<Block>): Parts
    requires first <= at <= |lines|
  {
    Parts(Join("\n", lines[..first]), Sections(blocks), Those(lines[at..], IsLink))
  }

  function LinksAt(lines: seq<string>): (at: nat)
    ensures FirstHeading(lines) <= at <= |lines|
  {
    FirstHeading(lines) + |CutTail(lines[FirstHeading(lines)..])|
  }

  function SplitLines(lines: seq<string>): Parts { SplitAt(lines, FirstHeading(lines), LinksAt(lines)) }

  function SplitText(text: string): Parts { SplitLines(Lines(text)) }

  method FindHeading(lines: seq<string>) returns (first: nat)
    ensures first == FirstHeading(lines)
  {
    first := 0;
    while first < |lines| && Heading(lines[first]).None?
      invariant first <= |lines| && first + FirstHeading(lines[first..]) == FirstHeading(lines)
    {
      assert lines[first..][1..] == lines[first + 1..];
      first := first + 1;
    }
  }

  method FindLinks(lines: seq<string>, first: nat) returns (at: nat)
    requires first <= |lines|
    ensures at == first + |CutTail(lines[first..])|
  {
    at := |lines|;
    assert lines[first..at] == lines[first..];
    while at > first && (LinkRef(lines[at - 1]).Some? || Blank(lines[at - 1]))
      invariant first <= at <= |lines| && CutTail(lines[first..at]) == CutTail(lines[first..])
    {
      assert lines[first..at][..at - first - 1] == lines[first..at - 1];
      at := at - 1;
    }
  }

  method ReadBlocks(lines: seq<string>) returns (blocks: seq<Block>)
    ensures blocks == Parse(lines)
  {
    blocks := [];
    for k := 0 to |lines|
      invariant blocks == Parse(lines[..k])
    {
      assert lines[..k + 1][..k] == lines[..k];
      var m := Heading(lines[k]);
      if m.Some? {
        blocks := blocks + [Block(m.value, [lines[k]])];
      } else if blocks != [] {
        var n := |blocks| - 1;
        blocks := blocks[..n] + [blocks[n].(body := blocks[n].body + [lines[k]])];
      }
    }
    assert lines[..|lines|] == lines;
  }

  method Split(text: string) returns (p: Parts)
    ensures p == SplitText(text)
  {
    var lines := Lines(text);
    var first := FindHeading(lines);
    var linksAt := FindLinks(lines, first);
    assert linksAt == LinksAt(lines);
    var blocks := ReadBlocks(lines[first..linksAt]);
    p := Assembled(lines, first, linksAt, blocks);
  }

  // ---- the tree -----------------------------------------------------------------------------

  /** One file of the archive directory. */
  datatype File = File(name: string, text: string)

  /** What a checkout holds: the changelog and its archive directory, in name order. */
  datatype Tree = Tree(main: string, archives: seq<File>)

  function ArchiveTexts(files: seq<File>): seq<string> {
    if files == [] then [] else [files[0].text] + ArchiveTexts(files[1..])
  }

  function Texts(t: Tree): seq<string> { [t.main] + ArchiveTexts(t.archives) }

  predicate NameBefore(a: string, b: string) {
    b != "" && (a == "" || a[0] < b[0] || (a[0] == b[0] && NameBefore(a[1..], b[1..])))
  }

  predicate HasFile(files: seq<File>, name: string) { exists f :: f in files && f.name == name }

  /** Where the file called `name` stands, or the end. */
  function FileAt(files: seq<File>, name: string): (k: nat)
    ensures k <= |files| && (k < |files| ==> files[k].name == name) && (k < |files| <==> HasFile(files, name))
  {
    if files == [] then 0
    else if files[0].name == name then assert files[0] in files; 0
    else
      assert forall f :: f in files <==> f == files[0] || f in files[1..];
      1 + FileAt(files[1..], name)
  }

  /** Where a new name belongs. */
  function PlaceFor(files: seq<File>, name: string): (k: nat)
    ensures k <= |files|
  {
    if files == [] || NameBefore(name, files[0].name) then 0 else 1 + PlaceFor(files[1..], name)
  }

  /** The files before and after the one called `name`: it may stand between them or not. */
  function Earlier(files: seq<File>, name: string): seq<File> {
    if HasFile(files, name) then files[..FileAt(files, name)] else files[..PlaceFor(files, name)]
  }

  function Later(files: seq<File>, name: string): seq<File> {
    if HasFile(files, name) then files[FileAt(files, name) + 1..] else files[PlaceFor(files, name)..]
  }

  /** Writing a file: in place of one of that name, else where its name belongs. */
  function Put(files: seq<File>, name: string, text: string): seq<File> {
    Earlier(files, name) + [File(name, text)] + Later(files, name)
  }

  // ---- archive --------------------------------------------------------------------------------

  const UNRELEASED := "Unreleased"
  const ARCHIVE_DIR := "docs/changelog"

  /** An integer as an f-string prints it. */
  function Shown(n: int): string { if n < 0 then "-" + Decimal(-n) else Decimal(n) }

  function Prefix(major: int): string { Shown(major) + "." }

  function Target(major: int): string { Shown(major) + ".x.md" }

  function Moves(prefix: string): Section -> bool { (s: Section) => StartsWith(s.version, prefix) }

  function Stays(prefix: string): Section -> bool { (s: Section) => !StartsWith(s.version, prefix) }

  function LinkMoves(prefix: string): string -> bool { (l: string) => StartsWith(LinkVersion(l), prefix) }

  function LinkStays(prefix: string): string -> bool { (l: string) => !StartsWith(LinkVersion(l), prefix) }

  function Bodies(sections: seq<Section>): seq<string> {
    if sections == [] then [] else Bodies(sections[..|sections| - 1]) + [sections[|sections| - 1].text]
  }

  /** Opening, sections and links as they are written to a file. */
  function Printed(opening: string, sections: seq<Section>, links: seq<string>): string {
    opening + "\n\n" + Join("\n\n", Bodies(sections)) + "\n\n" + Join("\n", links) + "\n"
  }

  const ARCHIVE_INTRO := ".x release notes, moved out of" + " the root `CHANGELOG.md` when the"

  const ARCHIVE_OUTRO := "next major line began." + " They are frozen like every released section."

  function ArchiveHead(major: int): string {
    "# Changelog: " + Shown(major) + ".x releases (archived)" + "\n" + "" + "\n"
    + ("The " + Shown(major) + ARCHIVE_INTRO) + "\n"
    + ARCHIVE_OUTRO
  }

  const MARKER := "This file holds the current major line."

  /** Where `p` first occurs in `s`, if it does. */
  function Find(s: string, p: string): (i: Option<nat>)
    ensures i.Some? ==> i.value + |p| <= |s| && s[i.value..i.value + |p|] == p
  {
    if StartsWith(s, p) then Some(0)
    else if s == "" then None
    else match Find(s[1..], p) case Some(i) => Some(i + 1) case None => None
  }

  function NoteLink(major: nat): string {
    "[" + Decimal(major) + ".x](" + ARCHIVE_DIR + "/" + Decimal(major) + ".x.md)"
  }

  function NoteLinks(majors: seq<nat>): seq<string> {
    if majors == [] then [] else NoteLinks(majors[..|majors| - 1]) + [NoteLink(majors[|majors| - 1])]
  }

  function Listed(majors: seq<nat>): string
    requires majors != []
  {
    var n := |majors| - 1;
    if n == 0 then NoteLink(majors[0])
    else Join(", ", NoteLinks(majors[..n])) + " and " + NoteLink(majors[n])
  }

  const NOTE_DIR := "version in [`" + ARCHIVE_DIR + "/`](" + ARCHIVE_DIR + "/):"

  /** The note up to the blank line that ends it. */
  function Note(majors: seq<nat>): string
    requires majors != []
  {
    MARKER + " Earlier lines are archived per major" + "\n" + NOTE_DIR + "\n" + (Listed(majors) + ".")
  }

  /** The preamble with its archive note rewritten, or one added at its end. */
  function WithNote(preamble: string, majors: seq<nat>): string {
    if majors == [] then preamble
    else
      match Find(preamble, MARKER)
      case None => RStrip(preamble) + "\n" + "" + "\n" + Note(majors) + "\n" + "" + "\n" + ""
      case Some(i) =>
        var rest := preamble[i + |MARKER|..];
        var after := match Find(rest, "\n\n") case Some(j) => rest[j + 2..] case None => "";
        preamble[..i] + Note(majors) + "\n" + "" + "\n" + after
  }

  function Number(s: string): nat
    requires forall c :: c in s ==> IsDigit(c)
  {
    if s == "" then 0
    else
      var n := |s| - 1;
      assert s[n] in s;
      assert IsDigit(s[n]) && forall c :: c in s[..n] ==> c in s;
      10 * Number(s[..n]) + (s[n] as int - '0' as int)
  }

  predicate IsMajorFile(name: string) {
    |name| >= 5 && name[|name| - 5..] == ".x.md" && Digits(name[..IndexOf('.', name)])
  }

  /** `n` at its place in a descending list. */
  function Insert(n: nat, down: seq<nat>): seq<nat> {
    if down == [] || n >= down[0] then [n] + down else [down[0]] + Insert(n, down[1..])
  }

  /** The archived major lines, newest first. */
  function Majors(files: seq<File>): seq<nat> {
    if files == [] then []
    else if IsMajorFile(files[0].name)
      then Insert(Number(files[0].name[..IndexOf('.', files[0].name)]), Majors(files[1..]))
    else Majors(files[1..])
  }

  function Moved(p: Parts, major: int): seq<Section> { Those(p.sections, Moves(Prefix(major))) }

  function Kept(p: Parts, major: int): seq<Section> { Those(p.sections, Stays(Prefix(major))) }

  function MovedLinks(p: Parts, major: int): seq<string> { Those(p.links, LinkMoves(Prefix(major))) }

  function KeptLinks(p: Parts, major: int): seq<string> { Those(p.links, LinkStays(Prefix(major))) }

  /** The text of the new archive file. */
  function MovedText(p: Parts, major: int): string {
    Printed(ArchiveHead(major), Moved(p, major), MovedLinks(p, major))
  }

  /** The text left in the changelog, its note listing `majors`. */
  function KeptText(p: Parts, major: int, majors: seq<nat>): string {
    Printed(RStrip(WithNote(p.preamble, majors)), Kept(p, major), KeptLinks(p, major))
  }

  function Rewritten(t: Tree, p: Parts, major: int): Tree {
    var archives := Put(t.archives, Target(major), MovedText(p, major));
    Tree(KeptText(p, major, Majors(archives)), archives)
  }

  function Archived(t: Tree, major: int): Tree {
    var p := SplitText(t.main);
    if Moved(p, major) == [] then t else Rewritten(t, p, major)
  }

  // ---- collect --------------------------------------------------------------------------------

  /** Version to text over a set of files, and every link line. */
  datatype Collection = Collection(sections: map<string, string>, links: set<string>)

  /** Released sections only; a later one of the same version wins. */
  function SectionMap(sections: seq<Section>): map<string, string> {
    if sections == [] then map[]
    else
      var s := sections[|sections| - 1];
      var m := SectionMap(sections[..|sections| - 1]);
      if s.version == UNRELEASED then m else m[s.version := s.text]
  }

  function LinkSet(links: seq<string>): set<string> { set l | l in links }

  function Collected(texts: seq<string>): Collection {
    if texts == [] then Collection(map[], {})
    else
      var c := Collected(texts[..|texts| - 1]);
      var p := SplitText(texts[|texts| - 1]);
      Collection(c.sections + SectionMap(p.sections), c.links + LinkSet(p.links))
  }

  method Collect(texts: seq<string>) returns (c: Collection)
    ensures c == Collected(texts)
  {
    var sections: map<string, string> := map[];
    var links: set<string> := {};
    for i := 0 to |texts|
      invariant Collection(sections, links) == Collected(texts[..i])
    {
      assert texts[..i + 1][..i] == texts[..i];
      var p := Split(texts[i]);
      sections := AddReleased(sections, p.sections);
      links := links + LinkSet(p.links);
    }
    assert texts[..|texts|] == texts;
    c := Collection(sections, links);
  }

  method AddReleased(sections: map<string, string>, secs: seq<Section>) returns (all: map<string, string>)
    ensures all == sections + SectionMap(secs)
  {
    all := sections;
    for k := 0 to |secs|
      invariant all == sections + SectionMap(secs[..k])
    {
      assert secs[..k + 1][..k] == secs[..k];
      if secs[k].version != UNRELEASED {
        all := all[secs[k].version := secs[k].text];
      }
    }
    assert secs[..|secs|] == secs;
  }

  // ---- frozen ---------------------------------------------------------------------------------

  datatype Problem = Removed(version: string) | Differs(version: string) | LinkLost(line: string)

  /** `NothingToCompare` and `Unmodified` both pass. */
  datatype Verdict = NothingToCompare | Unmodified | Modified(problems: seq<Problem>)

  predicate IsProblem(base: Collection, head: Collection, p: Problem) {
    match p
    case Removed(v) => v in base.sections && v !in head.sections
    case Differs(v) => v in base.sections && v in head.sections && head.sections[v] != base.sections[v]
    case LinkLost(l) => l in base.links && LinkVersion(l) in head.sections && l !in head.links
  }

  function Released(sections: seq<Section>): seq<Section> {
    Those(sections, (s: Section) => s.version != UNRELEASED)
  }

  /** The base has a release, and the head carries the newest one. */
  predicate Comparable(base: Tree, head: Collection) {
    var released := Released(SplitText(base.main).sections);
    released != [] && released[0].version in head.sections
  }

  ghost predicate NoProblem(base: Collection, head: Collection) { forall p :: !IsProblem(base, head, p) }

  method SectionProblems(base: map<string, string>, head: map<string, string>) returns (problems: seq<Problem>)
    ensures forall p :: p in problems <==> !p.LinkLost? && IsProblem(Collection(base, {}), Collection(head, {}), p)
  {
    problems := [];
    var todo := base.Keys;
    while todo != {}
      invariant todo <= base.Keys
      invariant forall p :: p in problems <==>
        !p.LinkLost? && p.version !in todo && IsProblem(Collection(base, {}), Collection(head, {}), p)
      decreases |todo|
    {
      var v :| v in todo;
      todo := todo - {v};
      if v !in head {
        problems := problems + [Removed(v)];
      } else if head[v] != base[v] {
        problems := problems + [Differs(v)];
      }
    }
  }

  method LinkProblems(base: set<string>, head: Collection) returns (problems: seq<Problem>)
    ensures forall p :: p in problems <==> p.LinkLost? && IsProblem(Collection(map[], base), head, p)
  {
    problems := [];
    var todo := base;
    while todo != {}
      invariant todo <= base
      invariant forall p :: p in problems <==>
        p.LinkLost? && p.line !in todo && IsProblem(Collection(map[], base), head, p)
      decreases |todo|
    {
      var l :| l in todo;
      todo := todo - {l};
      if LinkVersion(l) in head.sections && l !in head.links {
        problems := problems + [LinkLost(l)];
      }
    }
  }

  /** The comparison reports every problem and nothing else, and passes when there is none. */
  method Frozen(base: Option<Tree>, head: Tree) returns (v: Verdict)
    ensures if base.None? then v == NothingToCompare else Says(base.value, head, v)
  {
    v := NothingToCompare;
    if base.Some? {
      var h := Collect(Texts(head));
      v := FrozenSince(base.value, h);
    }
  }

  /** The verdict on `head`, compared with `base`. */
  ghost predicate Says(base: Tree, head: Tree, v: Verdict) {
    && (v == NothingToCompare <==> !Comparable(base, Collected(Texts(head))))
    && (v == Unmodified ==> NoProblem(Collected(Texts(base)), Collected(Texts(head))))
    && (v.Modified? ==> Reports(Collected(Texts(base)), Collected(Texts(head)), v.problems))
  }

  method FrozenSince(base: Tree, h: Collection) returns (v: Verdict)
    ensures v == NothingToCompare <==> !Comparable(base, h)
    ensures v == Unmodified ==> NoProblem(Collected(Texts(base)), h)
    ensures v.Modified? ==> Reports(Collected(Texts(base)), h, v.problems)
  {
    var p := Split(base.main);
    v := NothingToCompare;
    if Released(p.sections) != [] && Released(p.sections)[0].version in h.sections {
      var b := Collect(Texts(base));
      v := Compare(b, h);
    }
  }

  ghost predicate Reports(b: Collection, h: Collection, problems: seq<Problem>) {
    problems != [] && forall p :: p in problems <==> IsProblem(b, h, p)
  }

  method Compare(b: Collection, h: Collection) returns (v: Verdict)
    ensures v != NothingToCompare
    ensures v == Unmodified ==> NoProblem(b, h)
    ensures v.Modified? ==> Reports(b, h, v.problems)
  {
    var ps := SectionProblems(b.sections, h.sections);
    var ls := LinkProblems(b.links, h);
    var problems := ps + ls;
    assert forall p :: p in problems <==> IsProblem(b, h, p);
    if problems == [] {
      v := Unmodified;
    } else {
      v := Modified(problems);
    }
  }
}
