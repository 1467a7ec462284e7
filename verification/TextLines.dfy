/** A text as the list of its lines: splitting at newlines, joining again, and stripping
    newlines from the end. */
module TextLines {

  predicate OneLine(s: string) { '\n' !in s }

  predicate AllOneLine(ls: seq<string>) { forall l :: l in ls ==> OneLine(l) }

  /** `text.split("\n")`. */
  function Lines(s: string): (r: seq<string>)
    ensures |r| > 0
  {
    if s == "" then [""]
    else if s[0] == '\n' then [""] + Lines(s[1..])
    else
      var r := Lines(s[1..]);
      [[s[0]] + r[0]] + r[1..]
  }

  /** `sep.join(parts)`. */
  function Join(sep: string, parts: seq<string>): string {
    if parts == [] then ""
    else if |parts| == 1 then parts[0]
    else Join(sep, parts[..|parts| - 1]) + sep + parts[|parts| - 1]
  }

  /** `text.rstrip("\n")`. */
  function RStrip(s: string): string {
    if s != "" && s[|s| - 1] == '\n' then RStrip(s[..|s| - 1]) else s
  }

  lemma {:induction false} LinesAppend(a: string, b: string)
    ensures Lines(a + "\n" + b) == Lines(a) + Lines(b)
  {
    var s := a + "\n" + b;
    if a == "" {
      assert s[1..] == b;
    } else {
      assert s[1..] == a[1..] + "\n" + b;
      LinesAppend(a[1..], b);
    }
  }

  lemma {:induction false} LinesOfOne(s: string)
    requires OneLine(s)
    ensures Lines(s) == [s]
  {
    if s != "" {
      LinesOfOne(s[1..]);
      assert s == [s[0]] + s[1..];
    }
  }

  lemma {:induction false} LinesAreOneLine(s: string)
    ensures AllOneLine(Lines(s))
  {
    if s != "" {
      LinesAreOneLine(s[1..]);
      var r := Lines(s[1..]);
      assert r[0] in r;
      assert forall l :: l in r[1..] ==> l in r;
    }
  }

  lemma JoinSnoc(sep: string, parts: seq<string>, x: string)
    requires parts != []
    ensures Join(sep, parts + [x]) == Join(sep, parts) + sep + x
  {
    assert (parts + [x])[..|parts|] == parts;
  }

  /** Splitting undoes joining. */
  lemma {:induction false} LinesOfJoin(ls: seq<string>)
    requires ls != [] && AllOneLine(ls)
    ensures Lines(Join("\n", ls)) == ls
  {
    var n := |ls| - 1;
    assert ls == ls[..n] + [ls[n]];
    assert ls[n] in ls;
    LinesOfOne(ls[n]);
    if n > 0 {
      assert AllOneLine(ls[..n]);
      LinesOfJoin(ls[..n]);
      LinesAppend(Join("\n", ls[..n]), ls[n]);
    }
  }

  /** Joining undoes splitting. */
  lemma {:induction false} JoinOfLines(s: string)
    ensures Join("\n", Lines(s)) == s
  {
    if s != "" {
      JoinOfLines(s[1..]);
      var r := Lines(s[1..]);
      if s[0] == '\n' {
        JoinHead("", r);
      } else {
        JoinGrow(s[0], r);
      }
    }
  }

  lemma {:induction false} JoinHead(x: string, ls: seq<string>)
    requires ls != []
    ensures Join("\n", [x] + ls) == x + "\n" + Join("\n", ls)
  {
    var n := |ls| - 1;
    var all := [x] + ls;
    assert all[..n + 1] == [x] + ls[..n];
    if n > 0 {
      JoinHead(x, ls[..n]);
    }
  }

  lemma {:induction false} JoinGrow(c: char, ls: seq<string>)
    requires ls != []
    ensures Join("\n", [[c] + ls[0]] + ls[1..]) == [c] + Join("\n", ls)
  {
    var n := |ls| - 1;
    var all := [[c] + ls[0]] + ls[1..];
    if n > 0 {
      assert all[..n] == [[c] + ls[..n][0]] + ls[..n][1..];
      JoinGrow(c, ls[..n]);
    }
  }

  lemma RStripNewline(s: string)
    ensures RStrip(s + "\n") == RStrip(s)
  {
    assert (s + "\n")[..|s|] == s;
  }

  /** Stripping only drops empty lines from the end. */
  lemma {:induction false} RStripDropsLines(s: string)
    ensures |Lines(RStrip(s))| <= |Lines(s)| && Lines(RStrip(s)) == Lines(s)[..|Lines(RStrip(s))|]
  {
    if s != "" && s[|s| - 1] == '\n' {
      var t := s[..|s| - 1];
      assert s == t + "\n" + "";
      LinesAppend(t, "");
      RStripDropsLines(t);
    }
  }

  lemma RStripKeeps(s: string)
    requires Lines(s)[|Lines(s)| - 1] != ""
    ensures RStrip(s) == s
  {
    if s != "" && s[|s| - 1] == '\n' {
      assert s == s[..|s| - 1] + "\n" + "";
      LinesAppend(s[..|s| - 1], "");
    }
  }

  /** A stripped text does not end in an empty line, unless it is empty. */
  lemma {:induction false} RStripEnds(s: string)
    ensures RStrip(s) == "" || Lines(RStrip(s))[|Lines(RStrip(s))| - 1] != ""
  {
    if s != "" && s[|s| - 1] == '\n' {
      RStripEnds(s[..|s| - 1]);
    } else if s != "" {
      LastLine(s);
    }
  }

  lemma {:induction false} LastLine(s: string)
    requires s != "" && s[|s| - 1] != '\n'
    ensures Lines(s)[|Lines(s)| - 1] != ""
  {
    if |s| > 1 {
      LastLine(s[1..]);
    }
  }
}
