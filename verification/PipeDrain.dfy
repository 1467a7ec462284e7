/** A child process writing to two bounded pipes, and the installer reading both: stdout
    line by line on the calling thread, stderr on a thread of its own. Any interleaving of
    the three is a run. */
module PipeDrain {
  import opened Common

  const NEWLINE: byte := 10
  const RETURN: byte := 13

  /** One byte the child writes. A larger write is a run of these. */
  datatype Op = Stdout(b: byte) | Stderr(b: byte)

  /** What the reader is given: pipe capacities, which lines decode, and which calls of
      `on_line` (by number) succeed. */
  datatype Setup = Setup(capOut: nat, capErr: nat, decodes: seq<byte> -> bool, accepts: (nat, seq<byte>) -> bool)

  datatype Main = Reading | Joining | Returned(ok: bool)

  /** `died`: the child gave up on finding stdout closed. */
  datatype Sys = Sys(
    script: seq<Op>, out: seq<byte>, err: seq<byte>, buf: seq<byte>, lines: seq<seq<byte>>,
    text: seq<byte>, main: Main, drained: bool, died: bool)

  datatype Step = Write | Die | ReadOut(n: nat) | Line | EndOfOut | ReadErr(n: nat) | EndOfErr | Join

  function Started(script: seq<Op>): Sys { Sys(script, [], [], [], [], [], Reading, false, false) }

  // ---- lines ------------------------------------------------------------------------------

  function NewlineAt(s: seq<byte>): (i: nat)
    ensures i <= |s| && (i < |s| ==> s[i] == NEWLINE) && NEWLINE !in s[..i]
  {
    if s == [] || s[0] == NEWLINE then 0
    else
      var i := NewlineAt(s[1..]) + 1;
      assert s[..i] == [s[0]] + s[1..][..i - 1];
      i
  }

  function WithoutReturn(s: seq<byte>): seq<byte> {
    if s != [] && s[|s| - 1] == RETURN then s[..|s| - 1] else s
  }

  /** `BufRead::lines`: a final unterminated line counts, a carriage return goes only with
      its newline. */
  function LinesOf(s: seq<byte>): seq<seq<byte>> {
    var i := NewlineAt(s);
    if s == [] then []
    else if i == |s| then [s]
    else [WithoutReturn(s[..i])] + LinesOf(s[i + 1..])
  }

  /** Lines as a child writes them, each closed by a newline, `withReturn` telling before which a
      carriage return stands. */
  function Closed(lines: seq<seq<byte>>, withReturn: seq<bool>): seq<byte>
    requires |lines| == |withReturn|
  {
    if lines == [] then []
    else lines[0] + (if withReturn[0] then [RETURN, NEWLINE] else [NEWLINE]) + Closed(lines[1..], withReturn[1..])
  }

  predicate IsLine(line: seq<byte>, closedWithReturn: bool) {
    NEWLINE !in line && (closedWithReturn || line == [] || line[|line| - 1] != RETURN)
  }

  /** Whatever lines are written, they are read back, all and in order, and what is left behind
      the last newline is one more, as it stands. */
  lemma {:induction false} LinesReadBack(lines: seq<seq<byte>>, withReturn: seq<bool>, last: seq<byte>)
    requires |lines| == |withReturn| && NEWLINE !in last
    requires forall i :: 0 <= i < |lines| ==> IsLine(lines[i], withReturn[i])
    ensures LinesOf(Closed(lines, withReturn) + last) == lines + if last == [] then [] else [last]
  {
    if lines == [] {
      assert last[..|last|] == last;
      NewlineAtIs(last, |last|);
      assert [] + last == last;
      assert [] + [last] == [last];
    } else {
      var tail := Closed(lines[1..], withReturn[1..]) + last;
      forall i | 0 <= i < |lines[1..]| ensures IsLine(lines[1..][i], withReturn[1..][i]) {
        assert lines[1..][i] == lines[i + 1];
      }
      LinesReadBack(lines[1..], withReturn[1..], last);
      FirstLineRead(lines[0], withReturn[0], tail);
      ClosedFirst(lines, withReturn, last);
      FirstOfLines(lines, last);
    }
  }

  lemma ClosedFirst(lines: seq<seq<byte>>, withReturn: seq<bool>, last: seq<byte>)
    requires |lines| == |withReturn| > 0
    ensures Closed(lines, withReturn) + last
            == lines[0] + (if withReturn[0] then [RETURN, NEWLINE] else [NEWLINE]) + (Closed(lines[1..], withReturn[1..]) + last)
  {
  }

  lemma FirstOfLines(lines: seq<seq<byte>>, last: seq<byte>)
    requires lines != []
    ensures [lines[0]] + (lines[1..] + if last == [] then [] else [last]) == lines + if last == [] then [] else [last]
  {
  }

  lemma LineRead(x: seq<byte>, tail: seq<byte>)
    requires NEWLINE !in x
    ensures LinesOf(x + [NEWLINE] + tail) == [WithoutReturn(x)] + LinesOf(tail)
  {
    var s := x + [NEWLINE] + tail;
    assert s[|x|] == NEWLINE && s[..|x|] == x && s[|x| + 1..] == tail;
    NewlineAtIs(s, |x|);
  }

  lemma FirstLineRead(line: seq<byte>, withReturn: bool, tail: seq<byte>)
    requires IsLine(line, withReturn)
    ensures LinesOf(line + (if withReturn then [RETURN, NEWLINE] else [NEWLINE]) + tail) == [line] + LinesOf(tail)
  {
    if withReturn {
      LineRead(line + [RETURN], tail);
      assert (line + [RETURN])[..|line|] == line;
      assert line + [RETURN, NEWLINE] == line + [RETURN] + [NEWLINE];
    } else {
      LineRead(line, tail);
    }
  }

  // ---- steps --------------------------------------------------------------------------------

  predicate Enabled(u: Setup, s: Sys, step: Step) {
    match step
    case Write =>
      s.script != [] && (match s.script[0]
        case Stdout(_) => s.main != Reading || |s.out| < u.capOut
        case Stderr(_) => |s.err| < u.capErr)
    case Die => s.script != [] && s.script[0].Stdout? && s.main != Reading
    case ReadOut(n) => s.main == Reading && NewlineAt(s.buf) == |s.buf| && 0 < n <= |s.out|
    case Line => s.main == Reading && NewlineAt(s.buf) < |s.buf|
    case EndOfOut => s.main == Reading && NewlineAt(s.buf) == |s.buf| && s.out == [] && s.script == []
    case ReadErr(n) => !s.drained && 0 < n <= |s.err|
    case EndOfErr => !s.drained && s.err == [] && s.script == []
    case Join => s.main == Joining && s.drained
  }

  /** One line reaches the loop body. */
  function Deliver(u: Setup, s: Sys, line: seq<byte>): Sys {
    if !u.decodes(line) then s.(main := Joining)
    else if !u.accepts(|s.lines|, line) then s.(lines := s.lines + [line], main := Returned(false))
    else s.(lines := s.lines + [line])
  }

  function Apply(u: Setup, s: Sys, step: Step): Sys
    requires Enabled(u, s, step)
  {
    match step
    case Write =>
      (match s.script[0]
       case Stdout(b) =>
         if s.main == Reading then s.(script := s.script[1..], out := s.out + [b])
         else s.(script := s.script[1..])
       case Stderr(b) => s.(script := s.script[1..], err := s.err + [b]))
    case Die => s.(script := [], died := true)
    case ReadOut(n) => s.(buf := s.buf + s.out[..n], out := s.out[n..])
    case Line =>
      var i := NewlineAt(s.buf);
      Deliver(u, s.(buf := s.buf[i + 1..]), WithoutReturn(s.buf[..i]))
    case EndOfOut => if s.buf == [] then s.(main := Joining) else Deliver(u, s.(buf := []), s.buf)
    case ReadErr(n) => s.(text := s.text + s.err[..n], err := s.err[n..])
    case EndOfErr => s.(drained := true)
    case Join => s.(main := Returned(true))
  }

  // ---- progress --------------------------------------------------------------------------------

  predicate Sound(s: Sys) { s.drained ==> s.script == [] && s.err == [] }

  lemma StepSound(u: Setup, s: Sys, step: Step)
    requires Sound(s) && Enabled(u, s, step)
    ensures Sound(Apply(u, s, step))
  {
  }

  /** No reachable unfinished state is stuck, for any script and any capacities. */
  lemma AlwaysAStep(u: Setup, s: Sys) returns (step: Step)
    requires u.capOut > 0 && u.capErr > 0 && Sound(s) && !s.main.Returned?
    ensures Enabled(u, s, step)
  {
    if s.main == Joining && s.drained {
      step := Join;
    } else if s.main == Reading && NewlineAt(s.buf) < |s.buf| {
      step := Line;
    } else if s.main == Reading && s.out != [] {
      step := ReadOut(1);
    } else if s.err != [] {
      step := ReadErr(1);
    } else if s.script != [] {
      step := Write;
    } else if s.main == Reading {
      step := EndOfOut;
    } else {
      step := EndOfErr;
    }
  }

  function Work(s: Sys): nat {
    4 * |s.script| + 2 * |s.out| + |s.buf| + |s.err|
    + (if s.drained then 0 else 1)
    + (match s.main case Reading => 2 case Joining => 1 case Returned(_) => 0)
  }

  /** Every step uses up work. */
  lemma StepWorks(u: Setup, s: Sys, step: Step)
    requires Enabled(u, s, step)
    ensures Work(Apply(u, s, step)) < Work(s)
  {
  }

  // ---- what arrives ------------------------------------------------------------------------------

  function Outs(script: seq<Op>): seq<byte> {
    if script == [] then []
    else (if script[0].Stdout? then [script[0].b] else []) + Outs(script[1..])
  }

  function Errs(script: seq<Op>): seq<byte> {
    if script == [] then []
    else (if script[0].Stderr? then [script[0].b] else []) + Errs(script[1..])
  }

  /** The lines handed over so far: each decodes, and all but a last rejected one were
      accepted. */
  predicate HandedOver(u: Setup, s: Sys) {
    && (forall k :: 0 <= k < |s.lines| ==> u.decodes(s.lines[k]))
    && (forall k :: 0 <= k < |s.lines| ==>
          u.accepts(k, s.lines[k]) || (k == |s.lines| - 1 && s.main == Returned(false)))
  }

  predicate Prefix<T(==)>(a: seq<T>, b: seq<T>) { |a| <= |b| && b[..|a|] == a }

  predicate StdoutCarried(u: Setup, all: seq<seq<byte>>, s: Sys) {
    match s.main
    case Reading => s.lines + LinesOf(s.buf + s.out + Outs(s.script)) == all && !s.died
    case Joining => Prefix(s.lines, all) && if s.lines == all then s.script == [] && !s.died else !u.decodes(all[|s.lines|])
    case Returned(true) => Prefix(s.lines, all) && s.drained && if s.lines == all then !s.died else !u.decodes(all[|s.lines|])
    case Returned(false) =>
      Prefix(s.lines, all) && s.lines != [] && !u.accepts(|s.lines| - 1, s.lines[|s.lines| - 1])
  }

  predicate StderrCarried(all: seq<byte>, s: Sys) {
    var seen := s.text + s.err + Errs(s.script);
    Prefix(seen, all) && (!s.died ==> seen == all)
  }

  /** Nothing is lost, added or reordered on either stream. */
  predicate Carried(u: Setup, script: seq<Op>, s: Sys) {
    HandedOver(u, s) && StdoutCarried(u, LinesOf(Outs(script)), s) && StderrCarried(Errs(script), s)
  }

  lemma StartCarried(u: Setup, script: seq<Op>)
    ensures Carried(u, script, Started(script)) && Sound(Started(script))
  {
    assert [] + [] + Outs(script) == Outs(script);
    assert [] + LinesOf(Outs(script)) == LinesOf(Outs(script));
    assert [] + [] + Errs(script) == Errs(script);
  }

  // ---- stdout ---------------------------------------------------------------------------------------

  lemma NewlineAtIs(s: seq<byte>, i: nat)
    requires i <= |s| && NEWLINE !in s[..i] && (i < |s| ==> s[i] == NEWLINE)
    ensures NewlineAt(s) == i
  {
    var j := NewlineAt(s);
    assert forall k :: 0 <= k < j ==> s[..j][k] == s[k];
    assert forall k :: 0 <= k < i ==> s[..i][k] == s[k];
  }

  /** A whole line at the front is the first line, whatever follows. */
  lemma FirstLine(buf: seq<byte>, rest: seq<byte>)
    requires NewlineAt(buf) < |buf|
    ensures LinesOf(buf + rest)
            == [WithoutReturn(buf[..NewlineAt(buf)])] + LinesOf(buf[NewlineAt(buf) + 1..] + rest)
  {
    var i := NewlineAt(buf);
    var s := buf + rest;
    assert s[..i] == buf[..i];
    NewlineAtIs(s, i);
    assert s[i + 1..] == buf[i + 1..] + rest;
  }

  lemma LastLine(buf: seq<byte>)
    requires NewlineAt(buf) == |buf| && buf != []
    ensures LinesOf(buf) == [buf]
  {
  }

  lemma OutsStep(script: seq<Op>, b: byte)
    requires script != [] && script[0] == Stdout(b)
    ensures Outs(script) == [b] + Outs(script[1..]) && Errs(script) == Errs(script[1..])
  {
  }

  lemma ErrsStep(script: seq<Op>, b: byte)
    requires script != [] && script[0] == Stderr(b)
    ensures Errs(script) == [b] + Errs(script[1..]) && Outs(script) == Outs(script[1..])
  {
  }

  lemma PrefixSnoc(a: seq<seq<byte>>, line: seq<byte>, due: seq<seq<byte>>)
    ensures Prefix(a, a + [line] + due) && Prefix(a + [line], a + [line] + due)
    ensures (a + [line] + due)[|a|] == line && a != a + [line] + due
  {
    assert (a + [line] + due)[..|a|] == a;
    assert |a + [line] + due| > |a|;
  }

  lemma DeliverHands(u: Setup, s: Sys, line: seq<byte>)
    requires s.main == Reading && HandedOver(u, s) && u.decodes(line)
    ensures HandedOver(u, Deliver(u, s, line))
  {
    var t := Deliver(u, s, line);
    forall k | 0 <= k < |t.lines|
      ensures u.decodes(t.lines[k]) && (u.accepts(k, t.lines[k]) || (k == |t.lines| - 1 && t.main == Returned(false)))
    {
      assert k < |s.lines| ==> t.lines[k] == s.lines[k];
    }
  }

  /** A line handed to the loop body is the next one due. */
  lemma DeliverCarries(u: Setup, all: seq<seq<byte>>, s: Sys, line: seq<byte>, due: seq<seq<byte>>)
    requires s.main == Reading && !s.died && HandedOver(u, s)
    requires s.lines + [line] + due == all
    requires LinesOf(s.buf + s.out + Outs(s.script)) == due
    ensures HandedOver(u, Deliver(u, s, line)) && StdoutCarried(u, all, Deliver(u, s, line))
  {
    PrefixSnoc(s.lines, line, due);
    var t := Deliver(u, s, line);
    if u.decodes(line) {
      DeliverHands(u, s, line);
      assert u.accepts(|s.lines|, line) ==> t.lines + LinesOf(t.buf + t.out + Outs(t.script)) == all;
    }
  }

  lemma LineCarries(u: Setup, all: seq<seq<byte>>, s: Sys)
    requires HandedOver(u, s) && StdoutCarried(u, all, s) && Enabled(u, s, Line)
    ensures HandedOver(u, Apply(u, s, Line)) && StdoutCarried(u, all, Apply(u, s, Line))
  {
    var i := NewlineAt(s.buf);
    var rest := s.out + Outs(s.script);
    var t := s.(buf := s.buf[i + 1..]);
    assert s.buf + s.out + Outs(s.script) == s.buf + rest;
    assert t.buf + t.out + Outs(t.script) == t.buf + rest;
    FirstLine(s.buf, rest);
    var due := LinesOf(t.buf + rest);
    assert s.lines + ([WithoutReturn(s.buf[..i])] + due) == s.lines + [WithoutReturn(s.buf[..i])] + due;
    DeliverCarries(u, all, t, WithoutReturn(s.buf[..i]), due);
  }

  lemma EndOfOutCarries(u: Setup, all: seq<seq<byte>>, s: Sys)
    requires HandedOver(u, s) && StdoutCarried(u, all, s) && Enabled(u, s, EndOfOut)
    ensures HandedOver(u, Apply(u, s, EndOfOut)) && StdoutCarried(u, all, Apply(u, s, EndOfOut))
  {
    assert s.buf + s.out + Outs(s.script) == s.buf;
    if s.buf == [] {
      assert s.lines + [] == s.lines;
      assert all[..|all|] == all;
    } else {
      var t := s.(buf := []);
      LastLine(s.buf);
      assert t.buf + t.out + Outs(t.script) == [];
      assert s.lines + [s.buf] + [] == all;
      DeliverCarries(u, all, t, s.buf, []);
    }
  }

  lemma ReadOutCarries(u: Setup, all: seq<seq<byte>>, s: Sys, n: nat)
    requires HandedOver(u, s) && StdoutCarried(u, all, s) && Enabled(u, s, ReadOut(n))
    ensures HandedOver(u, Apply(u, s, ReadOut(n))) && StdoutCarried(u, all, Apply(u, s, ReadOut(n)))
  {
    assert s.out == s.out[..n] + s.out[n..];
    assert s.buf + s.out + Outs(s.script) == s.buf + s.out[..n] + s.out[n..] + Outs(s.script);
  }

  lemma WriteCarries(u: Setup, all: seq<seq<byte>>, s: Sys)
    requires HandedOver(u, s) && StdoutCarried(u, all, s) && Enabled(u, s, Write)
    ensures HandedOver(u, Apply(u, s, Write)) && StdoutCarried(u, all, Apply(u, s, Write))
  {
    match s.script[0]
    case Stdout(b) =>
      OutsStep(s.script, b);
      assert s.buf + s.out + ([b] + Outs(s.script[1..])) == s.buf + (s.out + [b]) + Outs(s.script[1..]);
    case Stderr(b) => ErrsStep(s.script, b);
  }

  // ---- stderr ----------------------------------------------------------------------------------------

  lemma StderrStep(u: Setup, all: seq<byte>, s: Sys, step: Step)
    requires StderrCarried(all, s) && Enabled(u, s, step)
    ensures StderrCarried(all, Apply(u, s, step))
  {
    match step
    case Write =>
      match s.script[0] {
        case Stdout(b) => OutsStep(s.script, b);
        case Stderr(b) =>
          ErrsStep(s.script, b);
          assert s.text + s.err + ([b] + Errs(s.script[1..])) == s.text + (s.err + [b]) + Errs(s.script[1..]);
      }
    case Die =>
      var seen := s.text + s.err + Errs(s.script);
      assert s.text + s.err + [] == seen[..|s.text + s.err|];
    case ReadErr(n) =>
      assert s.err == s.err[..n] + s.err[n..];
      assert s.text + s.err + Errs(s.script) == s.text + s.err[..n] + s.err[n..] + Errs(s.script);
    case _ =>
  }

  lemma StepCarries(u: Setup, script: seq<Op>, s: Sys, step: Step)
    requires Carried(u, script, s) && Sound(s) && Enabled(u, s, step)
    ensures Carried(u, script, Apply(u, s, step)) && Sound(Apply(u, s, step))
  {
    var all := LinesOf(Outs(script));
    StepSound(u, s, step);
    StderrStep(u, Errs(script), s, step);
    match step
    case Write => WriteCarries(u, all, s);
    case ReadOut(n) => ReadOutCarries(u, all, s, n);
    case Line => LineCarries(u, all, s);
    case EndOfOut => EndOfOutCarries(u, all, s);
    case _ =>
  }

  // ---- every run ----------------------------------------------------------------------------------------

  predicate IsRun(u: Setup, script: seq<Op>, ss: seq<Sys>, steps: seq<Step>) {
    && |ss| == |steps| + 1 && ss[0] == Started(script)
    && forall i :: 0 <= i < |steps| ==> Enabled(u, ss[i], steps[i]) && ss[i + 1] == Apply(u, ss[i], steps[i])
  }

  lemma {:induction false} RunCarries(u: Setup, script: seq<Op>, ss: seq<Sys>, steps: seq<Step>, i: nat)
    requires IsRun(u, script, ss, steps) && i < |ss|
    ensures Carried(u, script, ss[i]) && Sound(ss[i]) && Work(ss[i]) + i <= Work(ss[0])
  {
    if i == 0 {
      StartCarried(u, script);
    } else {
      RunCarries(u, script, ss, steps, i - 1);
      StepCarries(u, script, ss[i - 1], steps[i - 1]);
      StepWorks(u, ss[i - 1], steps[i - 1]);
    }
  }

  /** The drain never deadlocks: whatever the script, the capacities and the schedule, a run
      is bounded, and one that cannot go on has returned. If every line decodes and is
      accepted, it has handed over every stdout line in order and holds all of stderr. */
  lemma RunsReturn(u: Setup, script: seq<Op>, ss: seq<Sys>, steps: seq<Step>)
    requires u.capOut > 0 && u.capErr > 0 && IsRun(u, script, ss, steps)
    requires forall step :: !Enabled(u, ss[|steps|], step)
    ensures |steps| <= 4 * |script| + 3
    ensures var s := ss[|steps|];
            && s.main.Returned? && s.drained
            && Prefix(s.lines, LinesOf(Outs(script))) && Prefix(s.text, Errs(script))
            && (AllLines(u)
                ==> s.main == Returned(true) && s.lines == LinesOf(Outs(script)) && s.text == Errs(script))
  {
    var s := ss[|steps|];
    RunCarries(u, script, ss, steps, |steps|);
    if !s.main.Returned? {
      var step := AlwaysAStep(u, s);
    }
    if !s.drained {
      var step := DrainGoesOn(u, s);
    }
    assert s.text + s.err + Errs(s.script) == s.text;
  }

  /** The draining thread finishes too, also after an early return. */
  lemma DrainGoesOn(u: Setup, s: Sys) returns (step: Step)
    requires u.capErr > 0 && s.main.Returned? && !s.drained
    ensures Enabled(u, s, step)
  {
    if s.err != [] {
      step := ReadErr(1);
    } else if s.script != [] {
      step := Write;
    } else {
      step := EndOfErr;
    }
  }

  /** `read_output` under any scheduler that only picks steps that are enabled. */
  method ReadOutput(u: Setup, script: seq<Op>, pick: Sys -> Step) returns (s: Sys)
    requires u.capOut > 0 && u.capErr > 0
    requires forall t :: Sound(t) && !t.main.Returned? ==> Enabled(u, t, pick(t))
    ensures s.main.Returned? && Carried(u, script, s)
  {
    s := Started(script);
    StartCarried(u, script);
    while !s.main.Returned?
      invariant Carried(u, script, s) && Sound(s)
      decreases Work(s)
    {
      StepCarries(u, script, s, pick(s));
      StepWorks(u, s, pick(s));
      s := Apply(u, s, pick(s));
    }
  }

  // ---- reading stderr only afterwards ---------------------------------------------------------------------

  /** The same reader without the thread: stderr is left alone until stdout has ended. */
  predicate EnabledLate(u: Setup, s: Sys, step: Step) {
    Enabled(u, s, step) && (step.ReadErr? || step.EndOfErr? ==> s.main != Reading)
  }

  predicate IsLateRun(u: Setup, script: seq<Op>, ss: seq<Sys>, steps: seq<Step>) {
    && |ss| == |steps| + 1 && ss[0] == Started(script)
    && forall i :: 0 <= i < |steps| ==> EnabledLate(u, ss[i], steps[i]) && ss[i + 1] == Apply(u, ss[i], steps[i])
  }

  /** While stdout is read, stderr only fills up. */
  predicate Unread(script: seq<Op>, s: Sys) {
    s.main == Reading ==> s.err + Errs(s.script) == Errs(script) && s.text == [] && !s.died
  }

  lemma LateStep(u: Setup, script: seq<Op>, s: Sys, step: Step)
    requires Unread(script, s) && EnabledLate(u, s, step)
    ensures Unread(script, Apply(u, s, step))
  {
    if step.Write? {
      match s.script[0] {
        case Stdout(b) => OutsStep(s.script, b);
        case Stderr(b) =>
          ErrsStep(s.script, b);
          assert s.err + ([b] + Errs(s.script[1..])) == s.err + [b] + Errs(s.script[1..]);
      }
    }
  }

  ghost predicate AllLines(u: Setup) { (forall line :: u.decodes(line)) && (forall k, line :: u.accepts(k, line)) }

  lemma {:induction false} LateRunKeeps(u: Setup, script: seq<Op>, ss: seq<Sys>, steps: seq<Step>, i: nat)
    requires IsLateRun(u, script, ss, steps) && i < |ss|
    ensures Unread(script, ss[i]) && Sound(ss[i]) && |ss[i].err| <= u.capErr
  {
    if i == 0 {
      assert [] + Errs(script) == Errs(script);
    } else {
      LateRunKeeps(u, script, ss, steps, i - 1);
      LateStep(u, script, ss[i - 1], steps[i - 1]);
      StepSound(u, ss[i - 1], steps[i - 1]);
    }
  }

  /** With more stderr than its pipe holds, stdout never ends. */
  lemma {:induction false} LateStaysReading(u: Setup, script: seq<Op>, ss: seq<Sys>, steps: seq<Step>, i: nat)
    requires IsLateRun(u, script, ss, steps) && i < |ss| && AllLines(u) && |Errs(script)| > u.capErr
    ensures ss[i].main == Reading
  {
    if i > 0 {
      LateStaysReading(u, script, ss, steps, i - 1);
      LateRunKeeps(u, script, ss, steps, i - 1);
      assert ss[i - 1].err + [] == ss[i - 1].err;
    }
  }

  /** With no more than that, the late reader always has a step. */
  lemma LateAlwaysAStep(u: Setup, script: seq<Op>, s: Sys) returns (step: Step)
    requires u.capOut > 0 && u.capErr > 0 && Sound(s) && !s.main.Returned?
    requires Unread(script, s) && |Errs(script)| <= u.capErr
    ensures EnabledLate(u, s, step)
  {
    if s.main == Joining {
      step := AlwaysAStep(u, s);
    } else if NewlineAt(s.buf) < |s.buf| {
      step := Line;
    } else if s.out != [] {
      step := ReadOut(1);
    } else if s.script == [] {
      step := EndOfOut;
    } else {
      if s.script[0].Stderr? {
        ErrsStep(s.script, s.script[0].b);
        assert |s.err + Errs(s.script)| == |s.err| + |Errs(s.script)|;
      }
      step := Write;
    }
  }

  lemma {:induction false} Exhaust(u: Setup, script: seq<Op>, ss: seq<Sys>, steps: seq<Step>)
    returns (ss': seq<Sys>, steps': seq<Step>)
    requires IsLateRun(u, script, ss, steps)
    ensures IsLateRun(u, script, ss', steps') && forall step :: !EnabledLate(u, ss'[|steps'|], step)
    decreases Work(ss[|steps|])
  {
    var s := ss[|steps|];
    if step :| EnabledLate(u, s, step) {
      StepWorks(u, s, step);
      ss', steps' := Exhaust(u, script, ss + [Apply(u, s, step)], steps + [step]);
    } else {
      ss', steps' := ss, steps;
    }
  }

  /** A run of the late reader that cannot go on and has not returned. */
  ghost predicate GetsStuck(u: Setup, script: seq<Op>) {
    exists ss: seq<Sys>, steps: seq<Step> :: IsLateRun(u, script, ss, steps) && !ss[|steps|].main.Returned?
      && forall step :: !EnabledLate(u, ss[|steps|], step)
  }

  /** Why the thread is there: without it the reader deadlocks on exactly the scripts that
      write more to stderr than the pipe holds. */
  lemma LateReaderDeadlocksIff(u: Setup, script: seq<Op>)
    requires u.capOut > 0 && u.capErr > 0 && AllLines(u)
    ensures GetsStuck(u, script) <==> |Errs(script)| > u.capErr
  {
    if |Errs(script)| > u.capErr {
      var ss, steps := Exhaust(u, script, [Started(script)], []);
      LateStaysReading(u, script, ss, steps, |steps|);
    } else {
      forall ss: seq<Sys>, steps: seq<Step> | IsLateRun(u, script, ss, steps) && !ss[|steps|].main.Returned?
        ensures exists step :: EnabledLate(u, ss[|steps|], step)
      {
        LateRunKeeps(u, script, ss, steps, |steps|);
        var step := LateAlwaysAStep(u, script, ss[|steps|]);
      }
    }
  }
}
