/**
 * The editor: a buffer of lines and a cursor (the current address). Executing a
 * command resolves its address, selects the addressed lines, prints them and
 * moves the cursor to the end of the range.
 *
 * The selection indexes the 0-based buffer with the validated 1-based range
 * unchanged, so it picks the lines one past the addressed ones; addressing the
 * last line, or a range reversed by more than one, makes the index panic.
 */
module Editing {
  import opened Syntax
  import opened Resolve
  import opened Grammar
  import opened Parser

  /** What one command line produces: printed text, a reported error, or an abort. */
  datatype Outcome = Printed(text: string) | Failed(error: Error) | Panicked

  /** An outcome together with the cursor it leaves. */
  datatype Step = Step(outcome: Outcome, cursor: nat)

  /** The lines joined with `sep` between consecutive ones. */
  function Join(ls: seq<string>, sep: string): string
    decreases |ls|
  {
    if |ls| == 0 then "" else if |ls| == 1 then ls[0] else ls[0] + sep + Join(ls[1..], sep)
  }

  /**
   * Indexing the 0-based buffer with the inclusive range `start..=end`; None where
   * that index panics (it ends past the buffer, or starts after `end + 1`).
   */
  function SliceInclusive(lines: seq<string>, r: LineRange): (sel: Option<seq<string>>)
    ensures sel.Some? <==> r.start <= r.end + 1 && r.end < |lines|
    ensures sel.Some? ==> |sel.value| == r.end + 1 - r.start
    ensures sel.Some? ==> forall k :: 0 <= k < |sel.value| ==> sel.value[k] == lines[r.start + k]
  {
    if r.start <= r.end + 1 && r.end + 1 <= |lines| then Some(lines[r.start..r.end + 1]) else None
  }

  /**
   * One command against a buffer and a cursor; the buffer itself never changes.
   * Only a print moves the cursor, and it always lands on an existing line that
   * is not the last one.
   */
  function Transition(c: Command, lines: seq<string>, current: nat): (t: Step)
    ensures !t.outcome.Printed? ==> t.cursor == current
    ensures t.outcome.Printed? ==> 1 <= t.cursor < |lines|
    ensures t.outcome.Failed? ==> t.outcome.error == OutOfBounds
  {
    match ResolveAddress(c, |lines|, current)
    case Err(e) => Step(Failed(e), current)
    case Ok(range) =>
      match SliceInclusive(lines, range)
      case None => Step(Panicked, current)
      case Some(addressed) => Step(Printed(Join(addressed, "\n")), range.end)
  }

  /** One input line: a parse error is reported and keeps the cursor; a command is executed. */
  function InterpretStep(input: string, lines: seq<string>, current: nat): (t: Step)
    ensures ParseCommand(input).Err? ==> t == Step(Failed(ParseCommand(input).error), current)
    ensures t.outcome.Printed? ==> 1 <= t.cursor < |lines|
  {
    match ParseCommand(input)
    case Err(e) => Step(Failed(e), current)
    case Ok(c) => Transition(c, lines, current)
  }

  class Editor {
    var currentAddress: nat
    var lines: seq<string>

    /** The state right after loading: the cursor on the last line. */
    constructor FromFile(fileLines: seq<string>)
      ensures lines == fileLines && currentAddress == |fileLines|
    {
      currentAddress := |fileLines|;
      lines := fileLines;
    }

    method Execute(c: Command) returns (o: Outcome)
      modifies this`currentAddress
      ensures lines == old(lines)
      ensures Step(o, currentAddress) == Transition(c, old(lines), old(currentAddress))
    {
      var resolved := ResolveAddress(c, |lines|, currentAddress);
      if resolved.Err? {
        return Failed(resolved.error);
      }
      var range := resolved.value;
      var end := range.end;
      if !(range.start <= range.end + 1 && range.end + 1 <= |lines|) {
        return Panicked;
      }
      var addressed := lines[range.start..range.end + 1];
      match c.kind {
        case Print =>
          o := Printed(Join(addressed, "\n"));
        case PrintAndSet =>
          o := Printed(Join(addressed, "\n"));
      }
      currentAddress := end;
    }

    /** Parses one input line and executes it; a parse error changes nothing. */
    method Interpret(input: string) returns (o: Outcome)
      modifies this`currentAddress
      ensures lines == old(lines)
      ensures Step(o, currentAddress) == InterpretStep(input, old(lines), old(currentAddress))
    {
      var command := ParseCommandLine(input);
      if command.Err? {
        return Failed(command.error);
      }
      o := Execute(command.value);
    }
  }

  // ---------------------------------------------------------------------------
  // What one command does.

  /**
   * The complete behaviour of a command in terms of its unvalidated endpoints:
   * out of bounds, an index panic, or the lines start+1..end+1 printed and the
   * cursor moved to end. Only the first and last leave the cursor where it was.
   */
  lemma TransitionCases(c: Command, lines: seq<string>, current: nat)
    ensures var e := Endpoints(c, |lines|, current);
      var inBounds := 1 <= e.start <= |lines| && 1 <= e.end <= |lines|;
      var t := Transition(c, lines, current);
      && (t.outcome == Failed(OutOfBounds) <==> !inBounds)
      && (t.outcome == Panicked <==> inBounds && (e.end == |lines| || e.start > e.end + 1))
      && (t.outcome.Printed? <==> 1 <= e.start <= e.end + 1 && 1 <= e.end < |lines|)
      && (t.outcome.Printed? ==>
            t.outcome.text == Join(lines[e.start..e.end + 1], "\n") && t.cursor == e.end)
      && (!t.outcome.Printed? ==> t.cursor == current)
  {
  }

  /** `np` prints line n + 1, not line n, and leaves the cursor on n. */
  lemma NumberPrintsNextLine(n: nat, k: CommandToken, lines: seq<string>, current: nat)
    requires 1 <= n < |lines|
    ensures Transition(Command(Some(Single(Number(n))), k), lines, current) == Step(Printed(lines[n]), n)
  {
  }

  /** So `1p` prints the second line. */
  lemma OnePrintsSecondLine(lines: seq<string>, current: nat)
    requires |lines| >= 2
    ensures Transition(Command(Some(Single(Number(1))), Print), lines, current) == Step(Printed(lines[1]), 1)
  {
    NumberPrintsNextLine(1, Print, lines, current);
  }

  /** Addressing the last line, by number or by `$`, panics. */
  lemma LastLinePanics(t: AddressToken, k: CommandToken, lines: seq<string>, current: nat)
    requires |lines| >= 1 && (t == Dollar || t == Number(|lines|))
    ensures Transition(Command(Some(Single(t)), k), lines, current) == Step(Panicked, current)
  {
  }

  /** `1,$p` panics on any non-empty buffer and is out of bounds on an empty one. */
  lemma WholeBufferPrint(lines: seq<string>, current: nat)
    ensures Transition(Command(Some(Range(Number(1), Dollar)), Print), lines, current) ==
      Step(if |lines| == 0 then Failed(OutOfBounds) else Panicked, current)
  {
  }

  /** A range reversed by exactly one selects nothing: it prints an empty line. */
  lemma ReversedByOneSelectsNothing(a: nat, k: CommandToken, lines: seq<string>, current: nat)
    requires 2 <= a <= |lines|
    ensures Transition(Command(Some(Range(Number(a), Number(a - 1))), k), lines, current) ==
      Step(Printed(""), a - 1)
  {
  }

  /** A range reversed by more than one panics. */
  lemma ReversedFurtherPanics(a: nat, b: nat, k: CommandToken, lines: seq<string>, current: nat)
    requires 1 <= b && b + 1 < a <= |lines|
    ensures Transition(Command(Some(Range(Number(a), Number(b))), k), lines, current) ==
      Step(Panicked, current)
  {
  }

  /** Every command fails on an empty buffer and keeps the cursor. */
  lemma EmptyBufferFails(c: Command, current: nat)
    ensures Transition(c, [], current) == Step(Failed(OutOfBounds), current)
  {
  }

  /**
   * A command with an explicit address, or an unaddressed `p`, that printed once
   * does the same again from the cursor it left.
   */
  lemma RepeatIsStable(c: Command, lines: seq<string>, current: nat)
    requires c.address.Some? || c.kind == Print
    requires Transition(c, lines, current).outcome.Printed?
    ensures Transition(c, lines, Transition(c, lines, current).cursor) == Transition(c, lines, current)
  {
  }

  // ---------------------------------------------------------------------------
  // Several input lines in a row.

  /**
   * The outcomes of successive input lines, each run from the cursor the previous
   * one left. Errors are reported and the next line is read; a panic ends the
   * program, so no line after it produces anything.
   */
  function InterpretAll(inputs: seq<string>, lines: seq<string>, current: nat): (r: (seq<Outcome>, nat))
    ensures |r.0| <= |inputs|
    ensures |r.0| < |inputs| ==> |r.0| > 0 && r.0[|r.0| - 1] == Panicked
    ensures forall i :: 0 <= i < |r.0| - 1 ==> r.0[i] != Panicked
    decreases |inputs|
  {
    if inputs == [] then ([], current)
    else
      var first := InterpretStep(inputs[0], lines, current);
      if first.outcome == Panicked then ([Panicked], first.cursor)
      else
        var rest := InterpretAll(inputs[1..], lines, first.cursor);
        ([first.outcome] + rest.0, rest.1)
  }

  /**
   * From cursor c, k empty lines (bare-line commands) print the lines after c one
   * by one (0-based c+1..c+k) and leave the cursor k further on, provided they
   * stay before the last line.
   */
  lemma {:induction false} BareLinesWalkForward(k: nat, lines: seq<string>, current: nat)
    requires current + k < |lines|
    ensures var r := InterpretAll(seq(k, _ => ""), lines, current);
      |r.0| == k && r.1 == current + k &&
      forall i :: 0 <= i < k ==> r.0[i] == Printed(lines[current + 1 + i])
    decreases k
  {
    var inputs: seq<string> := seq(k, _ => "");
    if k > 0 {
      assert ParseCommand("") == Ok(Command(None, PrintAndSet));
      assert lines[current + 1..current + 2] == [lines[current + 1]];
      assert InterpretStep(inputs[0], lines, current) == Step(Printed(lines[current + 1]), current + 1);
      assert inputs[1..] == seq(k - 1, _ => "");
      BareLinesWalkForward(k - 1, lines, current + 1);
    }
  }

  /** A first line that does not panic is followed by the rest, run from the cursor it left. */
  lemma InterpretAllCons(x: string, ys: seq<string>, lines: seq<string>, current: nat)
    requires InterpretStep(x, lines, current).outcome != Panicked
    ensures var first := InterpretStep(x, lines, current);
      var rest := InterpretAll(ys, lines, first.cursor);
      InterpretAll([x] + ys, lines, current) == ([first.outcome] + rest.0, rest.1)
  {
    assert ([x] + ys)[0] == x && ([x] + ys)[1..] == ys;
  }

  /**
   * Successive lines compose: once a prefix has run without panicking, the rest
   * runs from the cursor the prefix left, and its outcomes follow the prefix's.
   */
  lemma {:induction false} InterpretAllAppend(xs: seq<string>, ys: seq<string>, lines: seq<string>, current: nat)
    requires Panicked !in InterpretAll(xs, lines, current).0
    ensures var a := InterpretAll(xs, lines, current);
      var b := InterpretAll(ys, lines, a.1);
      InterpretAll(xs + ys, lines, current) == (a.0 + b.0, b.1)
    decreases |xs|
  {
    if xs == [] {
      assert xs + ys == ys;
      assert InterpretAll(xs, lines, current) == ([], current);
      EmptyConcat(InterpretAll(ys, lines, current).0);
    } else {
      var first := InterpretStep(xs[0], lines, current);
      var tail := InterpretAll(xs[1..], lines, first.cursor);
      assert first.outcome != Panicked by {
        assert InterpretAll(xs, lines, current).0[0] == first.outcome;
      }
      assert InterpretAll(xs, lines, current) == ([first.outcome] + tail.0, tail.1);
      assert Panicked !in tail.0 by {
        assert forall o :: o in tail.0 ==> o in InterpretAll(xs, lines, current).0;
      }
      InterpretAllAppend(xs[1..], ys, lines, first.cursor);
      SplitFirst(xs, ys);
      InterpretAllCons(xs[0], xs[1..] + ys, lines, current);
      var b := InterpretAll(ys, lines, tail.1);
      assert InterpretAll(xs + ys, lines, current) == ([first.outcome] + (tail.0 + b.0), b.1);
      ConcatAssoc([first.outcome], tail.0, b.0);
    }
  }

  lemma ConcatAssoc<T>(a: seq<T>, b: seq<T>, c: seq<T>)
    ensures a + (b + c) == (a + b) + c
  {
  }

  lemma EmptyConcat<T>(b: seq<T>)
    ensures [] + b == b
  {
  }

  lemma SplitFirst<T>(xs: seq<T>, ys: seq<T>)
    requires xs != []
    ensures xs + ys == [xs[0]] + (xs[1..] + ys)
  {
  }

  /** A panic ends the sequence: `$p` on a non-empty buffer stops everything after it. */
  lemma PanicEndsSession(rest: seq<string>, lines: seq<string>, current: nat)
    requires |lines| >= 1
    ensures InterpretAll(["$p"] + rest, lines, current) == ([Panicked], current)
  {
    assert ParseCommand("$p") == Ok(Command(Some(Single(Dollar)), Print));
  }
}
