/** A reference reading of the scanner loop that takes exactly one line per
    step. Where the loop consumes the line after a heading at once, this
    machine records that the next line is to be consumed and does the reset
    when (and only if) that line arrives. Because it is a left fold, the state
    after any prefix of the input is well defined, which is what the
    positional properties of the parser are stated in terms of. */
module LineMachine {
  import opened Strings
  import opened Articles
  import opened Parser

  /** The parser state plus whether the next line is swallowed unread. */
  datatype Machine = Machine(state: ParserState, consumeNext: bool)

  const Start: Machine := Machine(Init, false)

  /** One line of input. A swallowed line only clears the accumulator; an
      inspected body line is appended to it with a newline; a heading updates
      the state and arms `consumeNext`. */
  function Step(m: Machine, line: string): Machine
  {
    if m.consumeNext then Machine(m.state.(text := ""), false)
    else
      var kind := Classify(line, m.state.description != "");
      if kind.BodyLine? then Machine(m.state.(text := m.state.text + line + "\n"), false)
      else Machine(EnterHeading(kind, m.state), true)
  }

  /** The machine after reading all of `lines`, one at a time, from `m`. */
  function Feed(lines: seq<string>, m: Machine): Machine
  {
    if |lines| == 0 then m
    else Step(Feed(lines[..|lines| - 1], m), lines[|lines| - 1])
  }

  /** The machine just before line `i` of the input is read. */
  function MachineAt(lines: seq<string>, i: nat): Machine
    requires i <= |lines|
  {
    Feed(lines[..i], Start)
  }

  /** Line `i` reaches the `switch` (it is not the line swallowed after a
      heading). */
  predicate Inspected(lines: seq<string>, i: nat)
    requires i < |lines|
  {
    !MachineAt(lines, i).consumeNext
  }

  /** How the `switch` would classify line `i` in the state it is read in. */
  function KindAt(lines: seq<string>, i: nat): LineKind
    requires i < |lines|
  {
    Classify(lines[i], MachineAt(lines, i).state.description != "")
  }

  /** Line `i` is inspected and falls to the default case. */
  predicate IsBodyLine(lines: seq<string>, i: nat)
    requires i < |lines|
  {
    Inspected(lines, i) && KindAt(lines, i).BodyLine?
  }

  /** Line `i` is inspected and recognised as a title, the divider or an
      article heading. */
  predicate IsHeadingLine(lines: seq<string>, i: nat)
    requires i < |lines|
  {
    Inspected(lines, i) && !KindAt(lines, i).BodyLine?
  }

  /** Reading `a` then `b` is reading `a + b`. */
  lemma {:induction false} FeedConcat(a: seq<string>, b: seq<string>, m: Machine)
    ensures Feed(a + b, m) == Feed(b, Feed(a, m))
    decreases |b|
  {
    if |b| == 0 {
      assert a + b == a;
    } else {
      var b' := b[..|b| - 1];
      assert (a + b)[..|a + b| - 1] == a + b';
      assert (a + b)[|a + b| - 1] == b[|b| - 1];
      FeedConcat(a, b', m);
    }
  }

  /** The machine before line `i + 1` is the machine before line `i` after
      one step on line `i`. */
  lemma MachineAtStep(lines: seq<string>, i: nat)
    requires i < |lines|
    ensures MachineAt(lines, i + 1) == Step(MachineAt(lines, i), lines[i])
  {
    assert lines[..i + 1][..i] == lines[..i];
  }

  /** An inspected body line appends itself and a newline to the accumulator. */
  lemma BodyLineStep(lines: seq<string>, i: nat)
    requires i < |lines| && IsBodyLine(lines, i)
    ensures MachineAt(lines, i + 1)
            == Machine(MachineAt(lines, i).state.(text := MachineAt(lines, i).state.text + lines[i] + "\n"), false)
  {
    MachineAtStep(lines, i);
  }

  /** A heading updates the state and arms `consumeNext`; the line after it,
      if any, is not inspected and only clears the accumulator. */
  lemma HeadingLineSteps(lines: seq<string>, i: nat)
    requires i < |lines| && IsHeadingLine(lines, i)
    ensures MachineAt(lines, i + 1) == Machine(EnterHeading(KindAt(lines, i), MachineAt(lines, i).state), true)
    ensures i + 1 < |lines| ==>
              && !Inspected(lines, i + 1)
              && MachineAt(lines, i + 2) == Machine(MachineAt(lines, i + 1).state.(text := ""), false)
  {
    MachineAtStep(lines, i);
    if i + 1 < |lines| {
      MachineAtStep(lines, i + 1);
    }
  }

  /** The machine after the whole input. */
  lemma MachineAtEnd(lines: seq<string>)
    ensures MachineAt(lines, |lines|) == Feed(lines, Start)
  {
    assert lines[..|lines|] == lines;
  }

  /** The Go-shaped loop, which advances by one or two lines, computes the
      same document as the one-line-at-a-time machine: the reset it performs
      right after a heading is exactly the reset the machine defers to the
      swallowed line, and when that line does not exist neither resets. */
  lemma {:induction false} RunMatchesFeed(lines: seq<string>, st: ParserState)
    ensures Run(lines, st) == Finish(Feed(lines, Machine(st, false)).state)
    decreases |lines|
  {
    var m := Machine(st, false);
    if |lines| == 0 {
    } else {
      var kind := Classify(lines[0], st.description != "");
      if kind.BodyLine? {
        assert lines == [lines[0]] + lines[1..];
        FeedConcat([lines[0]], lines[1..], m);
        assert Feed([lines[0]], m) == Step(Feed([], m), lines[0]);
        RunMatchesFeed(lines[1..], st.(text := st.text + lines[0] + "\n"));
      } else if |lines| == 1 {
        assert Feed(lines, m) == Step(Feed([], m), lines[0]);
      } else {
        var head := lines[..2];
        assert lines == head + lines[2..];
        FeedConcat(head, lines[2..], m);
        assert head[..1] == [lines[0]];
        assert Feed(head, m) == Step(Step(Feed([], m), lines[0]), lines[1]);
        RunMatchesFeed(lines[2..], EnterHeading(kind, st).(text := ""));
      }
    }
  }

  /** The parsed document is the machine's state after the last line, with
      the pending article flushed. */
  lemma ParseIsFeed(lines: seq<string>)
    ensures Parse(lines) == Finish(MachineAt(lines, |lines|).state)
  {
    RunMatchesFeed(lines, Init);
    MachineAtEnd(lines);
  }
}
