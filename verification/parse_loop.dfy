/** parseToArticles as the imperative loop it is written as
    (functionality/functionality.go:33-94), including the error return when
    writing to the text accumulator fails. The accumulator is a
    `strings.Builder`, whose failure behaviour is not part of this model: it
    is a parameter `writeOk(contents, chunk)` saying whether writing `chunk`
    to an accumulator holding `contents` succeeds. */
module ParseLoop {
  import opened Strings
  import opened Wrappers
  import opened Articles
  import opened Parser
  import opened LineMachine

  /** The only error parseToArticles returns: a failed accumulator write,
      here tagged with the index of the line being written. */
  datatype ParseError = AccumulatorWriteFailed(line: nat)

  /** Writing body line `j`, with its newline, to the accumulator it meets
      succeeds. */
  predicate WriteSucceeds(lines: seq<string>, j: nat, writeOk: (string, string) -> bool)
    requires j < |lines|
  {
    writeOk(MachineAt(lines, j).state.text, lines[j] + "\n")
  }

  /** The scanner loop over `lines`. It fails exactly when some body line's
      write fails, reporting the first such line and no partial document;
      otherwise it returns the document `Parse` describes. With an
      accumulator that never fails it always succeeds. */
  method ParseToArticles(lines: seq<string>, writeOk: (string, string) -> bool)
    returns (r: Result<JetpackArticles, ParseError>)
    ensures r.Success? ==> r.value == Parse(lines)
    ensures r.Success? <==> forall j :: 0 <= j < |lines| && IsBodyLine(lines, j) ==> WriteSucceeds(lines, j, writeOk)
    ensures r.Failure? ==>
              && r.error.line < |lines|
              && IsBodyLine(lines, r.error.line)
              && !WriteSucceeds(lines, r.error.line, writeOk)
              && forall j :: 0 <= j < r.error.line && IsBodyLine(lines, j) ==> WriteSucceeds(lines, j, writeOk)
    ensures (forall contents, chunk :: writeOk(contents, chunk)) ==> r == Success(Parse(lines))
  {
    var mainTitle, mainDescription := "", "";
    var articles: seq<JetpackArticle> := [];
    var pendingTitle, text := "", "";
    var i := 0;
    while i < |lines|
      invariant i <= |lines|
      invariant MachineAt(lines, i).state == ParserState(mainTitle, mainDescription, articles, pendingTitle, text)
      invariant i < |lines| ==> !MachineAt(lines, i).consumeNext
      invariant forall j :: 0 <= j < i && IsBodyLine(lines, j) ==> WriteSucceeds(lines, j, writeOk)
    {
      var line := lines[i];
      if HasPrefix(line, TitlePrefix) {
        HeadingLineSteps(lines, i);
        mainTitle := line[|TitlePrefix|..];
      } else if HasPrefix(line, DividerPrefix) {
        HeadingLineSteps(lines, i);
        mainDescription := text;
      } else if mainDescription != "" && HasPrefix(line, HeadingPrefix) {
        HeadingLineSteps(lines, i);
        if pendingTitle != "" {
          articles := articles + [JetpackArticle(pendingTitle, text)];
        }
        pendingTitle := line[|HeadingPrefix|..];
      } else {
        if !writeOk(text, line + "\n") {
          assert IsBodyLine(lines, i) && !WriteSucceeds(lines, i, writeOk);
          return Failure(AccumulatorWriteFailed(i));
        }
        BodyLineStep(lines, i);
        text := text + line + "\n";
        i := i + 1;
        continue;
      }
      // A heading: the next line, if there is one, is consumed unread and
      // the accumulator is cleared; otherwise the loop ends as it is.
      i := i + 1;
      if i < |lines| {
        i := i + 1;
        text := "";
      }
    }
    ParseIsFeed(lines);
    r := Success(JetpackArticles(articles + [JetpackArticle(pendingTitle, text)], mainTitle, mainDescription));
  }
}
