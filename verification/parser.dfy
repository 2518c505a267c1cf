/** The line classifier and the scanner loop of parseToArticles
    (functionality/functionality.go:33-94), on input already split into
    lines. */
module Parser {
  import opened Strings
  import opened Articles

  const TitlePrefix: string := "# "
  const DividerPrefix: string := "## Jetpacks"
  const HeadingPrefix: string := "### "

  /** How the `switch` at functionality.go:46-80 treats one inspected line. */
  datatype LineKind =
    | TitleLine(title: string)
    | Divider
    | ArticleHeading(title: string)
    | BodyLine

  /** The `switch` of the scanner loop, cases tried in source order. An
      article heading is recognised only once a description has been set. */
  function Classify(line: string, hasDescription: bool): LineKind
  {
    if HasPrefix(line, TitlePrefix) then TitleLine(line[|TitlePrefix|..])
    else if HasPrefix(line, DividerPrefix) then Divider
    else if hasDescription && HasPrefix(line, HeadingPrefix) then ArticleHeading(line[|HeadingPrefix|..])
    else BodyLine
  }

  /** The local variables of parseToArticles: the record under construction,
      the pending article's title and the text accumulator. The pending
      article's body is never read before it is overwritten, so it is not
      kept. */
  datatype ParserState = ParserState(
    title: string,
    description: string,
    articles: seq<JetpackArticle>,
    pendingTitle: string,
    text: string)

  const Init: ParserState := ParserState("", "", [], "", "")

  /** Every article in `articles` has a non-empty title. */
  predicate AllTitled(articles: seq<JetpackArticle>)
  {
    forall k :: 0 <= k < |articles| ==> articles[k].title != ""
  }

  /** What a recognised heading does to the state before the next line is
      consumed: a title line sets the title, the divider captures the
      accumulated text as description, and an article heading appends the
      pending article (only when it has a title) and starts a new one. */
  function EnterHeading(kind: LineKind, st: ParserState): ParserState
    requires !kind.BodyLine?
  {
    match kind
    case TitleLine(t) => st.(title := t)
    case Divider => st.(description := st.text)
    case ArticleHeading(t) =>
      var appended := if st.pendingTitle != "" then st.articles + [JetpackArticle(st.pendingTitle, st.text)]
                      else st.articles;
      st.(articles := appended, pendingTitle := t)
  }

  /** After the input is exhausted the pending article always receives the
      accumulated text and is appended (functionality.go:89-93). */
  function Finish(st: ParserState): JetpackArticles
  {
    JetpackArticles(st.articles + [JetpackArticle(st.pendingTitle, st.text)], st.title, st.description)
  }

  /** The scanner loop from the state `st` over the remaining `lines`. A
      recognised heading consumes the line after it without looking at it and
      then clears the accumulator; when no line follows, the `break` leaves
      only the `switch`, the accumulator keeps its text and the loop ends.
      Articles are only ever appended, and only titled ones before the last. */
  function Run(lines: seq<string>, st: ParserState): (doc: JetpackArticles)
    ensures |doc.articles| > |st.articles|
    ensures doc.articles[..|st.articles|] == st.articles
    ensures AllTitled(st.articles) ==> AllTitled(doc.articles[..|doc.articles| - 1])
    decreases |lines|
  {
    if |lines| == 0 then Finish(st)
    else
      var kind := Classify(lines[0], st.description != "");
      if kind.BodyLine? then Run(lines[1..], st.(text := st.text + lines[0] + "\n"))
      else
        var next := EnterHeading(kind, st);
        if |lines| == 1 then Finish(next)
        else Run(lines[2..], next.(text := ""))
  }

  /** parseToArticles with an accumulator that cannot fail: every line
      sequence yields a document holding at least one article, and every
      article but the last has a non-empty title. */
  function Parse(lines: seq<string>): (doc: JetpackArticles)
    ensures |doc.articles| >= 1
    ensures AllTitled(doc.articles[..|doc.articles| - 1])
  {
    Run(lines, Init)
  }

  /** No line passes two of the three prefix tests, so the order of the
      `case`s does not affect the result. */
  lemma HeadingPrefixesExclusive(line: string)
    ensures !(HasPrefix(line, TitlePrefix) && HasPrefix(line, DividerPrefix))
    ensures !(HasPrefix(line, TitlePrefix) && HasPrefix(line, HeadingPrefix))
    ensures !(HasPrefix(line, DividerPrefix) && HasPrefix(line, HeadingPrefix))
  {
    if HasPrefix(line, TitlePrefix) {
      assert line[1] == line[..2][1] == ' ';
    }
    if HasPrefix(line, DividerPrefix) {
      assert line[1] == line[..11][1] == '#';
      assert line[2] == line[..11][2] == ' ';
    }
    if HasPrefix(line, HeadingPrefix) {
      assert line[1] == line[..4][1] == '#';
      assert line[2] == line[..4][2] == '#';
    }
  }

  /** Without a description a `### ` line is body text; with one, the
      classification changes for `### ` lines only, which become headings
      titled by the rest of the line. */
  lemma ArticleHeadingNeedsDescription(line: string)
    ensures !Classify(line, false).ArticleHeading?
    ensures !HasPrefix(line, HeadingPrefix) ==> Classify(line, true) == Classify(line, false)
    ensures HasPrefix(line, HeadingPrefix) ==>
              Classify(line, false) == BodyLine && Classify(line, true) == ArticleHeading(line[4..])
  {
    HeadingPrefixesExclusive(line);
  }
}
