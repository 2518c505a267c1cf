/** The inputs of functionality/functionality_test.go, split into lines, and
    what the parser as written makes of them. Each raw string starts and ends
    with a newline, so each begins with two empty lines and has no line after
    its final newline. The test expects `## ` article headings, fenced code
    and skipped blank lines; the code has none of these, so only the titles
    and the descriptions of inputs 1, 2 and 4 match its expectations. */
module TestInputs {
  import opened Strings
  import opened Articles
  import opened Parser
  import opened ParserProperties

  const DocTitle: string := "Test Jetpack Articles"
  const Intro: string := "Yep, you guessed it; this is for testing."
  const Believe: string := "Would you believe it?"
  const FirstArticle: string := "The first test article"

  const Input1: seq<string> := [
    "", "", "# Test Jetpack Articles", "", Intro, "", "## Jetpacks", "",
    "## Test article 1", "", "The first test article", "",
    "## Test article 2", "", "The second test article"]

  const Lead: seq<string> := ["", ""]
  const Desc1: seq<string> := [Intro, ""]
  const Body1: seq<string> := [
    "## Test article 1", "", "The first test article", "",
    "## Test article 2", "", "The second test article"]

  /** A line that cannot pass any prefix test: empty, not starting with `#`,
      or starting with `## ` followed by something other than `J`. */
  predicate PlainStart(line: string)
  {
    || |line| == 0
    || line[0] != '#'
    || (|line| > 3 && line[1] == '#' && line[2] == ' ' && line[3] != 'J')
  }

  /** Every line of `lines` from position `i` on is plain. */
  predicate PlainFrom(lines: seq<string>, i: nat)
    decreases |lines| - i
  {
    i >= |lines| || (PlainStart(lines[i]) && PlainFrom(lines, i + 1))
  }

  /** Plain lines are body text whether or not a description is set. */
  lemma {:induction false} PlainLinesAreBody(lines: seq<string>, i: nat, hasDescription: bool)
    requires PlainFrom(lines, i)
    ensures forall j :: i <= j < |lines| ==> Classify(lines[j], hasDescription).BodyLine?
    decreases |lines| - i
  {
    if i < |lines| {
      var line := lines[i];
      if |line| > 0 && line[0] != '#' {
        MismatchIsNotPrefix(line, TitlePrefix, 0);
        MismatchIsNotPrefix(line, DividerPrefix, 0);
        MismatchIsNotPrefix(line, HeadingPrefix, 0);
      } else if |line| > 0 {
        MismatchIsNotPrefix(line, TitlePrefix, 1);
        MismatchIsNotPrefix(line, DividerPrefix, 3);
        MismatchIsNotPrefix(line, HeadingPrefix, 2);
      }
      PlainLinesAreBody(lines, i + 1, hasDescription);
    }
  }

  /** A line followed by an empty line leaves the line and two newlines in
      the accumulator. */
  lemma JoinLineThenBlank(line: string)
    ensures Join([line, ""]) == line + "\n\n"
  {
    assert [line, ""][..1] == [line];
    assert [line][..0] == [];
    assert Join([line]) == line + "\n";
  }

  /** Every line of `lines` is body text, in a state whose description is
      set (`hasDescription`) or not. */
  predicate AllBody(lines: seq<string>, hasDescription: bool)
  {
    forall j :: 0 <= j < |lines| ==> Classify(lines[j], hasDescription).BodyLine?
  }

  /** The two empty lines before the title and the description lines of
      inputs 1, 2 and 4 are body text; that description is the intro line
      and an empty line. */
  lemma FrameFacts()
    ensures AllBody(Lead, false) && AllBody(Desc1, false)
    ensures Join(Desc1) == Intro + "\n\n"
  {
    PlainLinesAreBody(Lead, 0, false);
    PlainLinesAreBody(Desc1, 0, false);
    JoinLineThenBlank(Intro);
  }

  /** Any input shaped like the test inputs with a `### ` heading: the text
      between the divider and the heading is lost, and the one article is
      titled by the heading. */
  lemma HeadingExample(lead: seq<string>, desc: seq<string>, pre: seq<string>, body: seq<string>)
    requires AllBody(lead, false) && AllBody(desc, false) && Join(desc) != ""
    requires AllBody(pre, true) && AllBody(body, true)
    ensures Parse(lead + [TitlePrefix + DocTitle, ""] + desc + [DividerPrefix, ""]
                  + pre + [HeadingPrefix + FirstArticle, ""] + body)
            == JetpackArticles([JetpackArticle(FirstArticle, Join(body))], DocTitle, Join(desc))
  {
    TextBeforeFirstHeadingDropped(lead, DocTitle, "", desc, "", pre, FirstArticle, "", body);
  }

  // ------------------------------------------------------------------ input 1

  lemma Input1Layout()
    ensures Input1 == Lead + [TitlePrefix + DocTitle, ""] + Desc1 + [DividerPrefix, ""] + Body1
  {
    assert TitlePrefix + DocTitle == "# Test Jetpack Articles";
  }

  /** The `## ` lines of input 1 are not `## Jetpacks`, so they are body text. */
  lemma Body1IsBody()
    ensures AllBody(Body1, true)
  {
    assert PlainFrom(Body1, 5);
    assert PlainFrom(Body1, 3);
    assert PlainFrom(Body1, 1);
    PlainLinesAreBody(Body1, 0, true);
  }

  lemma Input1Pieces(lead: seq<string>, desc: seq<string>, body: seq<string>)
    requires AllBody(lead, false) && AllBody(desc, false) && Join(desc) == Intro + "\n\n"
    requires AllBody(body, true)
    ensures Parse(lead + [TitlePrefix + DocTitle, ""] + desc + [DividerPrefix, ""] + body)
            == JetpackArticles([JetpackArticle("", Join(body))], DocTitle, Intro + "\n\n")
  {
    NoHeadingsAfterDivider(lead, DocTitle, "", desc, "", body);
  }

  /** Input 1 (functionality_test.go:16-31): title and description as the
      test expects (lines 99-100), but instead of the two articles of lines
      96-97 there is one untitled article holding all seven lines after the
      divider's swallowed line, `## ` headings included. */
  lemma Input1Result()
    ensures Parse(Input1) == JetpackArticles([JetpackArticle("", Join(Body1))], DocTitle, Intro + "\n\n")
  {
    Input1Layout();
    FrameFacts();
    Body1IsBody();
    Input1Pieces(Lead, Desc1, Body1);
  }

  // ------------------------------------------------------------------ input 2

  const Input2: seq<string> := [
    "", "", "# Test Jetpack Articles", "", Intro, "", "## Jetpacks", "",
    "## Test article 3", "", "### The first test article", "", Believe, ""]

  const Pre2: seq<string> := ["## Test article 3", ""]
  const Body2: seq<string> := [Believe, ""]

  lemma Input2Layout()
    ensures Input2 == Lead + [TitlePrefix + DocTitle, ""] + Desc1 + [DividerPrefix, ""]
                      + Pre2 + [HeadingPrefix + FirstArticle, ""] + Body2
  {
    assert TitlePrefix + DocTitle == "# Test Jetpack Articles";
    assert HeadingPrefix + FirstArticle == "### The first test article";
  }

  /** The single-paragraph article body of inputs 2 and 3 and the `## ` line
      before input 2's heading are body text. */
  lemma Input2Facts()
    ensures AllBody(Pre2, true) && AllBody(Body2, true)
    ensures Join(Body2) == Believe + "\n\n"
  {
    PlainLinesAreBody(Pre2, 0, true);
    PlainLinesAreBody(Body2, 0, true);
    JoinLineThenBlank(Believe);
  }

  /** Input 2 (functionality_test.go:32-46): title and description as
      expected (lines 105-106); the `### ` line is an article heading, so the
      text after the divider up to it is dropped and the single article is
      titled by it, where the test (line 104) expects the `## ` line's title
      and the `### ` line inside the body. */
  lemma Input2Result()
    ensures Parse(Input2) == JetpackArticles([JetpackArticle(FirstArticle, Believe + "\n\n")], DocTitle, Intro + "\n\n")
  {
    Input2Layout();
    FrameFacts();
    Input2Facts();
    HeadingExample(Lead, Desc1, Pre2, Body2);
  }

  // ------------------------------------------------------------------ input 3

  const Input3: seq<string> := [
    "", "", "# Test Jetpack Articles", "", "", "", Intro, "", "## Jetpacks", "",
    "", "", "", "## Test article 4", "", "", "", "### The first test article", "", Believe, ""]

  const Desc3: seq<string> := ["", "", Intro, ""]
  const Pre3: seq<string> := ["", "", "", "## Test article 4", "", "", ""]

  lemma Input3Layout()
    ensures Input3 == Lead + [TitlePrefix + DocTitle, ""] + Desc3 + [DividerPrefix, ""]
                      + Pre3 + [HeadingPrefix + FirstArticle, ""] + Body2
  {
    assert TitlePrefix + DocTitle == "# Test Jetpack Articles";
    assert HeadingPrefix + FirstArticle == "### The first test article";
  }

  /** Input 3's description keeps its leading empty lines. */
  lemma Desc3Text()
    ensures Join(Desc3) == "\n\n" + Intro + "\n\n"
  {
    var d := Desc3;
    assert d[..1][..0] == [];
    assert Join(d[..1]) == "\n";
    assert d[..2][..1] == d[..1];
    assert Join(d[..2]) == "\n\n";
    assert d[..3][..2] == d[..2];
    assert Join(d[..3]) == "\n\n" + Intro + "\n";
    assert d[..4][..3] == d[..3];
    assert d[..4] == d;
  }

  /** The blank-padded description and the lines before input 3's heading
      are body text. */
  lemma Input3Facts()
    ensures AllBody(Desc3, false) && AllBody(Pre3, true)
  {
    assert PlainFrom(Desc3, 2);
    PlainLinesAreBody(Desc3, 0, false);
    assert PlainFrom(Pre3, 5);
    assert PlainFrom(Pre3, 3);
    assert PlainFrom(Pre3, 1);
    PlainLinesAreBody(Pre3, 0, true);
  }

  /** Input 3 (functionality_test.go:47-68): blank lines are not skipped, so
      the description keeps the two blank lines before the intro line, unlike
      the expectation at line 113. */
  lemma Input3Result()
    ensures Parse(Input3) == JetpackArticles([JetpackArticle(FirstArticle, Believe + "\n\n")], DocTitle, "\n\n" + Intro + "\n\n")
  {
    Input3Layout();
    FrameFacts();
    Input2Facts();
    Input3Facts();
    Desc3Text();
    HeadingExample(Lead, Desc3, Pre3, Body2);
  }

  // ------------------------------------------------------------------ input 4

  const Fence: string := "```"
  /** A `## ` line inside the fenced block; written in two parts so that its
      first characters are visible to the verifier. */
  const MockHeading: string := "## This mock" + " heading should not be mistaken as an actual heading"

  const Input4: seq<string> := [
    "", "", "# Test Jetpack Articles", "", Intro, "", "## Jetpacks", "",
    "## Test article 5", "", "### The first test article", "", Believe, "",
    Fence, "", "This is a test to handle code blocks,", "",
    MockHeading, "", Fence, ""]

  const Pre4: seq<string> := ["## Test article 5", ""]
  const Body4: seq<string> := [
    Believe, "", Fence, "", "This is a test to handle code blocks,", "",
    MockHeading, "", Fence, ""]

  lemma Input4Layout()
    ensures Input4 == Lead + [TitlePrefix + DocTitle, ""] + Desc1 + [DividerPrefix, ""]
                      + Pre4 + [HeadingPrefix + FirstArticle, ""] + Body4
  {
    assert TitlePrefix + DocTitle == "# Test Jetpack Articles";
    assert HeadingPrefix + FirstArticle == "### The first test article";
  }

  /** The fences and the `## ` line between them are body text, as is the
      `## ` line before the heading. */
  lemma Input4Facts()
    ensures AllBody(Pre4, true) && AllBody(Body4, true)
  {
    PlainLinesAreBody(Pre4, 0, true);
    assert PlainFrom(Body4, 8);
    assert PlainFrom(Body4, 7);
    assert PlainStart(MockHeading);
    assert PlainFrom(Body4, 6);
    assert PlainFrom(Body4, 4);
    assert PlainFrom(Body4, 2);
    PlainLinesAreBody(Body4, 0, true);
  }

  /** Input 4 (functionality_test.go:69-91): fences are ordinary body lines
      and the `## ` line between them is body text too, so the single
      article's body is every line after the heading's swallowed line; the
      test (line 118) expects the `## Test article 5` title instead. */
  lemma Input4Result()
    ensures Parse(Input4) == JetpackArticles([JetpackArticle(FirstArticle, Join(Body4))], DocTitle, Intro + "\n\n")
  {
    Input4Layout();
    FrameFacts();
    Input4Facts();
    HeadingExample(Lead, Desc1, Pre4, Body4);
  }
}
