# Jetpack articles parser

The Jetpacks service fetches one Markdown document and serves it as a
`JetpackArticles` record. The record holds:

- a main title;
- a main description;
- an ordered list of `JetpackArticle`s, each a title with a Markdown body.

This project models `parseToArticles`, the function that builds that record,
together with the two record types. It then proves what that function makes
of any sequence of lines.

`parseToArticles` is a single pass over the input's lines. Each line that
reaches its `switch` is one of four kinds:

- a `# ` line sets the main title;
- a `## Jetpacks` line stores the accumulated text as the description;
- a `### ` line is an article heading, but only once the description is
  non-empty:
  - it files the pending article, if that article has a title;
  - it then starts a new article;
- every other line is appended, with a newline, to a text accumulator.

After each of the first three kinds the next line is swallowed unread and the
accumulator is cleared. If the heading was the last line, the `break` leaves
only the `switch`, so nothing is cleared. At the end of the input the pending
article always receives the accumulated text and is appended.

The modules are:

- `Strings` (`strings.dfy`): prefix test, line joining and small sequence
  helpers.
- `Wrappers` (`wrappers.dfy`): the `Result` type.
- `Articles` (`articles.dfy`): `JetpackArticle` and `JetpackArticles`.
- `Parser` (`parser.dfy`): the parser state, the line classifier in the
  `switch`'s order, and `Run`/`Parse`. `Run` is the loop as a recursive
  function that advances one line, or two after a heading.
- `LineMachine` (`machine.dfy`): the same loop read one line at a time,
  proved to compute the same document. All positional statements ("the line
  at index `i`") are made in its terms.
- `ParseLoop` (`parse_loop.dfy`): the loop as an imperative method,
  including its one error return, proved to agree with `Parse`.
- `ParserProperties` (`properties.dfy`): what the title, the description, the
  article bodies and the article titles are, in terms of the input lines.
- `TestInputs` (`test_inputs.dfy`): the four inputs of the repository's test, and
  what this parser makes of each.

The input is an already split `seq<string>` of lines, as `bufio.Scanner`
delivers them. `strings.Builder.Write` is modelled as a parameter
`writeOk(contents, chunk)` that says whether a write succeeds. With a
`writeOk` that always holds, the method returns `Success(Parse(lines))`.

Blank lines are body text. Fences are body text. The article prefix is
fixed at `### `. A missing divider simply leaves the description empty. The
only error is a failed accumulator write.

The repository's own test expects `## ` article headings, fence handling and
blank-line skipping. Its expectations therefore do not match this code, and
`TestInputs` states what the code actually returns. For inputs 1, 2 and 4 the
title and the description match the test's expectations. For input 3 only
the title does. No article matches in any input.

## Model

| member | source | states |
|---|---|---|
| Parser.Run | functionality/functionality.go:43-87 | The loop only ever appends articles. The articles it started with stay a prefix of the result. If every article it started with is titled, every article but the last one in the result is titled. |
| Parser.Parse | functionality/functionality.go:33-94 | Every line sequence yields a document with at least one article, and every article before the last has a non-empty title. |
| Parser.HeadingPrefixesExclusive | functionality/functionality.go:46-65 | No line starts with two of `# `, `## Jetpacks` and `### `. So the order of the cases does not affect the result. |
| Parser.ArticleHeadingNeedsDescription | functionality/functionality.go:65-72 | Without a description no line is an article heading. Setting a description changes the classification of `### ` lines only. Those become headings titled by the line minus its four-character prefix. |
| LineMachine.RunMatchesFeed | functionality/functionality.go:43-87 | Two readings of the loop give the same document. One swallows the line after a heading at once. The other defers the reset until that line arrives, so no reset happens when no line follows. |
| ParseLoop.ParseToArticles | functionality/functionality.go:33-94 | The loop succeeds exactly when every inspected body line's write succeeds, and then returns `Parse(lines)`. On failure it reports the first body line whose write fails and returns no document. With an infallible accumulator it always succeeds. |
| ParserProperties.TitleIsLastTitleLine | functionality/functionality.go:47-48 | The main title is the last inspected `# ` line minus its two-character prefix. Earlier title lines are overwritten. |
| ParserProperties.NoTitleLineMeansEmptyTitle | functionality/functionality.go:34-48 | Without an inspected `# ` line the main title is empty. |
| ParserProperties.DescriptionIsTextAtLastDivider | functionality/functionality.go:56-57 | The main description is the accumulated text at the moment the last inspected `## Jetpacks` line is reached. |
| ParserProperties.NoDividerMeansEmptyDescription | functionality/functionality.go:34-57 | Without an inspected `## Jetpacks` line the description is empty. |
| ParserProperties.TextIsBodyBlock | functionality/functionality.go:46-86 | At every position the accumulator is one contiguous run of inspected body lines, in input order, each followed by a newline. |
| ParserProperties.DescriptionIsBodyBlockAt | functionality/functionality.go:56-63 | At every position the stored description is the run of inspected body lines accumulated at the last `## Jetpacks` line so far, each followed by a newline. With no such line it is empty. |
| ParserProperties.ArticleBodyIsBodyBlockAt | functionality/functionality.go:65-72 | Every stored article was filed by an accepted `### ` heading: before that heading exactly that many articles were stored, and after it one more. It carries the title pending there. Its body is the run of inspected body lines from the last swallowed line up to that heading, each followed by a newline. |
| ParserProperties.DocumentTextsAreBodyBlocks | functionality/functionality.go:56-93 | In the final document, the description and every article body consist of inspected body lines only; no heading and no swallowed line contributes text. The description is the run ending at the last `## Jetpacks` line. Each article but the last is the run ending at the heading that filed it, the heading after which the stored articles grow from its index to one more. The last article is what the accumulator holds at the end of the input. |
| ParserProperties.TwoHeadingsTwoArticles | functionality/functionality.go:65-93 | With two `### ` headings after the divider, the first article holds the lines between the headings and is stored only if its title is non-empty. The last article holds the lines after the second heading's swallowed line. |
| ParserProperties.ConsumedLineIgnored | functionality/functionality.go:50-78 | The line after a recognised heading is never inspected, and the accumulator is empty once it has passed. Replacing that line by any other string leaves the parsed document unchanged. |
| ParserProperties.TrailingHeadingKeepsText | functionality/functionality.go:50-91 | When a heading is the last line the accumulator is not reset. The final article's body is the text accumulated before that heading. |
| ParserProperties.TrailingArticleHeadingDuplicatesBody | functionality/functionality.go:65-91 | A `### X` on the last line after a titled article stores that article. It then appends a second article titled X with the same body. |
| ParserProperties.TitlesOnArticleHeading | functionality/functionality.go:66-72 | An accepted heading files the pending article exactly when the pending title is non-empty. The new pending title is the heading's title. |
| ParserProperties.TitlesStep | functionality/functionality.go:46-86 | One line preserves the relation between the stored titles, the pending title and the article headings seen so far. |
| ParserProperties.ArticleTitlesFollowHeadings | functionality/functionality.go:65-91 | The article titles are the non-empty titles of all accepted headings except the last, followed by the last heading's title. That final title is empty when there was no accepted heading. |
| ParserProperties.NoMarkersMeansOneUntitledArticle | functionality/functionality.go:65-93 | With no `# ` and no `## Jetpacks` line, `### ` lines are body text too. The document is one untitled article holding every line, with empty title and description. |
| ParserProperties.RunOverBodyLines | functionality/functionality.go:80-86 | A run of body lines is appended to the accumulator in order, and nothing else in the state changes. |
| ParserProperties.TitleThenDescription | functionality/functionality.go:47-63 | In the layout "lead lines, `# t`, one line, description lines, `## Jetpacks`, one line": the lead is discarded, the title is `t`, the description is the description lines joined, and parsing resumes with no articles and an empty accumulator. |
| ParserProperties.NoHeadingsAfterDivider | functionality/functionality.go:56-93 | If only body lines follow the divider's swallowed line, the document is one untitled article holding exactly those lines. |
| ParserProperties.TextBeforeFirstHeadingDropped | functionality/functionality.go:65-93 | With a non-empty description, text between the divider and the first `### h` heading is discarded. The single article is titled `h` and holds the lines after the heading's swallowed line. |
| TestInputs.HeadingExample | functionality/functionality.go:65-93 | In the test inputs' layout with a `### ` heading, the one article is titled by that heading. |
| TestInputs.Input1Result | functionality/functionality_test.go:16-31 | Input 1 yields the expected title and description, but one untitled article holding the seven lines after the divider's swallowed line, `## ` headings included. |
| TestInputs.Input2Result | functionality/functionality_test.go:32-46 | Input 2 yields the expected title and description, and one article titled "The first test article" whose body is "Would you believe it?" and an empty line. |
| TestInputs.Input3Result | functionality/functionality_test.go:47-68 | Input 3's description keeps its two leading empty lines. Its one article is titled by the `### ` heading. |
| TestInputs.Input4Result | functionality/functionality_test.go:69-91 | Input 4's fences and the `## ` line between them are body text of the single article, which the `### ` heading titles. |

## Left out

- `bufio.Scanner` mechanics (functionality/functionality.go:41-44) are library behaviour, so the input is taken already split into lines. This covers:
  - line splitting;
  - stripping `\r`;
  - the 64 KiB token limit;
  - `Scanner.Err()`. Its value is never consulted: a read error ends the loop like end of input, and the model's input is simply the lines delivered before it.
- ParseLoop.ParseToArticles: the failure carries the index of the failing line, not the `error` value that `strings.Builder.Write` returns. That value comes from library code outside this model. In Go that write never fails anyway.
- Byte slicing: the code slices bytes (`markdownBytes[2:]`, `[4:]`), while the model slices characters. The prefixes are ASCII, so the two agree when a string is read as one character per byte. No text encoding is modelled.
- `FetchJetpackArticles` (lines 96-106) is left out: it is an HTTP GET, which is network I/O.
- `GetGithubSecret` (lines 108-110) is left out: it is a stub that returns the empty string.
- The gin handlers and `GetJetpackRouter` (lines 112-191) are left out. They are I/O, JSON encoding, HMAC-SHA1 from crypto libraries, and a mutex-guarded pointer swap (concurrency).
- The JSON field tags of the two records are left out: they only matter for encoding.
