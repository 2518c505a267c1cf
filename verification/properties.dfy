/** What parseToArticles computes, stated about the position of each line in
    the input: which line sets the title, what the description and each
    article body consist of, which titles the articles get, and what happens
    to the line after a heading and to a heading on the last line. */
module ParserProperties {
  import opened Strings
  import opened Articles
  import opened Parser
  import opened LineMachine

  /** Line `i` is inspected and starts with `# `. */
  predicate IsTitleLine(lines: seq<string>, i: nat)
    requires i < |lines|
  {
    Inspected(lines, i) && KindAt(lines, i).TitleLine?
  }

  /** Line `i` is inspected and starts with `## Jetpacks`. */
  predicate IsDividerLine(lines: seq<string>, i: nat)
    requires i < |lines|
  {
    Inspected(lines, i) && KindAt(lines, i).Divider?
  }

  /** Line `i` is inspected and accepted as an article heading. */
  predicate IsArticleHeadingLine(lines: seq<string>, i: nat)
    requires i < |lines|
  {
    Inspected(lines, i) && KindAt(lines, i).ArticleHeading?
  }

  // ---------------------------------------------------------------- title

  /** Lines that are not inspected `# ` lines leave the title unchanged. */
  lemma {:induction false} TitleStable(lines: seq<string>, i: nat, j: nat)
    requires i <= j <= |lines|
    requires forall k :: i <= k < j ==> !IsTitleLine(lines, k)
    ensures MachineAt(lines, j).state.title == MachineAt(lines, i).state.title
    decreases j - i
  {
    if i < j {
      MachineAtStep(lines, i);
      var m := MachineAt(lines, i);
      if !m.consumeNext {
        assert !IsTitleLine(lines, i);
        assert Step(m, lines[i]).state.title == m.state.title;
      }
      TitleStable(lines, i + 1, j);
    }
  }

  /** The title is the rest of the last inspected `# ` line: each such line
      overwrites the one before. */
  lemma TitleIsLastTitleLine(lines: seq<string>, i: nat)
    requires i < |lines| && IsTitleLine(lines, i)
    requires forall k :: i < k < |lines| ==> !IsTitleLine(lines, k)
    ensures Parse(lines).mainTitle == lines[i][|TitlePrefix|..]
  {
    MachineAtStep(lines, i);
    TitleStable(lines, i + 1, |lines|);
    ParseIsFeed(lines);
  }

  /** Without an inspected `# ` line the title stays empty. */
  lemma NoTitleLineMeansEmptyTitle(lines: seq<string>)
    requires forall k :: 0 <= k < |lines| ==> !IsTitleLine(lines, k)
    ensures Parse(lines).mainTitle == ""
  {
    TitleStable(lines, 0, |lines|);
    ParseIsFeed(lines);
  }

  // ---------------------------------------------------------- description

  /** Lines that are not inspected `## Jetpacks` lines leave the description
      unchanged. */
  lemma {:induction false} DescriptionStable(lines: seq<string>, i: nat, j: nat)
    requires i <= j <= |lines|
    requires forall k :: i <= k < j ==> !IsDividerLine(lines, k)
    ensures MachineAt(lines, j).state.description == MachineAt(lines, i).state.description
    decreases j - i
  {
    if i < j {
      MachineAtStep(lines, i);
      var m := MachineAt(lines, i);
      if !m.consumeNext {
        assert !IsDividerLine(lines, i);
        assert Step(m, lines[i]).state.description == m.state.description;
      }
      DescriptionStable(lines, i + 1, j);
    }
  }

  /** The description is the accumulated text at the moment the last
      inspected `## Jetpacks` line is reached. */
  lemma DescriptionIsTextAtLastDivider(lines: seq<string>, d: nat)
    requires d < |lines| && IsDividerLine(lines, d)
    requires forall k :: d < k < |lines| ==> !IsDividerLine(lines, k)
    ensures Parse(lines).mainDescription == MachineAt(lines, d).state.text
  {
    MachineAtStep(lines, d);
    DescriptionStable(lines, d + 1, |lines|);
    ParseIsFeed(lines);
  }

  /** Without an inspected `## Jetpacks` line the description stays empty. */
  lemma NoDividerMeansEmptyDescription(lines: seq<string>)
    requires forall k :: 0 <= k < |lines| ==> !IsDividerLine(lines, k)
    ensures Parse(lines).mainDescription == ""
  {
    DescriptionStable(lines, 0, |lines|);
    ParseIsFeed(lines);
  }

  // ------------------------------------------------------ accumulated text

  /** Where the text held before line `n` begins: just after the last
      swallowed line, or at the start of the input. */
  function BlockStart(lines: seq<string>, n: nat): (s: nat)
    requires n <= |lines|
    ensures s <= n
  {
    if n == 0 then 0
    else if MachineAt(lines, n - 1).consumeNext then n
    else BlockStart(lines, n - 1)
  }

  /** Where that text ends: before line `n`, or before the heading on line
      `n - 1` whose swallowed line has not come yet. */
  function BlockEnd(lines: seq<string>, n: nat): nat
    requires n <= |lines|
  {
    if n > 0 && MachineAt(lines, n).consumeNext then n - 1 else n
  }

  /** The text before line `n` is the body block that `BlockStart` and
      `BlockEnd` delimit, and every line in it is an inspected body line. */
  predicate TextBlockAt(lines: seq<string>, n: nat)
    requires n <= |lines|
  {
    && BlockStart(lines, n) <= BlockEnd(lines, n) <= n
    && MachineAt(lines, n).state.text == Join(lines[BlockStart(lines, n)..BlockEnd(lines, n)])
    && forall j :: BlockStart(lines, n) <= j < BlockEnd(lines, n) ==> IsBodyLine(lines, j)
  }

  /** After a swallowed line the accumulator is empty and a new block starts. */
  lemma TextBlockAfterSwallow(lines: seq<string>, n: nat)
    requires 0 < n <= |lines| && MachineAt(lines, n - 1).consumeNext
    ensures TextBlockAt(lines, n)
  {
    MachineAtStep(lines, n - 1);
    assert BlockStart(lines, n) == n && BlockEnd(lines, n) == n;
    assert lines[n..n] == [];
  }

  /** An inspected body line extends the block by itself. */
  lemma TextBlockAfterBody(lines: seq<string>, n: nat)
    requires 0 < n <= |lines| && TextBlockAt(lines, n - 1) && IsBodyLine(lines, n - 1)
    ensures TextBlockAt(lines, n)
  {
    MachineAtStep(lines, n - 1);
    var s := BlockStart(lines, n);
    assert BlockEnd(lines, n - 1) == n - 1;
    assert s == BlockStart(lines, n - 1);
    assert BlockEnd(lines, n) == n;
    JoinSliceSnoc(lines, s, n);
  }

  /** Joining a slice one line longer appends that line and a newline. */
  lemma JoinSliceSnoc(lines: seq<string>, s: nat, n: nat)
    requires s < n <= |lines|
    ensures Join(lines[s..n]) == Join(lines[s..n - 1]) + lines[n - 1] + "\n"
  {
    assert lines[s..n][..n - 1 - s] == lines[s..n - 1];
  }

  /** A heading keeps the accumulator; the block now ends before it. */
  lemma TextBlockAfterHeading(lines: seq<string>, n: nat)
    requires 0 < n <= |lines| && TextBlockAt(lines, n - 1) && IsHeadingLine(lines, n - 1)
    ensures TextBlockAt(lines, n)
  {
    MachineAtStep(lines, n - 1);
    assert BlockEnd(lines, n - 1) == n - 1;
    assert BlockStart(lines, n) == BlockStart(lines, n - 1);
    assert BlockEnd(lines, n) == n - 1;
    assert MachineAt(lines, n).state.text == MachineAt(lines, n - 1).state.text;
  }

  /** The accumulator always holds a contiguous run of inspected body lines,
      each followed by a newline, in input order. */
  lemma {:induction false} TextIsBodyBlock(lines: seq<string>, n: nat)
    requires n <= |lines|
    ensures BlockStart(lines, n) <= BlockEnd(lines, n) <= n
    ensures MachineAt(lines, n).state.text == Join(lines[BlockStart(lines, n)..BlockEnd(lines, n)])
    ensures forall j :: BlockStart(lines, n) <= j < BlockEnd(lines, n) ==> IsBodyLine(lines, j)
  {
    TextBlockEverywhere(lines, n);
  }

  /** `TextBlockAt` holds before every line, by induction over the lines. */
  lemma {:induction false} TextBlockEverywhere(lines: seq<string>, n: nat)
    requires n <= |lines|
    ensures TextBlockAt(lines, n)
  {
    if n == 0 {
      assert MachineAt(lines, 0) == Start;
    } else if MachineAt(lines, n - 1).consumeNext {
      TextBlockAfterSwallow(lines, n);
    } else {
      TextBlockEverywhere(lines, n - 1);
      if KindAt(lines, n - 1).BodyLine? {
        TextBlockAfterBody(lines, n);
      } else {
        TextBlockAfterHeading(lines, n);
      }
    }
  }

  /** Lines `a..b` are where the description before line `n` comes from:
      `b` is the last `## Jetpacks` line before `n` and `a` the start of the
      accumulator's run there, or, with no such line, both are 0. */
  predicate LastDividerRun(lines: seq<string>, n: nat, a: nat, b: nat)
    requires n <= |lines|
  {
    || (&& b < n && IsDividerLine(lines, b) && a == BlockStart(lines, b)
        && forall j :: b < j < n ==> !IsDividerLine(lines, j))
    || (a == 0 && b == 0 && forall j :: 0 <= j < n ==> !IsDividerLine(lines, j))
  }

  /** A line that is not an inspected divider keeps the description and its
      run. */
  lemma DescriptionPastOtherLine(lines: seq<string>, n: nat, a: nat, b: nat)
    requires 0 < n <= |lines| && !IsDividerLine(lines, n - 1) && LastDividerRun(lines, n - 1, a, b)
    ensures LastDividerRun(lines, n, a, b)
    ensures MachineAt(lines, n).state.description == MachineAt(lines, n - 1).state.description
  {
    MachineAtStep(lines, n - 1);
  }

  /** An inspected divider stores the accumulator as the description. */
  lemma DescriptionAtDivider(lines: seq<string>, n: nat)
    requires 0 < n <= |lines| && IsDividerLine(lines, n - 1)
    ensures LastDividerRun(lines, n, BlockStart(lines, n - 1), n - 1)
    ensures BlockEnd(lines, n - 1) == n - 1
    ensures MachineAt(lines, n).state.description == MachineAt(lines, n - 1).state.text
  {
    MachineAtStep(lines, n - 1);
  }

  /** The description before line `n` is the run of inspected body lines
      that the accumulator held at the last `## Jetpacks` line before `n`,
      each followed by a newline; with no such line it is empty. */
  lemma {:induction false} DescriptionIsBodyBlockAt(lines: seq<string>, n: nat) returns (a: nat, b: nat)
    requires n <= |lines|
    ensures a <= b <= n
    ensures forall j :: a <= j < b ==> IsBodyLine(lines, j)
    ensures MachineAt(lines, n).state.description == Join(lines[a..b])
    ensures LastDividerRun(lines, n, a, b)
  {
    if n == 0 {
      a, b := 0, 0;
      assert MachineAt(lines, 0) == Start;
    } else if IsDividerLine(lines, n - 1) {
      TextIsBodyBlock(lines, n - 1);
      DescriptionAtDivider(lines, n);
      a, b := BlockStart(lines, n - 1), n - 1;
    } else {
      a, b := DescriptionIsBodyBlockAt(lines, n - 1);
      DescriptionPastOtherLine(lines, n, a, b);
    }
  }

  /** One step either leaves the stored articles alone or, on an accepted
      `### ` heading, files the pending article with the accumulated text. */
  lemma ArticlesStep(lines: seq<string>, i: nat)
    requires i < |lines|
    ensures var before := MachineAt(lines, i).state;
            var after := MachineAt(lines, i + 1).state.articles;
            || after == before.articles
            || (IsArticleHeadingLine(lines, i) && after == before.articles + [JetpackArticle(before.pendingTitle, before.text)])
  {
    MachineAtStep(lines, i);
  }

  /** Stored article `k` was filed by the accepted `### ` heading on line
      `b`: `k` articles were stored before it and `k + 1` after it. It
      carries the title pending there, and its body is the run of inspected body lines from the last
      swallowed line up to that heading, each followed by a newline. */
  lemma {:induction false} ArticleBodyIsBodyBlockAt(lines: seq<string>, n: nat, k: nat) returns (a: nat, b: nat)
    requires n <= |lines|
    requires k < |MachineAt(lines, n).state.articles|
    ensures a <= b < n
    ensures forall j :: a <= j < b ==> IsBodyLine(lines, j)
    ensures MachineAt(lines, n).state.articles[k].bodyMarkdown == Join(lines[a..b])
    ensures IsArticleHeadingLine(lines, b) && a == BlockStart(lines, b)
    ensures |MachineAt(lines, b).state.articles| == k && |MachineAt(lines, b + 1).state.articles| == k + 1
    ensures MachineAt(lines, n).state.articles[k].title == MachineAt(lines, b).state.pendingTitle
  {
    if n > 0 {
      var before := MachineAt(lines, n - 1).state;
      ArticlesStep(lines, n - 1);
      if k < |before.articles| {
        assert MachineAt(lines, n).state.articles[k] == before.articles[k];
        a, b := ArticleBodyIsBodyBlockAt(lines, n - 1, k);
      } else {
        assert IsArticleHeadingLine(lines, n - 1);
        assert k == |before.articles|;
        assert MachineAt(lines, n).state.articles[k] == JetpackArticle(before.pendingTitle, before.text);
        TextIsBodyBlock(lines, n - 1);
        assert BlockEnd(lines, n - 1) == n - 1;
        a, b := BlockStart(lines, n - 1), n - 1;
      }
    }
  }

  /** In the parsed document the description and every article body,
      including the last one's, are each a contiguous run of inspected body
      lines with a newline after each: no heading and no swallowed line ever
      contributes text. The description is the run ending at the last
      `## Jetpacks` line (empty without one); an article other than the last
      is the run ending at the `### ` heading that filed it, met when `k`
      articles were stored; the last article is the run left in the
      accumulator at the end of the input. */
  lemma DocumentTextsAreBodyBlocks(lines: seq<string>, k: nat) returns (da: nat, db: nat, ba: nat, bb: nat)
    requires k < |Parse(lines).articles|
    ensures da <= db <= |lines| && ba <= bb <= |lines|
    ensures forall j :: da <= j < db ==> IsBodyLine(lines, j)
    ensures forall j :: ba <= j < bb ==> IsBodyLine(lines, j)
    ensures Parse(lines).mainDescription == Join(lines[da..db])
    ensures Parse(lines).articles[k].bodyMarkdown == Join(lines[ba..bb])
    ensures LastDividerRun(lines, |lines|, da, db)
    ensures k < |Parse(lines).articles| - 1 ==>
              && bb < |lines| && IsArticleHeadingLine(lines, bb) && ba == BlockStart(lines, bb)
              && |MachineAt(lines, bb).state.articles| == k && |MachineAt(lines, bb + 1).state.articles| == k + 1
    ensures k == |Parse(lines).articles| - 1 ==>
              ba == BlockStart(lines, |lines|) && bb == BlockEnd(lines, |lines|)
  {
    ParseIsFeed(lines);
    da, db := DescriptionIsBodyBlockAt(lines, |lines|);
    var st := MachineAt(lines, |lines|).state;
    assert |Parse(lines).articles| == |st.articles| + 1;
    if k < |st.articles| {
      ba, bb := ArticleBodyIsBodyBlockAt(lines, |lines|, k);
      assert Parse(lines).articles[k] == st.articles[k];
    } else {
      TextIsBodyBlock(lines, |lines|);
      ba, bb := BlockStart(lines, |lines|), BlockEnd(lines, |lines|);
    }
  }

  // ------------------------------------------------- headings and the next line

  /** The line after a recognised heading is swallowed unread: it is not
      inspected, the accumulated text is gone once it has passed, and its
      contents cannot change the result. */
  lemma ConsumedLineIgnored(lines: seq<string>, i: nat, x: string)
    requires i + 1 < |lines| && IsHeadingLine(lines, i)
    ensures !Inspected(lines, i + 1)
    ensures MachineAt(lines, i + 2).state.text == ""
    ensures Parse(lines[i + 1 := x]) == Parse(lines)
  {
    var other := lines[i + 1 := x];
    MachineAtStep(lines, i);
    MachineAtStep(lines, i + 1);
    assert other[..i + 1] == lines[..i + 1];
    assert MachineAt(other, i + 1) == MachineAt(lines, i + 1);
    MachineAtStep(other, i + 1);
    assert MachineAt(other, i + 2) == MachineAt(lines, i + 2);
    var rest := lines[i + 2..];
    assert other == other[..i + 2] + rest;
    assert lines == lines[..i + 2] + rest;
    FeedConcat(other[..i + 2], rest, Start);
    FeedConcat(lines[..i + 2], rest, Start);
    MachineAtEnd(other);
    MachineAtEnd(lines);
    ParseIsFeed(other);
    ParseIsFeed(lines);
  }

  /** A heading on the last line leaves the accumulator untouched: the final
      article's body is the text accumulated before that heading. */
  lemma TrailingHeadingKeepsText(pre: seq<string>, h: string)
    requires !Feed(pre, Start).consumeNext
    requires !Classify(h, Feed(pre, Start).state.description != "").BodyLine?
    ensures Last(Parse(pre + [h]).articles).bodyMarkdown == Feed(pre, Start).state.text
  {
    var lines := pre + [h];
    ParseIsFeed(lines);
    MachineAtEnd(lines);
    assert lines[..|lines| - 1] == pre;
  }

  /** A trailing `### X` on the last line, after an article with a title,
      stores that article and then repeats its body under title X. */
  lemma TrailingArticleHeadingDuplicatesBody(pre: seq<string>, h: string)
    requires !Feed(pre, Start).consumeNext
    requires Classify(h, Feed(pre, Start).state.description != "").ArticleHeading?
    requires Feed(pre, Start).state.pendingTitle != ""
    ensures var arts := Parse(pre + [h]).articles;
            && |arts| >= 2
            && arts[|arts| - 2] == JetpackArticle(Feed(pre, Start).state.pendingTitle, Feed(pre, Start).state.text)
            && arts[|arts| - 1] == JetpackArticle(h[|HeadingPrefix|..], Feed(pre, Start).state.text)
  {
    var lines := pre + [h];
    ParseIsFeed(lines);
    MachineAtEnd(lines);
    assert lines[..|lines| - 1] == pre;
  }

  // ------------------------------------------------------------- article titles

  /** The titles of the article headings among the first `n` lines, in
      order. */
  function HeadingTitles(lines: seq<string>, n: nat): seq<string>
    requires n <= |lines|
  {
    if n == 0 then []
    else HeadingTitles(lines, n - 1) + (if IsArticleHeadingLine(lines, n - 1) then [KindAt(lines, n - 1).title] else [])
  }

  /** The last element of `hs`, or the empty string when there is none. */
  function LastOrEmpty(hs: seq<string>): string
  {
    if |hs| == 0 then "" else Last(hs)
  }

  /** An accepted `### ` heading files the pending article exactly when its
      title is non-empty, which is how `NonEmpty` treats the last heading seen
      so far. */
  lemma TitlesOnArticleHeading(st: ParserState, t: string, hs: seq<string>)
    requires Titles(st.articles) == NonEmpty(DropLast(hs))
    requires st.pendingTitle == LastOrEmpty(hs)
    ensures Titles(EnterHeading(ArticleHeading(t), st).articles) == NonEmpty(hs)
    ensures EnterHeading(ArticleHeading(t), st).pendingTitle == t
  {
    if st.pendingTitle != "" {
      var added := JetpackArticle(st.pendingTitle, st.text);
      assert (st.articles + [added])[..|st.articles|] == st.articles;
      assert Titles(st.articles + [added]) == Titles(st.articles) + [st.pendingTitle];
      assert NonEmpty(hs) == NonEmpty(DropLast(hs)) + [Last(hs)];
    } else if |hs| > 0 {
      assert NonEmpty(hs) == NonEmpty(DropLast(hs));
    }
  }

  /** The relation between the stored titles, the pending title and the
      headings seen so far survives one step of the machine. */
  lemma TitlesStep(m: Machine, line: string, hs: seq<string>)
    requires Titles(m.state.articles) == NonEmpty(DropLast(hs))
    requires m.state.pendingTitle == LastOrEmpty(hs)
    ensures var kind := Classify(line, m.state.description != "");
            var hs' := hs + (if !m.consumeNext && kind.ArticleHeading? then [kind.title] else []);
            && Titles(Step(m, line).state.articles) == NonEmpty(DropLast(hs'))
            && Step(m, line).state.pendingTitle == LastOrEmpty(hs')
  {
    var kind := Classify(line, m.state.description != "");
    if !m.consumeNext && kind.ArticleHeading? {
      var hs' := hs + [kind.title];
      assert DropLast(hs') == hs;
      assert LastOrEmpty(hs') == kind.title;
      assert Step(m, line).state == EnterHeading(ArticleHeading(kind.title), m.state);
      TitlesOnArticleHeading(m.state, kind.title, hs);
    } else {
      assert Step(m, line).state.articles == m.state.articles;
      assert Step(m, line).state.pendingTitle == m.state.pendingTitle;
      assert hs + [] == hs;
    }
  }

  /** Before every line, the stored titles are the non-empty titles of the
      article headings seen so far but the last, and the pending title is the
      last one (or empty). */
  lemma {:induction false} TitlesFollowHeadingsAt(lines: seq<string>, n: nat)
    requires n <= |lines|
    ensures Titles(MachineAt(lines, n).state.articles) == NonEmpty(DropLast(HeadingTitles(lines, n)))
    ensures MachineAt(lines, n).state.pendingTitle == LastOrEmpty(HeadingTitles(lines, n))
  {
    if n == 0 {
      assert MachineAt(lines, 0) == Start;
    } else {
      var m := MachineAt(lines, n - 1);
      var hs := HeadingTitles(lines, n - 1);
      TitlesFollowHeadingsAt(lines, n - 1);
      MachineAtStep(lines, n - 1);
      TitlesStep(m, lines[n - 1], hs);
      var kind := Classify(lines[n - 1], m.state.description != "");
      assert HeadingTitles(lines, n) == hs + (if !m.consumeNext && kind.ArticleHeading? then [kind.title] else []);
    }
  }

  /** The articles carry, in order, the titles of the accepted `### `
      headings: every heading but the last contributes an article when its
      title is non-empty, and the final article bears the last heading's title
      (empty when there was none). */
  lemma ArticleTitlesFollowHeadings(lines: seq<string>)
    ensures var hs := HeadingTitles(lines, |lines|);
            Titles(Parse(lines).articles) == NonEmpty(DropLast(hs)) + [LastOrEmpty(hs)]
  {
    ParseIsFeed(lines);
    TitlesFollowHeadingsAt(lines, |lines|);
    var st := MachineAt(lines, |lines|).state;
    var flushed := st.articles + [JetpackArticle(st.pendingTitle, st.text)];
    assert flushed[..|st.articles|] == st.articles;
  }

  // ------------------------------------------------------ documents without markers

  /** Without markers every line so far is in the accumulator and nothing
      else has changed. */
  lemma {:induction false} AllBodyAt(lines: seq<string>, n: nat)
    requires n <= |lines|
    requires forall j :: 0 <= j < |lines| ==> !HasPrefix(lines[j], TitlePrefix) && !HasPrefix(lines[j], DividerPrefix)
    ensures MachineAt(lines, n) == Machine(Init.(text := Join(lines[..n])), false)
  {
    if n == 0 {
      assert MachineAt(lines, 0) == Start;
    } else {
      AllBodyAt(lines, n - 1);
      MachineAtStep(lines, n - 1);
      assert Classify(lines[n - 1], false).BodyLine?;
      assert lines[..n][..n - 1] == lines[..n - 1];
    }
  }

  /** Without markers the whole input ends up in the accumulator. */
  lemma AllBodyToEnd(lines: seq<string>)
    requires forall j :: 0 <= j < |lines| ==> !HasPrefix(lines[j], TitlePrefix) && !HasPrefix(lines[j], DividerPrefix)
    ensures MachineAt(lines, |lines|).state == Init.(text := Join(lines))
  {
    AllBodyAt(lines, |lines|);
    assert lines[..|lines|] == lines;
  }

  /** With no `# ` and no `## Jetpacks` line the description never gets set,
      so `### ` lines are body text too: the document is one untitled article
      holding every line. */
  lemma NoMarkersMeansOneUntitledArticle(lines: seq<string>)
    requires forall j :: 0 <= j < |lines| ==> !HasPrefix(lines[j], TitlePrefix) && !HasPrefix(lines[j], DividerPrefix)
    ensures Parse(lines) == JetpackArticles([JetpackArticle("", Join(lines))], "", "")
  {
    AllBodyToEnd(lines);
    ParseIsFeed(lines);
    FinishFiled("", "", [], "", Join(lines));
  }

  // ----------------------------------------------------------- document layout

  /** Lines that the `switch` sends to the default case in the state `st`
      are appended to the accumulator one after the other, and nothing else
      changes. */
  lemma {:induction false} RunOverBodyLines(body: seq<string>, rest: seq<string>, st: ParserState)
    requires forall j :: 0 <= j < |body| ==> Classify(body[j], st.description != "").BodyLine?
    ensures Run(body + rest, st) == Run(rest, st.(text := st.text + Join(body)))
    decreases |body|
  {
    if |body| == 0 {
      assert body + rest == rest;
      assert st.(text := st.text + Join(body)) == st;
    } else {
      var tail := body[1..];
      assert (body + rest)[1..] == tail + rest;
      assert body == [body[0]] + tail;
      JoinConcat([body[0]], tail);
      assert [body[0]][..0] == [];
      assert Join([body[0]]) == body[0] + "\n";
      var st' := st.(text := st.text + body[0] + "\n");
      RunOverBodyLines(tail, rest, st');
      assert st'.text + Join(tail) == st.text + Join(body);
    }
  }

  /** The layout the document follows: some lead lines, a `# ` title line,
      one swallowed line, description lines, the `## Jetpacks` divider and one
      more swallowed line. Whatever the lead held is discarded with the title
      line, the title is the rest of that line, the description is the
      description lines with a newline after each, and parsing resumes with
      no article and an empty accumulator. */
  lemma TitleThenDescription(lead: seq<string>, t: string, x: string, desc: seq<string>, y: string, rest: seq<string>)
    requires forall j :: 0 <= j < |lead| ==> Classify(lead[j], false).BodyLine?
    requires forall j :: 0 <= j < |desc| ==> Classify(desc[j], false).BodyLine?
    ensures Parse(lead + [TitlePrefix + t, x] + desc + [DividerPrefix, y] + rest)
            == Run(rest, ParserState(t, Join(desc), [], "", ""))
  {
    var afterDesc := [DividerPrefix, y] + rest;
    var afterTitle := desc + afterDesc;
    var afterLead := [TitlePrefix + t, x] + afterTitle;
    assert lead + [TitlePrefix + t, x] + desc + [DividerPrefix, y] + rest == lead + afterLead;
    RunOverBodyLines(lead, afterLead, Init);
    var titleLine := TitlePrefix + t;
    assert titleLine[..|TitlePrefix|] == TitlePrefix;
    assert titleLine[|TitlePrefix|..] == t;
    assert afterLead[2..] == afterTitle;
    var titled := ParserState(t, "", [], "", "");
    RunOverBodyLines(desc, afterDesc, titled);
    assert "" + Join(desc) == Join(desc);
    HeadingPrefixesExclusive(DividerPrefix);
    assert afterDesc[2..] == rest;
  }

  /** Body lines running to the end of the input all land in the final
      article. */
  lemma RunOverBodyToEnd(body: seq<string>, st: ParserState)
    requires forall j :: 0 <= j < |body| ==> Classify(body[j], st.description != "").BodyLine?
    ensures Run(body, st) == Finish(st.(text := st.text + Join(body)))
  {
    RunOverBodyLines(body, [], st);
    assert body + [] == body;
  }

  /** The frame followed by body lines only, up to the final flush. */
  lemma FrameThenBody(lead: seq<string>, t: string, x: string, desc: seq<string>, y: string, body: seq<string>)
    requires forall j :: 0 <= j < |lead| ==> Classify(lead[j], false).BodyLine?
    requires forall j :: 0 <= j < |desc| ==> Classify(desc[j], false).BodyLine?
    requires forall j :: 0 <= j < |body| ==> Classify(body[j], Join(desc) != "").BodyLine?
    ensures Parse(lead + [TitlePrefix + t, x] + desc + [DividerPrefix, y] + body)
            == Finish(ParserState(t, Join(desc), [], "", "" + Join(body)))
  {
    TitleThenDescription(lead, t, x, desc, y, body);
    RunOverBodyToEnd(body, ParserState(t, Join(desc), [], "", ""));
  }

  /** With only body lines after the divider, the document is a single
      untitled article holding those lines. */
  lemma NoHeadingsAfterDivider(lead: seq<string>, t: string, x: string, desc: seq<string>, y: string, body: seq<string>)
    requires forall j :: 0 <= j < |lead| ==> Classify(lead[j], false).BodyLine?
    requires forall j :: 0 <= j < |desc| ==> Classify(desc[j], false).BodyLine?
    requires forall j :: 0 <= j < |body| ==> Classify(body[j], Join(desc) != "").BodyLine?
    ensures Parse(lead + [TitlePrefix + t, x] + desc + [DividerPrefix, y] + body)
            == JetpackArticles([JetpackArticle("", Join(body))], t, Join(desc))
  {
    FrameThenBody(lead, t, x, desc, y, body);
    FinishFiled(t, Join(desc), [], "", Join(body));
  }

  /** An accepted `### ` heading followed by one more line: the pending
      article is stored if it has a title, the heading's text becomes the
      pending title and the accumulator is emptied. */
  lemma RunOverArticleHeading(h: string, z: string, rest: seq<string>, st: ParserState)
    requires st.description != ""
    ensures Run([HeadingPrefix + h, z] + rest, st)
            == Run(rest, st.(articles := if st.pendingTitle != "" then st.articles + [JetpackArticle(st.pendingTitle, st.text)] else st.articles,
                             pendingTitle := h, text := ""))
  {
    var line := HeadingPrefix + h;
    HeadingPrefixesExclusive(line);
    assert line[..|HeadingPrefix|] == HeadingPrefix;
    assert line[|HeadingPrefix|..] == h;
    assert ([line, z] + rest)[2..] == rest;
  }

  /** The frame, body lines and a first `### h` heading with its swallowed
      line: nothing is stored and `h` is pending with an empty accumulator. */
  lemma FrameThenFirstHeading(lead: seq<string>, t: string, x: string, desc: seq<string>, y: string,
                              pre: seq<string>, h: string, z: string, body: seq<string>)
    requires forall j :: 0 <= j < |lead| ==> Classify(lead[j], false).BodyLine?
    requires forall j :: 0 <= j < |desc| ==> Classify(desc[j], false).BodyLine?
    requires Join(desc) != ""
    requires forall j :: 0 <= j < |pre| ==> Classify(pre[j], true).BodyLine?
    ensures Parse(lead + [TitlePrefix + t, x] + desc + [DividerPrefix, y] + pre + [HeadingPrefix + h, z] + body)
            == Run(body, ParserState(t, Join(desc), [], h, ""))
  {
    var rest := pre + [HeadingPrefix + h, z] + body;
    assert lead + [TitlePrefix + t, x] + desc + [DividerPrefix, y] + pre + [HeadingPrefix + h, z] + body
        == lead + [TitlePrefix + t, x] + desc + [DividerPrefix, y] + rest;
    TitleThenDescription(lead, t, x, desc, y, rest);
    var st := ParserState(t, Join(desc), [], "", "");
    assert rest == pre + ([HeadingPrefix + h, z] + body);
    RunOverBodyLines(pre, [HeadingPrefix + h, z] + body, st);
    RunOverArticleHeading(h, z, body, st.(text := st.text + Join(pre)));
  }

  /** Text between the divider's swallowed line and the first `### `
      heading is dropped: the pending article has no title yet, so nothing is
      stored, and the accumulator is emptied. With only body lines after that
      heading the document is one article, titled by the heading. */
  lemma TextBeforeFirstHeadingDropped(lead: seq<string>, t: string, x: string, desc: seq<string>, y: string,
                                      pre: seq<string>, h: string, z: string, body: seq<string>)
    requires forall j :: 0 <= j < |lead| ==> Classify(lead[j], false).BodyLine?
    requires forall j :: 0 <= j < |desc| ==> Classify(desc[j], false).BodyLine?
    requires Join(desc) != ""
    requires forall j :: 0 <= j < |pre| ==> Classify(pre[j], true).BodyLine?
    requires forall j :: 0 <= j < |body| ==> Classify(body[j], true).BodyLine?
    ensures Parse(lead + [TitlePrefix + t, x] + desc + [DividerPrefix, y] + pre + [HeadingPrefix + h, z] + body)
            == JetpackArticles([JetpackArticle(h, Join(body))], t, Join(desc))
  {
    FrameThenFirstHeading(lead, t, x, desc, y, pre, h, z, body);
    RunOverBodyToEnd(body, ParserState(t, Join(desc), [], h, ""));
    FinishFiled(t, Join(desc), [], h, Join(body));
  }

  /** After the first heading's swallowed line, body lines up to a second
      `### ` heading: the first article is filed with those lines if its title
      is non-empty, and the second heading's title becomes pending. */
  lemma SecondHeading(t: string, d: string, h1: string, body1: seq<string>, h2: string, z2: string, body2: seq<string>)
    requires d != ""
    requires forall j :: 0 <= j < |body1| ==> Classify(body1[j], true).BodyLine?
    ensures Run(body1 + [HeadingPrefix + h2, z2] + body2, ParserState(t, d, [], h1, ""))
            == Run(body2, ParserState(t, d, if h1 != "" then [JetpackArticle(h1, Join(body1))] else [], h2, ""))
  {
    var st := ParserState(t, d, [], h1, "");
    assert body1 + [HeadingPrefix + h2, z2] + body2 == body1 + ([HeadingPrefix + h2, z2] + body2);
    RunOverBodyLines(body1, [HeadingPrefix + h2, z2] + body2, st);
    assert "" + Join(body1) == Join(body1);
    RunOverArticleHeading(h2, z2, body2, st.(text := Join(body1)));
    assert [] + [JetpackArticle(h1, Join(body1))] == [JetpackArticle(h1, Join(body1))];
  }

  /** Two `### ` headings after the divider, each followed by one swallowed
      line and body lines: the first article holds the lines between the
      headings and is stored only when its title is non-empty; the last
      article holds the lines after the second heading. */
  lemma TwoHeadingsTwoArticles(lead: seq<string>, t: string, x: string, desc: seq<string>, y: string, pre: seq<string>,
                               h1: string, z1: string, body1: seq<string>, h2: string, z2: string, body2: seq<string>)
    requires forall j :: 0 <= j < |lead| ==> Classify(lead[j], false).BodyLine?
    requires forall j :: 0 <= j < |desc| ==> Classify(desc[j], false).BodyLine?
    requires Join(desc) != ""
    requires forall j :: 0 <= j < |pre| ==> Classify(pre[j], true).BodyLine?
    requires forall j :: 0 <= j < |body1| ==> Classify(body1[j], true).BodyLine?
    requires forall j :: 0 <= j < |body2| ==> Classify(body2[j], true).BodyLine?
    ensures Parse(lead + [TitlePrefix + t, x] + desc + [DividerPrefix, y] + pre
                  + [HeadingPrefix + h1, z1] + body1 + [HeadingPrefix + h2, z2] + body2)
            == JetpackArticles((if h1 != "" then [JetpackArticle(h1, Join(body1))] else [])
                               + [JetpackArticle(h2, Join(body2))], t, Join(desc))
  {
    var filed := if h1 != "" then [JetpackArticle(h1, Join(body1))] else [];
    FrameThenTwoHeadings(lead, t, x, desc, y, pre, h1, z1, body1, h2, z2, body2);
    RunOverBodyToEnd(body2, ParserState(t, Join(desc), filed, h2, ""));
    FinishFiled(t, Join(desc), filed, h2, Join(body2));
  }

  /** The frame and two `### ` headings, up to the lines after the second
      heading's swallowed line. */
  lemma FrameThenTwoHeadings(lead: seq<string>, t: string, x: string, desc: seq<string>, y: string, pre: seq<string>,
                             h1: string, z1: string, body1: seq<string>, h2: string, z2: string, body2: seq<string>)
    requires forall j :: 0 <= j < |lead| ==> Classify(lead[j], false).BodyLine?
    requires forall j :: 0 <= j < |desc| ==> Classify(desc[j], false).BodyLine?
    requires Join(desc) != ""
    requires forall j :: 0 <= j < |pre| ==> Classify(pre[j], true).BodyLine?
    requires forall j :: 0 <= j < |body1| ==> Classify(body1[j], true).BodyLine?
    ensures Parse(lead + [TitlePrefix + t, x] + desc + [DividerPrefix, y] + pre
                  + [HeadingPrefix + h1, z1] + body1 + [HeadingPrefix + h2, z2] + body2)
            == Run(body2, ParserState(t, Join(desc), if h1 != "" then [JetpackArticle(h1, Join(body1))] else [], h2, ""))
  {
    var rest := body1 + [HeadingPrefix + h2, z2] + body2;
    var frame := lead + [TitlePrefix + t, x] + desc + [DividerPrefix, y] + pre + [HeadingPrefix + h1, z1];
    assert frame + body1 + [HeadingPrefix + h2, z2] + body2 == frame + rest;
    FrameThenFirstHeading(lead, t, x, desc, y, pre, h1, z1, rest);
    SecondHeading(t, Join(desc), h1, body1, h2, z2, body2);
  }

  /** Flushing the pending article `h` with text `b` after the stored
      articles `filed`. */
  lemma FinishFiled(t: string, d: string, filed: seq<JetpackArticle>, h: string, b: string)
    ensures Finish(ParserState(t, d, filed, h, "" + b)) == JetpackArticles(filed + [JetpackArticle(h, b)], t, d)
  {
    assert "" + b == b;
    assert [] + [JetpackArticle(h, b)] == [JetpackArticle(h, b)];
  }
}
