/** The records the parser produces (functionality/functionality.go:22-31). */
module Articles {

  /** One article: its heading text and the raw Markdown of its body. */
  datatype JetpackArticle = JetpackArticle(title: string, bodyMarkdown: string)

  /** The parsed document: articles in encounter order, the document title
      and the description that precedes the `## Jetpacks` divider. */
  datatype JetpackArticles = JetpackArticles(
    articles: seq<JetpackArticle>,
    mainTitle: string,
    mainDescription: string)

  /** The titles of `articles`, in order. */
  function Titles(articles: seq<JetpackArticle>): (r: seq<string>)
    ensures |r| == |articles|
    ensures forall k :: 0 <= k < |r| ==> r[k] == articles[k].title
  {
    if |articles| == 0 then []
    else Titles(articles[..|articles| - 1]) + [articles[|articles| - 1].title]
  }
}
