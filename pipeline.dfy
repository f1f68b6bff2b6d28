/** The pure middle of main(): titles, prompt block, parsed selection and the
    projected articles. The model's answer is a parameter. */
module Pipeline {
  import opened Records
  import opened AiService
  import opened NewsService
  import opened Articles

  /** TOP_ARTICLES: how many articles end up selected. */
  const TopArticles := 5

  /** How many titles are shown to the model: min(MAX_ARTICLES, len(articles)). */
  function Shown(articles: seq<Candidate>): nat {
    if MaxArticles <= |articles| then MaxArticles else |articles|
  }

  /** The titles shown to the model, in order. */
  function ShownTitles(articles: seq<Candidate>): (titles: seq<string>)
    ensures |titles| == Shown(articles)
  {
    seq(Shown(articles), i requires 0 <= i < Shown(articles) => TitleOf(articles[i]))
  }

  /** The prompt block numbers the shown titles and the answer is parsed
      against them. Every picked position indexes a title that was shown to
      the model, so no picked position is dropped: one article per position,
      in order. */
  method SelectTopNews(articles: seq<Candidate>, answer: string)
    returns (titlesText: string, picked: seq<nat>, topNews: seq<Article>)
    ensures titlesText == FormatTitles(ShownTitles(articles))
    ensures picked == Selection(answer, Shown(articles), TopArticles)
    ensures forall j :: 0 <= j < |picked| ==> picked[j] < Shown(articles)
    ensures |picked| <= TopArticles
    ensures |articles| >= 1 ==> |picked| >= 1
    ensures |topNews| == |picked|
    ensures forall j :: 0 <= j < |topNews| ==> topNews[j] == FromCandidate(articles[picked[j]])
  {
    var titles := ExtractTitles(articles, MaxArticles);
    assert titles == ShownTitles(articles);
    titlesText := FormatTitles(titles);
    picked := ParseAiSelection(answer, |titles|, TopArticles);
    SelectionBounded(answer, |titles|, TopArticles);
    if |articles| >= 1 {
      SelectionNonEmpty(answer, |titles|, TopArticles);
    }
    topNews := ExtractArticleData(articles, picked);
    InRangeAll(picked, |articles|);
  }
}
