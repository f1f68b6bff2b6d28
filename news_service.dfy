/** extract_titles and format_titles_for_ai: the candidate titles shown to the
    model, and the numbered prompt block built from them. */
module NewsService {
  import opened Text
  import opened Records

  /** MAX_ARTICLES: how many candidates are shown to the model. */
  const MaxArticles: nat := 20

  /** article.get("title", "No title") */
  function TitleOf(article: Candidate): string {
    Get(article, "title", NoTitle)
  }

  /** Title i is the title of article i (or "No title"), for the first
      min(maxArticles, |articles|) articles, in order. */
  method ExtractTitles(articles: seq<Candidate>, maxArticles: nat) returns (titles: seq<string>)
    ensures |titles| == if maxArticles <= |articles| then maxArticles else |articles|
    ensures forall i :: 0 <= i < |titles| ==> titles[i] == TitleOf(articles[i])
  {
    var n := if maxArticles <= |articles| then maxArticles else |articles|;
    titles := [];
    for i := 0 to n
      invariant |titles| == i
      invariant forall j :: 0 <= j < i ==> titles[j] == TitleOf(articles[j])
    {
      titles := titles + [TitleOf(articles[i])];
    }
  }

  /** f"{n}. {title}" */
  function NumberedLine(n: nat, title: string): string {
    Decimal(n) + ". " + title
  }

  /** One numbered line per title, numbering from 1. */
  function NumberedLines(titles: seq<string>): (lines: seq<string>)
    ensures |lines| == |titles|
  {
    seq(|titles|, i requires 0 <= i < |titles| => NumberedLine(i + 1, titles[i]))
  }

  /** The prompt block: the numbered lines, counting from 1, joined by single
      newlines. */
  function FormatTitles(titles: seq<string>): (text: string)
    ensures titles == [] ==> text == ""
  {
    Join(NumberedLines(titles), '\n')
  }

  predicate NoNewline(titles: seq<string>) {
    forall i :: 0 <= i < |titles| ==> '\n' !in titles[i]
  }

  /** Cutting the block at its newlines gives back, for every i, the line
      "{i+1}. " + titles[i], in order, provided no title holds a newline. */
  lemma FormatTitlesLines(titles: seq<string>)
    requires |titles| >= 1 && NoNewline(titles)
    ensures |Split(FormatTitles(titles), '\n')| == |titles|
    ensures forall i :: 0 <= i < |titles| ==>
              Split(FormatTitles(titles), '\n')[i] == Decimal(i + 1) + ". " + titles[i]
  {
    var lines := NumberedLines(titles);
    forall i | 0 <= i < |lines| ensures '\n' !in lines[i] {
      var d := Decimal(i + 1);
      assert lines[i] == d + ". " + titles[i];
      assert forall j :: 0 <= j < |d| ==> IsDigit(d[j]);
    }
    SplitJoin(lines, '\n');
  }

  /** A non-empty block has exactly |titles| - 1 newlines. */
  lemma FormatTitlesNewlines(titles: seq<string>)
    requires |titles| >= 1 && NoNewline(titles)
    ensures Count('\n', FormatTitles(titles)) == |titles| - 1
  {
    FormatTitlesLines(titles);
    SplitCount(FormatTitles(titles), '\n');
  }

  /** The block for a list extended by one title is the old block, a newline,
      and the new numbered line. */
  lemma FormatTitlesSnoc(titles: seq<string>, title: string)
    requires |titles| >= 1
    ensures FormatTitles(titles + [title]) == FormatTitles(titles) + "\n" + NumberedLine(|titles| + 1, title)
  {
    JoinSnoc(NumberedLines(titles), NumberedLine(|titles| + 1, title), '\n');
    assert NumberedLines(titles + [title]) == NumberedLines(titles) + [NumberedLine(|titles| + 1, title)];
  }

  /** The block for ["Title 1", "Title 2", "Title 3"]. */
  lemma FormatTitlesExample()
    ensures FormatTitles(["Title 1", "Title 2", "Title 3"]) == "1. Title 1\n2. Title 2\n3. Title 3"
  {
    var one, two, three := ["Title 1"], ["Title 1", "Title 2"], ["Title 1", "Title 2", "Title 3"];
    assert Decimal(1) == "1" && Decimal(2) == "2" && Decimal(3) == "3";
    assert NumberedLine(1, "Title 1") == "1. Title 1";
    assert NumberedLine(2, "Title 2") == "2. Title 2";
    assert NumberedLine(3, "Title 3") == "3. Title 3";
    assert NumberedLines(one)[0] == "1. Title 1";
    assert NumberedLines(one) == ["1. Title 1"];
    assert FormatTitles(one) == "1. Title 1";
    FormatTitlesSnoc(one, "Title 2");
    assert one + ["Title 2"] == two;
    assert FormatTitles(two) == "1. Title 1" + "\n" + "2. Title 2";
    FormatTitlesSnoc(two, "Title 3");
    assert two + ["Title 3"] == three;
    assert FormatTitles(three) == "1. Title 1" + "\n" + "2. Title 2" + "\n" + "3. Title 3";
    ExampleText();
  }

  lemma ExampleText()
    ensures "1. Title 1" + "\n" + "2. Title 2" + "\n" + "3. Title 3" == "1. Title 1\n2. Title 2\n3. Title 3"
  {
  }
}
