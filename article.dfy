/** The Article record, its dict form, and extract_article_data, which maps the
    picked positions back onto the candidate dicts. */
module Articles {
  import opened Records
  import opened Wrappers

  /** An article as shown and saved; its fields are set once, at construction. */
  datatype Article = Article(title: string, description: string, url: string)

  /** Article(title="No title", description="No description", url="#"): an
      argument left out is None and takes its default; one given is kept. */
  function NewArticle(title: Option<string>, description: Option<string>, url: Option<string>): Article {
    Article(title.GetOr(NoTitle), description.GetOr(NoDescription), url.GetOr(NoUrl))
  }

  /** Article() has the three defaults; given arguments are stored unchanged.
      Two positional arguments are title and description, so url stays "#". */
  lemma NewArticleDefaults(title: string, description: string, url: string)
    ensures NewArticle(None, None, None) == Article("No title", "No description", "#")
    ensures NewArticle(Some(title), Some(description), None) == Article(title, description, "#")
    ensures var a := NewArticle(Some(title), Some(description), Some(url));
      a.title == title && a.description == description && a.url == url
  {
  }

  /** to_dict(): exactly the keys "title", "description" and "url". */
  function ToDict(a: Article): (d: Candidate)
    ensures d.Keys == {"title", "description", "url"}
  {
    map["title" := a.title, "description" := a.description, "url" := a.url]
  }

  /** The article built for one candidate: each field read with dict.get and
      its default. */
  function FromCandidate(c: Candidate): Article {
    NewArticle(Some(Get(c, "title", NoTitle)), Some(Get(c, "description", NoDescription)), Some(Get(c, "url", NoUrl)))
  }

  /** A dict produced by to_dict() is projected back onto the same article. */
  lemma FromCandidateToDict(a: Article)
    ensures FromCandidate(ToDict(a)) == a
  {
  }

  /** Each field of the projected article is the candidate's value for that key,
      or the default when the key is missing. */
  lemma FromCandidateFields(c: Candidate)
    ensures var a := FromCandidate(c);
      && (if "title" in c then a.title == c["title"] else a.title == "No title")
      && (if "description" in c then a.description == c["description"] else a.description == "No description")
      && (if "url" in c then a.url == c["url"] else a.url == "#")
  {
  }

  /** The picked positions that lie below n, in the order given, repetitions kept. */
  function InRange(picked: seq<nat>, n: nat): (r: seq<nat>)
    ensures |r| <= |picked|
    ensures forall k :: 0 <= k < |r| ==> r[k] < n
  {
    if |picked| == 0 then []
    else InRange(picked[..|picked| - 1], n) + (if picked[|picked| - 1] < n then [picked[|picked| - 1]] else [])
  }

  /** Filtering distributes over concatenation, so order is kept and every
      position is judged on its own. */
  lemma {:induction false} InRangeAppend(a: seq<nat>, b: seq<nat>, n: nat)
    ensures InRange(a + b, n) == InRange(a, n) + InRange(b, n)
  {
    if |b| == 0 {
      assert a + b == a;
    } else {
      assert (a + b)[..|a + b| - 1] == a + b[..|b| - 1];
      InRangeAppend(a, b[..|b| - 1], n);
    }
  }

  /** When every picked position is in range, none is dropped. */
  lemma {:induction false} InRangeAll(picked: seq<nat>, n: nat)
    requires forall k :: 0 <= k < |picked| ==> picked[k] < n
    ensures InRange(picked, n) == picked
  {
    if |picked| > 0 {
      InRangeAll(picked[..|picked| - 1], n);
    }
  }

  /** Out-of-range positions contribute nothing; the count of what is left is
      the count of positions below n. */
  lemma {:induction false} InRangeCount(picked: seq<nat>, n: nat)
    ensures |InRange(picked, n)| == |set k | 0 <= k < |picked| && picked[k] < n|
  {
    if |picked| > 0 {
      var m := |picked| - 1;
      InRangeCount(picked[..m], n);
      var below := set k | 0 <= k < m && picked[..m][k] < n;
      var all := set k | 0 <= k < |picked| && picked[k] < n;
      assert below == set k | 0 <= k < m && picked[k] < n;
      if picked[m] < n {
        assert all == below + {m};
      } else {
        assert all == below;
      }
    }
  }

  /** For each picked position below |articles|, in order, the article built
      from that candidate; the other positions are skipped without error. */
  method ExtractArticleData(articles: seq<Candidate>, picked: seq<nat>) returns (topNews: seq<Article>)
    ensures |topNews| == |InRange(picked, |articles|)|
    ensures forall j :: 0 <= j < |topNews| ==> topNews[j] == FromCandidate(articles[InRange(picked, |articles|)[j]])
  {
    topNews := [];
    for k := 0 to |picked|
      invariant |topNews| == |InRange(picked[..k], |articles|)|
      invariant forall j :: 0 <= j < |topNews| ==> topNews[j] == FromCandidate(articles[InRange(picked[..k], |articles|)[j]])
    {
      assert picked[..k + 1] == picked[..k] + [picked[k]];
      InRangeAppend(picked[..k], [picked[k]], |articles|);
      var i := picked[k];
      if i < |articles| {
        var article := articles[i];
        topNews := topNews + [NewArticle(Some(Get(article, "title", NoTitle)),
                                         Some(Get(article, "description", NoDescription)),
                                         Some(Get(article, "url", NoUrl)))];
      }
    }
    assert picked[..|picked|] == picked;
  }
}
