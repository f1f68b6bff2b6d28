/** A candidate article as the news source hands it over: a Python dict from
    field name to text. fetch_news fills "title", "url" and "publishedAt" only,
    so every projected article takes the "No description" default; other
    dicts may carry a "description". */
module Records {

  type Candidate = map<string, string>

  /** Defaults used when a field is absent. */
  const NoTitle := "No title"
  const NoDescription := "No description"
  const NoUrl := "#"

  /** d.get(key, default) */
  function Get(d: Candidate, key: string, default: string): string {
    if key in d then d[key] else default
  }
}
