# quicknews-cli: the selection core, modelled in Dafny

quicknews-cli asks for a topic, fetches news candidates, shows the first
`MAX_ARTICLES` (20) titles to an LLM as a numbered list, and reads back the
model's comma-separated answer. It turns that answer into at most `TOP_ARTICLES`
(5) positions and projects those positions back onto the candidates. This
project models the deterministic middle of that pipeline:

- `text.dfy` (module `Text`): the Python string built-ins the core relies on.
  These are `str.strip()` (with Python's full whitespace set), `str.split(sep)`,
  `sep.join(parts)`, `str.isdigit()` + `int()` on ASCII digits, and `str(n)`.
- `ai_service.dfy` (module `AiService`): `parse_ai_selection`. It is the loop
  over the comma-separated tokens, the deterministic fallback
  `range(min(top_count, titles_length))` and the final `[:top_count]` clamp.
  The loop is an imperative method proved equal to a specification function.
  The properties are lemmas about that function.
- `news_service.dfy` (module `NewsService`): `extract_titles` (a loop method)
  and `format_titles_for_ai` (a pure function).
- `article.dfy` (module `Articles`): the `Article` record, its constructor
  defaults, `to_dict` and `extract_article_data` (a loop method).
- `records.dfy`: a candidate is a Python dict, modelled as
  `map<string, string>`, with `dict.get(key, default)`.
- `pipeline.dfy`: the composition at `main.py` lines 35-41. The model's answer
  is a parameter.
- `digit_test_as_written.dfy`: `parse_ai_selection` with `isdigit()` for the
  ASCII digits and the superscript, subscript and circled digits, and with
  CPython's 4300-digit limit on `int()`. On these it can raise (see Findings).
- `wrappers.dfy`: an `Option` type.

Behaviour of the code that the model keeps:

- The parser keeps duplicate positions.
- The parser catches no exceptions. A `ValueError` from `int()` propagates
  (see Findings).
- With 5 titles, `"1,2,3,4,5,6"` keeps 5 valid numbers, because `6` is out of
  range. It returns `[0..4]` as parsed, without the fallback.
- `top_count` defaults to 5 in both `AiService.ParseAiSelection` and
  `AiService.Selection`.

Where the repository's tests expect something else, the model follows the code:

- The tests call `Article("Test Title", "http://example.com")` and expect the
  second argument to be the url. It is the description, and `url` stays `"#"`.
- `to_dict` returns a `description` key, which the test at
  `tests/test_article.py` lines 15-21 does not expect.

## Model

| member | source | states |
|---|---|---|
| `Text.StripSpec` | services/ai_service.py:31 | `strip()` gives a piece of the token. That piece neither starts nor ends with whitespace, and only whitespace is cut around it |
| `Text.StripPadded` | services/ai_service.py:31 | Whitespace (Python's `isspace` set) around a piece with non-space ends is removed, whatever its length |
| `Text.StripDigits` | services/ai_service.py:31-32 | A digit string is unchanged by `strip()` |
| `Text.JoinSplit` | services/ai_service.py:30 | Joining the pieces of `split(sep)` with `sep` rebuilds the answer, so splitting loses nothing |
| `Text.SplitJoin` | services/news_service.py:58 | Splitting a join of separator-free parts gives back exactly those parts |
| `Text.SplitCount` | services/ai_service.py:30 | `split(sep)` yields one more piece than there are separators |
| `Text.Decimal` | services/news_service.py:58 | `str(n)` is a non-empty digit string with no leading zero, and `int()` reads it back as `n` |
| `AiService.ParseAiSelection` | services/ai_service.py:28-40 | The loop over the stripped tokens, the fallback and the clamp compute exactly `Selection(answer, titles_length, top_count)` |
| `AiService.ValidIndicesAppend` | services/ai_service.py:30-35 | Each token contributes on its own. The positions of a concatenation are the concatenation of the positions, so emission order and repeats are kept |
| `AiService.ValidIndicesInRange` | services/ai_service.py:34-35 | Each token adds at most one position, and every collected position is below `titles_length` |
| `AiService.SelectionBounded` | services/ai_service.py:34-40 | On every answer the result has at most `top_count` entries (none if `top_count` is negative), each in `[0, titles_length)` |
| `AiService.SelectionFallback` | services/ai_service.py:37-38 | If no token is valid, or more than `top_count` are, the result is exactly `[0, ..., min(top_count, titles_length) - 1]`. It is not a truncation of the parsed list |
| `AiService.SelectionParsed` | services/ai_service.py:29-40 | If 1 to `top_count` tokens are valid, the result is exactly their positions, in emission order, with repeats |
| `AiService.SelectionNonEmpty` | services/ai_service.py:37-38 | With at least one title and `top_count >= 1`, the result is never empty |
| `AiService.TokenStripped` | services/ai_service.py:31-32 | Whitespace around a numeral does not change what the token contributes |
| `AiService.TokenWithNonDigitSkipped` | services/ai_service.py:31-32 | A token of any whitespace padding around a core that still holds a sign, letter, inner space or other non-digit contributes nothing, and this is not an error. With `Text.StripSpec`, every token is blank (`AiService.BlankTokenSkipped`), a padded digit string (`AiService.TokenStripped`) or a padded core of this form |
| `AiService.BlankTokenSkipped` | services/ai_service.py:30-32 | A blank or all-whitespace token, as `"1,,2"`, `"1, ,2"` or a trailing comma produce, contributes nothing |
| `AiService.TokenOutOfRangeSkipped` | services/ai_service.py:32-34 | A digit string, with or without leading zeros, whose value is 0 or above `titles_length` contributes nothing |
| `AiService.TokenIndexOfNumeral` | services/ai_service.py:32-35 | The numeral `str(n)` with `1 <= n <= titles_length` contributes position `n - 1` |
| `AiService.TokenExamples` | services/ai_service.py:30-35 | `"-1"`, `" -1 "`, `"one"` and `"3a"` are skipped, and `" 3 "` gives position 2 |
| `AiService.SelectionReparse` | services/ai_service.py:30-40 | For `1 <= k <= min(top_count, titles_length)`, parsing `"1,2,...,k"` gives `[0, ..., k-1]` |
| `NewsService.ExtractTitles` | services/news_service.py:50-55 | Returns exactly `min(MAX_ARTICLES, len(articles))` titles. Title `i` is article `i`'s `"title"`, or `"No title"`, in order. Only that prefix is read |
| `NewsService.FormatTitles` | services/news_service.py:57-58 | An empty title list formats to the empty string |
| `NewsService.FormatTitlesLines` | services/news_service.py:57-58 | For titles without newlines, the block splits at newlines into exactly the lines `"{i+1}. " + titles[i]`, in order |
| `NewsService.FormatTitlesNewlines` | services/news_service.py:58 | A non-empty block of newline-free titles has exactly `len(titles) - 1` newlines |
| `NewsService.FormatTitlesSnoc` | services/news_service.py:58 | Adding a title appends `"\n"` and its numbered line to the block |
| `NewsService.FormatTitlesExample` | tests/test_news_service.py:70-74 | `["Title 1","Title 2","Title 3"]` formats to `"1. Title 1\n2. Title 2\n3. Title 3"` |
| `Articles.NewArticleDefaults` | models/article.py:2-5 | `Article()` has `"No title"`, `"No description"` and `"#"`, and given arguments are stored unchanged. Two positional arguments, as in the tests' `Article("Test Title", "http://example.com")`, set title and description, and `url` stays `"#"` |
| `Articles.ToDict` | models/article.py:7-12 | `to_dict()` has exactly the keys `title`, `description` and `url` |
| `Articles.FromCandidateToDict` | models/article.py:7-23 | A dict from `to_dict()`, read back the way `extract_article_data` reads a candidate, gives the same article |
| `Articles.FromCandidateFields` | models/article.py:19-23 | Each field of a projected article is the candidate's value for that key, or `"No title"`, `"No description"` or `"#"` when the key is missing |
| `Articles.InRangeAppend` | models/article.py:16-17 | The in-range filter works position by position and keeps order and repeats |
| `Articles.InRangeAll` | models/article.py:17 | When every picked position is below `len(articles)`, none is dropped |
| `Articles.InRangeCount` | models/article.py:16-17 | The filter keeps as many positions as there are picked positions below `len(articles)` |
| `Articles.ExtractArticleData` | models/article.py:14-24 | The output has one article per picked position below `len(articles)`, in `picked_numbers` order with repeats. Each is built from that candidate with the per-field defaults. Other positions are skipped silently |
| `Pipeline.SelectTopNews` | main.py:35-41 | The prompt block is `format_titles_for_ai` of the first `min(MAX_ARTICLES, len(articles))` titles. The selection is `parse_ai_selection(answer, len(titles), TOP_ARTICLES)`. Every parsed position indexes a title shown to the model. So the projected list is exactly as long as the parsed list, which has at most `TOP_ARTICLES` entries and at least one when there are candidates |
| `DigitTestAsWritten.SuperscriptRaises` | services/ai_service.py:32-33 | As written, the answer `"²"` passes `isdigit()` and makes `int()` raise |
| `DigitTestAsWritten.LongNumeralRaises` | services/ai_service.py:32-33 | As written, an answer that is an ASCII digit string of more than 4300 digits passes `isdigit()` and makes `int()` raise (CPython's default `sys.int_max_str_digits`). This holds even when the string is `"0...01"`, a valid position |
| `DigitTestAsWritten.OnesRaise` | services/ai_service.py:32-33 | As written, the answer of 4301 `'1'`s raises |
| `DigitTestAsWritten.CollectAgrees` | services/ai_service.py:30-35 | When the as-written loop does not raise, it collects the same positions as the corrected loop |
| `DigitTestAsWritten.SelectionAgrees` | services/ai_service.py:28-40 | When the as-written parser returns, it returns the same selection as the corrected parser |

## Findings

| source | as written | input that shows it | evidently intended | confidence | as-written member | corrected member |
|---|---|---|---|---|---|---|
| services/ai_service.py:32-33 | `item.isdigit()` guards `int(item)`. `isdigit()` also accepts superscript digits, which `int()` rejects with `ValueError`. Nothing catches that error | `parse_ai_selection("²", 5)` raises and does not fall back to `[0..4]` | Only decimal numerals are read, so every answer yields a bounded, in-range list | high (Python's documented `isdigit` semantics), not executed | `DigitTestAsWritten.SuperscriptRaises` | `AiService.SelectionBounded` |
| services/ai_service.py:32-33 | `int(item)` on a digit string of more than 4300 digits raises `ValueError`. This is CPython's default `sys.int_max_str_digits` since 3.11 and in the 3.10.7 and 3.9.14 releases, and nothing catches it | `parse_ai_selection("1" * 4301, 5)` raises, and so does `"0" * 4300 + "1"`, although it denotes position 0 | A long numeral is skipped as out of range, or read as its value, and never raises | medium (depends on the interpreter version), not executed | `DigitTestAsWritten.LongNumeralRaises` | `AiService.SelectionBounded` |

## Left out

- `fetch_news` (HTTP, RSS parsing, URL cleaning, `sys.exit`): network I/O and library calls. Candidates enter as a parameter.
- `setup_gemini` and `get_ai_selection`: calls to the Gemini SDK, whose answer is non-deterministic. The answer enters `Pipeline.SelectTopNews` as a parameter.
- Retries, the satisfaction rating and the `Spinner` class: the tests mention them, but the source does not contain them.
- `utils/spinner.py`: a background animation thread with sleeps and terminal writes.
- `save_news_to_file`, `display_news` and the rest of `main`: file output, printing, `input()`, and the early exit when no candidates arrive.
- `config/settings.py`: `MAX_ARTICLES = 20` and `TOP_ARTICLES = 5` are constants. `GEMINI_API_KEY` and `OUTPUT_FILE` are not modelled.
- Text.IsDigits: only ASCII digits. Other Unicode decimal digits (such as Arabic-Indic) pass Python's `isdigit()` and `int()`, but the model skips them. The superscript, subscript and circled digits and CPython's 4300-digit limit on `int()` are modelled only in `digit_test_as_written.dfy`. The corrected parser reads a digit string of any length.
- DigitTestAsWritten.StepAsWritten: raises only on the ASCII digits and the superscript, subscript and circled digits that `NonDecimalDigits` lists. It skips other characters Python's `isdigit()` accepts. Parenthesized, full-stop and dingbat digits would make `int()` raise in the code. Unicode decimal digits such as Arabic-Indic `"٣"` would be read by `int()` as their value.
- NewsService.ExtractTitles: the limit is a `nat` parameter. The source reads the global `MAX_ARTICLES`, and a negative setting is not modelled.
- Articles.ExtractArticleData: picked positions are `nat`. Python would wrap a negative index around, but the parser never produces one.
- Records.Get: dict values are strings, as `fetch_news` produces them. Values of other types and keys other than `title`, `description` and `url` play no part.
- AiService.ParseAiSelection: `titles_length` and `top_count` are Python `int`s. A call with a non-string answer, which raises `AttributeError`, cannot be expressed over a typed `string`.
