/** parse_ai_selection: turns the model's free-text answer into a bounded list
    of 0-based positions into the list of titles it was shown. */
module AiService {
  import opened Text
  import opened Wrappers

  /** Default value of the top_count parameter. */
  const DefaultTopCount := 5

  function Min(a: int, b: int): int {
    if a <= b then a else b
  }

  /** list(range(n)): 0, 1, ..., n - 1, and nothing when n <= 0. */
  function Range(n: int): (r: seq<nat>)
    ensures |r| == if n <= 0 then 0 else n
    ensures forall i :: 0 <= i < |r| ==> r[i] == i
  {
    if n <= 0 then [] else Range(n - 1) + [n - 1]
  }

  /** s[:k] with Python's reading of a negative bound (counted from the end). */
  function Prefix<T>(s: seq<T>, k: int): (r: seq<T>)
    ensures |r| == if 0 <= k then Min(k, |s|) else if |s| + k <= 0 then 0 else |s| + k
    ensures r == s[..|r|]
  {
    if 0 <= k then (if k <= |s| then s[..k] else s)
    else if |s| + k <= 0 then [] else s[..|s| + k]
  }

  /** What one comma-separated piece of the answer contributes: once stripped it
      must be a digit string whose value num lies in [1, titlesLength]; the
      position is num - 1. Anything else (a sign, letters, "", 0) is skipped. */
  function TokenIndex(token: string, titlesLength: int): (r: Option<nat>)
    ensures r.Some? ==> r.value < titlesLength
  {
    var item := Strip(token);
    if IsDigits(item) && 1 <= DigitsValue(item) <= titlesLength then Some(DigitsValue(item) - 1)
    else None
  }

  /** The positions picked by the tokens, in the order they were emitted,
      repetitions kept. */
  function ValidIndices(tokens: seq<string>, titlesLength: int): seq<nat>
  {
    if |tokens| == 0 then []
    else
      ValidIndices(tokens[..|tokens| - 1], titlesLength) + TokenIndex(tokens[|tokens| - 1], titlesLength).ToSeq()
  }

  /** The deterministic fallback: the first min(topCount, titlesLength) positions. */
  function Fallback(titlesLength: int, topCount: int): seq<nat> {
    Range(Min(topCount, titlesLength))
  }

  /** The result parse_ai_selection computes for these arguments. */
  function Selection(answer: string, titlesLength: int, topCount: int := DefaultTopCount): seq<nat> {
    var picked := ValidIndices(Split(answer, ','), titlesLength);
    var chosen := if |picked| == 0 || |picked| > topCount then Fallback(titlesLength, topCount) else picked;
    Prefix(chosen, topCount)
  }

  /** The loop over answer.split(','), then the fallback and the final clamp. */
  method ParseAiSelection(answer: string, titlesLength: int, topCount: int := DefaultTopCount) returns (picked: seq<nat>)
    ensures picked == Selection(answer, titlesLength, topCount)
  {
    var items := Split(answer, ',');
    picked := [];
    for k := 0 to |items|
      invariant picked == ValidIndices(items[..k], titlesLength)
    {
      ValidIndicesStep(items, k, titlesLength);
      var item := Strip(items[k]);
      TokenIndexOfItem(items[k], item, titlesLength);
      if IsDigits(item) {
        var num := DigitsValue(item);
        if 1 <= num <= titlesLength {
          picked := picked + [num - 1];
        }
      }
    }
    assert items[..|items|] == items;
    ghost var parsed := picked;
    if |picked| == 0 || |picked| > topCount {
      picked := Range(Min(topCount, titlesLength));
    }
    picked := Prefix(picked, topCount);
    SelectionUnfold(answer, titlesLength, topCount, parsed);
  }

  lemma SelectionUnfold(answer: string, titlesLength: int, topCount: int, parsed: seq<nat>)
    requires parsed == ValidIndices(Split(answer, ','), titlesLength)
    ensures Selection(answer, titlesLength, topCount)
            == Prefix(if |parsed| == 0 || |parsed| > topCount then Range(Min(topCount, titlesLength)) else parsed, topCount)
  {
  }

  lemma TokenIndexOfItem(token: string, item: string, titlesLength: int)
    requires item == Strip(token)
    ensures TokenIndex(token, titlesLength).ToSeq()
            == if IsDigits(item) && 1 <= DigitsValue(item) <= titlesLength then [DigitsValue(item) - 1] else []
  {
  }

  lemma ValidIndicesStep(tokens: seq<string>, k: nat, titlesLength: int)
    requires k < |tokens|
    ensures ValidIndices(tokens[..k + 1], titlesLength)
            == ValidIndices(tokens[..k], titlesLength) + TokenIndex(tokens[k], titlesLength).ToSeq()
  {
    assert tokens[..k + 1][..k] == tokens[..k];
  }

  /** Tokens contribute independently: the positions of a concatenation are the
      concatenation of the positions. */
  lemma {:induction false} ValidIndicesAppend(a: seq<string>, b: seq<string>, titlesLength: int)
    ensures ValidIndices(a + b, titlesLength) == ValidIndices(a, titlesLength) + ValidIndices(b, titlesLength)
  {
    if |b| == 0 {
      assert a + b == a;
    } else {
      assert (a + b)[..|a + b| - 1] == a + b[..|b| - 1];
      ValidIndicesAppend(a, b[..|b| - 1], titlesLength);
    }
  }

  /** Every token contributes at most one position, and every position is a
      valid index into the titles. */
  lemma {:induction false} ValidIndicesInRange(tokens: seq<string>, titlesLength: int)
    ensures |ValidIndices(tokens, titlesLength)| <= |tokens|
    ensures forall k :: 0 <= k < |ValidIndices(tokens, titlesLength)| ==> ValidIndices(tokens, titlesLength)[k] < titlesLength
  {
    if |tokens| > 0 {
      ValidIndicesInRange(tokens[..|tokens| - 1], titlesLength);
    }
  }

  /** Whatever the answer, at most topCount positions come back, each a valid
      index into the titles. */
  lemma SelectionBounded(answer: string, titlesLength: int, topCount: int)
    ensures |Selection(answer, titlesLength, topCount)| <= if topCount < 0 then 0 else topCount
    ensures forall k :: 0 <= k < |Selection(answer, titlesLength, topCount)| ==>
              Selection(answer, titlesLength, topCount)[k] < titlesLength
  {
    ValidIndicesInRange(Split(answer, ','), titlesLength);
  }

  /** No usable token, or more usable tokens than topCount: the whole list is
      replaced by the first min(topCount, titlesLength) positions (no truncation). */
  lemma SelectionFallback(answer: string, titlesLength: int, topCount: int)
    requires var n := |ValidIndices(Split(answer, ','), titlesLength)|; n == 0 || n > topCount
    ensures Selection(answer, titlesLength, topCount) == Range(Min(topCount, titlesLength))
  {
  }

  /** Between 1 and topCount usable tokens: exactly their positions, in emission order. */
  lemma SelectionParsed(answer: string, titlesLength: int, topCount: int)
    requires 1 <= |ValidIndices(Split(answer, ','), titlesLength)| <= topCount
    ensures Selection(answer, titlesLength, topCount) == ValidIndices(Split(answer, ','), titlesLength)
  {
  }

  /** With at least one title and a positive cap the result is never empty. */
  lemma SelectionNonEmpty(answer: string, titlesLength: int, topCount: int)
    requires 1 <= titlesLength && 1 <= topCount
    ensures |Selection(answer, titlesLength, topCount)| >= 1
  {
  }

  /** Whitespace around a numeral does not change what it contributes. */
  lemma TokenStripped(ws1: string, digits: string, ws2: string, titlesLength: int)
    requires AllSpace(ws1) && AllSpace(ws2) && IsDigits(digits)
    ensures TokenIndex(ws1 + digits + ws2, titlesLength) == TokenIndex(digits, titlesLength)
  {
    VisibleNotSpace(digits[0], 0);
    VisibleNotSpace(digits[|digits| - 1], 0);
    StripPadded(ws1, digits, ws2);
    StripDigits(digits);
    TokenIndexByStrip(ws1 + digits + ws2, digits, titlesLength);
  }

  lemma TokenIndexByStrip(a: string, b: string, titlesLength: int)
    requires Strip(a) == Strip(b)
    ensures TokenIndex(a, titlesLength) == TokenIndex(b, titlesLength)
  {
  }

  /** The numerals "1", "2", ..., "k". */
  function Numerals(k: nat): (r: seq<string>)
    ensures |r| == k
  {
    if k == 0 then [] else Numerals(k - 1) + [Decimal(k)]
  }

  lemma {:induction false} ValidIndicesNumerals(k: nat, titlesLength: int)
    requires k <= titlesLength
    ensures ValidIndices(Numerals(k), titlesLength) == Range(k)
  {
    if k > 0 {
      ValidIndicesNumerals(k - 1, titlesLength);
      var n := Numerals(k);
      assert n[..|n| - 1] == Numerals(k - 1);
      TokenIndexOfNumeral(k, titlesLength);
    }
  }

  /** The numeral str(n) of a position in range is read back as that position. */
  lemma TokenIndexOfNumeral(n: nat, titlesLength: int)
    requires 1 <= n <= titlesLength
    ensures TokenIndex(Decimal(n), titlesLength) == Some(n - 1)
  {
    StripDigits(Decimal(n));
  }

  /** Feeding back the fallback's own format: "1,2,...,k" parses to [0, ..., k-1]
      whenever 1 <= k <= min(topCount, titlesLength). */
  lemma SelectionReparse(k: nat, titlesLength: int, topCount: int)
    requires 1 <= k <= Min(topCount, titlesLength)
    ensures Selection(Join(Numerals(k), ','), titlesLength, topCount) == Range(k)
  {
    var n := Numerals(k);
    forall i | 0 <= i < |n| ensures ',' !in n[i] {
      NumeralsAreDecimals(k, i);
    }
    SplitJoin(n, ',');
    ValidIndicesNumerals(k, titlesLength);
  }

  lemma {:induction false} NumeralsAreDecimals(k: nat, i: nat)
    requires i < k
    ensures Numerals(k)[i] == Decimal(i + 1)
  {
    if i < k - 1 {
      NumeralsAreDecimals(k - 1, i);
    }
  }

  /** A token that, once stripped, still holds a non-digit (a sign, a letter,
      a decimal point, an inner space) is skipped rather than rejected with an
      error. By Text.StripSpec every token is blank (BlankTokenSkipped), a
      padded digit string (TokenStripped) or a padded core of this form. */
  lemma TokenWithNonDigitSkipped(ws1: string, t: string, ws2: string, i: nat, titlesLength: int)
    requires AllSpace(ws1) && AllSpace(ws2)
    requires t != [] && !IsSpace(t[0]) && !IsSpace(t[|t| - 1])
    requires i < |t| && !IsDigit(t[i])
    ensures TokenIndex(ws1 + t + ws2, titlesLength) == None
  {
    StripPadded(ws1, t, ws2);
  }

  /** A blank token, as "1,,2", "1, ,2" or a trailing comma produce, is skipped. */
  lemma BlankTokenSkipped(ws: string, titlesLength: int)
    requires AllSpace(ws)
    ensures TokenIndex(ws, titlesLength) == None
  {
    StripPadded(ws, [], []);
    assert ws + [] + [] == ws;
  }

  /** A digit string whose value lies outside [1, titlesLength] is skipped,
      leading zeros or not ("0", "00", "0007" with fewer than 7 titles). */
  lemma TokenOutOfRangeSkipped(d: string, titlesLength: int)
    requires IsDigits(d) && !(1 <= DigitsValue(d) <= titlesLength)
    ensures TokenIndex(d, titlesLength) == None
  {
    StripDigits(d);
  }

  lemma TokenExamples()
    ensures TokenIndex("-1", 5) == None && TokenIndex("one", 5) == None && TokenIndex("3a", 5) == None
    ensures TokenIndex(" -1 ", 5) == None
    ensures TokenIndex(" 3 ", 5) == Some(2)
  {
    VisibleNotSpace('-', 0);
    VisibleNotSpace('1', 0);
    VisibleNotSpace('o', 0);
    VisibleNotSpace('e', 0);
    VisibleNotSpace('3', 0);
    VisibleNotSpace('a', 0);
    assert "-1" == [] + "-1" + [];
    TokenWithNonDigitSkipped([], "-1", [], 0, 5);
    assert "one" == [] + "one" + [];
    TokenWithNonDigitSkipped([], "one", [], 0, 5);
    assert "3a" == [] + "3a" + [];
    TokenWithNonDigitSkipped([], "3a", [], 1, 5);
    assert " -1 " == " " + "-1" + " ";
    TokenWithNonDigitSkipped(" ", "-1", " ", 0, 5);
    assert " 3 " == " " + Decimal(3) + " ";
    TokenStripped(" ", Decimal(3), " ", 5);
    TokenIndexOfNumeral(3, 5);
  }
}
