/** parse_ai_selection as written tests tokens with str.isdigit() and then
    calls int(), which raises ValueError in two cases the test lets through:
    characters isdigit() accepts but int() cannot read (superscript digits
    such as "²"), and digit strings longer than CPython's default limit on
    int() conversion (sys.int_max_str_digits, 4300 digits, leading zeros
    included). The exception leaves the parser. This module
    models that behaviour; the rest of the model uses the ASCII digit test, for
    which AiService.SelectionBounded holds on every answer. */
module DigitTestAsWritten {
  import opened Text
  import opened Wrappers
  import opened AiService

  /** Some of the characters that str.isdigit() accepts although they are not
      decimal digits, so int() rejects them: superscripts and subscripts zero
      to nine and circled digits one to nine. Other such characters
      (parenthesized, full-stop and dingbat digits) are not listed. */
  const NonDecimalDigits: seq<char> :=
    ['\U{2070}', '\U{B9}', '\U{B2}', '\U{B3}', '\U{2074}', '\U{2075}', '\U{2076}', '\U{2077}', '\U{2078}', '\U{2079}',
     '\U{2080}', '\U{2081}', '\U{2082}', '\U{2083}', '\U{2084}', '\U{2085}', '\U{2086}', '\U{2087}', '\U{2088}', '\U{2089}',
     '\U{2460}', '\U{2461}', '\U{2462}', '\U{2463}', '\U{2464}', '\U{2465}', '\U{2466}', '\U{2467}', '\U{2468}']

  /** CPython's default sys.int_max_str_digits. */
  const IntMaxStrDigits := 4300

  /** str.isdigit() as Python has it, for the ASCII digits and the characters
      listed in NonDecimalDigits. */
  predicate PyIsDigits(s: string) {
    |s| > 0 && forall i :: 0 <= i < |s| ==> IsDigit(s[i]) || s[i] in NonDecimalDigits
  }

  /** What the loop body does with one token. */
  datatype Step = Skip | Append(position: nat) | ValueError

  function StepAsWritten(token: string, titlesLength: int): Step {
    var item := Strip(token);
    if !PyIsDigits(item) then Skip
    else if !IsDigits(item) then ValueError
    else if |item| > IntMaxStrDigits then ValueError
    else if 1 <= DigitsValue(item) <= titlesLength then Append(DigitsValue(item) - 1)
    else Skip
  }

  /** The positions collected, or None once int() has raised. */
  function CollectAsWritten(tokens: seq<string>, titlesLength: int): Option<seq<nat>> {
    if |tokens| == 0 then Some([])
    else
      match CollectAsWritten(tokens[..|tokens| - 1], titlesLength)
      case None => None
      case Some(init) =>
        match StepAsWritten(tokens[|tokens| - 1], titlesLength)
        case Skip => Some(init)
        case Append(p) => Some(init + [p])
        case ValueError => None
  }

  /** parse_ai_selection as written: None stands for the ValueError it lets escape. */
  function SelectionAsWritten(answer: string, titlesLength: int, topCount: int): Option<seq<nat>> {
    match CollectAsWritten(Split(answer, ','), titlesLength)
    case None => None
    case Some(picked) =>
      Some(Prefix(if |picked| == 0 || |picked| > topCount then Fallback(titlesLength, topCount) else picked, topCount))
  }

  /** Whenever the code as written returns, it returns what the corrected
      parser returns. */
  lemma {:induction false} CollectAgrees(tokens: seq<string>, titlesLength: int)
    ensures CollectAsWritten(tokens, titlesLength).Some? ==>
              CollectAsWritten(tokens, titlesLength).value == ValidIndices(tokens, titlesLength)
  {
    if |tokens| > 0 {
      CollectAgrees(tokens[..|tokens| - 1], titlesLength);
    }
  }

  lemma SelectionAgrees(answer: string, titlesLength: int, topCount: int)
    ensures SelectionAsWritten(answer, titlesLength, topCount).Some? ==>
              SelectionAsWritten(answer, titlesLength, topCount).value == Selection(answer, titlesLength, topCount)
  {
    CollectAgrees(Split(answer, ','), titlesLength);
  }

  /** The token "²" strips to itself and passes isdigit() but not int(). */
  lemma SuperscriptStep(t: string)
    requires t == "\U{B2}"
    ensures StepAsWritten(t, 5) == ValueError
  {
    UnlistedNotSpace(t[0], 0);
    StripPadded([], t, []);
    assert [] + t + [] == t;
    assert t[0] in NonDecimalDigits && !IsDigit(t[0]);
  }

  /** The answer "²" makes the parser as written raise instead of falling back. */
  lemma SuperscriptRaises()
    ensures SelectionAsWritten("\U{B2}", 5, 5) == None
  {
    var t := "\U{B2}";
    SplitNoSep(t, ',');
    SuperscriptStep(t);
    assert [t][..0] == [];
    assert CollectAsWritten([t], 5) == None;
  }

  /** A numeral longer than the conversion limit makes the parser as written
      raise, even when its value (after leading zeros) is a valid position. */
  lemma LongNumeralRaises(d: string, titlesLength: int, topCount: int)
    requires IsDigits(d) && |d| > IntMaxStrDigits
    ensures SelectionAsWritten(d, titlesLength, topCount) == None
  {
    assert ',' !in d;
    SplitNoSep(d, ',');
    StripDigits(d);
    assert StepAsWritten(d, titlesLength) == ValueError;
    assert [d][..0] == [];
  }

  /** The answer of 4301 ones is such a numeral. */
  lemma OnesRaise()
    ensures SelectionAsWritten(seq(4301, _ => '1'), 5, 5) == None
  {
    LongNumeralRaises(seq(4301, _ => '1'), 5, 5);
  }
}
