/**
 * The two value normalisers of the Digrin interface: a display number such as
 * `"1.5 B"` becomes a real number, and a display date such as `"Dec. 31, 2023"`
 * becomes `"2023-12-31"`.
 *
 * Python's `float()` is not modelled: every operation that calls it takes it as
 * the parameter `toFloat`, which answers `None` where `float()` raises `ValueError`.
 */
module DigrinInterface {
  import opened Wrappers
  import opened Text

  // ---------------------------------------------------------------------------
  // Numbers
  // ---------------------------------------------------------------------------

  /** Inputs that stand for "no value"; only an exact match counts, nothing is trimmed. */
  const NullSentinels: seq<string> := ["?", "N/A", "n/a", "nan", "NAN", "Nan", "_", "-", ""]

  const Thousand: real := 1_000.0
  const Million: real := 1_000_000.0
  const Billion: real := 1_000_000_000.0
  const Trillion: real := 1_000_000_000_000.0

  /** The `ValueError` that `float(text)` raises. */
  datatype NumberError = NotANumber(text: string)

  /** The magnitude a lower-case suffix letter stands for; 1 for every other character. */
  function LetterScale(c: char): real
  {
    if c == 't' then Trillion
    else if c == 'b' then Billion
    else if c == 'm' then Million
    else if c == 'k' then Thousand
    else 1.0
  }

  function Max(x: real, y: real): real
  {
    if x < y then y else x
  }

  /** The largest magnitude among the suffix letters that occur in `s` (1 when none occurs). */
  function LargestScale(s: string): (m: real)
    ensures forall k :: 0 <= k < |s| ==> LetterScale(s[k]) <= m
    ensures m == 1.0 || exists k :: 0 <= k < |s| && LetterScale(s[k]) == m
  {
    if |s| == 0 then 1.0 else Max(LetterScale(s[0]), LargestScale(s[1..]))
  }

  /** The four substring tests of the `elif` chain are tests for one character each. */
  lemma SuffixTestsAreMembership(lowered: string)
    ensures Contains(lowered, "t") <==> 't' in lowered
    ensures Contains(lowered, "b") <==> 'b' in lowered
    ensures Contains(lowered, "m") <==> 'm' in lowered
    ensures Contains(lowered, "k") <==> 'k' in lowered
  {
    ContainsChar(lowered, 't');
    ContainsChar(lowered, 'b');
    ContainsChar(lowered, 'm');
    ContainsChar(lowered, 'k');
  }

  /**
   * The multiplier the normaliser's `elif` chain picks: `t` before `b` before `m`
   * before `k`. It is 1 exactly when no suffix letter occurs, and otherwise the
   * magnitude of a letter that does.
   */
  function SuffixMultiplier(lowered: string): (m: real)
    ensures m == 1.0 <==> forall k :: 0 <= k < |lowered| ==> LetterScale(lowered[k]) == 1.0
    ensures m != 1.0 ==> exists k :: 0 <= k < |lowered| && LetterScale(lowered[k]) == m
  {
    SuffixTestsAreMembership(lowered);
    if Contains(lowered, "t") then Trillion
    else if Contains(lowered, "b") then Billion
    else if Contains(lowered, "m") then Million
    else if Contains(lowered, "k") then Thousand
    else 1.0
  }

  /**
   * Lower-casing first makes the tests blind to case: a suffix letter is found when
   * the entry holds it in either case (or, for `k`, the Kelvin sign).
   */
  lemma SuffixLetterEitherCase(entry: string, l: char)
    requires l == 't' || l == 'b' || l == 'm' || l == 'k'
    ensures Contains(Lower(entry), [l]) <==> (l in entry || (l as int - 32) as char in entry || (l == 'k' && KelvinSign in entry))
  {
    ContainsChar(Lower(entry), l);
    LowerContains(entry, l);
  }

  /** The priority order of the chain is the order of magnitudes, so it picks the largest letter present. */
  lemma SuffixMultiplierIsLargestScale(lowered: string)
    ensures SuffixMultiplier(lowered) == LargestScale(lowered)
  {
    SuffixTestsAreMembership(lowered);
    var m := LargestScale(lowered);
    if m != 1.0 {
      var k :| 0 <= k < |lowered| && LetterScale(lowered[k]) == m;
      assert lowered[k] in lowered;
    }
    if 't' in lowered {
      var k :| 0 <= k < |lowered| && lowered[k] == 't';
    } else if 'b' in lowered {
      var k :| 0 <= k < |lowered| && lowered[k] == 'b';
    } else if 'm' in lowered {
      var k :| 0 <= k < |lowered| && lowered[k] == 'm';
    } else if 'k' in lowered {
      var k :| 0 <= k < |lowered| && lowered[k] == 'k';
    }
  }

  /** The text before the first space (`entry.split(" ")[0]`). */
  function FirstToken(entry: string): (token: string)
    ensures ' ' !in token
  {
    Split(entry, ' ')[0]
  }

  /** `float(text) * factor`, failing where `float(text)` raises. */
  function ParseScaled(text: string, factor: real, toFloat: string -> Option<real>): (r: Result<real, NumberError>)
    ensures r.Success? <==> toFloat(text).Some?
    ensures r.Success? ==> r.value == toFloat(text).value * factor
    ensures r.Failure? ==> r.error == NotANumber(text)
  {
    match toFloat(text)
    case Some(x) => Success(x * factor)
    case None => Failure(NotANumber(text))
  }

  /**
   * `_human_number_format_to_raw`: a null sentinel is 0; otherwise, when the
   * lower-cased entry contains one of `t`, `b`, `m`, `k`, the first space-separated
   * token is parsed and scaled by the largest magnitude among the letters present;
   * otherwise the whole entry is parsed.
   */
  function HumanNumberToRaw(entry: string, toFloat: string -> Option<real>): (r: Result<real, NumberError>)
    ensures entry in NullSentinels ==> r == Success(0.0)
    ensures entry !in NullSentinels && LargestScale(Lower(entry)) > 1.0 ==>
      r == ParseScaled(FirstToken(entry), LargestScale(Lower(entry)), toFloat)
    ensures entry !in NullSentinels && LargestScale(Lower(entry)) == 1.0 ==>
      r == ParseScaled(entry, 1.0, toFloat)
  {
    if entry in NullSentinels then Success(0.0)
    else
      var lowered := Lower(entry);
      SuffixMultiplierIsLargestScale(lowered);
      var multiplier := SuffixMultiplier(lowered);
      if multiplier != 1.0 then ParseScaled(FirstToken(entry), multiplier, toFloat)
      else match toFloat(entry)
        case Some(x) => Success(x)
        case None => Failure(NotANumber(entry))
  }

  /** No null sentinel contains a space. */
  lemma SentinelsHaveNoSpace(entry: string)
    requires entry in NullSentinels
    ensures ' ' !in entry
  {
  }

  /**
   * With a suffix letter anywhere, only the token before the first space is parsed:
   * what follows the space matters only through the letters it contributes.
   */
  lemma OnlyFirstTokenIsParsed(token: string, rest: string, toFloat: string -> Option<real>)
    requires ' ' !in token
    requires LargestScale(Lower(token + " " + rest)) > 1.0
    ensures HumanNumberToRaw(token + " " + rest, toFloat)
      == ParseScaled(token, LargestScale(Lower(token + " " + rest)), toFloat)
  {
    var entry := token + " " + rest;
    assert entry[|token|] == ' ';
    if entry in NullSentinels {
      SentinelsHaveNoSpace(entry);
      assert false;
    }
    SplitAtFirstSep(token, ' ', rest);
  }

  /** Each sentinel is 0, whatever `float()` does. */
  lemma NullSentinelsAreZero(toFloat: string -> Option<real>)
    ensures forall s :: s in NullSentinels ==> HumanNumberToRaw(s, toFloat) == Success(0.0)
  {
  }

  /** `"1.5 B"` is 1.5 times 10^9 (tests/test_digrin_interface.py:560). */
  lemma SpacedBillionExample(entry: string, toFloat: string -> Option<real>)
    requires entry == "1.5 B"
    requires toFloat("1.5") == Some(1.5)
    ensures HumanNumberToRaw(entry, toFloat) == Success(1_500_000_000.0)
  {
    assert entry == "1.5" + " " + "B";
    var lowered := Lower(entry);
    assert lowered[4] == 'b';
    assert forall k :: 0 <= k < 4 ==> LetterScale(lowered[k]) == 1.0;
    assert LargestScale(lowered) == Billion;
    OnlyFirstTokenIsParsed("1.5", "B", toFloat);
  }

  /**
   * `"not a number at all"` contains a `t`, so only `"not"` reaches `float()`,
   * which rejects it (tests/test_digrin_interface.py:611).
   */
  lemma WordsFailOnFirstToken(toFloat: string -> Option<real>)
    requires toFloat("not") == None
    ensures HumanNumberToRaw("not a number at all", toFloat) == Failure(NotANumber("not"))
  {
    assert Lower("not a number at all")[2] == 't';
    assert LetterScale(Lower("not a number at all")[2]) == Trillion;
    assert "not a number at all" == "not" + " " + "a number at all";
    OnlyFirstTokenIsParsed("not", "a number at all", toFloat);
  }

  /** An entry holding no suffix letter in either case is scaled by 1. */
  lemma NoSuffixLetter(entry: string)
    requires 't' !in entry && 'b' !in entry && 'm' !in entry && 'k' !in entry
    requires 'T' !in entry && 'B' !in entry && 'M' !in entry && 'K' !in entry && KelvinSign !in entry
    ensures LargestScale(Lower(entry)) == 1.0
  {
    var lowered := Lower(entry);
    forall k | 0 <= k < |lowered|
      ensures LetterScale(lowered[k]) == 1.0
    {
      assert entry[k] in entry;
    }
  }

  /**
   * `"12.34 XYZ"` holds no suffix letter, so the whole string reaches `float()`,
   * which rejects it (tests/test_digrin_interface.py:610).
   */
  lemma UnknownSuffixFails(toFloat: string -> Option<real>)
    requires toFloat("12.34 XYZ") == None
    ensures HumanNumberToRaw("12.34 XYZ", toFloat) == Failure(NotANumber("12.34 XYZ"))
  {
    NoSuffixLetter("12.34 XYZ");
  }

  /** A sentinel surrounded by spaces is not a sentinel: it goes to `float()` unchanged. */
  lemma SentinelMatchIsExact(toFloat: string -> Option<real>)
    ensures HumanNumberToRaw(" N/A", toFloat) == ParseScaled(" N/A", 1.0, toFloat)
  {
    var lowered := Lower(" N/A");
    forall k | 0 <= k < |lowered|
      ensures LetterScale(lowered[k]) == 1.0
    {
    }
  }

  // ---------------------------------------------------------------------------
  // Dates
  // ---------------------------------------------------------------------------

  /** The month names the date normaliser knows, in calendar order. */
  const MonthNames: seq<string> :=
    ["Jan", "Feb", "March", "Apr", "May", "June", "Jul", "Aug", "Sept", "Oct", "Nov", "Dec"]

  const MonthNumbers: map<string, string> := map[
    "Jan" := "01", "Feb" := "02", "March" := "03", "Apr" := "04",
    "May" := "05", "June" := "06", "Jul" := "07", "Aug" := "08",
    "Sept" := "09", "Oct" := "10", "Nov" := "11", "Dec" := "12"]

  /** `n` written with exactly two digits. */
  function TwoDigits(n: nat): (s: string)
    requires n < 100
    ensures |s| == 2 && AllDigits(s)
  {
    [DigitChar(n / 10), DigitChar(n % 10)]
  }

  lemma DigitCharValue(d: nat)
    requires d < 10
    ensures DigitChar(d) as int - '0' as int == d
  {
  }

  /** Reading the two digits back gives the number: `TwoDigits` loses nothing. */
  lemma TwoDigitsValue(n: nat)
    requires n < 100
    ensures DigitsValue(TwoDigits(n)) == n
  {
    var s := TwoDigits(n);
    DigitCharValue(n / 10);
    DigitCharValue(n % 10);
    assert s[..1] == [DigitChar(n / 10)];
    assert [DigitChar(n / 10)][..0] == [];
  }

  /** The month table maps the i-th month name to the two-digit number i+1. */
  lemma MonthNumbersInCalendarOrder()
    ensures forall i :: 0 <= i < 12 ==> MonthNames[i] in MonthNumbers && MonthNumbers[MonthNames[i]] == TwoDigits(i + 1)
  {
    assert MonthNumbers[MonthNames[0]] == TwoDigits(1);
    assert MonthNumbers[MonthNames[1]] == TwoDigits(2);
    assert MonthNumbers[MonthNames[2]] == TwoDigits(3);
    assert MonthNumbers[MonthNames[3]] == TwoDigits(4);
    assert MonthNumbers[MonthNames[4]] == TwoDigits(5);
    assert MonthNumbers[MonthNames[5]] == TwoDigits(6);
    assert MonthNumbers[MonthNames[6]] == TwoDigits(7);
    assert MonthNumbers[MonthNames[7]] == TwoDigits(8);
    assert MonthNumbers[MonthNames[8]] == TwoDigits(9);
    assert MonthNumbers[MonthNames[9]] == TwoDigits(10);
    assert MonthNumbers[MonthNames[10]] == TwoDigits(11);
    assert MonthNumbers[MonthNames[11]] == TwoDigits(12);
  }

  /** The table's keys are exactly the twelve month names. */
  lemma MonthKeysAreMonthNames()
    ensures forall m :: m in MonthNumbers <==> m in MonthNames
  {
    MonthNumbersInCalendarOrder();
    assert MonthNumbers.Keys == {"Jan", "Feb", "March", "Apr", "May", "June", "Jul", "Aug", "Sept", "Oct", "Nov", "Dec"};
  }

  /** Each month's number reads back as its position in the calendar. */
  lemma MonthNumbersReadBack()
    ensures forall i :: 0 <= i < 12 ==> AllDigits(MonthNumbers[MonthNames[i]]) && DigitsValue(MonthNumbers[MonthNames[i]]) == i + 1
  {
    MonthNumbersInCalendarOrder();
    forall i | 0 <= i < 12
      ensures AllDigits(MonthNumbers[MonthNames[i]]) && DigitsValue(MonthNumbers[MonthNames[i]]) == i + 1
    {
      TwoDigitsValue(i + 1);
    }
  }

  /** No two month names share a number: the table is injective. */
  lemma MonthNumbersInjective()
    ensures forall i, j :: 0 <= i < 12 && 0 <= j < 12 && i != j ==>
      MonthNumbers[MonthNames[i]] != MonthNumbers[MonthNames[j]]
  {
    MonthNumbersReadBack();
  }

  /** Why a display date is rejected: Python's unpacking `ValueError`, or the table's `KeyError`. */
  datatype DateError = WrongTokenCount(count: nat) | UnknownMonth(month: string)

  /**
   * `_human_date_format_to_raw`: split on single spaces into month, day and year,
   * drop every `.` from the month and look it up, drop every `,` from the day,
   * and answer `year-MM-day`. Unpacking fails exactly when the input does not hold
   * exactly two spaces, and otherwise the call fails exactly when the dot-free
   * month is not in the table; the errors carry the token count and that month.
   */
  function HumanDateToRaw(entry: string): (r: Result<string, DateError>)
    ensures r.Failure? && r.error.WrongTokenCount? <==> Count(entry, ' ') != 2
    ensures r.Failure? && r.error.WrongTokenCount? ==> r.error.count == Count(entry, ' ') + 1
    ensures r.Failure? && r.error.UnknownMonth? ==> r.error.month !in MonthNumbers && '.' !in r.error.month
    ensures r.Success? <==> Count(entry, ' ') == 2 && RemoveAll(Split(entry, ' ')[0], '.') in MonthNumbers
  {
    var tokens := Split(entry, ' ');
    if |tokens| != 3 then Failure(WrongTokenCount(|tokens|))
    else
      var month := RemoveAll(tokens[0], '.');
      if month !in MonthNumbers then Failure(UnknownMonth(month))
      else Success(tokens[2] + "-" + MonthNumbers[month] + "-" + RemoveAll(tokens[1], ','))
  }

  /**
   * Every input made of three space-free tokens: when the first, without dots,
   * names a month the answer is `year-MM-day` with the commas taken out of the
   * day, and otherwise the dot-free month is reported as unknown.
   */
  lemma {:induction false} HumanDateFromTokens(month: string, day: string, year: string)
    requires ' ' !in month && ' ' !in day && ' ' !in year
    ensures HumanDateToRaw(month + " " + day + " " + year)
      == if RemoveAll(month, '.') in MonthNumbers
         then Success(year + "-" + MonthNumbers[RemoveAll(month, '.')] + "-" + RemoveAll(day, ','))
         else Failure(UnknownMonth(RemoveAll(month, '.')))
  {
    var entry := month + " " + day + " " + year;
    assert entry == month + [' '] + (day + [' '] + year);
    SplitAtFirstSep(month, ' ', day + [' '] + year);
    SplitAtFirstSep(day, ' ', year);
    SplitWithoutSep(year, ' ');
  }

  /** Every accepted input is three space-free tokens joined by single spaces. */
  lemma AcceptedDateHasThreeTokens(entry: string)
    requires HumanDateToRaw(entry).Success?
    ensures var tokens := Split(entry, ' ');
      |tokens| == 3 && entry == tokens[0] + " " + tokens[1] + " " + tokens[2]
  {
    var tokens := Split(entry, ' ');
    JoinSplit(entry, ' ');
    assert tokens[1..][1..] == [tokens[2]];
    assert Join(tokens[1..], ' ') == tokens[1] + [' '] + tokens[2];
    assert Join(tokens, ' ') == tokens[0] + [' '] + Join(tokens[1..], ' ');
  }

  /** When year and day hold no `-`, splitting the answer on `-` gives year, month number and day back. */
  lemma {:induction false} RawDateSplitsIntoParts(month: string, day: string, year: string)
    requires ' ' !in month && ' ' !in day && ' ' !in year
    requires RemoveAll(month, '.') in MonthNumbers
    requires '-' !in year && '-' !in day
    ensures var r := HumanDateToRaw(month + " " + day + " " + year);
      r.Success? && Split(r.value, '-') == [year, MonthNumbers[RemoveAll(month, '.')], RemoveAll(day, ',')]
  {
    HumanDateFromTokens(month, day, year);
    var mm := MonthNumbers[RemoveAll(month, '.')];
    var d := RemoveAll(day, ',');
    assert '-' !in mm;
    assert '-' !in d;
    assert year + "-" + mm + "-" + d == year + ['-'] + (mm + ['-'] + d);
    SplitAtFirstSep(year, '-', mm + ['-'] + d);
    SplitAtFirstSep(mm, '-', d);
    SplitWithoutSep(d, '-');
  }

  /** Removing a trailing punctuation mark from a token that has no other. */
  lemma DropTrailing(token: string, c: char)
    requires c !in token
    ensures RemoveAll(token + [c], c) == token
  {
    RemoveAllConcat(token, [c], c);
    RemoveAbsent(token, c);
  }

  /**
   * The usual display form `Mon. D, YYYY`: the dot and the comma are dropped, a
   * known month gives `YYYY-MM-D`, any other is reported without its dot.
   */
  lemma DottedDate(month: string, day: string, year: string)
    requires ' ' !in month && ' ' !in day && ' ' !in year
    requires '.' !in month && ',' !in day
    ensures HumanDateToRaw(month + ". " + day + ", " + year)
      == if month in MonthNumbers then Success(year + "-" + MonthNumbers[month] + "-" + day)
         else Failure(UnknownMonth(month))
  {
    assert month + ". " + day + ", " + year == (month + ['.']) + " " + (day + [',']) + " " + year;
    HumanDateFromTokens(month + ['.'], day + [','], year);
    DropTrailing(month, '.');
    DropTrailing(day, ',');
  }

  /** `"Dec. 31, 2023"` becomes `"2023-12-31"` (tests/test_digrin_interface.py:479). */
  lemma DecemberExample()
    ensures HumanDateToRaw("Dec. 31, 2023") == Success("2023-12-31")
  {
    DottedDate("Dec", "31", "2023");
    assert "Dec" + ". " + "31" + ", " + "2023" == "Dec. 31, 2023";
    assert MonthNumbers["Dec"] == "12";
    assert "2023" + "-" + "12" + "-" + "31" == "2023-12-31";
  }

  /** A one-digit day is copied as it is: `"Jan. 1, 2024"` becomes `"2024-01-1"`. */
  lemma OneDigitDayIsNotPadded()
    ensures HumanDateToRaw("Jan. 1, 2024") == Success("2024-01-1")
  {
    DottedDate("Jan", "1", "2024");
    assert "Jan" + ". " + "1" + ", " + "2024" == "Jan. 1, 2024";
    assert MonthNumbers["Jan"] == "01";
    assert "2024" + "-" + "01" + "-" + "1" == "2024-01-1";
  }

  /** `"Dec 31"` and `""` do not have three tokens (tests/test_digrin_interface.py:518,522). */
  lemma ShortDatesRejected()
    ensures HumanDateToRaw("Dec 31") == Failure(WrongTokenCount(2))
    ensures HumanDateToRaw("") == Failure(WrongTokenCount(1))
  {
    assert "Dec 31" == "Dec" + [' '] + "31";
    SplitAtFirstSep("Dec", ' ', "31");
    SplitWithoutSep("31", ' ');
  }

  /** A month outside the table is rejected: `"13. 31, 2023"` (tests/test_digrin_interface.py:520). */
  lemma NumericMonthRejected(entry: string)
    requires entry == "13. 31, 2023"
    ensures HumanDateToRaw(entry) == Failure(UnknownMonth("13"))
  {
    DottedDate("13", "31", "2023");
    assert "13" + ". " + "31" + ", " + "2023" == entry;
    assert "13" !in MonthNumbers;
  }

  /** `"Mar. 15, 2023"` is rejected: the table spells March out in full. */
  lemma AbbreviatedMarchRejected(entry: string)
    requires entry == "Mar. 15, 2023"
    ensures HumanDateToRaw(entry) == Failure(UnknownMonth("Mar"))
  {
    DottedDate("Mar", "15", "2023");
    assert "Mar" + ". " + "15" + ", " + "2023" == entry;
    MonthKeysAreMonthNames();
    assert "Mar" !in MonthNames;
  }
}
