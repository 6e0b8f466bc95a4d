/** Date helpers (com.zidsoft.zdlib.util.ZDDateUtils): the display pattern
    formatDate picks from its flags, and the parsers of dates encoded as
    long numbers. SimpleDateFormat itself is a parameter: `format` renders a
    date with a pattern, `parse` reads one and yields None where SimpleDateFormat
    throws ParseException. */
module ZDDateUtils {
  import opened Lang

  const DATE_LONG_SIMPLEDATEFORMAT: string := "yyyyMMdd"
  const DATETIME_LONG_SIMPLEDATEFORMAT: string := "yyyyMMddHHmmss"

  /** The formatDate flags, a Java int bit set. */
  const DATE: bv32 := 0x0001
  const DATETIME: bv32 := 0x0002
  const TIME: bv32 := 0x0004
  const NULL_REPLACEMENT: bv32 := 0x0008
  const SPARSE_YEAR: bv32 := 0x0010

  /** The FULL_YEAR flag is commented out and formatDate fixes fullYear to true. */
  const FULL_YEAR: bool := true

  /** What formatDate shows for a null date with NULL_REPLACEMENT. */
  const NULL_DATE_TEXT: string := "--/--/----"

  /** A java.util.Date: its calendar year (what getYear() reports, less 1900)
      and its instant in milliseconds. */
  datatype Date = Date(year: int, millis: int)

  /** SPARSE_YEAR drops the year of a date in the current year. */
  predicate OmitYear(date: Date, flags: bv32, currentYear: int)
  {
    flags & SPARSE_YEAR != 0 && date.year == currentYear
  }

  /** The SimpleDateFormat pattern formatDate picks: DATE wins over DATETIME,
      DATETIME over TIME, and with none of them it is a full date and time. */
  function FormatPattern(flags: bv32, omitYear: bool): (r: string)
    ensures flags & DATE != 0 ==> r == (if omitYear then "M/d" else "M/d/yyyy")
    ensures flags & DATE == 0 && flags & DATETIME != 0 ==>
      r == (if omitYear then "M/d h:mm a" else "M/d/yyyy h:mm a")
    ensures flags & DATE == 0 && flags & DATETIME == 0 && flags & TIME != 0 ==> r == "h:mm a"
    ensures flags & (DATE | DATETIME | TIME) == 0 ==> r == "M/d/yyyy h:mm a"
  {
    if flags & DATE != 0 then
      (if omitYear then "M/d" else if FULL_YEAR then "M/d/yyyy" else "M/d/yy")
    else if flags & DATETIME != 0 then
      (if omitYear then "M/d h:mm a" else if FULL_YEAR then "M/d/yyyy h:mm a" else "M/d/yy h:mm a")
    else if flags & TIME != 0 then "h:mm a"
    else "M/d/yyyy h:mm a"
  }

  /** ZDDateUtils.formatDate: a null date is "" or, with NULL_REPLACEMENT,
      "--/--/----"; otherwise the date rendered with FormatPattern. The current
      year (from new Date()) is a parameter. */
  function FormatDate(date: Option<Date>, flags: bv32, currentYear: int,
                      format: (string, Date) -> string): (r: string)
    ensures date.None? ==> r == (if flags & NULL_REPLACEMENT == 0 then "" else NULL_DATE_TEXT)
    ensures date.Some? ==> r == format(FormatPattern(flags, OmitYear(date.value, flags, currentYear)), date.value)
  {
    if date.None? then
      (if flags & NULL_REPLACEMENT == 0 then "" else NULL_DATE_TEXT)
    else
      var omitYear := OmitYear(date.value, flags, currentYear);
      format(FormatPattern(flags, omitYear), date.value)
  }

  /** The two-digit year patterns are dead code: every pattern formatDate can
      pick is one of these five. */
  lemma PatternsPicked(flags: bv32, omitYear: bool)
    ensures FormatPattern(flags, omitYear) in
      {"M/d", "M/d/yyyy", "M/d h:mm a", "M/d/yyyy h:mm a", "h:mm a"}
    ensures FormatPattern(flags, omitYear) !in {"M/d/yy", "M/d/yy h:mm a"}
  {
    var p := FormatPattern(flags, omitYear);
    assert |p| != 13 && (|p| == 6 ==> p[0] == 'h');
    assert |"M/d/yy h:mm a"| == 13 && "M/d/yy"[0] == 'M';
  }

  /** The year is shown for a date or date-time pattern unless it is omitted,
      never for a time only, and always when no format flag is given: the
      fallback pattern ignores SPARSE_YEAR. */
  lemma YearShown(flags: bv32, omitYear: bool)
    ensures FormatPattern(flags, omitYear) in {"M/d/yyyy", "M/d/yyyy h:mm a"}
      <==> (!omitYear && (flags & DATE != 0 || flags & DATETIME != 0))
           || (flags & DATE == 0 && flags & DATETIME == 0 && flags & TIME == 0)
  {
  }

  /** NULL_REPLACEMENT only matters for a null date, and SPARSE_YEAR only
      through OmitYear. */
  lemma PatternIgnoresOtherFlags(flags: bv32, omitYear: bool)
    ensures FormatPattern(flags, omitYear)
         == FormatPattern(flags & (DATE | DATETIME | TIME), omitYear)
  {
  }

  /** A time-only pattern does not depend on the year at all. */
  lemma TimePatternIgnoresYear(flags: bv32)
    requires flags & (DATE | DATETIME) == 0
    ensures FormatPattern(flags, true) == FormatPattern(flags, false)
  {
  }

  /** The decimal digits of n, as String.valueOf(long) writes them. */
  function Digits(n: nat): (r: string)
    ensures |r| >= 1
    ensures forall i :: 0 <= i < |r| ==> '0' <= r[i] <= '9'
  {
    if n < 10 then [(n + '0' as int) as char]
    else Digits(n / 10) + [((n % 10) + '0' as int) as char]
  }

  /** String.valueOf(long). */
  function DecimalString(n: int): (r: string)
    ensures |r| >= 1
    ensures (r[0] == '-') <==> n < 0
  {
    if n < 0 then "-" + Digits(-n) else Digits(n)
  }

  /** The value of a string of decimal digits. */
  function DigitsValue(s: string): int
  {
    if |s| == 0 then 0 else DigitsValue(s[..|s| - 1]) * 10 + (s[|s| - 1] as int - '0' as int)
  }

  /** Reading the digits back gives the number: String.valueOf loses nothing. */
  lemma {:induction false} DigitsRoundTrip(n: nat)
    ensures DigitsValue(Digits(n)) == n
  {
    if n >= 10 {
      DigitsRoundTrip(n / 10);
      var s := Digits(n);
      assert s[..|s| - 1] == Digits(n / 10);
    }
  }

  /** The value of what String.valueOf(long) writes, minus sign included. */
  function DecimalValue(s: string): int
  {
    if |s| > 0 && s[0] == '-' then -DigitsValue(s[1..]) else DigitsValue(s)
  }

  /** Reading the decimal string back gives the number, so different numbers
      give different strings. */
  lemma DecimalRoundTrip(n: int)
    ensures DecimalValue(DecimalString(n)) == n
  {
    if n < 0 {
      assert DecimalString(n)[1..] == Digits(-n);
      DigitsRoundTrip(-n);
    } else {
      assert Digits(n)[0] != '-';
      DigitsRoundTrip(n);
    }
  }

  /** A SimpleDateFormat parse with the given pattern: None where it throws
      ParseException. */
  type Parser = (string, string) -> Option<Date>

  /** ZDDateUtils.getDateTimeFromLong(String): null passes through; otherwise
      the text parsed with yyyyMMddHHmmss, a parse error thrown. */
  function GetDateTimeFromLong(longDateTime: Option<string>, parse: Parser): (r: Result<Option<Date>>)
    ensures longDateTime.None? ==> r == Ok(None)
    ensures longDateTime.Some? ==> (r.Throws? <==> parse(DATETIME_LONG_SIMPLEDATEFORMAT, longDateTime.value).None?)
    ensures r.Throws? ==> r.thrown == ParseFailure
    ensures longDateTime.Some? && r.Ok? ==> r.value == parse(DATETIME_LONG_SIMPLEDATEFORMAT, longDateTime.value)
  {
    if longDateTime.None? then Ok(None)
    else
      var d := parse(DATETIME_LONG_SIMPLEDATEFORMAT, longDateTime.value);
      if d.None? then Throws(ParseFailure) else Ok(d)
  }

  /** ZDDateUtils.getDateFromLong(String): the same with yyyyMMdd. */
  function GetDateFromLong(longDate: Option<string>, parse: Parser): (r: Result<Option<Date>>)
    ensures longDate.None? ==> r == Ok(None)
    ensures longDate.Some? ==> (r.Throws? <==> parse(DATE_LONG_SIMPLEDATEFORMAT, longDate.value).None?)
    ensures r.Throws? ==> r.thrown == ParseFailure
    ensures longDate.Some? && r.Ok? ==> r.value == parse(DATE_LONG_SIMPLEDATEFORMAT, longDate.value)
  {
    if longDate.None? then Ok(None)
    else
      var d := parse(DATE_LONG_SIMPLEDATEFORMAT, longDate.value);
      if d.None? then Throws(ParseFailure) else Ok(d)
  }

  /** ZDDateUtils.getDateTimeFromLong(Long): null passes through; otherwise the
      number's decimal string goes to the String overload. */
  function GetDateTimeFromLongNumber(longDateTime: Option<int>, parse: Parser): (r: Result<Option<Date>>)
    ensures longDateTime.None? ==> r == Ok(None)
    ensures longDateTime.Some? ==>
      r == GetDateTimeFromLong(Some(DecimalString(longDateTime.value)), parse)
  {
    if longDateTime.None? then Ok(None)
    else GetDateTimeFromLong(Some(DecimalString(longDateTime.value)), parse)
  }

  /** ZDDateUtils.getDateFromLong(Long). */
  function GetDateFromLongNumber(longDate: Option<int>, parse: Parser): (r: Result<Option<Date>>)
    ensures longDate.None? ==> r == Ok(None)
    ensures longDate.Some? ==> r == GetDateFromLong(Some(DecimalString(longDate.value)), parse)
  {
    if longDate.None? then Ok(None)
    else GetDateFromLong(Some(DecimalString(longDate.value)), parse)
  }

  /** ZDDateUtils.getDateTimeFromLongSafe: the ParseException is logged and
      swallowed, so the result is null for a null input and for bad text. */
  function GetDateTimeFromLongSafe(longDateTime: Option<string>, parse: Parser): (r: Option<Date>)
    ensures r.None? <==> longDateTime.None? || GetDateTimeFromLong(longDateTime, parse).Throws?
    ensures r.Some? ==> GetDateTimeFromLong(longDateTime, parse) == Ok(r)
  {
    var res := GetDateTimeFromLong(longDateTime, parse);
    if res.Throws? then None else res.value
  }

  /** ZDDateUtils.getDateFromLongSafe. */
  function GetDateFromLongSafe(longDate: Option<string>, parse: Parser): (r: Option<Date>)
    ensures r.None? <==> longDate.None? || GetDateFromLong(longDate, parse).Throws?
    ensures r.Some? ==> GetDateFromLong(longDate, parse) == Ok(r)
  {
    var res := GetDateFromLong(longDate, parse);
    if res.Throws? then None else res.value
  }

  /** The safe variants never lose a successful parse: whenever the throwing
      one returns, the safe one returns the same date. */
  lemma SafeAgreesOnSuccess(text: Option<string>, parse: Parser)
    ensures GetDateTimeFromLong(text, parse).Ok? ==>
      GetDateTimeFromLongSafe(text, parse) == GetDateTimeFromLong(text, parse).value
    ensures GetDateFromLong(text, parse).Ok? ==>
      GetDateFromLongSafe(text, parse) == GetDateFromLong(text, parse).value
  {
  }

  /** The Long overloads equal the String overloads on the decimal text, so
      two different numbers are never read from the same text. */
  lemma NumberOverloadsReadDistinctTexts(m: int, n: int, parse: Parser)
    requires m != n
    ensures DecimalString(m) != DecimalString(n)
    ensures GetDateFromLongNumber(Some(m), parse) == GetDateFromLong(Some(DecimalString(m)), parse)
  {
    DecimalRoundTrip(m);
    DecimalRoundTrip(n);
  }
}
