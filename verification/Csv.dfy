/** The daily report as a CSV file, and a reader for CSV files as section 2 of RFC 4180 defines
    them, with TEXTDATA widened to every character but quote, comma, CR and LF. */
module Csv {
  import opened Tables
  import opened Money

  // ----- numbers

  function Digit(n: nat): char
    requires n < 10
  {
    "0123456789"[n]
  }

  function Decimal(n: nat): (s: string)
    ensures s != ""
  {
    if n < 10 then [Digit(n)] else Decimal(n / 10) + [Digit(n % 10)]
  }

  function TwoDigits(n: nat): string
    requires n < 100
  {
    (if n < 10 then "0" else "") + Decimal(n)
  }

  function Unsigned(v: nat): string
  {
    Decimal(v / 100) + "." + TwoDigits(v % 100)
  }

  function FormatCsvMoney(value: int): string
  {
    (if value < 0 then "-" else "") + Unsigned(Abs(value))
  }

  function FormatNullableCsvMoney(value: Option<int>): string
  {
    if value.None? then "" else FormatCsvMoney(value.value)
  }

  // ----- free text

  const CR := '\r'
  const LF := '\n'
  const QUOTE := '\"'
  const CRLF := "\r\n"

  predicate IsSpecial(c: char)
  {
    c == QUOTE || c == ',' || c == CR || c == LF
  }

  predicate HasSpecial(text: string)
  {
    exists i | 0 <= i < |text| :: IsSpecial(text[i])
  }

  /** Text a spreadsheet would take for a formula. */
  predicate LedByFormula(text: string)
  {
    text != "" && (text[0] == '=' || text[0] == '+' || text[0] == '-' || text[0] == '@'
                   || text[0] == '\t' || text[0] == CR)
  }

  function DoubleQuotes(text: string): string
  {
    if text == "" then ""
    else (if text[0] == QUOTE then [QUOTE, QUOTE] else [text[0]]) + DoubleQuotes(text[1..])
  }

  function Quoted(text: string): string
  {
    [QUOTE] + DoubleQuotes(text) + [QUOTE]
  }

  function FormatCsvText(value: Option<string>): string
  {
    if value.None? || value.value == "" then ""
    else
      var text := if LedByFormula(value.value) then "'" + value.value else value.value;
      if HasSpecial(text) || text != value.value then Quoted(text) else text
  }

  // ----- the file

  /** Dates as the report carries them, digits and hyphens. */
  type DateText = s: string | forall i | 0 <= i < |s| :: s[i] == '-' || '0' <= s[i] <= '9'

  datatype ReportDay = ReportDay(
    date: DateText, isOpen: bool, cash: Reconciliation, varianceReason: Option<string>)

  function Join(parts: seq<string>, separator: string): string
  {
    if parts == [] then ""
    else if |parts| == 1 then parts[0]
    else parts[0] + separator + Join(parts[1..], separator)
  }

  const HEADER: seq<string> := [
    "Date", "Status", "Cash sales", "Online sales", "Gross", "Tips", "Cash in", "Cash out",
    "Cash expenses", "Outstanding change", "Expected cash", "Actual cash", "Variance",
    "Variance reason"]

  /** The figures of a day in the order of the file; the last two may be absent. */
  function FiguresOf(day: ReportDay): (figures: seq<Option<int>>)
    ensures |figures| == 11
  {
    var f := day.cash.figures;
    [ Some(f.cashSales), Some(f.onlineSales), Some(f.Gross()), Some(f.tips), Some(f.cashIn),
      Some(f.cashOut), Some(f.expenses), Some(f.outstandingChange), Some(day.cash.expected),
      day.cash.actual, day.cash.variance]
  }

  function MoneyCell(): Option<int> -> string
  {
    (value: Option<int>) => FormatNullableCsvMoney(value)
  }

  function StatusText(isOpen: bool): string
  {
    if isOpen then "open" else "closed"
  }

  /** The fourteen fields of a line: date, status, eleven figures and the reason. */
  function Fields(day: ReportDay, reason: string): (fields: seq<string>)
    ensures |fields| == 14
    ensures fields[0] == day.date && fields[1] == StatusText(day.isOpen) && fields[13] == reason
    ensures forall i | 2 <= i < 13 :: fields[i] == FormatNullableCsvMoney(FiguresOf(day)[i - 2])
  {
    [day.date, StatusText(day.isOpen)] + Map(MoneyCell(), FiguresOf(day)) + [reason]
  }

  function Cells(day: ReportDay): seq<string>
  {
    Fields(day, FormatCsvText(day.varianceReason))
  }

  function Reversed<T>(rows: seq<T>): (r: seq<T>)
    ensures |r| == |rows|
    ensures forall i | 0 <= i < |rows| :: r[i] == rows[|rows| - 1 - i]
  {
    if rows == [] then [] else Reversed(rows[1..]) + [rows[0]]
  }

  function CsvLine(): ReportDay -> string
  {
    (day: ReportDay) => Join(Cells(day), ",")
  }

  function ToCsv(days: seq<ReportDay>): string
  {
    Join([Join(HEADER, ",")] + Map(CsvLine(), Reversed(days)), CRLF) + CRLF
  }

  // ----- reading a file

  datatype Parsed<+T> = Parsed(value: T, rest: string)

  /** The inside of a quoted field, up to and with its closing quote. */
  function ParseQuoted(s: string): (r: Option<Parsed<string>>)
    ensures r.Some? ==> |r.value.rest| <= |s|
  {
    if s == "" then None
    else if s[0] == QUOTE then
      if |s| > 1 && s[1] == QUOTE then
        match ParseQuoted(s[2..])
        case Some(p) => Some(Parsed([QUOTE] + p.value, p.rest))
        case None => None
      else Some(Parsed("", s[1..]))
    else
      match ParseQuoted(s[1..])
      case Some(p) => Some(Parsed([s[0]] + p.value, p.rest))
      case None => None
  }

  function ParseBare(s: string): (p: Parsed<string>)
    ensures |p.rest| <= |s|
  {
    if s == "" || IsSpecial(s[0]) then Parsed("", s)
    else
      var p := ParseBare(s[1..]);
      Parsed([s[0]] + p.value, p.rest)
  }

  function ParseField(s: string): (r: Option<Parsed<string>>)
    ensures r.Some? ==> |r.value.rest| <= |s|
  {
    if s != "" && s[0] == QUOTE then ParseQuoted(s[1..]) else Some(ParseBare(s))
  }

  function ParseRecord(s: string): (r: Option<Parsed<seq<string>>>)
    ensures r.Some? ==> |r.value.rest| <= |s|
    decreases |s|
  {
    match ParseField(s)
    case None => None
    case Some(field) =>
      if field.rest != "" && field.rest[0] == ',' then
        match ParseRecord(field.rest[1..])
        case Some(more) => Some(Parsed([field.value] + more.value, more.rest))
        case None => None
      else Some(Parsed([field.value], field.rest))
  }

  /** Records separated by CRLF; the last one may or may not end with it. */
  function ParseFile(s: string): Option<seq<seq<string>>>
    decreases |s|
  {
    match ParseRecord(s)
    case None => None
    case Some(record) =>
      if record.rest == "" || record.rest == CRLF then Some([record.value])
      else if |record.rest| > 2 && record.rest[..2] == CRLF then
        match ParseFile(record.rest[2..])
        case Some(more) => Some([record.value] + more)
        case None => None
      else None
  }

  predicate AllDigits(s: string)
  {
    forall i | 0 <= i < |s| :: '0' <= s[i] <= '9'
  }

  function Value(digits: string): nat
    requires AllDigits(digits)
  {
    if digits == "" then 0
    else 10 * Value(digits[..|digits| - 1]) + (digits[|digits| - 1] as int - '0' as int)
  }

  /** An amount in pesos with two decimals, read back as centavos. */
  function ParseMoney(s: string): Option<int>
  {
    var negative := s != "" && s[0] == '-';
    var v := ParseUnsigned(if negative then s[1..] else s);
    if v.None? then None else Some(if negative then 0 - v.value else v.value)
  }

  function ParseUnsigned(s: string): Option<nat>
  {
    var n := |s|;
    if n < 4 || s[n - 3] != '.' || !AllDigits(s[..n - 3]) || !AllDigits(s[n - 2..]) then None
    else Some(100 * Value(s[..n - 3]) + Value(s[n - 2..]))
  }
}
