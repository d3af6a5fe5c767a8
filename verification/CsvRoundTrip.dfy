/** A standard reader gets back from the CSV file exactly what the report held. */
module CsvRoundTrip {
  import opened Tables
  import opened Money
  import opened Csv

  // ----- numbers

  lemma {:induction false} DecimalReads(n: nat)
    ensures AllDigits(Decimal(n)) && Value(Decimal(n)) == n
    ensures n >= 10 ==> |Decimal(n)| >= 2
    ensures 10 <= n < 100 ==> |Decimal(n)| == 2
  {
    var s := Decimal(n);
    if n < 10 {
      assert s[..0] == "" && Value("") == 0;
    } else {
      DecimalReads(n / 10);
      assert s[..|s| - 1] == Decimal(n / 10) && s[|s| - 1] == Digit(n % 10);
    }
  }

  lemma TwoDigitsRead(n: nat)
    requires n < 100
    ensures |TwoDigits(n)| == 2 && AllDigits(TwoDigits(n)) && Value(TwoDigits(n)) == n
  {
    DecimalReads(n);
    if n < 10 {
      var s := TwoDigits(n);
      assert s == ['0', Digit(n)] && s[..1] == "0" && s[..1][..0] == "";
      assert Value("0") == 10 * Value("") + 0;
    }
  }

  lemma UnsignedRoundTrip(v: nat)
    ensures ParseUnsigned(Unsigned(v)) == Some(v)
    ensures Unsigned(v)[0] != '-'
  {
    DecimalReads(v / 100);
    TwoDigitsRead(v % 100);
    PointBetween(Decimal(v / 100), TwoDigits(v % 100));
  }

  lemma PointBetween(pesos: string, centavos: string)
    requires pesos != "" && |centavos| == 2
    ensures var s := pesos + "." + centavos;
      && |s| >= 4 && s[..|s| - 3] == pesos && s[|s| - 2..] == centavos && s[|s| - 3] == '.' && s[0] == pesos[0]
  {
  }

  /** An amount printed into the file reads back as the same amount, whatever its sign and size. */
  lemma MoneyRoundTrip(value: int)
    ensures ParseMoney(FormatCsvMoney(value)) == Some(value)
  {
    var unsigned := Unsigned(Abs(value));
    UnsignedRoundTrip(Abs(value));
    if value < 0 {
      assert ("-" + unsigned)[1..] == unsigned;
    } else {
      assert "" + unsigned == unsigned;
    }
  }

  lemma MoneyHasNoSpecial(value: int)
    ensures !HasSpecial(FormatCsvMoney(value)) && FormatCsvMoney(value) != ""
  {
    var v := Abs(value);
    DecimalReads(v / 100);
    TwoDigitsRead(v % 100);
    var s := FormatCsvMoney(value);
    forall i | 0 <= i < |s|
      ensures !IsSpecial(s[i])
    {
      assert s[i] == '-' || s[i] == '.' || '0' <= s[i] <= '9';
    }
  }

  // ----- one field

  /** What may follow a field. */
  predicate Ends(rest: string)
  {
    rest == "" || rest[0] == ',' || rest[0] == CR
  }

  /** Wherever the printed cell stands in a file, a reader takes it for this field. */
  ghost predicate Encodes(cell: string, field: string)
  {
    forall rest | Ends(rest) :: ParseField(cell + rest) == Some(Parsed(field, rest))
  }

  lemma {:induction false} BareReads(text: string, rest: string)
    requires !HasSpecial(text) && Ends(rest)
    ensures ParseBare(text + rest) == Parsed(text, rest)
  {
    if text == "" {
      assert text + rest == rest;
    } else {
      assert !HasSpecial(text[1..]) by {
        forall i | 0 <= i < |text[1..]|
          ensures !IsSpecial(text[1..][i])
        {
          assert !IsSpecial(text[i + 1]);
        }
      }
      assert (text + rest)[1..] == text[1..] + rest;
      assert !IsSpecial(text[0]);
      BareReads(text[1..], rest);
      assert text == [text[0]] + text[1..];
    }
  }

  lemma BareEncodes(text: string)
    requires !HasSpecial(text)
    ensures Encodes(text, text)
  {
    forall rest | Ends(rest)
      ensures ParseField(text + rest) == Some(Parsed(text, rest))
    {
      BareReads(text, rest);
      if text != "" {
        assert !IsSpecial(text[0]) && (text + rest)[0] == text[0];
      } else {
        assert text + rest == rest;
      }
    }
  }

  lemma {:induction false} QuotedReads(text: string, rest: string)
    requires Ends(rest)
    ensures ParseQuoted(DoubleQuotes(text) + ([QUOTE] + rest)) == Some(Parsed(text, rest))
  {
    var tail := [QUOTE] + rest;
    if text == "" {
      assert DoubleQuotes(text) + tail == tail && tail[1..] == rest;
    } else {
      QuotedReads(text[1..], rest);
      var more := DoubleQuotes(text[1..]) + tail;
      assert text == [text[0]] + text[1..];
      OneCharMore(text[0], more, text[1..], rest);
      assert DoubleQuotes(text) + tail == (if text[0] == QUOTE then [QUOTE, QUOTE] else [text[0]]) + more;
    }
  }

  lemma OneCharMore(c: char, more: string, text: string, rest: string)
    requires ParseQuoted(more) == Some(Parsed(text, rest))
    ensures ParseQuoted((if c == QUOTE then [QUOTE, QUOTE] else [c]) + more) == Some(Parsed([c] + text, rest))
  {
    if c == QUOTE {
      var s := [QUOTE, QUOTE] + more;
      assert s[2..] == more;
    } else {
      var s := [c] + more;
      assert s[1..] == more;
    }
  }

  lemma QuotedEncodes(text: string)
    ensures Encodes(Quoted(text), text)
  {
    forall rest | Ends(rest)
      ensures ParseField(Quoted(text) + rest) == Some(Parsed(text, rest))
    {
      QuotedReads(text, rest);
      var s := Quoted(text) + rest;
      assert s[0] == QUOTE && s[1..] == DoubleQuotes(text) + ([QUOTE] + rest);
    }
  }

  /** The field a reader sees: the text, behind an apostrophe when it would start a formula. */
  function Shown(value: Option<string>): string
  {
    if value.None? then "" else if LedByFormula(value.value) then "'" + value.value else value.value
  }

  lemma TextEncodes(value: Option<string>)
    ensures Encodes(FormatCsvText(value), Shown(value))
  {
    if value.None? || value.value == "" {
      BareEncodes("");
    } else {
      var text := Shown(value);
      if HasSpecial(text) || text != value.value {
        QuotedEncodes(text);
      } else {
        BareEncodes(text);
      }
    }
  }

  /** A reader recovers the written reason from the field up to the guarding apostrophe. */
  lemma ReasonIsKept(value: string)
    ensures Encodes(FormatCsvText(Some(value)), if LedByFormula(value) then "'" + value else value)
    ensures !LedByFormula(Shown(Some(value)))
  {
    TextEncodes(Some(value));
  }

  /** What a reader is shown never begins like a formula, and a reason that does not is shown as it is;
      one that does follows an apostrophe. */
  lemma FormulasAreDefused(value: string)
    ensures var formula := {'=', '+', '-', '@', '\t', '\r'};
      var shown := Shown(Some(value));
      && (value == "" || value[0] !in formula ==> shown == value)
      && (value != "" && value[0] in formula ==> shown == ['\''] + value)
      && (shown == "" || shown[0] !in formula)
  {
  }

  // ----- when two reasons print alike

  /** `b` is `a` with the guarding apostrophe, and is quoted for a reason of its own. */
  predicate Masks(a: string, b: string)
  {
    LedByFormula(a) && b == "'" + a && HasSpecial(b)
  }

  lemma EncodesIsAFunction(cell: string, f: string, g: string)
    requires Encodes(cell, f) && Encodes(cell, g)
    ensures f == g
  {
    assert ParseField(cell + "") == Some(Parsed(f, ""));
    assert ParseField(cell + "") == Some(Parsed(g, ""));
  }

  predicate IsQuoted(value: string)
  {
    HasSpecial(Shown(Some(value))) || LedByFormula(value)
  }

  lemma PrintedForm(value: string)
    requires value != ""
    ensures FormatCsvText(Some(value)) == if IsQuoted(value) then Quoted(Shown(Some(value))) else value
    ensures IsQuoted(value) <==> FormatCsvText(Some(value))[0] == QUOTE
  {
    if !IsQuoted(value) {
      assert !IsSpecial(value[0]);
    }
  }

  /** Different reasons give one cell only when one is empty text against absent text, or when one
      is the other with the apostrophe the printer itself would have added. */
  lemma SameCellIff(a: Option<string>, b: Option<string>)
    ensures FormatCsvText(a) == FormatCsvText(b) <==>
      || a == b
      || (a in {None, Some("")} && b in {None, Some("")})
      || (a.Some? && b.Some? && (Masks(a.value, b.value) || Masks(b.value, a.value)))
  {
    if a.Some? && a.value != "" && b.Some? && b.value != "" {
      PrintedForm(a.value);
      PrintedForm(b.value);
      if FormatCsvText(a) == FormatCsvText(b) {
        TextEncodes(a);
        TextEncodes(b);
        EncodesIsAFunction(FormatCsvText(a), Shown(a), Shown(b));
        assert IsQuoted(a.value) == IsQuoted(b.value);
        if LedByFormula(a.value) && LedByFormula(b.value) {
          assert a.value == Shown(a)[1..] && b.value == Shown(b)[1..];
        }
      }
    } else if a.Some? && a.value != "" {
      PrintedForm(a.value);
    } else if b.Some? && b.value != "" {
      PrintedForm(b.value);
    }
  }

  /** A reason that would start a formula, and the same with an apostrophe, print as one cell. */
  lemma ReasonsCanCollide()
    ensures FormatCsvText(Some("=1,2")) == FormatCsvText(Some("'=1,2"))
  {
    var a, b := "=1,2", "'=1,2";
    assert b == "'" + a && b[3] == ',';
    assert Masks(a, b);
    SameCellIff(Some(a), Some(b));
  }

  // ----- one record

  ghost predicate AllEncode(cells: seq<string>, fields: seq<string>)
  {
    |cells| == |fields| && forall i | 0 <= i < |cells| :: Encodes(cells[i], fields[i])
  }

  predicate EndsRecord(rest: string)
  {
    rest == "" || rest[0] == CR
  }

  lemma JoinedApart(parts: seq<string>, separator: string, rest: string)
    requires |parts| > 1
    ensures Join(parts, separator) + rest == parts[0] + (separator + (Join(parts[1..], separator) + rest))
  {
  }

  lemma Prefixed(front: string, rest: string)
    ensures (front + rest)[..|front|] == front && (front + rest)[|front|..] == rest
    ensures front != "" ==> (front + rest)[0] == front[0]
  {
  }

  lemma RestEncodes(cells: seq<string>, fields: seq<string>)
    requires cells != [] && AllEncode(cells, fields)
    ensures AllEncode(cells[1..], fields[1..]) && Encodes(cells[0], fields[0])
    ensures fields == [fields[0]] + fields[1..]
  {
    forall i | 0 <= i < |cells[1..]|
      ensures Encodes(cells[1..][i], fields[1..][i])
    {
      assert Encodes(cells[i + 1], fields[i + 1]);
    }
  }

  lemma {:induction false} RecordReads(cells: seq<string>, fields: seq<string>, rest: string)
    requires cells != [] && AllEncode(cells, fields) && EndsRecord(rest)
    ensures ParseRecord(Join(cells, ",") + rest) == Some(Parsed(fields, rest))
    decreases |cells|
  {
    RestEncodes(cells, fields);
    if |cells| > 1 {
      var tail := Join(cells[1..], ",") + rest;
      JoinedApart(cells, ",", rest);
      Prefixed(",", tail);
      RecordReads(cells[1..], fields[1..], rest);
      MoreFields(cells[0], fields[0], tail, fields[1..], rest);
    } else {
      assert fields == [fields[0]] && ParseField(cells[0] + rest) == Some(Parsed(fields[0], rest));
    }
  }

  lemma MoreFields(cell: string, field: string, tail: string, more: seq<string>, rest: string)
    requires Encodes(cell, field) && ParseRecord(tail) == Some(Parsed(more, rest))
    ensures ParseRecord(cell + ("," + tail)) == Some(Parsed([field] + more, rest))
  {
    Prefixed(",", tail);
    assert Ends("," + tail);
  }

  // ----- the whole file

  ghost predicate LineEncodes(line: string, fields: seq<string>)
  {
    forall rest | EndsRecord(rest) :: ParseRecord(line + rest) == Some(Parsed(fields, rest))
  }

  ghost predicate AllLinesEncode(lines: seq<string>, records: seq<seq<string>>)
  {
    |lines| == |records| && forall i | 0 <= i < |lines| :: LineEncodes(lines[i], records[i]) && lines[i] != ""
  }

  lemma MoreLines(line: string, record: seq<string>, tail: string, more: seq<seq<string>>)
    requires LineEncodes(line, record) && tail != "" && ParseFile(tail) == Some(more)
    ensures ParseFile(line + (CRLF + tail)) == Some([record] + more)
  {
    Prefixed(CRLF, tail);
    assert EndsRecord(CRLF + tail);
  }

  lemma LastLine(line: string, record: seq<string>)
    requires LineEncodes(line, record)
    ensures ParseFile(line + CRLF) == Some([record])
  {
    assert EndsRecord(CRLF);
  }

  lemma LaterLinesEncode(lines: seq<string>, records: seq<seq<string>>)
    requires lines != [] && AllLinesEncode(lines, records)
    ensures AllLinesEncode(lines[1..], records[1..]) && records == [records[0]] + records[1..]
  {
    forall i | 0 <= i < |lines[1..]|
      ensures LineEncodes(lines[1..][i], records[1..][i]) && lines[1..][i] != ""
    {
      assert LineEncodes(lines[i + 1], records[i + 1]);
    }
  }

  lemma {:induction false} FileReads(lines: seq<string>, records: seq<seq<string>>)
    requires lines != [] && AllLinesEncode(lines, records)
    ensures ParseFile(Join(lines, CRLF) + CRLF) == Some(records)
    decreases |lines|
  {
    assert LineEncodes(lines[0], records[0]);
    if |lines| == 1 {
      LastLine(lines[0], records[0]);
      assert records == [records[0]];
    } else {
      LaterLinesEncode(lines, records);
      FileReads(lines[1..], records[1..]);
      JoinedApart(lines, CRLF, CRLF);
      MoreLines(lines[0], records[0], Join(lines[1..], CRLF) + CRLF, records[1..]);
    }
  }

  /** The record a reader gets for a day. */
  function Record(day: ReportDay): seq<string>
  {
    Fields(day, Shown(day.varianceReason))
  }

  function RecordOf(): ReportDay -> seq<string>
  {
    (day: ReportDay) => Record(day)
  }

  lemma NullableMoneyEncodes(value: Option<int>)
    ensures Encodes(FormatNullableCsvMoney(value), FormatNullableCsvMoney(value))
  {
    if value.Some? {
      MoneyHasNoSpecial(value.value);
    }
    BareEncodes(FormatNullableCsvMoney(value));
  }

  lemma CellEncodes(day: ReportDay, i: nat)
    requires i < 14
    ensures Encodes(Cells(day)[i], Record(day)[i])
  {
    if i == 13 {
      TextEncodes(day.varianceReason);
    } else if i >= 2 {
      NullableMoneyEncodes(FiguresOf(day)[i - 2]);
    } else if i == 1 {
      BareEncodes(StatusText(day.isOpen));
    } else {
      BareEncodes(day.date);
    }
  }

  lemma DayEncodes(day: ReportDay)
    ensures LineEncodes(CsvLine()(day), Record(day))
    ensures CsvLine()(day) != ""
  {
    var cells, fields := Cells(day), Record(day);
    forall i | 0 <= i < 14
      ensures Encodes(cells[i], fields[i])
    {
      CellEncodes(day, i);
    }
    forall rest | EndsRecord(rest)
      ensures ParseRecord(CsvLine()(day) + rest) == Some(Parsed(fields, rest))
    {
      RecordReads(cells, fields, rest);
    }
    assert Join(cells, ",") == cells[0] + "," + Join(cells[1..], ",");
  }

  lemma HeadingsEncode()
    ensures AllEncode(HEADER, HEADER)
  {
    forall i | 0 <= i < |HEADER|
      ensures Encodes(HEADER[i], HEADER[i])
    {
      HeadingIsPlain(i);
      BareEncodes(HEADER[i]);
    }
  }

  lemma HeadingIsPlain(i: nat)
    requires i < |HEADER|
    ensures !HasSpecial(HEADER[i])
  {
    if i < 5 {
      EarlyHeadingIsPlain(i);
    } else if i < 10 {
      MiddleHeadingIsPlain(i);
    } else {
      LateHeadingIsPlain(i);
    }
  }

  lemma EarlyHeadingIsPlain(i: nat)
    requires i < 5
    ensures !HasSpecial(HEADER[i])
  {
  }

  lemma MiddleHeadingIsPlain(i: nat)
    requires 5 <= i < 10
    ensures !HasSpecial(HEADER[i])
  {
  }

  lemma LateHeadingIsPlain(i: nat)
    requires 10 <= i < |HEADER|
    ensures !HasSpecial(HEADER[i])
  {
  }

  lemma LineOfCells(cells: seq<string>, fields: seq<string>)
    requires cells != [] && AllEncode(cells, fields)
    ensures LineEncodes(Join(cells, ","), fields)
  {
    forall rest | EndsRecord(rest)
      ensures ParseRecord(Join(cells, ",") + rest) == Some(Parsed(fields, rest))
    {
      RecordReads(cells, fields, rest);
    }
  }

  lemma HeaderEncodes()
    ensures LineEncodes(Join(HEADER, ","), HEADER) && Join(HEADER, ",") != ""
  {
    HeadingsEncode();
    LineOfCells(HEADER, HEADER);
  }

  lemma DaysEncode(days: seq<ReportDay>)
    ensures AllLinesEncode(Map(CsvLine(), days), Map(RecordOf(), days))
  {
    forall i | 0 <= i < |days|
      ensures LineEncodes(CsvLine()(days[i]), RecordOf()(days[i])) && CsvLine()(days[i]) != ""
    {
      DayEncodes(days[i]);
    }
  }

  lemma OneLineMore(line: string, record: seq<string>, lines: seq<string>, records: seq<seq<string>>)
    requires LineEncodes(line, record) && line != "" && AllLinesEncode(lines, records)
    ensures AllLinesEncode([line] + lines, [record] + records)
  {
  }

  /** A reader gets the header and one record of fourteen fields per day, the last day first. */
  lemma CsvRoundTrip(days: seq<ReportDay>)
    ensures ParseFile(ToCsv(days)) == Some([HEADER] + Map(RecordOf(), Reversed(days)))
  {
    var lines, records := Map(CsvLine(), Reversed(days)), Map(RecordOf(), Reversed(days));
    HeaderEncodes();
    DaysEncode(Reversed(days));
    OneLineMore(Join(HEADER, ","), HEADER, lines, records);
    FileReads([Join(HEADER, ",")] + lines, [HEADER] + records);
  }

  predicate ReadsAs(field: string, value: Option<int>)
  {
    && (field == "" <==> value.None?)
    && (value.Some? ==> ParseMoney(field) == value)
  }

  lemma MoneyReads(value: Option<int>)
    ensures ReadsAs(FormatNullableCsvMoney(value), value)
  {
    if value.Some? {
      MoneyRoundTrip(value.value);
      MoneyHasNoSpecial(value.value);
    }
  }

  /** Every figure of a record reads back to the cents of the report; a field is empty exactly when
      its figure is absent. */
  lemma RecordIsTheDay(day: ReportDay)
    ensures var r := Record(day);
      && r[0] == day.date && r[1] == StatusText(day.isOpen)
      && (forall i | 0 <= i < 11 :: ReadsAs(r[2 + i], FiguresOf(day)[i]))
      && r[13] == Shown(day.varianceReason)
  {
    var r := Record(day);
    forall i | 0 <= i < 11
      ensures ReadsAs(r[2 + i], FiguresOf(day)[i])
    {
      MoneyReads(FiguresOf(day)[i]);
    }
  }

  // ----- every column under its heading

  datatype Column =
    | CashSales | OnlineSales | Gross | Tips | CashIn | CashOut | CashExpenses | OutstandingChange
    | ExpectedCash | ActualCash | Variance

  function Heading(c: Column): string
  {
    match c
    case CashSales => "Cash sales"
    case OnlineSales => "Online sales"
    case Gross => "Gross"
    case Tips => "Tips"
    case CashIn => "Cash in"
    case CashOut => "Cash out"
    case CashExpenses => "Cash expenses"
    case OutstandingChange => "Outstanding change"
    case ExpectedCash => "Expected cash"
    case ActualCash => "Actual cash"
    case Variance => "Variance"
  }

  /** The amount of a day that a heading names. */
  function Named(c: Column, cash: Reconciliation): Option<int>
  {
    match c
    case CashSales => Some(cash.figures.cashSales)
    case OnlineSales => Some(cash.figures.onlineSales)
    case Gross => Some(cash.figures.cashSales + cash.figures.onlineSales)
    case Tips => Some(cash.figures.tips)
    case CashIn => Some(cash.figures.cashIn)
    case CashOut => Some(cash.figures.cashOut)
    case CashExpenses => Some(cash.figures.expenses)
    case OutstandingChange => Some(cash.figures.outstandingChange)
    case ExpectedCash => Some(cash.expected)
    case ActualCash => cash.actual
    case Variance => cash.variance
  }

  function Place(c: Column): nat
  {
    match c
    case CashSales => 2
    case OnlineSales => 3
    case Gross => 4
    case Tips => 5
    case CashIn => 6
    case CashOut => 7
    case CashExpenses => 8
    case OutstandingChange => 9
    case ExpectedCash => 10
    case ActualCash => 11
    case Variance => 12
  }

  lemma HeadingAt(c: Column)
    ensures 2 <= Place(c) < 13 && HEADER[Place(c)] == Heading(c)
  {
  }

  lemma FigureAt(day: ReportDay, c: Column)
    ensures FiguresOf(day)[Place(c) - 2] == Named(c, day.cash)
  {
  }

  /** The column under a heading reads back to an amount, or is empty when there is none. */
  predicate Reads(header: seq<string>, record: seq<string>, heading: string, value: Option<int>)
  {
    exists i | 0 <= i < |header| == |record| && header[i] == heading :: ReadsAs(record[i], value)
  }

  predicate Says(header: seq<string>, record: seq<string>, heading: string, text: string)
  {
    exists i | 0 <= i < |header| == |record| && header[i] == heading :: record[i] == text
  }

  predicate TextsSaid(header: seq<string>, record: seq<string>, day: ReportDay)
  {
    && Says(header, record, "Date", day.date)
    && (day.isOpen ==> Says(header, record, "Status", "open"))
    && (!day.isOpen ==> Says(header, record, "Status", "closed"))
    && Says(header, record, "Variance reason", Shown(day.varianceReason))
  }

  lemma ColumnReads(day: ReportDay, c: Column)
    ensures Reads(HEADER, Record(day), Heading(c), Named(c, day.cash))
  {
    HeadingAt(c);
    FigureAt(day, c);
    MoneyReads(Named(c, day.cash));
    ReadsAt(HEADER, Record(day), Place(c), Heading(c), Named(c, day.cash));
  }

  lemma ReadsAt(header: seq<string>, record: seq<string>, i: nat, heading: string, value: Option<int>)
    requires i < |header| == |record| && header[i] == heading && ReadsAs(record[i], value)
    ensures Reads(header, record, heading, value)
  {
  }

  lemma SaysAt(header: seq<string>, record: seq<string>, i: nat, heading: string, text: string)
    requires i < |header| == |record| && header[i] == heading && record[i] == text
    ensures Says(header, record, heading, text)
  {
  }

  lemma TextColumns(day: ReportDay)
    ensures TextsSaid(HEADER, Record(day), day)
  {
    SaysAt(HEADER, Record(day), 0, "Date", day.date);
    SaysAt(HEADER, Record(day), 1, "Status", StatusText(day.isOpen));
    SaysAt(HEADER, Record(day), 13, "Variance reason", Shown(day.varianceReason));
  }

  /** A record shows, under each heading, what that heading names of a day. */
  ghost predicate Shows(header: seq<string>, record: seq<string>, day: ReportDay)
  {
    && (forall c: Column :: Reads(header, record, Heading(c), Named(c, day.cash)))
    && TextsSaid(header, record, day)
  }

  lemma RecordShows(day: ReportDay)
    ensures Shows(HEADER, Record(day), day)
  {
    forall c: Column
      ensures Reads(HEADER, Record(day), Heading(c), Named(c, day.cash))
    {
      ColumnReads(day, c);
    }
    TextColumns(day);
  }

  lemma FileRows(days: seq<ReportDay>, k: nat)
    requires k < |days|
    ensures var file := ParseFile(ToCsv(days));
      && file.Some? && |file.value| == |days| + 1
      && file.value[0] == HEADER && file.value[|days| - k] == Record(days[k])
  {
    CsvRoundTrip(days);
    assert Reversed(days)[|days| - 1 - k] == days[k];
  }

  /** A reader finds one record for each day, the last day first, and in it under each heading what
      that heading names. */
  lemma FileSaysTheDays(days: seq<ReportDay>, k: nat)
    requires k < |days|
    ensures var file := ParseFile(ToCsv(days));
      && file.Some? && |file.value| == |days| + 1
      && Shows(file.value[0], file.value[|days| - k], days[k])
  {
    FileRows(days, k);
    RecordShows(days[k]);
  }
}
