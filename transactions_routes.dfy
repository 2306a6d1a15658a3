/** The transactions blueprint: date parsing, the route's copy of the
    transaction fingerprint, reading a bank statement upload into import
    dictionaries, applying and reverting one rule, and the category
    hierarchy of the summary. */
module TransactionsRoutes {
  import opened Wrappers
  import opened PyStr
  import opened PyNum
  import opened PyDate
  import opened Values
  import opened Models
  import opened Digest
  import opened RuleEngine
  import opened Middlewares
  import opened Store
  import opened Pipeline
  import opened TransactionService
  import opened HashBackfill
  import opened PreprocessCsv

  // ---------------------------------------------------------------------
  // parse_date

  /** `parse_date(date_str, format)`: the date part of `strptime`, or None
      for any failure, a None input included (its `TypeError` is caught). */
  function ParseDate(s: Option<string>, fmt: seq<Directive>): (r: Option<Date>)
    ensures s.None? ==> r.None?
    ensures r.Some? ==> ValidDate(r.value)
  {
    if s.None? then None
    else
      match Strptime(s.value, fmt)
      case Some(t) => Some(t.date)
      case None => None
  }

  /** The default format "%d.%m.%y" reads back what it writes, for the
      years a two-digit year stands for. */
  lemma {:induction false} ParseDateDefaultRoundTrip(d: Date)
    requires ValidDate(d) && 1969 <= d.year <= 2068
    ensures ParseDate(Some(DayMonthShortYearText(d)), DayMonthShortYearFormat) == Some(d)
  {
    ShortYearRoundTrip(d);
  }

  /** "%Y-%m-%d", the query-parameter format, reads back `isoformat()`. */
  lemma {:induction false} ParseDateIsoRoundTrip(d: Date)
    requires ValidDate(d)
    ensures ParseDate(Some(IsoFormat(d)), IsoDateFormat) == Some(d)
  {
    IsoDateRoundTrip(d);
  }

  // ---------------------------------------------------------------------
  // generate_transaction_hash

  /** The route's `generate_transaction_hash`, written out as in the route;
      it builds the same eight-field text as the backfill's and so gives the
      same digest. */
  function RouteTransactionHash(bookingDate: Value, valueDate: Value, amount: Value, payee: Value,
                                payer: Value, purpose: Value, transactionType: Value, iban: Value)
    : (r: Result<string, Fault>)
    ensures var f := HashFields(bookingDate, valueDate, amount, payee, payer, purpose, transactionType, iban);
      && (r.Ok? <==> HashInput(f).Ok?)
      && (r.Ok? ==> r.value == Md5(HashInput(f).value))
  {
    match IsoText(bookingDate)
    case Err(e) => Err(e)
    case Ok(b) =>
      match IsoText(valueDate)
      case Err(e) => Err(e)
      case Ok(v) =>
        var f := HashFields(bookingDate, valueDate, amount, payee, payer, purpose, transactionType, iban);
        JoinEight(Pieces(f, b, v));
        Ok(Md5(b + "|" + (v + "|" + (Text(amount) + "|" + (TextOrEmpty(payee) + "|" + (TextOrEmpty(payer) + "|"
           + (TextOrEmpty(purpose) + "|" + (TextOrEmpty(transactionType) + "|" + TextOrEmpty(iban)))))))))
  }

  /** Eight pieces joined by '|', written out. */
  lemma {:induction false} JoinEight(p: seq<string>)
    requires |p| == 8
    ensures JoinWith('|', p) == p[0] + "|" + (p[1] + "|" + (p[2] + "|" + (p[3] + "|" + (p[4] + "|"
      + (p[5] + "|" + (p[6] + "|" + p[7]))))))
  {
    assert p[1..][1..] == p[2..] && p[2..][1..] == p[3..] && p[3..][1..] == p[4..];
    assert p[4..][1..] == p[5..] && p[5..][1..] == p[6..] && p[6..][1..] == p[7..];
    assert JoinWith('|', p[6..]) == p[6] + "|" + p[7];
    assert JoinWith('|', p[5..]) == p[5] + "|" + JoinWith('|', p[6..]);
    assert JoinWith('|', p[4..]) == p[4] + "|" + JoinWith('|', p[5..]);
    assert JoinWith('|', p[3..]) == p[3] + "|" + JoinWith('|', p[4..]);
    assert JoinWith('|', p[2..]) == p[2] + "|" + JoinWith('|', p[3..]);
    assert JoinWith('|', p[1..]) == p[1] + "|" + JoinWith('|', p[2..]);
  }

  /** Called with a stored transaction's fields, the route's function agrees
      with the backfill's. */
  lemma {:induction false} RouteHashAgrees(t: BankTransaction)
    ensures RouteTransactionHash(t.bookingDate, t.valueDate, t.amount, t.payee, t.payer,
                                 t.purpose, t.transactionType, t.iban) == GenerateTransactionHash(t)
  {
  }

  // ---------------------------------------------------------------------
  // import_csv: the upload as lines

  /** The characters `str.splitlines` breaks at. */
  predicate IsLineBreak(c: char) {
    c == '\n' || c == '\r' || c == '\U{000b}' || c == '\U{000c}' || c == '\U{001c}' || c == '\U{001d}'
    || c == '\U{001e}' || c == '\U{0085}' || c == '\U{2028}' || c == '\U{2029}'
  }

  predicate NoLineBreak(s: string) {
    forall k :: 0 <= k < |s| ==> !IsLineBreak(s[k])
  }

  /** The first line break at or after `from`, or `|s|`. */
  function BreakFrom(s: string, from: nat): (k: nat)
    requires from <= |s|
    ensures from <= k <= |s|
    ensures k < |s| ==> IsLineBreak(s[k])
    ensures forall j :: from <= j < k ==> !IsLineBreak(s[j])
    decreases |s| - from
  {
    if from == |s| || IsLineBreak(s[from]) then from else BreakFrom(s, from + 1)
  }

  /** `str.splitlines()`: the lines without their ends; "\r\n" ends one
      line, and a final line end adds no empty line. */
  function SplitLines(s: string): (lines: seq<string>)
    ensures forall k :: 0 <= k < |lines| ==> NoLineBreak(lines[k])
    ensures s != [] ==> |lines| >= 1
    decreases |s|
  {
    if s == [] then []
    else
      var k := BreakFrom(s, 0);
      if k == |s| then [s]
      else
        var next := if s[k] == '\r' && k + 1 < |s| && s[k + 1] == '\n' then k + 2 else k + 1;
        [s[..k]] + SplitLines(s[next..])
  }

  /** A line and its "\n" come off the front as one line. */
  lemma {:induction false} SplitLinesAfter(a: string, b: string)
    requires NoLineBreak(a)
    ensures SplitLines(a + "\n" + b) == [a] + SplitLines(b)
  {
    var s := a + "\n" + b;
    assert forall j :: 0 <= j < |a| ==> s[j] == a[j];
    assert BreakFrom(s, 0) == |a| by {
      BreakAt(s, 0, |a|);
    }
    assert s[..|a|] == a;
    assert s[|a| + 1..] == b;
  }

  lemma {:induction false} BreakAt(s: string, from: nat, k: nat)
    requires from <= k < |s| && IsLineBreak(s[k])
    requires forall j :: from <= j < k ==> !IsLineBreak(s[j])
    ensures BreakFrom(s, from) == k
    decreases k - from
  {
    if from < k {
      BreakAt(s, from + 1, k);
    }
  }

  /** One line of the statement as `csv.reader` with delimiter ";" splits it
      (quoting is not modelled); an empty line is an empty row. */
  function CsvFields(line: string): seq<string> {
    if line == "" then [] else Split(line, ';')
  }

  /** `dict(zip(fieldnames, row))` with `restval` None for the missing
      fields: each header name maps to the field at its position, later
      positions winning for a repeated name. */
  function RowDict(header: seq<string>, fields: seq<string>): (d: map<string, Option<string>>)
    ensures d.Keys == set h | h in header
    decreases |header|
  {
    if header == [] then map[]
    else
      var n := |header| - 1;
      RowDict(header[..n], fields)[header[n] := if n < |fields| then Some(fields[n]) else None]
  }

  /** The field a header name maps to, for a name the header does not repeat
      later: the one at its position, or None past the end of the row. */
  lemma {:induction false} RowDictField(header: seq<string>, fields: seq<string>, i: nat)
    requires i < |header| && header[i] !in header[i + 1..]
    ensures header[i] in RowDict(header, fields)
    ensures RowDict(header, fields)[header[i]] == if i < |fields| then Some(fields[i]) else None
    decreases |header|
  {
    var n := |header| - 1;
    if i < n {
      assert header[n] == header[i + 1..][n - i - 1];
      assert header[..n][i + 1..] == header[i + 1..][..n - i - 1];
      RowDictField(header[..n], fields, i);
    }
  }

  /** The rows `csv.DictReader` yields for the lines after the header; empty
      lines are skipped. */
  function DataRows(header: seq<string>, lines: seq<string>): seq<map<string, Option<string>>>
    decreases |lines|
  {
    if lines == [] then []
    else
      var fields := CsvFields(lines[0]);
      (if fields == [] then [] else [RowDict(header, fields)]) + DataRows(header, lines[1..])
  }

  /** `csv.DictReader(lines, delimiter=";")`: the first line names the
      fields. */
  function DictReader(lines: seq<string>): seq<map<string, Option<string>>> {
    if lines == [] then [] else DataRows(CsvFields(lines[0]), lines[1..])
  }

  /** Why an upload is turned away with status 400; rows are numbered from
      1. */
  datatype ImportError =
    | NotCsv
    | TooFewLines
    | NoOwnIban
    | MissingAmountColumn(row: nat)
    | InvalidAmount(row: nat)
    | MissingDateColumn(row: nat)
    | RowFailed(row: nat)

  /** The statement's own IBAN and data lines: at least five lines, the
      trimmed second ";"-field of the first line, and everything from the
      fifth line on. */
  function ReadStatement(text: string): (r: Result<(string, seq<string>), ImportError>)
    ensures (|SplitLines(text)| < 5) <==> r == Err(TooFewLines)
    ensures r.Ok? <==> |SplitLines(text)| >= 5 && |Split(SplitLines(text)[0], ';')| >= 2
    ensures r == Err(NoOwnIban) <==> |SplitLines(text)| >= 5 && |Split(SplitLines(text)[0], ';')| < 2
    ensures r.Ok? ==>
      && |SplitLines(text)| >= 5 && |Split(SplitLines(text)[0], ';')| >= 2
      && r.value.0 == Strip(Split(SplitLines(text)[0], ';')[1])
      && r.value.1 == SplitLines(text)[4..]
  {
    var lines := SplitLines(text);
    if |lines| < 5 then Err(TooFewLines)
    else
      var first := Split(lines[0], ';');
      if |first| < 2 then Err(NoOwnIban)
      else Ok((Strip(first[1]), lines[4..]))
  }

  /** `row.get(key, "")` as a column value. */
  function RowValue(row: map<string, Option<string>>, key: string): Value {
    if key !in row then Str("")
    else if row[key].None? then NoneVal
    else Str(row[key].value)
  }

  /** `row["Betrag (€)"].replace(".", "").replace(",", ".").strip()` */
  function AmountText(betrag: string): (r: string)
    ensures '.' !in betrag ==> r == Strip(ReplaceChar(betrag, ',', "."))
    ensures ',' !in r
  {
    Strip(Middlewares.AmountText(betrag))
  }

  /** A German amount in the statement reads as its value: the separators
      dropped, the decimal comma a point, nothing left to strip. */
  lemma {:induction false} RouteGermanAmount(neg: bool, groups: seq<string>, cents: string)
    requires |groups| > 0 && |groups[0]| > 0 && |cents| > 0
    requires forall k :: 0 <= k < |groups| ==> AllDigits(groups[k])
    requires AllDigits(cents)
    ensures AllDigits(Concat(groups) + cents)
    ensures AmountText(GermanAmount(neg, groups, cents)) == (if neg then "-" else "") + Concat(groups) + "." + cents
    ensures ParseFloat(AmountText(GermanAmount(neg, groups, cents)))
         == Some(Normalize(Decimal(neg, DigitsValue(Concat(groups) + cents), |cents|)))
  {
    var x := GermanAmount(neg, groups, cents);
    RouteAmountStrips(x);
    GermanAmountText(neg, groups, cents);
  }

  lemma RouteAmountStrips(x: string)
    ensures AmountText(x) == Strip(Middlewares.AmountText(x))
  {
  }

  /** The attributes an import dictionary sets, in the order the route
      writes them: all but the id, the category, the fingerprint, the rule,
      the account and the transfer flag. */
  const ImportColumns: seq<Column> :=
    [BookingDateCol, ValueDateCol, StatusCol, PayerCol, PayeeCol, PurposeCol, TransactionTypeCol,
     IbanCol, CounterpartyIbanCol, AmountCol, CreditorIdCol, MandateReferenceCol, CustomerReferenceCol]

  /** What the import dictionary holds for an imported attribute: the
      statement's own IBAN, the parsed amount, or the text of the row's
      column (`row.get(column, "")`). */
  function ImportValue(row: map<string, Option<string>>, ownIban: string, amount: Decimal, c: Column): Value {
    match c
    case BookingDateCol => RowValue(row, "Buchungsdatum")
    case ValueDateCol => RowValue(row, "Wertstellung")
    case StatusCol => RowValue(row, "Status")
    case PayerCol => RowValue(row, "Zahlungspflichtige*r")
    case PayeeCol => RowValue(row, "Zahlungsempfänger*in")
    case PurposeCol => RowValue(row, "Verwendungszweck")
    case TransactionTypeCol => RowValue(row, "Umsatztyp")
    case IbanCol => Str(ownIban)
    case CounterpartyIbanCol => RowValue(row, "IBAN")
    case AmountCol => Float(amount)
    case CreditorIdCol => RowValue(row, "Gläubiger-ID")
    case MandateReferenceCol => RowValue(row, "Mandatsreferenz")
    case CustomerReferenceCol => RowValue(row, "Kundenreferenz")
    case _ => NoneVal
  }

  lemma {:induction false} ColumnNameInjective()
    ensures forall c, d :: ColumnName(c) == ColumnName(d) ==> c == d
  {
    forall c, d | ColumnName(c) == ColumnName(d)
      ensures c == d
    {
      ColumnOfName(c);
      ColumnOfName(d);
    }
  }

  /** A dictionary with one entry per column of `cols`, under its
      attribute name. */
  function AttributeDict(cols: seq<Column>, f: Column -> Value): (m: map<string, Value>)
    ensures forall c :: ColumnName(c) in m <==> c in cols
    ensures forall c :: c in cols ==> m[ColumnName(c)] == f(c)
  {
    if cols == [] then map[]
    else
      var n := |cols| - 1;
      var prior := AttributeDict(cols[..n], f);
      ColumnNameInjective();
      prior[ColumnName(cols[n]) := f(cols[n])]
  }

  /** `transaction_data`: the imported attributes under their names. */
  function ImportDict(row: map<string, Option<string>>, ownIban: string, amount: Decimal): (m: map<string, Value>)
    ensures forall c :: ColumnName(c) in m <==> c in ImportColumns
    ensures forall c :: c in ImportColumns ==> m[ColumnName(c)] == ImportValue(row, ownIban, amount, c)
  {
    AttributeDict(ImportColumns, c => ImportValue(row, ownIban, amount, c))
  }

  /** The transaction an import dictionary describes: the imported
      attributes as read, every other attribute None. */
  lemma {:induction false} ImportDictTransaction(row: map<string, Option<string>>, ownIban: string, amount: Decimal, c: Column)
    ensures Get(FromItems(ImportDict(row, ownIban, amount)), c) ==
      if c in ImportColumns then ImportValue(row, ownIban, amount, c) else NoneVal
  {
  }

  /** One row of the loop: the amount column must be there and hold a
      number; both date columns must be there (their parsed values are not
      used). A None amount fails in the row handler. */
  function RowToData(row: map<string, Option<string>>, ownIban: string, index: nat): (r: Result<map<string, Value>, ImportError>)
    ensures "Betrag (€)" !in row ==> r == Err(MissingAmountColumn(index))
    ensures "Betrag (€)" in row && row["Betrag (€)"].None? ==> r == Err(RowFailed(index))
    ensures "Betrag (€)" in row && row["Betrag (€)"].Some? ==>
      var amount := ParseFloat(AmountText(row["Betrag (€)"].value));
      && (amount.None? ==> r == Err(InvalidAmount(index)))
      && (amount.Some? && ("Buchungsdatum" !in row || "Wertstellung" !in row) ==> r == Err(MissingDateColumn(index)))
      && (amount.Some? && "Buchungsdatum" in row && "Wertstellung" in row ==> r == Ok(ImportDict(row, ownIban, amount.value)))
  {
    if "Betrag (€)" !in row then Err(MissingAmountColumn(index))
    else if row["Betrag (€)"].None? then Err(RowFailed(index))
    else
      var amount := ParseFloat(AmountText(row["Betrag (€)"].value));
      if amount.None? then Err(InvalidAmount(index))
      else if "Buchungsdatum" !in row || "Wertstellung" !in row then Err(MissingDateColumn(index))
      else
        var bookingParsed := ParseDate(row["Buchungsdatum"], DayMonthShortYearFormat);
        var valueParsed := ParseDate(row["Wertstellung"], DayMonthShortYearFormat);
        Ok(ImportDict(row, ownIban, amount.value))
  }

  /** Each item through `f`, numbered from 1, in order; the first error
      stops the run. */
  function CollectAll<T, U, E>(items: seq<T>, f: (T, nat) -> Result<U, E>): Result<seq<U>, E>
    decreases |items|
  {
    if items == [] then Ok([])
    else
      match CollectAll(items[..|items| - 1], f)
      case Err(e) => Err(e)
      case Ok(acc) =>
        match f(items[|items| - 1], |items|)
        case Err(e) => Err(e)
        case Ok(d) => Ok(acc + [d])
  }

  lemma {:induction false} CollectAllMeaning<T, U, E>(items: seq<T>, f: (T, nat) -> Result<U, E>)
    ensures CollectAll(items, f).Ok? <==> forall k :: 0 <= k < |items| ==> f(items[k], k + 1).Ok?
    ensures CollectAll(items, f).Ok? ==>
      && |CollectAll(items, f).value| == |items|
      && forall k :: 0 <= k < |items| ==> CollectAll(items, f).value[k] == f(items[k], k + 1).value
    decreases |items|
  {
    if items != [] {
      var n := |items| - 1;
      var init := items[..n];
      CollectAllMeaning(init, f);
      assert forall k :: 0 <= k < n ==> init[k] == items[k];
    }
  }

  /** An error in the items so far is the outcome of all of them. */
  lemma {:induction false} CollectErrorStays<T, U, E>(items: seq<T>, f: (T, nat) -> Result<U, E>, k: nat)
    requires k <= |items| && CollectAll(items[..k], f).Err?
    ensures CollectAll(items, f) == CollectAll(items[..k], f)
    decreases |items| - k
  {
    if k < |items| {
      assert items[..k + 1][..k] == items[..k];
      CollectErrorStays(items, f, k + 1);
    } else {
      assert items[..k] == items;
    }
  }

  /** The handling of one row, as the loop numbers it. */
  function RowStep(ownIban: string): (map<string, Option<string>>, nat) -> Result<map<string, Value>, ImportError> {
    (row: map<string, Option<string>>, index: nat) => RowToData(row, ownIban, index)
  }

  /** The row loop: the dictionaries in order, or the first row's error. */
  function RowsToData(rows: seq<map<string, Option<string>>>, ownIban: string): Result<seq<map<string, Value>>, ImportError> {
    CollectAll(rows, RowStep(ownIban))
  }

  /** One bad row aborts the whole import; otherwise there is one dictionary
      per row, each the row's own. */
  lemma {:induction false} RowsToDataMeaning(rows: seq<map<string, Option<string>>>, ownIban: string)
    ensures RowsToData(rows, ownIban).Ok? <==> forall k :: 0 <= k < |rows| ==> RowToData(rows[k], ownIban, k + 1).Ok?
    ensures RowsToData(rows, ownIban).Ok? ==>
      && |RowsToData(rows, ownIban).value| == |rows|
      && forall k :: 0 <= k < |rows| ==> RowsToData(rows, ownIban).value[k] == RowToData(rows[k], ownIban, k + 1).value
  {
    CollectAllMeaning(rows, RowStep(ownIban));
  }

  /** The loop of `import_csv` over the reader's rows, appending to
      `transaction_data_list` and returning at the first bad row. */
  method CollectRows(rows: seq<map<string, Option<string>>>, ownIban: string)
    returns (r: Result<seq<map<string, Value>>, ImportError>)
    ensures r == RowsToData(rows, ownIban)
  {
    var step := RowStep(ownIban);
    var transactionDataList: seq<map<string, Value>> := [];
    var rowIndex := 0;
    while rowIndex < |rows|
      invariant 0 <= rowIndex <= |rows|
      invariant CollectAll(rows[..rowIndex], step) == Ok(transactionDataList)
    {
      assert rows[..rowIndex + 1][..rowIndex] == rows[..rowIndex];
      var data := RowToData(rows[rowIndex], ownIban, rowIndex + 1);
      assert data == step(rows[rowIndex], rowIndex + 1);
      if data.Err? {
        CollectErrorStays(rows, step, rowIndex + 1);
        return Err(data.error);
      }
      transactionDataList := transactionDataList + [data.value];
      rowIndex := rowIndex + 1;
    }
    assert rows[..rowIndex] == rows;
    r := Ok(transactionDataList);
  }

  /** What `import_csv` produces before saving: the import dictionaries, or
      the reason for a 400. */
  function ParseUpload(filename: string, text: string): Result<seq<map<string, Value>>, ImportError> {
    if !EndsWith(filename, ".csv") then Err(NotCsv)
    else
      match ReadStatement(text)
      case Err(e) => Err(e)
      case Ok((own, dataLines)) => RowsToData(DictReader(dataLines), own)
  }

  /** `import_csv`: status 400 for a rejected upload, otherwise the
      dictionaries go through `import_and_save_transactions`; 201 when that
      succeeds, 500 (with a rollback) when it raises. */
  method ImportCsv(p: TransactionMiddlewarePipeline, proc: Processor, db: Database, filename: string, text: string,
                   failing: set<nat>, commitOk: bool)
    returns (status: nat)
    requires KeepsKind(proc) && db.Valid()
    modifies p, db
    ensures db.Valid()
    ensures ParseUpload(filename, text).Err? ==>
      status == 400 && p.middlewares == old(p.middlewares) && db.working == old(db.working) && db.committed == old(db.committed)
    ensures ParseUpload(filename, text).Ok? ==>
      var bulk := Bulk(proc, old(p.middlewares), Raws(ParseUpload(filename, text).value));
      && p.middlewares == bulk.0
      && (bulk.1.Err? ==> status == 500 && db.working == db.committed == old(db.committed))
      && (bulk.1.Ok? ==>
            (forall k :: 0 <= k < |bulk.1.value| ==> bulk.1.value[k].Raw?)
            && var st := SaveFold(old(db.working), Items(bulk.1.value), failing);
               && (status == 201 <==> commitOk && UniqueHashes(st.snap.transactions))
               && (status == 201 ==> db.committed == st.snap && db.working == st.snap)
               && (status != 201 ==> status == 500 && db.working == db.committed == old(db.committed)))
  {
    if !EndsWith(filename, ".csv") {
      return 400;
    }
    var statement := ReadStatement(text);
    if statement.Err? {
      return 400;
    }
    var (ownIban, dataLines) := statement.value;
    var collected := CollectRows(DictReader(dataLines), ownIban);
    assert collected == ParseUpload(filename, text);
    if collected.Err? {
      return 400;
    }
    var saved := ImportAndSave(p, proc, db, collected.value, failing, commitOk);
    if saved.Err? {
      db.Rollback();
      return 500;
    }
    status := 201;
  }

  /** The file `preprocess_csv` writes is read back by the importer: its own
      IBAN is the Trade Republic IBAN of the first metadata line, and the
      data starts with the processed file's first line. An empty processed
      file leaves too few lines. */
  lemma {:induction false} MetadataReadBack(trIban: string, written: seq<string>, body: seq<string>)
    requires NoLineBreak(trIban) && ';' !in trIban
    requires trIban == [] || (!IsSpace(trIban[0]) && !IsSpace(trIban[|trIban| - 1]))
    requires |written| == 4 + |body|
    requires written[0] == MetadataHeader(trIban) && written[1..4] == ["-\n", "-\n", "-\n"]
    requires written[4..] == body && Concat(body) != ""
    ensures ReadStatement(Concat(written)) == Ok((trIban, SplitLines(Concat(body))))
  {
    var first := "TagesgeldTR;" + trIban;
    MetadataLines(trIban, written, body);
    var lines := SplitLines(Concat(written));
    assert lines[0] == first && lines[4..] == SplitLines(Concat(body));
    FirstLineFields(trIban);
    var fields := Split(first, ';');
    assert |lines| >= 5 && |fields| >= 2;
    assert ReadStatement(Concat(written)) == Ok((Strip(fields[1]), lines[4..]));
  }

  /** The lines of the written file: the label line, three dashes, then the
      processed file's lines. */
  lemma {:induction false} MetadataLines(trIban: string, written: seq<string>, body: seq<string>)
    requires NoLineBreak(trIban)
    requires |written| == 4 + |body|
    requires written[0] == MetadataHeader(trIban) && written[1..4] == ["-\n", "-\n", "-\n"]
    requires written[4..] == body
    ensures var lines := SplitLines(Concat(written));
      |lines| == 4 + |SplitLines(Concat(body))| && lines[0] == "TagesgeldTR;" + trIban
      && lines[4..] == SplitLines(Concat(body))
  {
    var first := "TagesgeldTR;" + trIban;
    var rest := "-\n" + ("-\n" + ("-\n" + Concat(body)));
    MetadataText(trIban, written, body);
    assert Concat(written) == first + "\n" + rest;
    LabelNoLineBreak(trIban);
    DashLines(first, Concat(body));
  }

  /** The label line has no line break when the IBAN has none. */
  lemma {:induction false} LabelNoLineBreak(trIban: string)
    requires NoLineBreak(trIban)
    ensures NoLineBreak("TagesgeldTR;" + trIban)
  {
    var first := "TagesgeldTR;" + trIban;
    assert forall k :: 0 <= k < |trIban| ==> first[12 + k] == trIban[k];
  }

  lemma {:induction false} DashLines(first: string, rest: string)
    requires NoLineBreak(first)
    ensures var lines := SplitLines(first + "\n" + ("-\n" + ("-\n" + ("-\n" + rest))));
      |lines| == 4 + |SplitLines(rest)| && lines[0] == first && lines[4..] == SplitLines(rest)
  {
    var c3 := "-\n" + rest;
    var c2 := "-\n" + c3;
    var c1 := "-\n" + c2;
    DashLine(rest);
    DashLine(c3);
    DashLine(c2);
    SplitLinesAfter(first, c1);
    var t3 := ["-"] + SplitLines(rest);
    var t2 := ["-"] + t3;
    var t1 := ["-"] + t2;
    var t0 := [first] + t1;
    assert t0[1..] == t1 && t1[1..] == t2 && t2[1..] == t3 && t3[1..] == SplitLines(rest);
    assert t0[4..] == t0[1..][1..][1..][1..];
  }

  lemma {:induction false} DashLine(rest: string)
    ensures SplitLines("-\n" + rest) == ["-"] + SplitLines(rest)
  {
    assert "-\n" + rest == "-" + "\n" + rest;
    SplitLinesAfter("-", rest);
  }

  /** The metadata lines and the processed file, one text. */
  lemma {:induction false} MetadataText(trIban: string, written: seq<string>, body: seq<string>)
    requires |written| == 4 + |body|
    requires written[0] == MetadataHeader(trIban) && written[1..4] == ["-\n", "-\n", "-\n"]
    requires written[4..] == body
    ensures Concat(written) == MetadataHeader(trIban) + ("-\n" + ("-\n" + ("-\n" + Concat(body))))
  {
    var w1 := written[1..];
    var w2 := w1[1..];
    var w3 := w2[1..];
    assert w3[1..] == body;
    assert written[1..4][0] == written[1] && written[1..4][1] == written[2] && written[1..4][2] == written[3];
    assert w1[0] == "-\n" && w2[0] == "-\n" && w3[0] == "-\n";
    ConcatCons(written);
    ConcatCons(w1);
    ConcatCons(w2);
    ConcatCons(w3);
  }

  lemma {:induction false} FirstLineFields(trIban: string)
    requires ';' !in trIban
    requires trIban == [] || (!IsSpace(trIban[0]) && !IsSpace(trIban[|trIban| - 1]))
    ensures var fields := Split("TagesgeldTR;" + trIban, ';');
      |fields| >= 2 && Strip(fields[1]) == trIban
  {
    assert "TagesgeldTR;" + trIban == "TagesgeldTR" + [';'] + trIban;
    SplitAfter("TagesgeldTR", ';', trIban);
    assert Find(trIban, ';') == -1;
    StripNoSpaceAtEnds(trIban);
  }

  lemma {:induction false} ConcatCons(lines: seq<string>)
    requires lines != []
    ensures Concat(lines) == lines[0] + Concat(lines[1..])
  {
  }

  // ---------------------------------------------------------------------
  // apply_specific_rule_to_transactions

  /** One transaction after the rule's pass: a match takes the rule's
      category and id, whatever it had; anything else is left as it is. */
  function Categorized(t: BankTransaction, rule: Rule): (r: BankTransaction)
    ensures EvaluateRule(t, Live(rule)) ==> r.categoryId == Int(rule.categoryId) && r.ruleId == Int(rule.id)
    ensures EvaluateRule(t, Live(rule)) ==> r == t.(categoryId := r.categoryId, ruleId := r.ruleId)
    ensures !EvaluateRule(t, Live(rule)) ==> r == t
  {
    if EvaluateRule(t, Live(rule)) then t.(categoryId := Int(rule.categoryId), ruleId := Int(rule.id)) else t
  }

  /** The transactions after the rule's pass over all of them. */
  function ApplyRuleTo(ts: seq<BankTransaction>, rule: Rule): (r: seq<BankTransaction>)
    ensures |r| == |ts| && forall k :: 0 <= k < |ts| ==> r[k] == Categorized(ts[k], rule)
  {
    seq(|ts|, k requires 0 <= k < |ts| => Categorized(ts[k], rule))
  }

  /** How many of `xs` satisfy `p`. */
  function CountWhere<T>(xs: seq<T>, p: T -> bool): (n: nat)
    ensures n <= |xs|
    decreases |xs|
  {
    if xs == [] then 0
    else CountWhere(xs[..|xs| - 1], p) + (if p(xs[|xs| - 1]) then 1 else 0)
  }

  /** None satisfying means a count of 0, all satisfying a count of `|xs|`,
      and the other way round. */
  lemma {:induction false} CountWhereBounds<T>(xs: seq<T>, p: T -> bool)
    ensures CountWhere(xs, p) == 0 <==> forall k :: 0 <= k < |xs| ==> !p(xs[k])
    ensures CountWhere(xs, p) == |xs| <==> forall k :: 0 <= k < |xs| ==> p(xs[k])
    decreases |xs|
  {
    if xs != [] {
      var n := |xs| - 1;
      CountWhereBounds(xs[..n], p);
      assert forall k :: 0 <= k < n ==> xs[..n][k] == xs[k];
    }
  }

  /** Two sequences that agree position by position on their predicates
      have the same count. */
  lemma {:induction false} CountWhereAgree<T, U>(xs: seq<T>, p: T -> bool, ys: seq<U>, q: U -> bool)
    requires |xs| == |ys| && forall k :: 0 <= k < |xs| ==> p(xs[k]) == q(ys[k])
    ensures CountWhere(xs, p) == CountWhere(ys, q)
    decreases |xs|
  {
    if xs != [] {
      var n := |xs| - 1;
      assert forall k :: 0 <= k < n ==> xs[..n][k] == xs[k] && ys[..n][k] == ys[k];
      CountWhereAgree(xs[..n], p, ys[..n], q);
    }
  }

  /** Whether the rule matches a transaction. */
  function Matches(rule: Rule): BankTransaction -> bool {
    (t: BankTransaction) => EvaluateRule(t, Live(rule))
  }

  /** How many of the transactions the rule matches. */
  function MatchCount(ts: seq<BankTransaction>, rule: Rule): (n: nat)
    ensures n == 0 <==> forall k :: 0 <= k < |ts| ==> !EvaluateRule(ts[k], Live(rule))
    ensures n == |ts| <==> forall k :: 0 <= k < |ts| ==> EvaluateRule(ts[k], Live(rule))
  {
    CountWhereBounds(ts, Matches(rule));
    CountWhere(ts, Matches(rule))
  }

  /** Applying a rule a second time changes nothing: a transaction it
      matched already carries the rule's category and id, one it did not
      match is the same transaction again. */
  lemma {:induction false} ApplyRuleIdempotent(ts: seq<BankTransaction>, rule: Rule)
    ensures ApplyRuleTo(ApplyRuleTo(ts, rule), rule) == ApplyRuleTo(ts, rule)
  {
  }

  function Categorize(rule: Rule): BankTransaction -> BankTransaction {
    (t: BankTransaction) => Categorized(t, rule)
  }

  /** A pass over `ts` that has handled the first `i` items with `f` and not
      yet touched the rest. */
  ghost predicate PassedUpTo<T>(cur: seq<T>, ts: seq<T>, i: nat, f: T -> T) {
    && i <= |ts| && |cur| == |ts|
    && (forall k :: 0 <= k < i ==> cur[k] == f(ts[k]))
    && (forall k :: i <= k < |ts| ==> cur[k] == ts[k])
  }

  /** Counting one more item of a prefix. */
  lemma {:induction false} CountStep<T>(xs: seq<T>, i: nat, p: T -> bool)
    requires i < |xs|
    ensures CountWhere(xs[..i + 1], p) == CountWhere(xs[..i], p) + (if p(xs[i]) then 1 else 0)
  {
    assert xs[..i + 1][..i] == xs[..i];
  }

  /** The pass handles one more item. */
  lemma {:induction false} PassStep<T>(cur: seq<T>, ts: seq<T>, i: nat, f: T -> T)
    requires PassedUpTo(cur, ts, i, f) && i < |ts|
    ensures PassedUpTo(cur[i := f(ts[i])], ts, i + 1, f)
  {
  }

  /** The route's loop: every transaction in the session goes through the
      rule, and the count is the number of matches. */
  method CategorizeAll(db: Database, rule: Rule) returns (updatedCount: nat)
    modifies db
    ensures db.working == old(db.working).(transactions := ApplyRuleTo(old(db.working.transactions), rule))
    ensures db.committed == old(db.committed)
    ensures updatedCount == MatchCount(old(db.working.transactions), rule)
  {
    ghost var start := db.working;
    ghost var categorize := Categorize(rule);
    var transactions := db.working.transactions;
    updatedCount := 0;
    var i := 0;
    while i < |transactions|
      invariant 0 <= i <= |transactions|
      invariant db.working.rules == start.rules && db.working.nextId == start.nextId
      invariant PassedUpTo(db.working.transactions, transactions, i, categorize)
      invariant updatedCount == CountWhere(transactions[..i], Matches(rule))
      invariant db.committed == old(db.committed)
    {
      CountStep(transactions, i, Matches(rule));
      var transaction := transactions[i];
      ghost var before := db.working.transactions;
      if EvaluateRule(transaction, Live(rule)) {
        var changed := transaction.(categoryId := Int(rule.categoryId), ruleId := Int(rule.id));
        assert changed == categorize(transaction);
        db.working := db.working.(transactions := db.working.transactions[i := changed]);
        updatedCount := updatedCount + 1;
      } else {
        assert transaction == categorize(transaction);
        assert before[i := categorize(transaction)] == before;
      }
      PassStep(before, transactions, i, categorize);
      i := i + 1;
    }
    assert transactions[..i] == transactions;
    assert db.working.transactions == ApplyRuleTo(transactions, rule);
  }

  /** The route: a missing rule is an exception (500, rolled back); otherwise
      every transaction goes through the rule, and the changes are committed
      when at least one matched. A failing commit rolls back with 500. */
  method ApplySpecificRule(db: Database, ruleId: int, commitOk: bool) returns (status: nat, updatedCount: nat)
    requires db.Valid()
    modifies db
    ensures db.Valid()
    ensures IndexOfRule(old(db.working.rules), ruleId).None? ==>
      status == 500 && updatedCount == 0 && db.working == db.committed == old(db.committed)
    ensures IndexOfRule(old(db.working.rules), ruleId).Some? ==>
      var rule := old(db.working.rules)[IndexOfRule(old(db.working.rules), ruleId).value];
      var after := old(db.working).(transactions := ApplyRuleTo(old(db.working.transactions), rule));
      && updatedCount == MatchCount(old(db.working.transactions), rule)
      && (updatedCount == 0 ==> status == 200 && db.working == old(db.working) && db.committed == old(db.committed))
      && (updatedCount > 0 ==>
            && (status == 200 <==> commitOk && UniqueHashes(after.transactions))
            && (status == 200 ==> db.working == db.committed == after)
            && (status != 200 ==> status == 500 && db.working == db.committed == old(db.committed)))
  {
    var found := IndexOfRule(db.working.rules, ruleId);
    if found.None? {
      db.Rollback();
      return 500, 0;
    }
    var rule := db.working.rules[found.value];
    updatedCount := CategorizeAll(db, rule);
    if updatedCount > 0 {
      var ok := db.Commit(commitOk);
      if !ok {
        db.Rollback();
        return 500, updatedCount;
      }
    } else {
      assert ApplyRuleTo(old(db.working.transactions), rule) == old(db.working.transactions);
    }
    status := 200;
  }

  // ---------------------------------------------------------------------
  // revert_rule_application

  /** One transaction after the revert: one that carries the rule loses its
      category and rule; any other is left as it is. */
  function Reverted(t: BankTransaction, ruleId: int): (r: BankTransaction)
    ensures r.ruleId != Int(ruleId)
    ensures t.ruleId != Int(ruleId) ==> r == t
    ensures t.ruleId == Int(ruleId) ==> r == t.(categoryId := NoneVal, ruleId := NoneVal)
  {
    if t.ruleId == Int(ruleId) then t.(categoryId := NoneVal, ruleId := NoneVal) else t
  }

  function RevertIn(ts: seq<BankTransaction>, ruleId: int): (r: seq<BankTransaction>)
    ensures |r| == |ts| && forall k :: 0 <= k < |ts| ==> r[k] == Reverted(ts[k], ruleId)
  {
    seq(|ts|, k requires 0 <= k < |ts| => Reverted(ts[k], ruleId))
  }

  /** Whether a transaction carries the rule. */
  function Carries(ruleId: int): BankTransaction -> bool {
    (t: BankTransaction) => t.ruleId == Int(ruleId)
  }

  /** How many transactions carry the rule: `len(filter_by(rule_id=...))`. */
  function CarryCount(ts: seq<BankTransaction>, ruleId: int): (n: nat)
    ensures n == 0 <==> forall k :: 0 <= k < |ts| ==> ts[k].ruleId != Int(ruleId)
    ensures n == |ts| <==> forall k :: 0 <= k < |ts| ==> ts[k].ruleId == Int(ruleId)
  {
    CountWhereBounds(ts, Carries(ruleId));
    CountWhere(ts, Carries(ruleId))
  }

  /** After a revert no transaction carries the rule, and reverting again
      changes nothing. */
  lemma {:induction false} RevertClears(ts: seq<BankTransaction>, ruleId: int)
    ensures CarryCount(RevertIn(ts, ruleId), ruleId) == 0
    ensures RevertIn(RevertIn(ts, ruleId), ruleId) == RevertIn(ts, ruleId)
  {
  }

  /** Reverting a rule just applied clears every transaction it matched, and
      leaves each transaction it did not match as the pass found it, except
      that one already carrying the rule is cleared too. */
  lemma {:induction false} ApplyThenRevert(ts: seq<BankTransaction>, rule: Rule, k: nat)
    requires k < |ts|
    ensures var r := RevertIn(ApplyRuleTo(ts, rule), rule.id)[k];
      && (EvaluateRule(ts[k], Live(rule)) ==> r == ts[k].(categoryId := NoneVal, ruleId := NoneVal))
      && (!EvaluateRule(ts[k], Live(rule)) ==> r == Reverted(ts[k], rule.id))
  {
  }

  /** One step of the revert loop, as a function value. */
  function Clear(ruleId: int): BankTransaction -> BankTransaction {
    (t: BankTransaction) => Reverted(t, ruleId)
  }

  /** The revert loop: every transaction in the session that carries the rule
      is reset, and the count is their number. */
  method ClearRule(db: Database, ruleId: int) returns (affectedCount: nat)
    modifies db
    ensures db.working == old(db.working).(transactions := RevertIn(old(db.working.transactions), ruleId))
    ensures db.committed == old(db.committed)
    ensures affectedCount == CarryCount(old(db.working.transactions), ruleId)
  {
    ghost var start := db.working;
    ghost var clear := Clear(ruleId);
    var transactions := db.working.transactions;
    affectedCount := 0;
    var i := 0;
    while i < |transactions|
      invariant 0 <= i <= |transactions|
      invariant db.working.rules == start.rules && db.working.nextId == start.nextId
      invariant PassedUpTo(db.working.transactions, transactions, i, clear)
      invariant affectedCount == CountWhere(transactions[..i], Carries(ruleId))
      invariant db.committed == old(db.committed)
    {
      CountStep(transactions, i, Carries(ruleId));
      var transaction := transactions[i];
      ghost var before := db.working.transactions;
      if transaction.ruleId == Int(ruleId) {
        var cleared := transaction.(categoryId := NoneVal, ruleId := NoneVal);
        assert cleared == clear(transaction);
        db.working := db.working.(transactions := db.working.transactions[i := cleared]);
        affectedCount := affectedCount + 1;
      } else {
        assert transaction == clear(transaction);
        assert before[i := clear(transaction)] == before;
      }
      PassStep(before, transactions, i, clear);
      i := i + 1;
    }
    assert transactions[..i] == transactions;
    assert db.working.transactions == RevertIn(transactions, ruleId);
  }

  /** The route: every transaction carrying the rule is reset, the count is
      their number, and the changes are committed when there are any; a
      failing commit rolls back with 500. */
  method RevertRuleApplication(db: Database, ruleId: int, commitOk: bool) returns (status: nat, affectedCount: nat)
    requires db.Valid()
    modifies db
    ensures db.Valid()
    ensures var after := old(db.working).(transactions := RevertIn(old(db.working.transactions), ruleId));
      && affectedCount == CarryCount(old(db.working.transactions), ruleId)
      && (affectedCount == 0 ==> status == 200 && db.working == old(db.working) && db.committed == old(db.committed))
      && (affectedCount > 0 ==>
            && (status == 200 <==> commitOk && UniqueHashes(after.transactions))
            && (status == 200 ==> db.working == db.committed == after)
            && (status != 200 ==> status == 500 && db.working == db.committed == old(db.committed)))
  {
    affectedCount := ClearRule(db, ruleId);
    if affectedCount > 0 {
      var ok := db.Commit(commitOk);
      if !ok {
        db.Rollback();
        return 500, affectedCount;
      }
    } else {
      assert RevertIn(old(db.working.transactions), ruleId) == old(db.working.transactions);
    }
    status := 200;
  }

  // ---------------------------------------------------------------------
  // get_category_summary: the hierarchy

  /** One row of the category statistics query, as far as the hierarchy
      uses it. */
  datatype CategoryStat = CategoryStat(id: int, name: string, parentId: Option<int>)

  /** `categories_dict.get(id)` after the first `n` rows: the latest of them
      with that id. */
  function LatestWithId(stats: seq<CategoryStat>, n: nat, id: int): (r: Option<nat>)
    requires n <= |stats|
    ensures r.Some? ==> r.value < n
  {
    if n == 0 then None
    else if stats[n - 1].id == id then Some(n - 1)
    else LatestWithId(stats, n - 1, id)
  }

  lemma {:induction false} LatestWithIdMeaning(stats: seq<CategoryStat>, n: nat, id: int)
    requires n <= |stats|
    ensures var r := LatestWithId(stats, n, id);
      && (r.Some? ==> stats[r.value].id == id && forall j :: r.value < j < n ==> stats[j].id != id)
      && (r.None? ==> forall j :: 0 <= j < n ==> stats[j].id != id)
  {
    if n > 0 && stats[n - 1].id != id {
      LatestWithIdMeaning(stats, n - 1, id);
    }
  }

  /** Where row `k` is attached: under the latest row so far (itself
      included, since it is entered before the lookup) whose id is its
      parent; nowhere when it has no parent. */
  function AttachedTo(stats: seq<CategoryStat>, k: nat): (r: Option<nat>)
    requires k < |stats|
    ensures r.Some? ==> r.value <= k
  {
    if stats[k].parentId.None? then None else LatestWithId(stats, k + 1, stats[k].parentId.value)
  }

  /** A row is attached under a row whose id is its parent, at or before it;
      the latest such row, and nowhere when it has no parent or the parent
      has not appeared yet. */
  lemma {:induction false} AttachedToMeaning(stats: seq<CategoryStat>, k: nat)
    requires k < |stats|
    ensures var r := AttachedTo(stats, k);
      && (r.Some? ==> stats[k].parentId.Some? && r.value <= k && stats[r.value].id == stats[k].parentId.value
                      && forall j :: r.value < j <= k ==> stats[j].id != stats[k].parentId.value)
      && (stats[k].parentId.None? ==> r.None?)
      && (stats[k].parentId.Some? && (forall j :: 0 <= j <= k ==> stats[j].id != stats[k].parentId.value) ==> r.None?)
      && (stats[k].parentId.Some? && (exists j :: 0 <= j <= k && stats[j].id == stats[k].parentId.value) ==> r.Some?)
  {
    if stats[k].parentId.Some? {
      LatestWithIdMeaning(stats, k + 1, stats[k].parentId.value);
    }
  }

  /** The root rows among the first `n`, in order. */
  function RootsIn(stats: seq<CategoryStat>, n: nat): seq<nat>
    requires n <= |stats|
  {
    if n == 0 then []
    else RootsIn(stats, n - 1) + (if stats[n - 1].parentId.None? then [n - 1] else [])
  }

  /** One more row adds itself to the roots exactly when it has no parent. */
  lemma {:induction false} RootsSnoc(stats: seq<CategoryStat>, i: nat)
    requires i < |stats|
    ensures RootsIn(stats, i + 1) == if stats[i].parentId.None? then RootsIn(stats, i) + [i] else RootsIn(stats, i)
  {
    assert RootsIn(stats, i) + [] == RootsIn(stats, i);
  }

  /** The roots are exactly the rows without a parent, in their order. */
  lemma {:induction false} RootsMeaning(stats: seq<CategoryStat>, n: nat)
    requires n <= |stats|
    ensures var r := RootsIn(stats, n);
      && (forall k :: k in r <==> 0 <= k < n && stats[k].parentId.None?)
      && (forall i, j :: 0 <= i < j < |r| ==> r[i] < r[j])
  {
    if n > 0 {
      RootsMeaning(stats, n - 1);
      var prior := RootsIn(stats, n - 1);
      forall i | 0 <= i < |prior|
        ensures prior[i] < n - 1
      {
        assert prior[i] in prior;
      }
    }
  }

  /** The rows among the first `n` attached under row `p`, in order. */
  function ChildrenIn(stats: seq<CategoryStat>, n: nat, p: nat): seq<nat>
    requires n <= |stats|
  {
    if n == 0 then []
    else ChildrenIn(stats, n - 1, p) + (if AttachedTo(stats, n - 1) == Some(p) then [n - 1] else [])
  }

  /** The subcategories of `p` are exactly the rows attached under it, in
      their order; none comes before `p`. */
  lemma {:induction false} ChildrenMeaning(stats: seq<CategoryStat>, n: nat, p: nat)
    requires n <= |stats|
    ensures var r := ChildrenIn(stats, n, p);
      && (forall k :: k in r <==> 0 <= k < n && AttachedTo(stats, k) == Some(p))
      && (forall i, j :: 0 <= i < j < |r| ==> r[i] < r[j])
      && (forall k :: k in r ==> p <= k)
  {
    if n > 0 {
      ChildrenMeaning(stats, n - 1, p);
      var prior := ChildrenIn(stats, n - 1, p);
      forall i | 0 <= i < |prior|
        ensures prior[i] < n - 1
      {
        assert prior[i] in prior;
      }
      AttachedToMeaning(stats, n - 1);
    }
  }

  /** One more row: a fresh empty list for it, and the row appended to the
      list of the row it is attached under. */
  lemma {:induction false} ChildrenSnoc(stats: seq<CategoryStat>, i: nat, earlier: seq<seq<nat>>, later: seq<seq<nat>>)
    requires i < |stats| && |earlier| == i
    requires forall j :: 0 <= j < i ==> earlier[j] == ChildrenIn(stats, i, j)
    requires later == match AttachedTo(stats, i)
      case Some(p) => (earlier + [[]])[p := (earlier + [[]])[p] + [i]]
      case None => earlier + [[]]
    ensures |later| == i + 1
    ensures forall j :: 0 <= j < i + 1 ==> later[j] == ChildrenIn(stats, i + 1, j)
  {
    NoEarlierChildren(stats, i, i);
    var attach := AttachedTo(stats, i);
    var grown := earlier + [[]];
    forall j | 0 <= j < i + 1
      ensures later[j] == ChildrenIn(stats, i + 1, j)
    {
      assert grown[j] == ChildrenIn(stats, i, j);
      assert later[j] == grown[j] + (if attach == Some(j) then [i] else []);
    }
  }

  /** No row before `p` is attached under `p`. */
  lemma {:induction false} NoEarlierChildren(stats: seq<CategoryStat>, n: nat, p: nat)
    requires n <= p && n <= |stats|
    ensures ChildrenIn(stats, n, p) == []
  {
    if n > 0 {
      NoEarlierChildren(stats, n - 1, p);
    }
  }

  /** A row whose parent has not appeared by its turn is in no list at all:
      neither a root nor anybody's subcategory. */
  lemma {:induction false} DroppedChild(stats: seq<CategoryStat>, k: nat)
    requires k < |stats| && stats[k].parentId.Some?
    requires forall j :: 0 <= j <= k ==> stats[j].id != stats[k].parentId.value
    ensures k !in RootsIn(stats, |stats|)
    ensures forall p :: 0 <= p < |stats| ==> k !in ChildrenIn(stats, |stats|, p)
  {
    RootsMeaning(stats, |stats|);
    AttachedToMeaning(stats, k);
    forall p | 0 <= p < |stats|
      ensures k !in ChildrenIn(stats, |stats|, p)
    {
      ChildrenMeaning(stats, |stats|, p);
    }
  }

  /** Every row is in at most one list: a root is nobody's subcategory, and
      a subcategory is under one row only. */
  lemma {:induction false} OnePlace(stats: seq<CategoryStat>, k: nat, p: nat, q: nat)
    requires k < |stats| && p < |stats| && q < |stats|
    requires k in ChildrenIn(stats, |stats|, p)
    ensures k !in RootsIn(stats, |stats|)
    ensures k in ChildrenIn(stats, |stats|, q) ==> p == q
  {
    RootsMeaning(stats, |stats|);
    ChildrenMeaning(stats, |stats|, p);
    ChildrenMeaning(stats, |stats|, q);
    AttachedToMeaning(stats, k);
  }

  /** The loop of `get_category_summary`: rows are numbered by position;
      `roots` lists the root rows and `subcategories[j]` the rows attached
      under row `j`. Because a row's dictionary is shared, the tree the
      response shows is the one these lists spell out. */
  method BuildHierarchy(stats: seq<CategoryStat>) returns (roots: seq<nat>, subcategories: seq<seq<nat>>)
    ensures roots == RootsIn(stats, |stats|)
    ensures |subcategories| == |stats|
    ensures forall j :: 0 <= j < |stats| ==> subcategories[j] == ChildrenIn(stats, |stats|, j)
  {
    var categoriesDict: map<int, nat> := map[];
    roots := [];
    subcategories := [];
    var i := 0;
    while i < |stats|
      invariant 0 <= i <= |stats|
      invariant forall id :: id in categoriesDict <==> LatestWithId(stats, i, id).Some?
      invariant forall id :: id in categoriesDict ==> categoriesDict[id] == LatestWithId(stats, i, id).value
      invariant roots == RootsIn(stats, i)
      invariant |subcategories| == i
      invariant forall j :: 0 <= j < i ==> subcategories[j] == ChildrenIn(stats, i, j)
    {
      var stat := stats[i];
      categoriesDict := categoriesDict[stat.id := i];
      ghost var attach := AttachedTo(stats, i);
      RootsSnoc(stats, i);
      ghost var earlier := subcategories;
      subcategories := subcategories + [[]];
      if stat.parentId.None? {
        roots := roots + [i];
        assert attach.None?;
      } else if stat.parentId.value in categoriesDict {
        var parent := categoriesDict[stat.parentId.value];
        assert attach == Some(parent);
        subcategories := subcategories[parent := subcategories[parent] + [i]];
      } else {
        assert attach.None?;
      }
      ChildrenSnoc(stats, i, earlier, subcategories);
      i := i + 1;
    }
  }
}
