/** `preprocess_csv`: turns a Trade Republic export into the bank-statement
    layout the importer reads. Each row is rebuilt from four input columns,
    and the output file gets four metadata lines in front. */
module PreprocessCsv {
  import opened Wrappers
  import opened PyStr
  import opened PyDate

  /** The purpose keywords that mark a transfer from the main account. */
  const IbanConditionKeywords: seq<string> := ["Einzahlung", "Marcus Loeper"]

  /** The columns of a processed row. */
  const OutputHeaders: seq<string> :=
    ["Buchungsdatum", "Wertstellung", "Status", "Umsatztyp", "Betrag (€)", "Verwendungszweck", "IBAN"]

  /** `determine_umsatztyp`: outgoing exactly when the amount text starts
      with a minus sign; never None. */
  function DetermineUmsatztyp(betrag: string): (r: string)
    ensures r == "Ausgang" <==> StartsWith(betrag, "-")
    ensures r == "Eingang" <==> !StartsWith(betrag, "-")
  {
    if !StartsWith(betrag, "-") then "Eingang" else "Ausgang"
  }

  /** `format_buchungsdatum`: "%Y-%m-%dT%H:%M:%S" rewritten as "%d.%m.%Y";
      any text that does not parse is returned as it is. */
  function FormatBuchungsdatum(date: string): (r: string)
    ensures Strptime(date, IsoDateTimeFormat).None? ==> r == date
    ensures Strptime(date, IsoDateTimeFormat).Some? ==> r == DayMonthYearText(Strptime(date, IsoDateTimeFormat).value.date)
  {
    match Strptime(date, IsoDateTimeFormat)
    case Some(t) => DayMonthYearText(t.date)
    case None => date
  }

  /** A valid date-time in the export's format becomes its day, month and
      four-digit year. */
  lemma {:induction false} FormatBuchungsdatumIso(t: DateTime)
    requires ValidDateTime(t)
    ensures FormatBuchungsdatum(IsoDateTimeText(t)) == DayMonthYearText(t.date)
  {
    IsoDateTimeRoundTrip(t);
  }

  /** The text with its last '.' turned into ','; the text itself when it
      has no '.'. */
  function CommaForLastDot(s: string): (r: string)
    ensures '.' !in s ==> r == s
    ensures |r| == |s|
    ensures '.' in s ==>
      var k := RFind(s, '.');
      && r[k] == ','
      && (forall j :: 0 <= j < |r| && j != k ==> r[j] == s[j])
      && '.' !in r[k + 1..]
  {
    var k := RFind(s, '.');
    if k == -1 then s
    else
      var r := s[..k] + "," + s[k + 1..];
      assert r[k + 1..] == s[k + 1..];
      r
  }

  /** `format_betrag_european`: the amount text trimmed first. */
  function FormatBetragEuropean(betrag: string): string {
    CommaForLastDot(Strip(betrag))
  }

  /** `str(x).strip() if x is not None else ""` */
  function TrimmedOrEmpty(x: Option<string>): string {
    if x.Some? then Strip(x.value) else ""
  }

  /** `append_umsatztyp_to_verwendungszweck`: both parts trimmed; one alone
      when the other is empty, otherwise joined by one space. */
  function AppendUmsatztypToVerwendungszweck(purpose: Option<string>, kind: Option<string>): (r: string)
    ensures TrimmedOrEmpty(purpose) == "" ==> r == TrimmedOrEmpty(kind)
    ensures TrimmedOrEmpty(purpose) != "" && TrimmedOrEmpty(kind) == "" ==> r == TrimmedOrEmpty(purpose)
    ensures TrimmedOrEmpty(purpose) != "" && TrimmedOrEmpty(kind) != "" ==>
      r == TrimmedOrEmpty(purpose) + " " + TrimmedOrEmpty(kind)
  {
    var v := TrimmedOrEmpty(purpose);
    var u := TrimmedOrEmpty(kind);
    if v == "" then u else if u == "" then v else v + " " + u
  }

  /** The result never has white space at either end. */
  lemma {:induction false} AppendIsTrimmed(purpose: Option<string>, kind: Option<string>)
    ensures var r := AppendUmsatztypToVerwendungszweck(purpose, kind);
      r == [] || (!IsSpace(r[0]) && !IsSpace(r[|r| - 1]))
  {
    var v := TrimmedOrEmpty(purpose);
    var u := TrimmedOrEmpty(kind);
    if v != "" && u != "" {
      var r := v + " " + u;
      assert r[0] == v[0] && r[|r| - 1] == u[|u| - 1];
    }
  }

  /** `determine_iban` from keyword `i` on: the main IBAN at the first keyword
      that occurs in the purpose. */
  function KeywordIbanFrom(purpose: string, mainIban: string, i: nat): (r: string)
    requires i <= |IbanConditionKeywords|
    ensures r == mainIban || r == ""
    ensures (exists j :: i <= j < |IbanConditionKeywords| && Occurs(IbanConditionKeywords[j], purpose)) ==> r == mainIban
    ensures !(exists j :: i <= j < |IbanConditionKeywords| && Occurs(IbanConditionKeywords[j], purpose)) ==> r == ""
    decreases |IbanConditionKeywords| - i
  {
    if i == |IbanConditionKeywords| then ""
    else if Contains(purpose, IbanConditionKeywords[i]) then mainIban
    else KeywordIbanFrom(purpose, mainIban, i + 1)
  }

  /** `determine_iban`: the main IBAN when some keyword occurs in the purpose,
      otherwise "" (also when either is None). */
  function DetermineIban(purpose: Option<string>, mainIban: Option<string>): (r: string)
    ensures mainIban.None? || purpose.None? ==> r == ""
    ensures mainIban.Some? && purpose.Some? ==>
      r == (if exists j :: 0 <= j < |IbanConditionKeywords| && Occurs(IbanConditionKeywords[j], purpose.value)
            then mainIban.value else "")
  {
    if mainIban.None? then ""
    else if purpose.None? then ""
    else KeywordIbanFrom(purpose.value, mainIban.value, 0)
  }

  /** With a non-empty main IBAN, the result is that IBAN exactly when some
      keyword occurs in the purpose. */
  lemma {:induction false} DetermineIbanMeaning(purpose: string, mainIban: string)
    requires mainIban != ""
    ensures DetermineIban(Some(purpose), Some(mainIban)) == mainIban <==>
      exists j :: 0 <= j < |IbanConditionKeywords| && Occurs(IbanConditionKeywords[j], purpose)
  {
  }

  /** `input_row.get(key, "")` */
  function Field(row: map<string, string>, key: string): string {
    if key in row then row[key] else ""
  }

  /** A processed row: the seven output columns. */
  datatype ProcessedRow = ProcessedRow(
    buchungsdatum: string, wertstellung: string, status: string, umsatztyp: string,
    betrag: string, verwendungszweck: string, iban: string)

  /** The column of a processed row under each output header:
      `processed_data.get(header, "")`. */
  function Column(p: ProcessedRow, header: string): string {
    if header == "Buchungsdatum" then p.buchungsdatum
    else if header == "Wertstellung" then p.wertstellung
    else if header == "Status" then p.status
    else if header == "Umsatztyp" then p.umsatztyp
    else if header == "Betrag (€)" then p.betrag
    else if header == "Verwendungszweck" then p.verwendungszweck
    else if header == "IBAN" then p.iban
    else ""
  }

  /** `process_row`: both date columns hold the original date text (the
      formatted date is computed but not used), `Status` holds the original
      `Umsatztyp`, and `Umsatztyp` holds the type derived from the sign of the
      amount. Every value is text, so the `except` branch is never taken. */
  function ProcessRow(row: map<string, string>, mainIban: Option<string>): (r: ProcessedRow)
    ensures r.buchungsdatum == Field(row, "Buchungsdatum") && r.wertstellung == Field(row, "Buchungsdatum")
    ensures r.status == Field(row, "Umsatztyp")
    ensures r.umsatztyp == DetermineUmsatztyp(Field(row, "Betrag (€)"))
    ensures r.betrag == FormatBetragEuropean(Field(row, "Betrag (€)"))
    ensures r.verwendungszweck == Field(row, "Verwendungszweck")
    ensures r.iban == DetermineIban(Some(Field(row, "Verwendungszweck")), mainIban)
  {
    var date := Field(row, "Buchungsdatum");
    var kind := Field(row, "Umsatztyp");
    var betrag := Field(row, "Betrag (€)");
    var purpose := Field(row, "Verwendungszweck");
    var formattedDate := FormatBuchungsdatum(date);
    ProcessedRow(date, date, kind, DetermineUmsatztyp(betrag), FormatBetragEuropean(betrag), purpose,
                 DetermineIban(Some(purpose), mainIban))
  }

  /** Only the four input columns matter. */
  lemma {:induction false} ProcessRowReadsFourColumns(row: map<string, string>, mainIban: Option<string>, key: string, v: string)
    requires key !in ["Buchungsdatum", "Umsatztyp", "Betrag (€)", "Verwendungszweck"]
    ensures ProcessRow(row[key := v], mainIban) == ProcessRow(row, mainIban)
  {
    assert Field(row[key := v], "Buchungsdatum") == Field(row, "Buchungsdatum");
    assert Field(row[key := v], "Umsatztyp") == Field(row, "Umsatztyp");
    assert Field(row[key := v], "Betrag (€)") == Field(row, "Betrag (€)");
    assert Field(row[key := v], "Verwendungszweck") == Field(row, "Verwendungszweck");
  }

  /** An export date-time reaches the output unformatted: the output keeps
      the "%Y-%m-%dT%H:%M:%S" text, not the "%d.%m.%Y" form. */
  lemma {:induction false} ProcessRowKeepsIsoDate(row: map<string, string>, mainIban: Option<string>, t: DateTime)
    requires ValidDateTime(t) && "Buchungsdatum" in row && row["Buchungsdatum"] == IsoDateTimeText(t)
    ensures ProcessRow(row, mainIban).buchungsdatum == IsoDateTimeText(t)
    ensures ProcessRow(row, mainIban).buchungsdatum != FormatBuchungsdatum(row["Buchungsdatum"])
  {
    FormatBuchungsdatumIso(t);
    IsoTextIsNotDayMonthYear(t);
  }

  /** The export's date-time text and the "%d.%m.%Y" text of its date
      differ: the third character is a year digit in one and a '.' in the
      other. */
  lemma {:induction false} IsoTextIsNotDayMonthYear(t: DateTime)
    requires ValidDateTime(t)
    ensures IsoDateTimeText(t) != DayMonthYearText(t.date)
  {
    FourDigits(t.date.year);
    TwoDigitsOf(t.date.day);
    assert IsoDateTimeText(t)[2] == Four(t.date.year)[2];
    assert DayMonthYearText(t.date)[2] == '.';
  }

  /** The first metadata line: the Trade Republic account's IBAN after the
      `TagesgeldTR` label. */
  function MetadataHeader(trIban: string): string {
    "TagesgeldTR;" + trIban + "\n"
  }

  /** `add_metadata`: the four metadata lines, then the lines of the
      processed file as `readlines` returns them. */
  method AddMetadata(trIban: string, csvLines: seq<string>) returns (written: seq<string>)
    ensures |written| == 4 + |csvLines|
    ensures written[0] == MetadataHeader(trIban) && written[1..4] == ["-\n", "-\n", "-\n"]
    ensures written[4..] == csvLines
  {
    var metaDataList := [MetadataHeader(trIban), "-\n", "-\n", "-\n"];
    metaDataList := metaDataList + csvLines;
    written := metaDataList;
  }
}
