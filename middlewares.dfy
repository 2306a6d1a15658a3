/** The concrete pipeline stages: date formatting, data cleaning, rule
    application, internal-transfer detection and hashing.

    Each stage's `process` changes the record it is given (a `dict` during
    import, a `BankTransaction` afterwards) and returns it. Here a stage
    maps a record to a `Step`: the record as it stands when the stage is
    done, or when it stops at an exception, together with that exception.
    The two stages that cache reference data (rules, own IBANs) return their
    new state alongside. */
module Middlewares {
  import opened Wrappers
  import opened PyStr
  import opened PyNum
  import opened PyDate
  import opened Values
  import opened Models
  import opened Digest
  import opened RuleEngine

  /** The configured IBANs (their default values). */
  const TradeRepublicIban := "DE12345678901234567890"
  const TradeRepublicSavingPlanIban := "DE09876543210987654321"

  /** The exceptions the stages can raise. */
  datatype Fault =
    | KeyError(key: string)
    | AttributeError
    | TypeError
    | DatabaseError
    | ValueError

  datatype Step = Step(record: Record, fault: Option<Fault>)

  /** What the database would answer when a stage loads reference data:
      the stored rules, the stored bank accounts' IBANs, and whether the
      query succeeds at all. */
  datatype Env = Env(rules: seq<Rule>, accountIbans: seq<Option<string>>, available: bool)

  /** The stage objects, with the state the caching ones keep. */
  datatype Stage =
    | DateFormattingMiddleware
    | DataCleaningMiddleware
    | ApplyRulesMiddleware(rules: Option<seq<RuleRef>>, rulesLoaded: bool)
    | InternalTransferDetectionMiddleware(ownIbans: Option<seq<string>>)
    | TransactionHashMiddleware

  /** `m.__class__.__name__` */
  function ClassName(s: Stage): string {
    match s
    case DateFormattingMiddleware => "DateFormattingMiddleware"
    case DataCleaningMiddleware => "DataCleaningMiddleware"
    case ApplyRulesMiddleware(_, _) => "ApplyRulesMiddleware"
    case InternalTransferDetectionMiddleware(_) => "InternalTransferDetectionMiddleware"
    case TransactionHashMiddleware => "TransactionHashMiddleware"
  }

  /** `ApplyRulesMiddleware(rules)`: the given rules, not yet loaded. */
  function NewApplyRules(rules: Option<seq<Rule>>): Stage {
    ApplyRulesMiddleware(if rules.Some? then Some(Lives(rules.value)) else None, false)
  }

  function Lives(rs: seq<Rule>): (r: seq<RuleRef>)
    ensures |r| == |rs| && forall k :: 0 <= k < |rs| ==> r[k] == Live(rs[k])
  {
    if rs == [] then [] else [Live(rs[0])] + Lives(rs[1..])
  }

  // ---------------------------------------------------------------------
  // DateFormattingMiddleware

  /** `parse_date`: text with a "T" is read only as "%Y-%m-%dT%H:%M:%S" (a
      datetime), any other text only as "%d.%m.%y" (a date); a text that does
      not fit gives None, and a value that is not text raises `TypeError` at
      the `"T" in` test. */
  function ParseDate(v: Value): (r: Result<Value, Fault>)
    ensures r.Ok? <==> v.Str?
    ensures r.Err? ==> r.error == TypeError
    ensures v.Str? && 'T' in v.s ==> r.value.NoneVal? || r.value.DateTimeVal?
    ensures v.Str? && 'T' !in v.s ==> r.value.NoneVal? || r.value.DateVal?
  {
    match v
    case Str(s) =>
      if 'T' in s then
        (match Strptime(s, IsoDateTimeFormat)
         case Some(t) => Ok(DateTimeVal(t))
         case None => Ok(NoneVal))
      else
        (match Strptime(s, DayMonthShortYearFormat)
         case Some(t) => Ok(DateVal(t.date))
         case None => Ok(NoneVal))
    case _ => Err(TypeError)
  }

  /** The ISO date-time text the stage is given back as a datetime. */
  lemma {:induction false} ParseDateIso(t: DateTime)
    requires ValidDateTime(t)
    ensures ParseDate(Str(IsoDateTimeText(t))) == Ok(DateTimeVal(t))
  {
    IsoDateTimeRoundTrip(t);
    IsoFormatLength(t.date);
    assert IsoDateTimeText(t)[10] == 'T';
  }

  /** A bank statement date "dd.mm.yy" is given back as that date. */
  lemma {:induction false} ParseDateShortYear(d: Date)
    requires ValidDate(d) && 1969 <= d.year <= 2068
    ensures ParseDate(Str(DayMonthShortYearText(d))) == Ok(DateVal(d))
  {
    ShortYearRoundTrip(d);
    var s := DayMonthShortYearText(d);
    TwoDigitsOf(d.day);
    TwoDigitsOf(d.month);
    TwoDigitsOf(d.year % 100);
    assert forall k :: 0 <= k < |s| ==> s[k] != 'T';
  }

  /** One date key of an import dictionary: parsed when present and truthy. */
  function FormatDateItem(m: map<string, Value>, key: string): Result<map<string, Value>, Fault> {
    if key in m && Truthy(m[key]) then
      match ParseDate(m[key])
      case Ok(v) => Ok(m[key := v])
      case Err(e) => Err(e)
    else Ok(m)
  }

  /** One date attribute of a transaction: `.strip()`ped and parsed when
      truthy; `.strip()` of a value that is not text raises `AttributeError`. */
  function FormatDateAttr(t: BankTransaction, c: Column): Result<BankTransaction, Fault> {
    var v := Get(t, c);
    if !Truthy(v) then Ok(t)
    else if !v.Str? then Err(AttributeError)
    else
      match ParseDate(Str(Strip(v.s)))
      case Ok(p) => Ok(Set(t, c, p))
      case Err(e) => Err(e)
  }

  function DateFormattingProcess(rec: Record): Step {
    match rec
    case Raw(m) =>
      (match FormatDateItem(m, "booking_date")
       case Err(e) => Step(rec, Some(e))
       case Ok(m1) =>
         match FormatDateItem(m1, "value_date")
         case Err(e) => Step(Raw(m1), Some(e))
         case Ok(m2) => Step(Raw(m2), None))
    case Entity(t) =>
      match FormatDateAttr(t, BookingDateCol)
      case Err(e) => Step(rec, Some(e))
      case Ok(t1) =>
        match FormatDateAttr(t1, ValueDateCol)
        case Err(e) => Step(Entity(t1), Some(e))
        case Ok(t2) => Step(Entity(t2), None)
  }

  /** Absent or empty date fields are left untouched, and no other key is
      touched at all. */
  lemma {:induction false} DateFormattingFrame(m: map<string, Value>)
    requires DateFormattingProcess(Raw(m)).fault.None?
    ensures DateFormattingProcess(Raw(m)).record.Raw?
    ensures var r := DateFormattingProcess(Raw(m)).record.items;
      && r.Keys == m.Keys
      && (forall k :: k in m && k != "booking_date" && k != "value_date" ==> r[k] == m[k])
      && (forall k :: k in m && (k == "booking_date" || k == "value_date") && !Truthy(m[k]) ==> r[k] == m[k])
      && (forall k :: k in m && (k == "booking_date" || k == "value_date") && Truthy(m[k]) ==> Ok(r[k]) == ParseDate(m[k]))
  {
  }

  // ---------------------------------------------------------------------
  // DataCleaningMiddleware

  /** `.strip()` of one text key of an import dictionary, when present and
      truthy. */
  function StripItem(m: map<string, Value>, key: string): (r: Result<map<string, Value>, Fault>)
    ensures r.Err? <==> key in m && Truthy(m[key]) && !m[key].Str?
    ensures r.Ok? ==> r.value.Keys == m.Keys && forall k :: k in m && k != key ==> r.value[k] == m[k]
    ensures r.Ok? && key in m ==> r.value[key] == (if Truthy(m[key]) then Str(Strip(m[key].s)) else m[key])
  {
    if key in m && Truthy(m[key]) then
      if m[key].Str? then Ok(m[key := Str(Strip(m[key].s))]) else Err(AttributeError)
    else Ok(m)
  }

  function StripAttr(t: BankTransaction, c: Column): (r: Result<BankTransaction, Fault>)
    ensures r.Ok? <==> !Truthy(Get(t, c)) || Get(t, c).Str?
    ensures r.Ok? ==> Get(r.value, c) == (if Truthy(Get(t, c)) then Str(Strip(Get(t, c).s)) else Get(t, c))
    ensures r.Ok? ==> forall d :: d != c ==> Get(r.value, d) == Get(t, d)
  {
    var v := Get(t, c);
    if !Truthy(v) then Ok(t)
    else if v.Str? then
      GetSet(t, c, Str(Strip(v.s)), c);
      assert forall d :: d != c ==> Get(Set(t, c, Str(Strip(v.s))), d) == Get(t, d) by {
        forall d | d != c {
          GetSet(t, c, Str(Strip(v.s)), d);
        }
      }
      Ok(Set(t, c, Str(Strip(v.s))))
    else Err(AttributeError)
  }

  /** The amount text with thousands separators removed and the decimal comma
      turned into a point. */
  function AmountText(a: string): (r: string)
    ensures ',' !in r
    ensures '.' !in a && ',' !in a ==> r == a
  {
    ReplaceChar(ReplaceChar(a, '.', ""), ',', ".")
  }

  /** An amount as a German statement writes it: an optional minus, digit
      groups separated by '.', a decimal ',' and the cents. */
  function GermanAmount(neg: bool, groups: seq<string>, cents: string): string {
    (if neg then "-" else "") + Join(groups, '.') + "," + cents
  }

  /** Rewriting a German amount drops the group separators and turns the
      decimal comma into a point, and `float()` then reads the amount's
      value: all its digits, scaled by the number of cents digits. */
  lemma {:induction false} GermanAmountText(neg: bool, groups: seq<string>, cents: string)
    requires |groups| > 0 && |groups[0]| > 0 && |cents| > 0
    requires forall k :: 0 <= k < |groups| ==> AllDigits(groups[k])
    requires AllDigits(cents)
    ensures AllDigits(Concat(groups) + cents)
    ensures AmountText(GermanAmount(neg, groups, cents)) == (if neg then "-" else "") + Concat(groups) + "." + cents
    ensures Strip(AmountText(GermanAmount(neg, groups, cents))) == AmountText(GermanAmount(neg, groups, cents))
    ensures ParseFloat(AmountText(GermanAmount(neg, groups, cents)))
         == Some(Normalize(Decimal(neg, DigitsValue(Concat(groups) + cents), |cents|)))
  {
    var sign: string := if neg then "-" else "";
    var digits := Concat(groups);
    ConcatDigits(groups);
    AllDigitsAppend(digits, cents);
    forall k | 0 <= k < |groups|
      ensures '.' !in groups[k]
    {
      NoDot(groups[k]);
    }
    NoDot(cents);
    NoComma(digits);
    NoComma(cents);
    DropGroupDots(sign, groups, cents);
    CommaToPoint(sign, digits, cents);
    StripDecimalLiteral(neg, digits, cents);
    ParseFloatLiteral(neg, digits, cents);
  }

  lemma {:induction false} DropGroupDots(sign: string, groups: seq<string>, cents: string)
    requires '.' !in sign && '.' !in cents
    requires forall k :: 0 <= k < |groups| ==> '.' !in groups[k]
    ensures ReplaceChar(sign + Join(groups, '.') + "," + cents, '.', "") == sign + Concat(groups) + "," + cents
  {
    PrefixNoDot(cents);
    DeleteJoinSeparator(groups, '.');
    ReplaceCharInside(sign, Join(groups, '.'), "," + cents, '.', "");
    Regroup(sign, Join(groups, '.'), ",", cents);
    Regroup(sign, Concat(groups), ",", cents);
  }

  lemma {:induction false} Regroup(a: string, b: string, c: string, d: string)
    ensures a + b + c + d == a + b + (c + d)
  {
  }

  lemma {:induction false} PrefixNoDot(cents: string)
    requires '.' !in cents
    ensures '.' !in "," + cents
  {
    assert forall k :: 0 < k < |"," + cents| ==> ("," + cents)[k] == cents[k - 1];
  }

  lemma {:induction false} CommaToPoint(sign: string, digits: string, cents: string)
    requires ',' !in sign && ',' !in digits && ',' !in cents
    ensures ReplaceChar(sign + digits + "," + cents, ',', ".") == sign + digits + "." + cents
  {
    ReplaceCharOne(',', ',', ".");
    ReplaceCharInside(sign + digits, ",", cents, ',', ".");
  }

  lemma {:induction false} NoComma(t: string)
    requires AllDigits(t)
    ensures ',' !in t
  {
    forall k | 0 <= k < |t| ensures t[k] != ',' { assert IsDigit(t[k]); }
  }

  /** A text amount becomes a float when the rewritten text reads as one, and
      stays as it is otherwise; any other value stays as it is. */
  function CleanedAmount(v: Value): Value {
    if v.Str? then
      match ParseFloat(AmountText(v.s))
      case Some(x) => Float(x)
      case None => v
    else v
  }

  /** The "amount" key of an import dictionary cleaned. */
  function CleanAmount(m: map<string, Value>): (r: map<string, Value>)
    ensures r.Keys == m.Keys && forall k :: k in m && k != "amount" ==> r[k] == m[k]
    ensures "amount" in m ==> r["amount"] == CleanedAmount(m["amount"])
  {
    if "amount" in m then m["amount" := CleanedAmount(m["amount"])] else m
  }

  /** The saving-plan IBAN is replaced by the account's own IBAN. */
  function AliasIban(v: Value): Value {
    if v.Str? && SameText(v.s, TradeRepublicSavingPlanIban) then Str(TradeRepublicIban) else v
  }

  /** Only the saving-plan IBAN is replaced, and by the account's own. */
  lemma {:induction false} AliasIbanMeaning(v: Value)
    ensures v == Str(TradeRepublicSavingPlanIban) ==> AliasIban(v) == Str(TradeRepublicIban)
    ensures v != Str(TradeRepublicSavingPlanIban) ==> AliasIban(v) == v
  {
    if v.Str? {
      SameTextMeans(v.s, TradeRepublicSavingPlanIban);
    }
  }

  /** Text equality character by character. It is recursive, so a proof
      that does not ask about the IBAN constants never compares them. */
  function SameText(a: string, b: string): bool {
    if a == [] || b == [] then a == [] && b == []
    else a[0] == b[0] && SameText(a[1..], b[1..])
  }

  lemma {:induction false} SameTextMeans(a: string, b: string)
    ensures SameText(a, b) <==> a == b
  {
    if a != [] && b != [] {
      SameTextMeans(a[1..], b[1..]);
      assert a == [a[0]] + a[1..] && b == [b[0]] + b[1..];
    }
  }

  /** `DataCleaningMiddleware.process`: the dictionary branch and the
      object branch. */
  function DataCleaningProcess(rec: Record): Step {
    match rec
    case Raw(m) => CleanItems(m)
    case Entity(t) => CleanAttributes(t)
  }

  /** The dictionary branch: each step raises on what it cannot handle, and
      the record keeps the steps done before. */
  function CleanItems(m: map<string, Value>): Step {
    match StripItem(m, "purpose")
    case Err(e) => Step(Raw(m), Some(e))
    case Ok(m1) =>
      match StripItem(m1, "payee")
      case Err(e) => Step(Raw(m1), Some(e))
      case Ok(m2) =>
        match StripItem(m2, "payer")
        case Err(e) => Step(Raw(m2), Some(e))
        case Ok(m3) =>
          var m4 := CleanAmount(m3);
          if "iban" !in m4 then Step(Raw(m4), Some(KeyError("iban")))
          else Step(Raw(m4["iban" := AliasIban(m4["iban"])]), None)
  }

  /** The object branch. */
  function CleanAttributes(t: BankTransaction): Step {
    match StripAttr(t, PurposeCol)
    case Err(e) => Step(Entity(t), Some(e))
    case Ok(t1) =>
      match StripAttr(t1, PayeeCol)
      case Err(e) => Step(Entity(t1), Some(e))
      case Ok(t2) =>
        match StripAttr(t2, PayerCol)
        case Err(e) => Step(Entity(t2), Some(e))
        case Ok(t3) => Step(Entity(t3.(iban := AliasIban(t3.iban))), None)
  }

  /** On an import dictionary cleaning keeps the keys and stays a
      dictionary; without an "iban" key it raises `KeyError`. */
  lemma {:induction false} DataCleaningRaw(m: map<string, Value>)
    requires forall k :: k in m && Truthy(m[k]) && (k == "purpose" || k == "payee" || k == "payer") ==> m[k].Str?
    ensures var s := DataCleaningProcess(Raw(m));
      && s.record.Raw?
      && s.record.items.Keys == m.Keys
      && (s.fault.Some? <==> "iban" !in m)
      && (s.fault.Some? ==> s.fault == Some(KeyError("iban")))
  {
    var m3 := StripItem(StripItem(StripItem(m, "purpose").value, "payee").value, "payer").value;
    ThreeStrips(m);
    RawCleaningSteps(m);
    if "iban" in m {
      FinishCleaning(m3);
    }
  }

  /** On an import dictionary cleaning aliases the iban and turns a text
      amount into its number. */
  lemma {:induction false} DataCleaningRawValues(m: map<string, Value>)
    requires forall k :: k in m && Truthy(m[k]) && (k == "purpose" || k == "payee" || k == "payer") ==> m[k].Str?
    ensures var items := DataCleaningProcess(Raw(m)).record.items;
      && ("iban" in m ==> "iban" in items && items["iban"] == AliasIban(m["iban"]))
      && ("amount" in m ==> "amount" in items && items["amount"] == CleanedAmount(m["amount"]))
  {
    var m3 := StripItem(StripItem(StripItem(m, "purpose").value, "payee").value, "payer").value;
    ThreeStripsKeep(m);
    RawCleaningSteps(m);
    if "iban" in m {
      FinishCleaning(m3);
    }
  }

  /** On an import dictionary cleaning trims purpose, payee and payer when
      they are non-empty text and changes no key but those, the amount and
      the iban. */
  lemma {:induction false} DataCleaningRawTexts(m: map<string, Value>)
    requires forall k :: k in m && Truthy(m[k]) && (k == "purpose" || k == "payee" || k == "payer") ==> m[k].Str?
    ensures var items := DataCleaningProcess(Raw(m)).record.items;
      && (forall k :: k in m && (k == "purpose" || k == "payee" || k == "payer") ==>
            items[k] == (if Truthy(m[k]) then Str(Strip(m[k].s)) else m[k]))
      && (forall k :: k in m && k != "purpose" && k != "payee" && k != "payer" && k != "amount" && k != "iban" ==>
            items[k] == m[k])
  {
    var m3 := StripItem(StripItem(StripItem(m, "purpose").value, "payee").value, "payer").value;
    ThreeStrips(m);
    var m4 := CleanAmount(m3);
    RawCleaningSteps(m);
    if "iban" in m {
      FinishCleaning(m3);
      var f := m4["iban" := AliasIban(m4["iban"])];
      forall k | k in m && (k == "purpose" || k == "payee" || k == "payer")
        ensures f[k] == (if Truthy(m[k]) then Str(Strip(m[k].s)) else m[k])
      {
        assert k != "amount" && k != "iban";
      }
    }
  }

  /** The import dictionary's path through the stage, when nothing raises
      before the "iban" lookup. */
  lemma {:induction false} RawCleaningSteps(m: map<string, Value>)
    requires forall k :: k in m && Truthy(m[k]) && (k == "purpose" || k == "payee" || k == "payer") ==> m[k].Str?
    ensures StripItem(m, "purpose").Ok?
    ensures var m1 := StripItem(m, "purpose").value;
      StripItem(m1, "payee").Ok? && StripItem(StripItem(m1, "payee").value, "payer").Ok?
    ensures var m3 := StripItem(StripItem(StripItem(m, "purpose").value, "payee").value, "payer").value;
      var m4 := CleanAmount(m3);
      DataCleaningProcess(Raw(m)) ==
        if "iban" !in m4 then Step(Raw(m4), Some(KeyError("iban")))
        else Step(Raw(m4["iban" := AliasIban(m4["iban"])]), None)
  {
    ThreeStrips(m);
  }

  /** The amount rewrite and the iban alias after the trimming. */
  lemma {:induction false} FinishCleaning(m3: map<string, Value>)
    requires "iban" in m3
    ensures var m4 := CleanAmount(m3);
      var f := m4["iban" := AliasIban(m4["iban"])];
      && f.Keys == m3.Keys
      && f["iban"] == AliasIban(m3["iban"])
      && (forall k :: k in m3 && k != "amount" && k != "iban" ==> f[k] == m3[k])
      && ("amount" in m3 ==> f["amount"] == CleanedAmount(m3["amount"]))
  {
  }

  /** The trimming keeps the keys, the iban and the amount. */
  lemma {:induction false} ThreeStripsKeep(m: map<string, Value>)
    requires forall k :: k in m && Truthy(m[k]) && (k == "purpose" || k == "payee" || k == "payer") ==> m[k].Str?
    ensures StripItem(m, "purpose").Ok?
    ensures var m1 := StripItem(m, "purpose").value;
      StripItem(m1, "payee").Ok? && StripItem(StripItem(m1, "payee").value, "payer").Ok?
    ensures var m3 := StripItem(StripItem(StripItem(m, "purpose").value, "payee").value, "payer").value;
      && m3.Keys == m.Keys
      && ("iban" in m ==> m3["iban"] == m["iban"])
      && ("amount" in m ==> m3["amount"] == m["amount"])
  {
    ThreeStrips(m);
  }

  /** The three text keys trimmed one after the other. */
  lemma {:induction false} ThreeStrips(m: map<string, Value>)
    requires forall k :: k in m && Truthy(m[k]) && (k == "purpose" || k == "payee" || k == "payer") ==> m[k].Str?
    ensures StripItem(m, "purpose").Ok?
    ensures var m1 := StripItem(m, "purpose").value;
      StripItem(m1, "payee").Ok? && StripItem(StripItem(m1, "payee").value, "payer").Ok?
    ensures var m3 := StripItem(StripItem(StripItem(m, "purpose").value, "payee").value, "payer").value;
      && m3.Keys == m.Keys
      && (forall k :: k in m && (k == "purpose" || k == "payee" || k == "payer") ==>
            m3[k] == (if Truthy(m[k]) then Str(Strip(m[k].s)) else m[k]))
      && (forall k :: k in m && k != "purpose" && k != "payee" && k != "payer" ==> m3[k] == m[k])
  {
    var m1 := StripItem(m, "purpose").value;
    assert "payee" in m1 ==> m1["payee"] == m["payee"];
    assert "payer" in m1 ==> m1["payer"] == m["payer"];
    var m2 := StripItem(m1, "payee").value;
    assert "payer" in m2 ==> m2["payer"] == m["payer"];
    assert "purpose" in m2 ==> m2["purpose"] == m1["purpose"];
    var m3 := StripItem(m2, "payer").value;
    assert "purpose" in m3 ==> m3["purpose"] == m1["purpose"];
    assert "payee" in m3 ==> m3["payee"] == m2["payee"];
  }

  /** On a stored transaction cleaning trims purpose, payee and payer when
      they are non-empty text, aliases the iban, and changes no other column. */
  lemma {:induction false} DataCleaningEntity(t: BankTransaction)
    requires forall c :: (c == PurposeCol || c == PayeeCol || c == PayerCol) && Truthy(Get(t, c)) ==> Get(t, c).Str?
    ensures var s := DataCleaningProcess(Entity(t));
      && s.fault.None? && s.record.Entity?
      && (forall c :: (c == PurposeCol || c == PayeeCol || c == PayerCol) ==>
            Get(s.record.tx, c) == (if Truthy(Get(t, c)) then Str(Strip(Get(t, c).s)) else Get(t, c)))
      && s.record.tx.iban == AliasIban(t.iban)
      && (forall c :: c != PurposeCol && c != PayeeCol && c != PayerCol && c != IbanCol ==>
            Get(s.record.tx, c) == Get(t, c))
  {
    var t1 := StripAttr(t, PurposeCol).value;
    var t2 := StripAttr(t1, PayeeCol).value;
    var t3 := StripAttr(t2, PayerCol).value;
    var v := AliasIban(t3.iban);
    var t4 := t3.(iban := v);
    assert DataCleaningProcess(Entity(t)) == Step(Entity(t4), None);
    assert t4 == Set(t3, IbanCol, v);
    assert t3.iban == Get(t3, IbanCol) == Get(t, IbanCol) == t.iban;
    forall c | c != IbanCol
      ensures Get(t4, c) == Get(t3, c)
    {
      GetSet(t3, IbanCol, v, c);
    }
  }

  // ---------------------------------------------------------------------
  // ApplyRulesMiddleware

  /** The creation time a rule is ordered by. */
  function CreatedAt(r: Rule): nat {
    r.createdAt
  }

  /** `xs[i]` orders no later than `xs[j]` by `key`. */
  predicate SortedBy<T>(xs: seq<T>, key: T -> nat) {
    forall i, j :: 0 <= i < j < |xs| ==> key(xs[i]) <= key(xs[j])
  }

  /** A first element no later than the head of a sorted sequence keeps it
      sorted. */
  lemma {:induction false} ConsSorted<T>(h: T, rest: seq<T>, key: T -> nat)
    requires SortedBy(rest, key) && rest != [] && key(h) <= key(rest[0])
    ensures SortedBy([h] + rest, key)
  {
    var res := [h] + rest;
    forall i, j | 0 <= i < j < |res|
      ensures key(res[i]) <= key(res[j])
    {
      assert res[j] == rest[j - 1];
      if i > 0 {
        assert res[i] == rest[i - 1];
      }
    }
  }

  /** One step of a stable insertion sort: `x` goes after every element
      whose key is not above its own. */
  function InsertBy<T>(x: T, sorted: seq<T>, key: T -> nat): (res: seq<T>)
    requires SortedBy(sorted, key)
    ensures SortedBy(res, key) && multiset(res) == multiset(sorted) + multiset{x}
    ensures |res| == |sorted| + 1
    ensures res[0] == x || (sorted != [] && res[0] == sorted[0])
  {
    if sorted == [] then [x]
    else if key(x) < key(sorted[0]) then
      [x] + sorted
    else
      var rest := InsertBy(x, sorted[1..], key);
      assert sorted == [sorted[0]] + sorted[1..];
      assert key(sorted[0]) <= key(rest[0]);
      ConsSorted(sorted[0], rest, key);
      var res := [sorted[0]] + rest;
      assert multiset(res) == multiset{sorted[0]} + multiset(rest);
      res
  }

  /** Insertion sort by `key`: sorted, and a permutation of the input. */
  function SortBy<T>(xs: seq<T>, key: T -> nat): (res: seq<T>)
    ensures SortedBy(res, key) && multiset(res) == multiset(xs)
    ensures |res| == |xs|
  {
    if xs == [] then []
    else
      assert xs == [xs[0]] + xs[1..];
      InsertBy(xs[0], SortBy(xs[1..], key), key)
  }

  /** `order_by(Rule.created_at)`: the stored rules, sorted by creation time. */
  function SortByCreation(rules: seq<Rule>): (res: seq<Rule>)
    ensures forall i, j :: 0 <= i < j < |res| ==> res[i].createdAt <= res[j].createdAt
    ensures multiset(res) == multiset(rules)
  {
    SortBy(rules, CreatedAt)
  }

  /** `_load_rules`: loads only when not yet loaded. Whatever rules the stage
      was built with are replaced by the stored ones in `created_at` order;
      `None` is the database error it raises. */
  function LoadRules(stage: Stage, env: Env): (r: Option<Stage>)
    requires stage.ApplyRulesMiddleware?
    ensures stage.rulesLoaded ==> r == Some(stage)
    ensures !stage.rulesLoaded && env.available ==>
      r == Some(ApplyRulesMiddleware(Some(Lives(SortByCreation(env.rules))), true))
    ensures r.None? <==> !stage.rulesLoaded && !env.available
  {
    if stage.rulesLoaded then Some(stage)
    else if env.available then Some(ApplyRulesMiddleware(Some(Lives(SortByCreation(env.rules))), true))
    else None
  }

  /** The category and rule chosen by the first matching rule, written into
      the record. */
  function Categorise(rec: Record, sel: Selection): Record
    requires sel.matched ==> sel.categoryId.Some? && sel.ruleId.Some?
  {
    if !sel.matched then rec
    else match rec
      case Raw(m) => Raw(m["category_id" := Int(sel.categoryId.value)]["rule_id" := Int(sel.ruleId.value)])
      case Entity(t) => Entity(t.(categoryId := Int(sel.categoryId.value), ruleId := Int(sel.ruleId.value)))
  }

  /** The transaction the rules are evaluated against: for a dictionary, a
      fresh `BankTransaction` with its column keys set. */
  function AsTransaction(rec: Record): BankTransaction {
    match rec
    case Raw(m) => FromItems(m)
    case Entity(t) => t
  }

  /** `ApplyRulesMiddleware.process`: every error is caught and returns the
      record unchanged. A dictionary always gets the first match, unless
      building the temporary transaction from it raises (a relationship key
      holding something other than None); a stored transaction only when it
      has no category yet. */
  function ApplyRulesProcess(stage: Stage, env: Env, rec: Record): (r: (Stage, Step))
    requires stage.ApplyRulesMiddleware?
    ensures r.0.ApplyRulesMiddleware? && r.1.fault.None?
  {
    match LoadRules(stage, env)
    case None => (stage, Step(rec, None))
    case Some(loaded) =>
      if loaded.rules.None? then (loaded, Step(rec, None))
      else if rec.Entity? && Truthy(rec.tx.categoryId) then (loaded, Step(rec, None))
      else if rec.Raw? && !Settable(rec.items) then (loaded, Step(rec, None))
      else (loaded, Step(Categorise(rec, ApplyRules(AsTransaction(rec), loaded.rules.value)), None))
  }

  /** With its rules loaded, the stage gives a dictionary the category and
      rule of the first rule that matches, leaves it as it is when none
      matches or when a relationship key makes `setattr` raise, and changes
      no other key. */
  lemma {:induction false} ApplyRulesRaw(rules: seq<RuleRef>, env: Env, m: map<string, Value>)
    ensures var (st, s) := ApplyRulesProcess(ApplyRulesMiddleware(Some(rules), true), env, Raw(m));
      var sel := ApplyRules(FromItems(m), rules);
      && st == ApplyRulesMiddleware(Some(rules), true)
      && s.record.Raw?
      && (!Settable(m) || !sel.matched ==> s.record == Raw(m))
      && (Settable(m) && sel.matched ==>
            exists i :: (FirstMatchAt(FromItems(m), rules, i)
              && s.record.items == m["category_id" := Int(rules[i].rule.categoryId)]["rule_id" := Int(rules[i].rule.id)]))
  {
  }

  /** A stored transaction that already has a category is never
      recategorised; an uncategorised one gets the first match. */
  lemma {:induction false} ApplyRulesEntity(rules: seq<RuleRef>, env: Env, t: BankTransaction)
    ensures var (_, s) := ApplyRulesProcess(ApplyRulesMiddleware(Some(rules), true), env, Entity(t));
      && (Truthy(t.categoryId) ==> s.record == Entity(t))
      && ((forall i :: 0 <= i < |rules| ==> !EvaluateRule(t, rules[i])) ==> s.record == Entity(t))
      && (!Truthy(t.categoryId) && (exists i :: 0 <= i < |rules| && EvaluateRule(t, rules[i])) ==>
            exists i :: (FirstMatchAt(t, rules, i)
              && s.record == Entity(t.(categoryId := Int(rules[i].rule.categoryId), ruleId := Int(rules[i].rule.id)))))
  {
    var sel := ApplyRules(t, rules);
    var s := ApplyRulesProcess(ApplyRulesMiddleware(Some(rules), true), env, Entity(t)).1;
    if !Truthy(t.categoryId) && sel.matched {
      var i :| FirstMatchAt(t, rules, i) && sel.categoryId == Some(rules[i].rule.categoryId)
               && sel.ruleId == Some(rules[i].rule.id);
      assert s.record == Entity(t.(categoryId := Int(rules[i].rule.categoryId), ruleId := Int(rules[i].rule.id)));
    }
  }

  /** When the rules cannot be loaded, the record goes through unchanged and the
      stage stays unloaded. */
  lemma {:induction false} ApplyRulesLoadFailure(stage: Stage, env: Env, rec: Record)
    requires stage.ApplyRulesMiddleware? && !stage.rulesLoaded && !env.available
    ensures ApplyRulesProcess(stage, env, rec) == (stage, Step(rec, None))
  {
  }

  // ---------------------------------------------------------------------
  // InternalTransferDetectionMiddleware

  /** The IBANs of the stored accounts that have one. */
  function NonEmptyIbans(ibans: seq<Option<string>>): (r: seq<string>)
    ensures forall s :: s in r <==> Some(s) in ibans && s != ""
  {
    if ibans == [] then []
    else
      var rest := NonEmptyIbans(ibans[1..]);
      assert forall x :: x in ibans <==> x == ibans[0] || x in ibans[1..];
      if ibans[0].Some? && ibans[0].value != "" then [ibans[0].value] + rest else rest
  }

  /** `_load_ibans`: loads only while `own_ibans` is None; `None` is the
      database error it raises. */
  function LoadIbans(stage: Stage, env: Env): (r: Option<Stage>)
    requires stage.InternalTransferDetectionMiddleware?
    ensures stage.ownIbans.Some? ==> r == Some(stage)
    ensures stage.ownIbans.None? && env.available ==>
      r == Some(InternalTransferDetectionMiddleware(Some(NonEmptyIbans(env.accountIbans))))
    ensures r.None? <==> stage.ownIbans.None? && !env.available
  {
    if stage.ownIbans.Some? then Some(stage)
    else if env.available then Some(InternalTransferDetectionMiddleware(Some(NonEmptyIbans(env.accountIbans))))
    else None
  }

  predicate Own(v: Value, own: seq<string>) {
    v.Str? && v.s in own
  }

  /** Both IBANs are non-empty and both belong to the user. */
  predicate IsInternal(iban: Value, counterparty: Value, own: seq<string>) {
    Truthy(iban) && Truthy(counterparty) && Own(iban, own) && Own(counterparty, own)
  }

  function InternalTransferProcess(stage: Stage, env: Env, rec: Record): (r: (Stage, Step))
    requires stage.InternalTransferDetectionMiddleware?
    ensures r.0.InternalTransferDetectionMiddleware?
  {
    match LoadIbans(stage, env)
    case None => (stage, Step(rec, Some(DatabaseError)))
    case Some(loaded) =>
      var own := loaded.ownIbans.value;
      match rec
      case Raw(m) =>
        var internal := IsInternal(Lookup(m, "iban"), Lookup(m, "counterparty_iban"), own);
        (loaded, Step(Raw(m["is_internal_transfer" := Bool(internal)]), None))
      case Entity(t) =>
        var internal := IsInternal(t.iban, t.counterpartyIban, own);
        (loaded, Step(Entity(t.(isInternalTransfer := Bool(internal))), None))
  }

  /** Once the IBANs are loaded, the flag is always written, and it is true
      exactly when both IBANs are non-empty and both are the user's; nothing
      else changes. A failed load raises. */
  lemma {:induction false} InternalTransferMeaning(stage: Stage, env: Env, rec: Record)
    requires stage.InternalTransferDetectionMiddleware?
    ensures var (st, s) := InternalTransferProcess(stage, env, rec);
      && (stage.ownIbans.None? && !env.available ==> s == Step(rec, Some(DatabaseError)) && st == stage)
      && (stage.ownIbans.Some? || env.available ==>
            && st.ownIbans.Some? && s.fault.None?
            && var own := st.ownIbans.value;
            match rec
            case Raw(m) =>
              s.record == Raw(m["is_internal_transfer" := Bool(
                Truthy(Lookup(m, "iban")) && Truthy(Lookup(m, "counterparty_iban"))
                && Own(Lookup(m, "iban"), own) && Own(Lookup(m, "counterparty_iban"), own))])
            case Entity(t) =>
              s.record == Entity(t.(isInternalTransfer := Bool(
                Truthy(t.iban) && Truthy(t.counterpartyIban) && Own(t.iban, own) && Own(t.counterpartyIban, own)))))
  {
  }

  // ---------------------------------------------------------------------
  // TransactionHashMiddleware

  /** `{transaction.get(key, '')}` */
  function ItemText(m: map<string, Value>, key: string): string {
    if key in m then Text(m[key]) else ""
  }

  /** The keys the import-time hash reads, in order. */
  const HashKeys: seq<string> := ["booking_date", "value_date", "amount", "payee", "purpose"]

  /** The hash input of an import dictionary: five fields, no delimiter. */
  function RawHashInput(m: map<string, Value>): string {
    ItemText(m, "booking_date") + ItemText(m, "value_date") + ItemText(m, "amount")
    + ItemText(m, "payee") + ItemText(m, "purpose")
  }

  /** The hash input of a stored transaction: the same five fields. */
  function EntityHashInput(t: BankTransaction): string {
    Text(t.bookingDate) + Text(t.valueDate) + Text(t.amount) + Text(t.payee) + Text(t.purpose)
  }

  function HashProcess(rec: Record): Step {
    match rec
    case Raw(m) => Step(Raw(m["transaction_hash" := Str(Md5(RawHashInput(m)))]), None)
    case Entity(t) =>
      if Truthy(t.transactionHash) then Step(rec, None)
      else Step(Entity(t.(transactionHash := Str(Md5(EntityHashInput(t))))), None)
  }

  /** Keys other than the five hashed ones (payer and iban among them) never
      affect the import-time hash. */
  lemma {:induction false} RawHashIgnoresOtherKeys(m: map<string, Value>, key: string, v: Value)
    requires key !in HashKeys
    ensures RawHashInput(m[key := v]) == RawHashInput(m)
    ensures HashProcess(Raw(m[key := v])).record.items["transaction_hash"]
         == HashProcess(Raw(m)).record.items["transaction_hash"]
  {
    assert forall k :: k in HashKeys ==> ItemText(m[key := v], k) == ItemText(m, k);
  }

  /** The fields are concatenated without a delimiter, so different payees
      and purposes can give the same hash. */
  lemma {:induction false} RawHashAmbiguous(m: map<string, Value>)
    requires "payee" !in m && "purpose" !in m
    ensures RawHashInput(m["payee" := Str("ab")]["purpose" := Str("c")])
         == RawHashInput(m["payee" := Str("a")]["purpose" := Str("bc")])
  {
    var a := m["payee" := Str("ab")]["purpose" := Str("c")];
    var b := m["payee" := Str("a")]["purpose" := Str("bc")];
    assert ItemText(a, "booking_date") == ItemText(b, "booking_date");
    assert ItemText(a, "value_date") == ItemText(b, "value_date");
    assert ItemText(a, "amount") == ItemText(b, "amount");
    var p := ItemText(a, "booking_date") + ItemText(a, "value_date") + ItemText(a, "amount");
    assert RawHashInput(a) == p + "ab" + "c";
    assert RawHashInput(b) == p + "a" + "bc";
  }

  /** A stored transaction is hashed only when it has no hash yet, so hashing
      twice is the same as hashing once, and the hash written is 32 hex
      digits. */
  lemma {:induction false} EntityHashIdempotent(t: BankTransaction)
    ensures HashProcess(HashProcess(Entity(t)).record) == HashProcess(Entity(t))
    ensures var h := HashProcess(Entity(t)).record.tx.transactionHash;
      Truthy(t.transactionHash) ==> h == t.transactionHash
    ensures var h := HashProcess(Entity(t)).record.tx.transactionHash;
      !Truthy(t.transactionHash) ==> h.Str? && |h.s| == 32
  {
  }

  // ---------------------------------------------------------------------
  // Dispatch

  /** `stage.process(record)`, with the stage's new state. */
  function Process(stage: Stage, env: Env, rec: Record): (r: (Stage, Step))
    ensures ClassName(r.0) == ClassName(stage)
  {
    match stage
    case DateFormattingMiddleware => (stage, DateFormattingProcess(rec))
    case DataCleaningMiddleware => (stage, DataCleaningProcess(rec))
    case ApplyRulesMiddleware(_, _) => ApplyRulesProcess(stage, env, rec)
    case InternalTransferDetectionMiddleware(_) => InternalTransferProcess(stage, env, rec)
    case TransactionHashMiddleware => (stage, HashProcess(rec))
  }

  /** No stage turns a dictionary into a transaction object or back. */
  lemma {:induction false} ProcessKeepsKind(stage: Stage, env: Env, rec: Record)
    ensures Process(stage, env, rec).1.record.Raw? == rec.Raw?
  {
  }

  /** A stage's reference data is in place. */
  predicate Loaded(stage: Stage) {
    match stage
    case ApplyRulesMiddleware(rules, loaded) => loaded
    case InternalTransferDetectionMiddleware(own) => own.Some?
    case _ => true
  }

  /** Reference data is loaded at most once: a loaded stage keeps its state,
      and a successful query leaves the stage loaded. */
  lemma {:induction false} LoadedAtMostOnce(stage: Stage, env: Env, rec: Record)
    ensures Loaded(stage) ==> Process(stage, env, rec).0 == stage
    ensures env.available ==> Loaded(Process(stage, env, rec).0)
    ensures !Loaded(stage) && !env.available ==> Process(stage, env, rec).0 == stage
  {
  }
}
