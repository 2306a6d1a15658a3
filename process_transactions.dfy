/** The `process` command of the transaction-processing CLI: the options
    become a list of filters, combined with AND; the `--only-*` flags replace
    the configured pipeline with one stage; then the stored transactions
    the filter selects are run through the pipeline again. */
module ProcessTransactions {
  import opened Wrappers
  import opened PyNum
  import opened PyDate
  import opened Values
  import opened Models
  import opened Middlewares
  import opened Store
  import opened Pipeline
  import opened MiddlewareConfig
  import opened TransactionService
  import TransactionsRoutes

  /** The parsed command line; an option not given is `None`. */
  datatype CliArgs = CliArgs(
    startDate: Option<string>,
    endDate: Option<string>,
    categoryId: Option<string>,
    minAmount: Option<string>,
    maxAmount: Option<string>,
    onlyRules: bool,
    onlyTransfers: bool,
    onlyCleaning: bool,
    onlyHashing: bool)

  /** `if args.x:`: given and not empty. */
  predicate Given(o: Option<string>) {
    o.Some? && o.value != ""
  }

  /** One of the filters the options add. */
  datatype Criterion =
    | BookedFrom(start: Date)
    | BookedUntil(end: Date)
    | Uncategorized
    | HasCategory
    | InCategory(category: int)
    | AmountAtLeast(min: Decimal)
    | AmountAtMost(max: Decimal)

  /** The options that end the command before anything is processed. */
  datatype CliError = InvalidCategoryId(text: string) | InvalidMinAmount(text: string) | InvalidMaxAmount(text: string)

  // ---------------------------------------------------------------------
  // Python comparisons of stored values

  /** `value >= date` / `value <= date`: a date compares; None, a
      `datetime` or any other value raises `TypeError`. */
  function CompareDate(v: Value, d: Date, atLeast: bool): (r: Result<bool, Fault>)
    ensures r.Err? <==> !v.DateVal?
    ensures v.DateVal? ==> r == Ok(if atLeast then !Before(v.d, d) else !Before(d, v.d))
  {
    match v
    case DateVal(b) => Ok(if atLeast then !Before(b, d) else !Before(d, b))
    case _ => Err(TypeError)
  }

  /** The number a numeric value stands for (`bool` is an `int`). */
  function NumberOf(v: Value): Option<real> {
    match v
    case Float(x) => Some(RealOf(x))
    case Int(i) => Some(i as real)
    case Bool(b) => Some(if b then 1.0 else 0.0)
    case _ => None
  }

  /** `value >= x` / `value <= x` for a float `x`: a number compares;
      anything else raises `TypeError`. */
  function CompareAmount(v: Value, x: Decimal, atLeast: bool): (r: Result<bool, Fault>)
    ensures r.Err? <==> NumberOf(v).None?
    ensures NumberOf(v).Some? ==>
      r == Ok(if atLeast then NumberOf(v).value >= RealOf(x) else NumberOf(v).value <= RealOf(x))
  {
    match NumberOf(v)
    case Some(n) => Ok(if atLeast then n >= RealOf(x) else n <= RealOf(x))
    case None => Err(TypeError)
  }

  /** `value == i`, which never raises: numbers compare by value, anything
      else is unequal. */
  function EqualsInt(v: Value, i: int): (r: bool)
    ensures r <==> NumberOf(v) == Some(i as real)
  {
    match NumberOf(v)
    case Some(n) => n == i as real
    case None => false
  }

  /** One filter applied to a transaction. */
  function Holds(c: Criterion, tx: BankTransaction): Result<bool, Fault> {
    match c
    case BookedFrom(d) => CompareDate(tx.bookingDate, d, true)
    case BookedUntil(d) => CompareDate(tx.bookingDate, d, false)
    case Uncategorized => Ok(tx.categoryId == NoneVal)
    case HasCategory => Ok(tx.categoryId != NoneVal)
    case InCategory(i) => Ok(EqualsInt(tx.categoryId, i))
    case AmountAtLeast(x) => CompareAmount(tx.amount, x, true)
    case AmountAtMost(x) => CompareAmount(tx.amount, x, false)
  }

  /** `all(f(tx) for f in filters)`: the filters in order, stopping at the
      first false one; an exception before that is raised. */
  function AllHold(cs: seq<Criterion>, tx: BankTransaction): Result<bool, Fault>
    decreases |cs|
  {
    if cs == [] then Ok(true)
    else
      match Holds(cs[0], tx)
      case Err(e) => Err(e)
      case Ok(false) => Ok(false)
      case Ok(true) => AllHold(cs[1..], tx)
  }

  /** The combined filter accepts exactly when every filter holds; it is
      false exactly when some filter is false and all before it hold; it
      raises exactly when some filter raises and all before it hold. */
  lemma {:induction false} AllHoldMeaning(cs: seq<Criterion>, tx: BankTransaction)
    ensures AllHold(cs, tx) == Ok(true) <==> forall k :: 0 <= k < |cs| ==> Holds(cs[k], tx) == Ok(true)
    ensures AllHold(cs, tx) == Ok(false) <==>
      exists k :: 0 <= k < |cs| && Holds(cs[k], tx) == Ok(false) && forall j :: 0 <= j < k ==> Holds(cs[j], tx) == Ok(true)
    ensures AllHold(cs, tx).Err? <==>
      exists k :: 0 <= k < |cs| && Holds(cs[k], tx).Err? && forall j :: 0 <= j < k ==> Holds(cs[j], tx) == Ok(true)
    decreases |cs|
  {
    if cs != [] {
      AllHoldMeaning(cs[1..], tx);
      assert forall k :: 1 <= k < |cs| ==> cs[1..][k - 1] == cs[k];
      if Holds(cs[0], tx) == Ok(true) {
        if AllHold(cs, tx) == Ok(false) {
          var k :| 0 <= k < |cs[1..]| && Holds(cs[1..][k], tx) == Ok(false)
            && forall j :: 0 <= j < k ==> Holds(cs[1..][j], tx) == Ok(true);
          assert Holds(cs[k + 1], tx) == Ok(false);
        }
        if AllHold(cs, tx).Err? {
          var k :| 0 <= k < |cs[1..]| && Holds(cs[1..][k], tx).Err?
            && forall j :: 0 <= j < k ==> Holds(cs[1..][j], tx) == Ok(true);
          assert Holds(cs[k + 1], tx).Err?;
        }
      }
    }
  }

  /** `filter_func`: no filter at all when the list is empty. */
  function Combined(cs: seq<Criterion>): (r: Option<TxFilter>)
    ensures r.None? <==> cs == []
    ensures r.Some? ==> forall tx: BankTransaction :: r.value(tx) == AllHold(cs, tx)
  {
    if cs == [] then None else Some((tx: BankTransaction) => AllHold(cs, tx))
  }

  /** With no option given every stored transaction is selected, in order. */
  lemma {:induction false} NoFilterSelectsAll(ts: seq<BankTransaction>)
    ensures Select(ts, Combined([])) == Ok(seq(|ts|, k => k))
  {
  }

  /** With filters, a transaction is selected exactly when every filter
      holds for it (when none raises). */
  lemma {:induction false} FilterSelects(ts: seq<BankTransaction>, cs: seq<Criterion>, i: nat)
    requires cs != [] && i < |ts|
    requires Select(ts, Combined(cs)).Ok?
    ensures i in Select(ts, Combined(cs)).value <==> forall k :: 0 <= k < |cs| ==> Holds(cs[k], ts[i]) == Ok(true)
  {
    AllHoldMeaning(cs, ts[i]);
  }

  // ---------------------------------------------------------------------
  // The filters the options add

  /** `--start-date`: a filter when the text parses as "%Y-%m-%d", none
      otherwise. */
  function StartPart(args: CliArgs): (r: seq<Criterion>)
    ensures |r| <= 1
    ensures r != [] <==> Given(args.startDate) && TransactionsRoutes.ParseDate(args.startDate, IsoDateFormat).Some?
    ensures r != [] ==> r == [BookedFrom(TransactionsRoutes.ParseDate(args.startDate, IsoDateFormat).value)]
  {
    if !Given(args.startDate) then []
    else
      match TransactionsRoutes.ParseDate(args.startDate, IsoDateFormat)
      case Some(d) => [BookedFrom(d)]
      case None => []
  }

  /** `--end-date`, alike. */
  function EndPart(args: CliArgs): (r: seq<Criterion>)
    ensures |r| <= 1
    ensures r != [] <==> Given(args.endDate) && TransactionsRoutes.ParseDate(args.endDate, IsoDateFormat).Some?
    ensures r != [] ==> r == [BookedUntil(TransactionsRoutes.ParseDate(args.endDate, IsoDateFormat).value)]
  {
    if !Given(args.endDate) then []
    else
      match TransactionsRoutes.ParseDate(args.endDate, IsoDateFormat)
      case Some(d) => [BookedUntil(d)]
      case None => []
  }

  /** `--category-id`: "null", "not_null", or an integer; anything else
      ends the command. */
  function CategoryPart(args: CliArgs): (r: Result<seq<Criterion>, CliError>)
    ensures r.Ok? ==> |r.value| <= 1
    ensures r.Err? <==>
      Given(args.categoryId) && args.categoryId.value != "null" && args.categoryId.value != "not_null"
      && ParseInt(args.categoryId.value).None?
    ensures r.Err? ==> r.error == InvalidCategoryId(args.categoryId.value)
    ensures r == Ok([]) <==> !Given(args.categoryId)
  {
    if !Given(args.categoryId) then Ok([])
    else if args.categoryId.value == "null" then Ok([Uncategorized])
    else if args.categoryId.value == "not_null" then Ok([HasCategory])
    else
      match ParseInt(args.categoryId.value)
      case Some(i) => Ok([InCategory(i)])
      case None => Err(InvalidCategoryId(args.categoryId.value))
  }

  /** `--min-amount`: a float; anything else ends the command. */
  function MinPart(args: CliArgs): (r: Result<seq<Criterion>, CliError>)
    ensures r.Ok? ==> |r.value| <= 1
    ensures r.Err? <==> Given(args.minAmount) && ParseFloat(args.minAmount.value).None?
    ensures r.Err? ==> r.error == InvalidMinAmount(args.minAmount.value)
    ensures r.Ok? && r.value != [] ==>
      Given(args.minAmount) && ParseFloat(args.minAmount.value).Some? && r.value == [AmountAtLeast(ParseFloat(args.minAmount.value).value)]
  {
    if !Given(args.minAmount) then Ok([])
    else
      match ParseFloat(args.minAmount.value)
      case Some(x) => Ok([AmountAtLeast(x)])
      case None => Err(InvalidMinAmount(args.minAmount.value))
  }

  /** `--max-amount`, alike. */
  function MaxPart(args: CliArgs): (r: Result<seq<Criterion>, CliError>)
    ensures r.Ok? ==> |r.value| <= 1
    ensures r.Err? <==> Given(args.maxAmount) && ParseFloat(args.maxAmount.value).None?
    ensures r.Err? ==> r.error == InvalidMaxAmount(args.maxAmount.value)
    ensures r.Ok? && r.value != [] ==>
      Given(args.maxAmount) && ParseFloat(args.maxAmount.value).Some? && r.value == [AmountAtMost(ParseFloat(args.maxAmount.value).value)]
  {
    if !Given(args.maxAmount) then Ok([])
    else
      match ParseFloat(args.maxAmount.value)
      case Some(x) => Ok([AmountAtMost(x)])
      case None => Err(InvalidMaxAmount(args.maxAmount.value))
  }

  /** The filter list: start, end, category, minimum, maximum, in that
      order; the first invalid option among category, minimum and maximum
      ends the command. */
  function Criteria(args: CliArgs): (r: Result<seq<Criterion>, CliError>)
    ensures r.Err? <==> CategoryPart(args).Err? || MinPart(args).Err? || MaxPart(args).Err?
    ensures CategoryPart(args).Err? ==> r == Err(CategoryPart(args).error)
    ensures CategoryPart(args).Ok? && MinPart(args).Err? ==> r == Err(MinPart(args).error)
    ensures CategoryPart(args).Ok? && MinPart(args).Ok? && MaxPart(args).Err? ==> r == Err(MaxPart(args).error)
    ensures r.Ok? ==>
      r.value == StartPart(args) + EndPart(args) + CategoryPart(args).value + MinPart(args).value + MaxPart(args).value
  {
    match CategoryPart(args)
    case Err(e) => Err(e)
    case Ok(category) =>
      match MinPart(args)
      case Err(e) => Err(e)
      case Ok(min) =>
        match MaxPart(args)
        case Err(e) => Err(e)
        case Ok(max) => Ok(StartPart(args) + EndPart(args) + category + min + max)
  }

  /** A date option that does not parse adds no filter and stops nothing:
      the command runs as if it had not been given. */
  lemma {:induction false} BadStartDateIgnored(args: CliArgs)
    requires Given(args.startDate) && TransactionsRoutes.ParseDate(args.startDate, IsoDateFormat).None?
    ensures Criteria(args) == Criteria(args.(startDate := None))
  {
    var other := args.(startDate := None);
    assert StartPart(args) == [] == StartPart(other);
    assert EndPart(args) == EndPart(other);
    assert CategoryPart(args) == CategoryPart(other);
    assert MinPart(args) == MinPart(other);
    assert MaxPart(args) == MaxPart(other);
  }

  /** The same for the end date. */
  lemma {:induction false} BadEndDateIgnored(args: CliArgs)
    requires Given(args.endDate) && TransactionsRoutes.ParseDate(args.endDate, IsoDateFormat).None?
    ensures Criteria(args) == Criteria(args.(endDate := None))
  {
    var other := args.(endDate := None);
    assert EndPart(args) == [] == EndPart(other);
    assert StartPart(args) == StartPart(other);
    assert CategoryPart(args) == CategoryPart(other);
    assert MinPart(args) == MinPart(other);
    assert MaxPart(args) == MaxPart(other);
  }

  /** "null" keeps exactly the uncategorized transactions, "not_null"
      exactly the others. */
  lemma {:induction false} CategoryNullMeaning(args: CliArgs, tx: BankTransaction)
    requires Given(args.categoryId)
    ensures args.categoryId.value == "null" ==>
      CategoryPart(args) == Ok([Uncategorized]) && (Holds(Uncategorized, tx) == Ok(true) <==> tx.categoryId == NoneVal)
    ensures args.categoryId.value == "not_null" ==>
      CategoryPart(args) == Ok([HasCategory]) && (Holds(HasCategory, tx) == Ok(true) <==> tx.categoryId != NoneVal)
  {
  }

  /** An integer category keeps exactly the transactions of that category. */
  lemma {:induction false} CategoryIdMeaning(args: CliArgs, i: int, t: BankTransaction)
    requires Given(args.categoryId) && args.categoryId.value != "null" && args.categoryId.value != "not_null"
    requires ParseInt(args.categoryId.value) == Some(i)
    requires t.categoryId.Int? || t.categoryId.NoneVal?
    ensures CategoryPart(args) == Ok([InCategory(i)])
    ensures Holds(InCategory(i), t) == Ok(true) <==> t.categoryId == Int(i)
  {
  }

  /** The date filters, appended as the command appends them. */
  method DateFilters(args: CliArgs) returns (filters: seq<Criterion>)
    ensures filters == StartPart(args) + EndPart(args)
  {
    filters := [];
    if Given(args.startDate) {
      var startDate := TransactionsRoutes.ParseDate(args.startDate, IsoDateFormat);
      if startDate.Some? {
        filters := filters + [BookedFrom(startDate.value)];
      }
    }
    assert filters == StartPart(args);
    if Given(args.endDate) {
      var endDate := TransactionsRoutes.ParseDate(args.endDate, IsoDateFormat);
      if endDate.Some? {
        filters := filters + [BookedUntil(endDate.value)];
      }
    }
  }

  /** The `--category-id` branch: appends its filter, or stops the command. */
  method CategoryFilter(args: CliArgs, filters: seq<Criterion>) returns (r: Result<seq<Criterion>, CliError>)
    ensures CategoryPart(args).Err? ==> r == Err(CategoryPart(args).error)
    ensures CategoryPart(args).Ok? ==> r == Ok(filters + CategoryPart(args).value)
  {
    assert filters + [] == filters;
    r := Ok(filters);
    if Given(args.categoryId) {
      if args.categoryId.value == "null" {
        r := Ok(filters + [Uncategorized]);
      } else if args.categoryId.value == "not_null" {
        r := Ok(filters + [HasCategory]);
      } else {
        var categoryId := ParseInt(args.categoryId.value);
        if categoryId.None? {
          return Err(InvalidCategoryId(args.categoryId.value));
        }
        r := Ok(filters + [InCategory(categoryId.value)]);
      }
    }
  }

  /** The `--min-amount` branch. */
  method MinFilter(args: CliArgs, filters: seq<Criterion>) returns (r: Result<seq<Criterion>, CliError>)
    ensures MinPart(args).Err? ==> r == Err(MinPart(args).error)
    ensures MinPart(args).Ok? ==> r == Ok(filters + MinPart(args).value)
  {
    assert filters + [] == filters;
    r := Ok(filters);
    if Given(args.minAmount) {
      var minAmount := ParseFloat(args.minAmount.value);
      if minAmount.None? {
        return Err(InvalidMinAmount(args.minAmount.value));
      }
      r := Ok(filters + [AmountAtLeast(minAmount.value)]);
    }
  }

  /** The `--max-amount` branch. */
  method MaxFilter(args: CliArgs, filters: seq<Criterion>) returns (r: Result<seq<Criterion>, CliError>)
    ensures MaxPart(args).Err? ==> r == Err(MaxPart(args).error)
    ensures MaxPart(args).Ok? ==> r == Ok(filters + MaxPart(args).value)
  {
    assert filters + [] == filters;
    r := Ok(filters);
    if Given(args.maxAmount) {
      var maxAmount := ParseFloat(args.maxAmount.value);
      if maxAmount.None? {
        return Err(InvalidMaxAmount(args.maxAmount.value));
      }
      r := Ok(filters + [AmountAtMost(maxAmount.value)]);
    }
  }

  /** The filter list as the command builds it, one `append` at a time. */
  method CollectFilters(args: CliArgs) returns (r: Result<seq<Criterion>, CliError>)
    ensures r == Criteria(args)
  {
    var filters := DateFilters(args);
    r := CategoryFilter(args, filters);
    if r.Err? {
      return;
    }
    r := MinFilter(args, r.value);
    if r.Err? {
      return;
    }
    r := MaxFilter(args, r.value);
  }

  // ---------------------------------------------------------------------
  // The pipeline override

  /** The stages after the `--only-*` flags: each set flag replaces the
      whole list with one fresh stage, so the last one set wins. */
  function Overridden(stages: seq<Stage>, args: CliArgs): (r: seq<Stage>)
    ensures !(args.onlyRules || args.onlyTransfers || args.onlyCleaning || args.onlyHashing) ==> r == stages
    ensures args.onlyHashing ==> r == [TransactionHashMiddleware]
    ensures !args.onlyHashing && args.onlyCleaning ==> r == [DataCleaningMiddleware]
    ensures !args.onlyHashing && !args.onlyCleaning && args.onlyTransfers ==> r == [InternalTransferDetectionMiddleware(None)]
    ensures !args.onlyHashing && !args.onlyCleaning && !args.onlyTransfers && args.onlyRules ==> r == [NewApplyRules(None)]
  {
    var s1 := if args.onlyRules then [NewApplyRules(None)] else stages;
    var s2 := if args.onlyTransfers then [InternalTransferDetectionMiddleware(None)] else s1;
    var s3 := if args.onlyCleaning then [DataCleaningMiddleware] else s2;
    if args.onlyHashing then [TransactionHashMiddleware] else s3
  }

  /** With any flag set, the pipeline has exactly one stage, of one of the
      four classes. */
  lemma {:induction false} OverrideIsSingleStage(stages: seq<Stage>, args: CliArgs)
    requires args.onlyRules || args.onlyTransfers || args.onlyCleaning || args.onlyHashing
    ensures |Overridden(stages, args)| == 1
    ensures ClassName(Overridden(stages, args)[0]) in
      {"ApplyRulesMiddleware", "InternalTransferDetectionMiddleware", "DataCleaningMiddleware", "TransactionHashMiddleware"}
  {
  }

  /** The four assignments to `transaction_pipeline.middlewares`. */
  method OverridePipeline(p: TransactionMiddlewarePipeline, args: CliArgs)
    modifies p
    ensures p.middlewares == Overridden(old(p.middlewares), args)
  {
    if args.onlyRules {
      p.middlewares := [NewApplyRules(None)];
    }
    if args.onlyTransfers {
      p.middlewares := [InternalTransferDetectionMiddleware(None)];
    }
    if args.onlyCleaning {
      p.middlewares := [DataCleaningMiddleware];
    }
    if args.onlyHashing {
      p.middlewares := [TransactionHashMiddleware];
    }
  }

  // ---------------------------------------------------------------------
  // process_transactions

  /** How the command ends: the count it logs, an invalid option, or the
      exception `process_existing_transactions` raises. */
  datatype CliOutcome = Processed(count: nat) | Invalid(error: CliError) | Raised(fault: Fault)

  /** `process_transactions`: creating the app configures the default
      pipeline; an invalid option stops there with nothing processed;
      otherwise the flags override the pipeline and the selected
      transactions are processed again and committed. */
  method ProcessTransactionsCommand(p: TransactionMiddlewarePipeline, proc: Processor, db: Database,
                                    args: CliArgs, commitOk: bool)
    returns (outcome: CliOutcome)
    requires KeepsKind(proc) && db.Valid()
    modifies p, db
    ensures db.Valid()
    ensures Criteria(args).Err? ==>
      && outcome == Invalid(Criteria(args).error) && p.middlewares == DefaultStages
      && db.working == old(db.working) && db.committed == old(db.committed)
    ensures Criteria(args).Ok? ==>
      var stages := Overridden(DefaultStages, args);
      var sel := Select(old(db.working.transactions), Combined(Criteria(args).value));
      && (sel.Err? ==> outcome == Raised(sel.error) && p.middlewares == stages
                       && db.working == db.committed == old(db.committed))
      && (sel.Ok? ==>
            var (st, ts) := ExistingRun(proc, stages, old(db.working.transactions), sel.value);
            && p.middlewares == st
            && (outcome.Processed? <==> commitOk && UniqueHashes(ts))
            && (outcome.Processed? ==> outcome.count == |sel.value| && db.working == db.committed == old(db.working).(transactions := ts))
            && (!outcome.Processed? ==> outcome == Raised(DatabaseError) && db.working == db.committed == old(db.committed)))
  {
    var configured := ConfigureTransactionMiddlewares(p);
    var filters := CollectFilters(args);
    if filters.Err? {
      return Invalid(filters.error);
    }
    var filterFunc := Combined(filters.value);
    OverridePipeline(p, args);
    var count := ProcessExisting(p, proc, db, filterFunc, commitOk);
    if count.Ok? {
      outcome := Processed(count.value);
    } else {
      outcome := Raised(count.error);
    }
  }
}
