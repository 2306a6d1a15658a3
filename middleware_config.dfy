/** `configure_transaction_middlewares`: the default stage order of the
    application's pipeline. */
module MiddlewareConfig {
  import opened Wrappers
  import opened Values
  import opened Models
  import opened Middlewares
  import opened Pipeline

  /** Cleaning, hashing, internal-transfer detection, rules, date formatting:
      each a fresh stage with nothing loaded yet. */
  const DefaultStages: seq<Stage> := [
    DataCleaningMiddleware,
    TransactionHashMiddleware,
    InternalTransferDetectionMiddleware(None),
    NewApplyRules(None),
    DateFormattingMiddleware
  ]

  /** Clears the pipeline, then appends the five stages; returns the same
      pipeline object. */
  method ConfigureTransactionMiddlewares(p: TransactionMiddlewarePipeline) returns (r: TransactionMiddlewarePipeline)
    modifies p
    ensures r == p && p.middlewares == DefaultStages
  {
    p.middlewares := [];
    p.AddMiddleware(DataCleaningMiddleware);
    p.AddMiddleware(TransactionHashMiddleware);
    p.AddMiddleware(InternalTransferDetectionMiddleware(None));
    p.AddMiddleware(NewApplyRules(None));
    p.AddMiddleware(DateFormattingMiddleware);
    r := p;
  }

  /** The order of the stages by class name; hashing runs before the dates
      are parsed, and the two caching stages start without reference data. */
  lemma {:induction false} DefaultOrder()
    ensures |DefaultStages| == 5
    ensures seq(5, k requires 0 <= k < 5 => ClassName(DefaultStages[k])) ==
      ["DataCleaningMiddleware", "TransactionHashMiddleware", "InternalTransferDetectionMiddleware",
       "ApplyRulesMiddleware", "DateFormattingMiddleware"]
    ensures !Loaded(DefaultStages[2]) && !Loaded(DefaultStages[3])
  {
  }

  /** On import, the hash stage sees the dictionary exactly as cleaning
      leaves it, and date formatting runs only on the hashed result; with
      `DataCleaningKeepsDates`, the hash of an imported row is therefore taken
      over the raw date texts of the bank statement. Stated for any `process`
      that cleans `Raw(m)` into `cleaned` and hashes that into `hashed`, as
      the concrete stages do (`CleaningStageActs`, `HashStageActs`). */
  lemma {:induction false} ImportHashBeforeDates(proc: Processor, m: map<string, Value>, cleaned: Record, hashed: Record)
    requires proc(DataCleaningMiddleware, Raw(m)) == (DataCleaningMiddleware, Step(cleaned, None))
    requires proc(TransactionHashMiddleware, cleaned) == (TransactionHashMiddleware, Step(hashed, None))
    ensures Run(proc, DefaultStages, Raw(m)) == Join(DefaultStages[..2], Run(proc, DefaultStages[2..], hashed))
  {
    var whole := Run(proc, DefaultStages, Raw(m));
    assert whole == Join([], whole) by {
      assert [] + whole.0 == whole.0;
    }
    assert DefaultStages[0] == DataCleaningMiddleware && DefaultStages[1..][0] == TransactionHashMiddleware;
    RunStep(proc, [], DefaultStages, Raw(m));
    assert [] + [DataCleaningMiddleware] == [DataCleaningMiddleware];
    assert whole == Join([DataCleaningMiddleware], Run(proc, DefaultStages[1..], cleaned));
    RunStep(proc, [DataCleaningMiddleware], DefaultStages[1..], cleaned);
    assert DefaultStages[1..][1..] == DefaultStages[2..];
    assert [DataCleaningMiddleware] + [TransactionHashMiddleware] == DefaultStages[..2];
  }

  /** The concrete cleaning stage is `DataCleaningProcess`. */
  lemma {:induction false} CleaningStageActs(env: Env, rec: Record)
    ensures StageProcess(env)(DataCleaningMiddleware, rec) == (DataCleaningMiddleware, DataCleaningProcess(rec))
  {
  }

  /** The concrete hash stage is `HashProcess`. */
  lemma {:induction false} HashStageActs(env: Env, rec: Record)
    ensures StageProcess(env)(TransactionHashMiddleware, rec) == (TransactionHashMiddleware, HashProcess(rec))
  {
  }

  /** Cleaning never touches the date keys of an import dictionary. */
  lemma {:induction false} DataCleaningKeepsDates(m: map<string, Value>)
    requires DataCleaningProcess(Raw(m)).fault.None?
    ensures DataCleaningProcess(Raw(m)).record.Raw?
    ensures forall k :: k in m && (k == "booking_date" || k == "value_date") ==>
      DataCleaningProcess(Raw(m)).record.items[k] == m[k]
  {
  }
}
