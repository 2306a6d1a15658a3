# Finance tracker backend: transaction processing core

This project models, in Dafny, the transaction-processing core of the money
backend of a personal finance tracker. It proves properties about that model.
The backend imports bank statements from CSV files. It runs each record
through a pipeline of middleware stages:

- cleaning;
- fingerprinting (an MD5 "transaction hash" used to detect duplicates);
- internal-transfer detection;
- categorisation by user rules;
- date parsing.

It stores the records and skips duplicates. It can re-run the pipeline over
stored records, backfill missing hashes, and apply, revert and edit rules.

The model covers these modules:

- `RuleEngine`: condition, rule and first-match evaluation.
- `Pipeline`: the `TransactionMiddlewarePipeline` class, a mutable list of stages.
- `Middlewares`: the five stages as values that carry their caches.
- `MiddlewareConfig`: the stage order.
- `TransactionService`: import, save, reprocess and update.
- `HashBackfill`: the eight-field hash and `update_transaction_hashes`.
- `PreprocessCsv`: the bank-export conversion script.
- `TransactionsRoutes`: the import route's row logic, apply and revert of a rule, and the category hierarchy.
- `RulesRoutes`: rule create and update.
- `ProcessTransactions`: the CLI's filters and pipeline override.

Supporting modules:

- `Models`: the `BankTransaction`, `Rule` and `RuleCondition` records.
- `Values`: Python's dynamic values.
- `Store`: the database session, as a class with a committed and a working snapshot.
- `Digest`: an MD5 stand-in.
- `PyStr`, `PyNum`, `PyDate`: the Python builtins the code relies on (`strip`, `lower`, `float()`, `int()`, `strptime`).

Conventions of the model:

- **Dynamic values.** A Python value carried by a dictionary or an attribute is a `Values.Value`. It is None, a string, an int, an exact decimal float, a bool, a date or a datetime. Truthiness and `str()` are defined per variant.
- **Records.** A record handed to a stage is `Raw(map)` (the import dictionary) or `Entity(BankTransaction)` (a stored ORM object).
- **Stages.** A stage's `process()` returns the record as it stands when it stops, together with the exception it raised, if any.
- **Caches.** The stage caches (`ApplyRulesMiddleware.rules` and `_rules_loaded`, and `InternalTransferDetectionMiddleware.own_ibans`) are fields of the stage values held in the pipeline. Processing returns the updated stage.
- **Reference data.** The data a stage loads (rules, bank accounts) comes from an `Env` value. `available == false` stands for a failing query.
- **The database.** It is `Store.Database`:
  - `working` is the session state; queries read it (autoflush);
  - `committed` is the last committed state;
  - `Commit(ok)` succeeds only when `ok` holds and the `transaction_hash` column stays unique;
  - a failed commit keeps `committed` and leaves `working` as it is. The callers that catch the error call `Rollback`, which resets `working` to `committed`; `ProcessDbTransactions` and `UpdateTransactionHashes` do not, as in the source.

  Per-record failures inside a loop are given as a set of indices (`failing`). Commit failures are given as booleans (`commitOk`).
- **Duplicate check.** The hash query in `save_transactions` sees records added earlier in the same batch. Of two records with the same hash, at most one is kept. If the hash is already stored, neither is kept. If the first record fails or sets a relationship, the second is kept.

## Model

| member | source | states |
|---|---|---|
| RuleEngine.EvaluateCondition | money-backend/app/utils/rule_engine.py:11-29 | a condition on a missing or None attribute is false; a relationship name reads as None here (see Left out). Otherwise the lowercased `str()` of the attribute is compared with the lowercased condition value by equals, contains (substring), starts_with (prefix) or ends_with (suffix), and any other operator is false |
| RuleEngine.ConditionValueCaseInsensitive | money-backend/app/utils/rule_engine.py:18 | replacing the condition value by any text with the same lowercase form never changes the outcome |
| RuleEngine.FieldValueCaseInsensitive | money-backend/app/utils/rule_engine.py:17 | replacing the attribute by any text with the same lowercase form never changes the outcome |
| RuleEngine.StartsWithMeans | money-backend/app/utils/rule_engine.py:25 | `startswith(p)` holds iff the text is `p` followed by something |
| RuleEngine.EndsWithMeans | money-backend/app/utils/rule_engine.py:27 | `endswith(p)` holds iff the text is something followed by `p` |
| RuleEngine.AllHold | money-backend/app/utils/rule_engine.py:48-51 | `all(...)` over the conditions holds iff every condition holds |
| RuleEngine.AnyHolds | money-backend/app/utils/rule_engine.py:53-56 | `any(...)` over the conditions holds iff some condition holds |
| RuleEngine.EvaluateRule | money-backend/app/utils/rule_engine.py:32-75 | a detached rule and a rule without conditions never match. "OR" matches iff some condition holds. Every other operator matches iff every condition holds |
| RuleEngine.UnknownOperatorIsAnd | money-backend/app/utils/rule_engine.py:57-63 | every logical operator other than "OR" behaves exactly like "AND" |
| RuleEngine.ApplyRules | money-backend/app/utils/rule_engine.py:78-92 | matched iff some rule matches. Then the category and id are those of the first matching rule in list order. Otherwise the result is `(False, None, None)` |
| RuleEngine.LaterRulesIgnored | money-backend/app/utils/rule_engine.py:87-90 | once some rule of a list matches, appending more rules never changes the result |
| Models.ColumnOf | money-backend/app/models/transaction.py:7-27 | a name recognised as a column is the name of that column |
| Models.RelationOf | money-backend/app/models/transaction.py:29-35 | a name recognised as a relationship (`category`, `applied_rule`, `bank_account`) is that relationship's name, and no other name is one |
| Models.ColumnOfName | money-backend/app/models/transaction.py:7-27 | every column's own name is recognised as that column, so the column list and the attribute names are in one-to-one correspondence |
| Models.GetSet | money-backend/app/models/transaction.py:7-27 | setting a column makes it read back the new value and leaves every other column unchanged |
| Models.GetSetAttr | money-backend/app/utils/transaction_service.py:80-82 | `setattr` of a column name updates that column only. A relationship accepts only None, which clears its foreign key at the flush and changes no other column; any other value raises. A name that is no attribute changes nothing |
| Models.ColumnsDetermine | money-backend/app/models/transaction.py:7-27 | two transactions that agree on every column are equal |
| Models.FromItems | money-backend/app/utils/transaction_service.py:77-84 | a fresh transaction filled from a dictionary reads every column from the key of that name, and None where the key is absent; before a flush a relationship key leaves the foreign key as it is |
| Models.FromItemsIgnoresOtherKeys | money-backend/app/utils/transaction_middlewares.py:141-146 | keys that are not columns never affect the unflushed transaction built from a dictionary |
| Models.Overlay | money-backend/app/utils/transaction_service.py:233-238 | applying updates in memory sets exactly the columns named by update keys and keeps the others |
| Models.OverlayWithoutColumns | money-backend/app/utils/transaction_service.py:233-238 | updates without column keys leave the in-memory transaction unchanged |
| Models.Flushed | money-backend/app/models/transaction.py:20-35 | the flush writes None into the foreign key of every relationship the dictionary set, whatever that column held, and keeps every other column |
| Models.UpdatedRow | money-backend/app/utils/transaction_service.py:233-247 | an update is refused iff a relationship key holds something other than None. Otherwise each column takes the value of its key, the foreign key of every relationship set is None, and every other column is kept |
| Models.SingleUpdate | money-backend/app/utils/transaction_service.py:233-238 | an update dictionary with one key does what a single `setattr` of that key does |
| Models.WithInsertDefaults | money-backend/app/models/transaction.py:27 | on insert, an unset `is_internal_transfer` becomes false and nothing else changes |
| Values.TextOrEmpty | money-backend/app/utils/generate_transaction_hashes.py:31-32 | `x or ''` renders a falsy value as "" and a string as itself |
| Digest.Md5 | money-backend/app/utils/generate_transaction_hashes.py:36 | the digest is always 32 lowercase hexadecimal characters |
| Store.Database.constructor | money-backend/app/models/transaction.py:21 | a database starts with equal committed and working states whose hashes are unique |
| Store.Database.Commit | money-backend/app/utils/transaction_service.py:97 | a commit succeeds iff it is allowed and the working transactions keep unique hashes. Success makes the working state the committed one; failure keeps the old committed state |
| Store.Database.Rollback | money-backend/app/utils/transaction_service.py:105 | rolling back restores the working state to the last committed one |
| Store.FirstWithHash | money-backend/app/utils/transaction_service.py:64-66 | `filter_by(transaction_hash=h).first()` finds the first transaction with that hash, or reports that none has it |
| Store.IndexOfId | money-backend/app/utils/transaction_service.py:227 | `query.get(id)` finds the transaction with that id, or reports that none has it |
| Store.IndexOfRule | money-backend/app/routes/rules/__init__.py:106 | `Rule.query.get_or_404(id)` finds the rule with that id, or reports that none has it |
| Store.SelectFrom | money-backend/app/utils/transaction_service.py:153-154 | the selection lists, in ascending order, exactly the positions whose record passes the filter. It fails iff the filter raises on some record |
| Store.Select | money-backend/app/utils/transaction_service.py:151-158 | without a filter every position is selected; with one, the filtered positions |
| Middlewares.ParseDate | money-backend/app/utils/transaction_middlewares.py:29-40 | only a string can be parsed (anything else raises `TypeError`). Text containing 'T' gives a datetime or None; other text gives a date or None |
| Middlewares.ParseDateIso | money-backend/app/utils/transaction_middlewares.py:30-33 | the ISO text of every valid datetime parses back to that datetime |
| Middlewares.ParseDateShortYear | money-backend/app/utils/transaction_middlewares.py:37-38 | "DD.MM.YY" text of a date in 1969-2068 parses back to that date |
| Middlewares.DateFormattingFrame | money-backend/app/utils/transaction_middlewares.py:43-49 | the dictionary branch keeps the same keys, rewrites only truthy booking and value dates (to their parsed values), and leaves every other key alone |
| Middlewares.StripItem | money-backend/app/utils/transaction_middlewares.py:70-75 | a truthy entry is stripped and a falsy one kept. Other keys are unchanged. A truthy non-string raises |
| Middlewares.StripAttr | money-backend/app/utils/transaction_middlewares.py:89-94 | the same for one attribute of a stored transaction; all other columns are unchanged |
| Middlewares.AmountText | money-backend/app/utils/transaction_middlewares.py:80 | the rewritten amount text contains no ',' and text without '.' or ',' is unchanged |
| Middlewares.GermanAmountText | money-backend/app/utils/transaction_middlewares.py:80-82 | a German amount (an optional '-', digit groups joined by '.', then ',' and the cents) becomes its digits with '.' before the cents, has nothing to strip, and `float` reads it as the signed number those digits give with the cents as decimals |
| Middlewares.CleanAmount | money-backend/app/utils/transaction_middlewares.py:78-84 | only the "amount" entry changes: a string becomes its float value, or stays itself when `float()` fails |
| Middlewares.AliasIbanMeaning | money-backend/app/utils/transaction_middlewares.py:85-86 | the saving-plan IBAN becomes the Trade Republic IBAN and every other IBAN is unchanged |
| Middlewares.DataCleaningRaw | money-backend/app/utils/transaction_middlewares.py:67-86 | the dictionary branch keeps the keys and fails exactly when there is no "iban" key (a `KeyError`) |
| Middlewares.DataCleaningRawValues | money-backend/app/utils/transaction_middlewares.py:78-86 | after cleaning, "iban" holds the aliased IBAN and "amount" the cleaned amount |
| Middlewares.DataCleaningRawTexts | money-backend/app/utils/transaction_middlewares.py:70-75 | purpose, payee and payer are stripped when truthy, and keys other than these, amount and iban are unchanged |
| Middlewares.DataCleaningEntity | money-backend/app/utils/transaction_middlewares.py:87-97 | the object branch strips the three texts when truthy and aliases the IBAN. Every other column is unchanged and it never fails |
| Middlewares.SortBy | money-backend/app/utils/transaction_middlewares.py:125 | `order_by` yields a sorted permutation of its input |
| Middlewares.SortByCreation | money-backend/app/utils/transaction_middlewares.py:125 | the rules loaded are a permutation of the stored rules in `created_at` order |
| Middlewares.LoadRules | money-backend/app/utils/transaction_middlewares.py:117-132 | the first load replaces any rules given to the constructor by the stored rules in creation order and marks them loaded. A loaded stage is kept. A failing query leaves the stage as it was |
| Middlewares.ApplyRulesProcess | money-backend/app/utils/transaction_middlewares.py:134-171 | the stage never raises and stays an ApplyRules stage |
| Middlewares.ApplyRulesRaw | money-backend/app/utils/transaction_middlewares.py:140-154 | a dictionary gets the category and rule id of the first matching rule (matched on the transaction built from its column keys). Without a match it is unchanged, and so it is when a relationship key holds something other than None (the `setattr` error is caught); no other key changes |
| Middlewares.ApplyRulesEntity | money-backend/app/utils/transaction_middlewares.py:155-163 | a stored transaction with a truthy category, or one that no rule matches, is unchanged. Otherwise it gets the category and id of a rule that matches while no earlier rule does |
| Middlewares.ApplyRulesLoadFailure | money-backend/app/utils/transaction_middlewares.py:166-171 | when loading the rules fails, the record is returned unchanged and no error escapes |
| Middlewares.NonEmptyIbans | money-backend/app/utils/transaction_middlewares.py:194 | the own IBANs are exactly the non-empty account IBANs |
| Middlewares.LoadIbans | money-backend/app/utils/transaction_middlewares.py:188-194 | IBANs are loaded only when none are held, and then kept |
| Middlewares.InternalTransferProcess | money-backend/app/utils/transaction_middlewares.py:196-225 | the stage stays an internal-transfer stage |
| Middlewares.InternalTransferMeaning | money-backend/app/utils/transaction_middlewares.py:199-223 | `is_internal_transfer` is always written, true iff both IBANs are truthy and both are own IBANs. A failing account query raises before anything is written |
| Middlewares.RawHashIgnoresOtherKeys | money-backend/app/utils/transaction_middlewares.py:236-245 | the dictionary hash depends only on booking_date, value_date, amount, payee and purpose, so payer, iban and every other key never affect it |
| Middlewares.RawHashAmbiguous | money-backend/app/utils/transaction_middlewares.py:236-242 | because the five fields are concatenated without a delimiter, payee "ab" with purpose "c" gives the same hash input as payee "a" with purpose "bc" |
| Middlewares.EntityHashIdempotent | money-backend/app/utils/transaction_middlewares.py:247-258 | the object branch keeps an existing hash and otherwise sets a 32-character one, so hashing twice equals hashing once |
| Middlewares.Process | money-backend/app/utils/transaction_middleware.py:36-37 | processing never changes a stage's class name |
| Middlewares.ProcessKeepsKind | money-backend/app/utils/transaction_middlewares.py:42-258 | every stage returns a dictionary for a dictionary and an object for an object |
| Middlewares.LoadedAtMostOnce | money-backend/app/utils/transaction_middlewares.py:117-194 | a stage that has loaded its data is never changed by later records. When the data is available, one record is enough to load it, and a failing load changes nothing |
| Pipeline.StageProcess | money-backend/app/utils/transaction_middleware.py:68-69 | dispatching `middleware.process` to the stages keeps record kinds, class names and loaded caches |
| Pipeline.Run | money-backend/app/utils/transaction_middleware.py:57-70 | the stage list keeps its length, the empty pipeline is the identity, and a dictionary stays a dictionary |
| Pipeline.RunKeepsClass | money-backend/app/utils/transaction_middleware.py:67-70 | running a record never changes the class names of the stages, position by position |
| Pipeline.RunAppend | money-backend/app/utils/transaction_middleware.py:67-70 | running through `a + b` is running through `a`, then, if nothing was raised, through `b` on its result. A fault in `a` skips `b` |
| Pipeline.RunLoaded | money-backend/app/utils/transaction_middleware.py:67-70 | running through loaded stages leaves the stages unchanged |
| Pipeline.RunFaultIsStageFault | money-backend/app/utils/transaction_middleware.py:67-70 | a raised error is exactly the error of one stage, reached with no earlier fault, so the pipeline catches nothing |
| Pipeline.Bulk | money-backend/app/utils/transaction_middleware.py:72-82 | on success the result has one record per input, and the empty input gives the empty result |
| Pipeline.BulkLoaded | money-backend/app/utils/transaction_middleware.py:82 | with loaded stages the bulk run succeeds iff each record's run succeeds, and its i-th result is `process_transaction(input[i])` |
| Pipeline.BulkKeepsKind | money-backend/app/utils/transaction_middleware.py:82 | processing dictionaries yields dictionaries |
| Pipeline.DbRun | money-backend/app/utils/transaction_middleware.py:102-105 | processing the selected stored records leaves every unselected record unchanged |
| Pipeline.TransactionMiddlewarePipeline.constructor | money-backend/app/utils/transaction_middleware.py:46-47 | a pipeline built without a list starts empty; one built with a list holds it |
| Pipeline.TransactionMiddlewarePipeline.AddMiddleware | money-backend/app/utils/transaction_middleware.py:49-51 | the stage is appended at the end and earlier stages keep their order |
| Pipeline.TransactionMiddlewarePipeline.RemoveMiddleware | money-backend/app/utils/transaction_middleware.py:53-55 | the stage list becomes `Without(old, name)` |
| Pipeline.TransactionMiddlewarePipeline.ProcessTransaction | money-backend/app/utils/transaction_middleware.py:57-70 | the loop's result and the updated stages are exactly `Run` of the old stages |
| Pipeline.TransactionMiddlewarePipeline.ProcessBulk | money-backend/app/utils/transaction_middleware.py:72-82 | the comprehension's results and updated stages are exactly `Bulk` of the old stages |
| Pipeline.TransactionMiddlewarePipeline.ProcessDbTransactions | money-backend/app/utils/transaction_middleware.py:84-108 | exactly the records passing the filter (all without one) are processed in order. The first fault propagates without a commit; otherwise there is one commit after the loop |
| Pipeline.Without | money-backend/app/utils/transaction_middleware.py:55 | removal never lengthens the list |
| Pipeline.WithoutMeaning | money-backend/app/utils/transaction_middleware.py:55 | no stage of that name survives, every other stage does, and an absent name is a no-op |
| Pipeline.WithoutAppend | money-backend/app/utils/transaction_middleware.py:55 | removing a name from a concatenation is removing it from each part; the kept stages stay in their order |
| Pipeline.WithoutIdempotent | money-backend/app/utils/transaction_middleware.py:53-55 | removing a name twice equals removing it once |
| Pipeline.KeepWhereHas | money-backend/app/utils/transaction_middleware.py:55 | the comprehension keeps exactly the elements satisfying its condition |
| Pipeline.KeepWhereAll | money-backend/app/utils/transaction_middleware.py:55 | when every element satisfies the condition, the comprehension keeps the list as it is |
| MiddlewareConfig.ConfigureTransactionMiddlewares | money-backend/app/utils/middleware_config.py:18-44 | the stages become exactly the default stages whatever they were before, so configuring twice gives the same pipeline. The same pipeline object is returned |
| MiddlewareConfig.DefaultOrder | money-backend/app/utils/middleware_config.py:29-40 | the order is DataCleaning, TransactionHash, InternalTransferDetection, ApplyRules, DateFormatting, and the two loading stages start unloaded |
| MiddlewareConfig.ImportHashBeforeDates | money-backend/app/utils/middleware_config.py:32-40 | on import the hash stage runs on the cleaned record, before any date is parsed |
| MiddlewareConfig.DataCleaningKeepsDates | money-backend/app/utils/middleware_config.py:29-32 | cleaning leaves the date entries as they were, so the import-time hash covers the raw date strings |
| TransactionService.ProcessImportData | money-backend/app/utils/transaction_service.py:23-42 | the result and the pipeline state are exactly `process_bulk` of the input dictionaries, errors included |
| TransactionService.StoredForm | money-backend/app/utils/transaction_service.py:77-86 | a saved record keeps every column of the data except that it gets a fresh id when none was given and the insert default for `is_internal_transfer` |
| TransactionService.SaveOne | money-backend/app/utils/transaction_service.py:60-93 | a failing record is counted as a failure. A record whose hash is already stored is counted as a duplicate. A record with a relationship key holding something other than None is lost to the `setattr` error. Otherwise the record is appended to the saved list and the session |
| TransactionService.Inserted | money-backend/app/utils/transaction_service.py:76-86 | an inserted row carries the input's hash and, in every other column but the id and the default, the value of its key, with None in the foreign key of every relationship the input sets |
| TransactionService.SaveAccounting | money-backend/app/utils/transaction_service.py:56-100 | saved plus duplicates plus failures equals the input length. The session gains exactly the saved records and the rules are untouched |
| TransactionService.SaveOrder | money-backend/app/utils/transaction_service.py:60-87 | the saved records come from strictly increasing input positions, none of them failing |
| TransactionService.SaveOrigins | money-backend/app/utils/transaction_service.py:80-82 | each saved record carries, column by column, the data of the input it came from, with the foreign key of every relationship the input sets cleared |
| TransactionService.SkippedMeansFailedOrKnown | money-backend/app/utils/transaction_service.py:63-93 | an input that was not saved failed, had a hash already present when it was reached, or set a relationship to something other than None |
| TransactionService.SameHashInBatch | money-backend/app/utils/transaction_service.py:63-72 | of two inputs in one batch that carry the same hash, at most one is saved; when the first sets no relationship to a value other than None, the second is counted as a duplicate |
| TransactionService.SaveKeepsHashesUnique | money-backend/app/utils/transaction_service.py:63-72 | the duplicate check keeps the stored hashes unique |
| TransactionService.SaveTransactions | money-backend/app/utils/transaction_service.py:45-106 | it returns the saved records and commits them iff the commit is allowed; the collected hashes are unique by the previous row. A failed commit rolls back and reports a database error |
| TransactionService.ImportAndSave | money-backend/app/utils/transaction_service.py:109-134 | a pipeline error rolls back and is re-raised with nothing saved. Otherwise the processed dictionaries are saved as `SaveTransactions` states |
| TransactionService.ExistingRun | money-backend/app/utils/transaction_service.py:162-174 | reprocessing keeps the number of stages and of records, and leaves every unselected record unchanged |
| TransactionService.ExistingRunLoaded | money-backend/app/utils/transaction_service.py:162-165 | with loaded stages each selected record ends as its own pipeline run leaves it |
| TransactionService.RunSelected | money-backend/app/utils/transaction_service.py:162-174 | the loop computes exactly `ExistingRun` on the session and commits nothing |
| TransactionService.ProcessExisting | money-backend/app/utils/transaction_service.py:137-186 | a raising filter rolls back and re-raises. Otherwise all selected records are processed past per-record failures, with one commit, and the number selected is returned (not the number that succeeded) |
| TransactionService.GetTransactionById | money-backend/app/utils/transaction_service.py:189-206 | a transaction is found iff one has that id, and the one found has it |
| TransactionService.UpdateTransaction | money-backend/app/utils/transaction_service.py:209-254 | an unknown id gives None and changes nothing. A relationship key holding something other than None rolls back and gives None. Otherwise the updates are applied, then optionally the pipeline, then a commit whose flush clears the foreign key of each relationship set to None; without the pipeline the row is exactly the accepted update. Any failure rolls back and gives None |
| TransactionService.UpdateIgnoresOtherKeys | money-backend/app/utils/transaction_service.py:233-238 | update keys that are neither columns nor relationships never affect the in-memory record, whether the update is accepted, or the row written |
| TransactionService.RelationUpdate | money-backend/app/utils/transaction_service.py:233-247 | an update of one relationship is accepted iff its value is None, and then clears only that relationship's foreign key |
| TransactionService.RelationClearWins | money-backend/app/utils/transaction_service.py:233-247 | after an accepted update that sets a relationship, its foreign key is None whatever value the same update gave that column |
| HashBackfill.IsoText | money-backend/app/utils/generate_transaction_hashes.py:25-26 | a falsy date renders as "" and a date or datetime renders as its `isoformat()`. Anything else raises |
| HashBackfill.HashInput | money-backend/app/utils/generate_transaction_hashes.py:25-33 | the hash input is the eight fields joined by "\|". It fails iff a date cannot be rendered |
| HashBackfill.GenerateTransactionHash | money-backend/app/utils/generate_transaction_hashes.py:19-36 | the hash is the 32-character digest of the hash input |
| HashBackfill.InputDeterminesPieces | money-backend/app/utils/generate_transaction_hashes.py:29-33 | for fields free of "\|", equal hash inputs mean equal eight renderings, so the joined string identifies the fields |
| HashBackfill.NoneRendering | money-backend/app/utils/generate_transaction_hashes.py:30-32 | a None payee renders like "", while a None amount renders as "None", 4 characters longer than "" |
| HashBackfill.HashlessFrom | money-backend/app/utils/generate_transaction_hashes.py:59-61 | the backfill considers, in ascending order, exactly the transactions without a hash |
| HashBackfill.BackfillOne | money-backend/app/utils/generate_transaction_hashes.py:72-93 | each step counts one update or one duplicate and adds one to the counter of its hash, leaving other counters unchanged |
| HashBackfill.BackfillOneCases | money-backend/app/utils/generate_transaction_hashes.py:75-90 | with unique hashes, a turn counts a duplicate and changes no transaction iff some transaction with another id holds the hash; it assigns the hash and counts an update iff every holder of the hash has the same id |
| HashBackfill.BackfillFold | money-backend/app/utils/generate_transaction_hashes.py:71-93 | the backfill never changes the number of transactions |
| HashBackfill.FoldRehashes | money-backend/app/utils/generate_transaction_hashes.py:71-93 | the backfill changes only `transaction_hash` columns |
| HashBackfill.HashIgnoresHashColumn | money-backend/app/utils/generate_transaction_hashes.py:19-36 | the hash of a transaction does not depend on its own hash column |
| HashBackfill.BackfillCounts | money-backend/app/utils/generate_transaction_hashes.py:62-93 | updated plus duplicates equals the number of hashless transactions found, and the counter holds each hash's number of occurrences in the run |
| HashBackfill.BackfillKeepsUnique | money-backend/app/utils/generate_transaction_hashes.py:74-90 | with distinct ids the backfill keeps hashes unique |
| HashBackfill.BackfillTouchesOnlyHashless | money-backend/app/utils/generate_transaction_hashes.py:59-90 | transactions outside the run are unchanged, and a changed one holds its own generated hash |
| HashBackfill.Collisions | money-backend/app/utils/generate_transaction_hashes.py:108 | the reported collisions are exactly the hashes counted more than once, with their counts |
| HashBackfill.UpdateTransactionHashes | money-backend/app/utils/generate_transaction_hashes.py:52-114 | the session ends as `BackfillFold` leaves it. A render error propagates uncommitted. Otherwise one commit, returning (updated, duplicates) and the collisions |
| HashBackfill.BackfillLoop | money-backend/app/utils/generate_transaction_hashes.py:71-93 | the loop computes exactly `BackfillFold` over the hashless transactions |
| HashBackfill.BackfillTurn | money-backend/app/utils/generate_transaction_hashes.py:73-92 | one turn with a computed fingerprint is exactly `BackfillOne`, and it keeps the number of transactions |
| HashBackfill.BackfillSummary | money-backend/app/utils/generate_transaction_hashes.py:62-114 | on a well-formed store the backfill keeps hashes unique, and updated plus duplicates equals the number of hashless transactions |
| PreprocessCsv.DetermineUmsatztyp | money-backend/preprocess_csv.py:33-39 | "Ausgang" iff the amount text starts with "-", otherwise "Eingang"; never anything else |
| PreprocessCsv.FormatBuchungsdatum | money-backend/preprocess_csv.py:42-52 | a text parsing as "%Y-%m-%dT%H:%M:%S" becomes DD.MM.YYYY of its date, and any other text is returned as it is |
| PreprocessCsv.FormatBuchungsdatumIso | money-backend/preprocess_csv.py:47-49 | the ISO text of every valid datetime becomes the DD.MM.YYYY text of its date |
| PreprocessCsv.CommaForLastDot | money-backend/preprocess_csv.py:76-86 | without a '.' the text is unchanged. Otherwise only the last '.' becomes ',', the length is kept and every other character is unchanged |
| PreprocessCsv.AppendUmsatztypToVerwendungszweck | money-backend/preprocess_csv.py:89-108 | both parts are trimmed. An empty purpose gives the type; an empty type gives the purpose; otherwise "purpose type" with one space |
| PreprocessCsv.AppendIsTrimmed | money-backend/preprocess_csv.py:101-108 | the combined text never starts or ends with whitespace |
| PreprocessCsv.KeywordIbanFrom | money-backend/preprocess_csv.py:126-129 | the main IBAN is returned iff some remaining keyword occurs in the purpose, otherwise "" |
| PreprocessCsv.DetermineIban | money-backend/preprocess_csv.py:111-129 | a missing main IBAN or purpose gives "". Otherwise the main IBAN is returned iff some keyword is a substring of the purpose, else "" |
| PreprocessCsv.DetermineIbanMeaning | money-backend/preprocess_csv.py:126-129 | with a non-empty main IBAN, the result is the main IBAN iff some keyword occurs in the purpose |
| PreprocessCsv.ProcessRow | money-backend/preprocess_csv.py:135-180 | the seven columns: both dates hold the original date text, Status the original type, Umsatztyp the sign-derived type, the amount in European format, the original purpose, and the keyword IBAN |
| PreprocessCsv.ProcessRowReadsFourColumns | money-backend/preprocess_csv.py:149-152 | input columns other than the four read never affect the processed row |
| PreprocessCsv.ProcessRowKeepsIsoDate | money-backend/preprocess_csv.py:157-171 | an ISO booking date is kept as it is in the output, unlike the formatted date that is computed and discarded |
| PreprocessCsv.IsoTextIsNotDayMonthYear | money-backend/preprocess_csv.py:157 | the ISO text and the DD.MM.YYYY text of a datetime always differ, so the discarded formatting is observable |
| PreprocessCsv.AddMetadata | money-backend/preprocess_csv.py:280-294 | the written lines are "TagesgeldTR;<IBAN>", three "-" lines, then the input lines unchanged |
| TransactionsRoutes.ParseDate | money-backend/app/routes/transactions/__init__.py:25-29 | a missing text gives None; a parsed date is a valid calendar date. It never raises |
| TransactionsRoutes.ParseDateDefaultRoundTrip | money-backend/app/routes/transactions/__init__.py:25-27 | the default "%d.%m.%y" format reads back the DD.MM.YY text of every date in 1969-2068 |
| TransactionsRoutes.ParseDateIsoRoundTrip | money-backend/process_transactions.py:56-61 | the "%Y-%m-%d" format reads back the ISO text of every valid date |
| TransactionsRoutes.RouteTransactionHash | money-backend/app/routes/transactions/__init__.py:32-65 | the route's hash is the digest of the eight fields joined by "\|" |
| TransactionsRoutes.RouteHashAgrees | money-backend/app/routes/transactions/__init__.py:53-65 | on every transaction the route's hash equals the backfill helper's hash |
| TransactionsRoutes.SplitLines | money-backend/app/routes/transactions/__init__.py:212 | no line contains a line break, and non-empty text has at least one line |
| TransactionsRoutes.RowDict | money-backend/app/routes/transactions/__init__.py:237 | a CSV row becomes a dictionary keyed by exactly the header names |
| TransactionsRoutes.RowDictField | money-backend/app/routes/transactions/__init__.py:237 | a header name that does not occur again later maps to the field at its position, or to None when the row is shorter (the `restval`); so for a repeated name the last position wins |
| TransactionsRoutes.ReadStatement | money-backend/app/routes/transactions/__init__.py:212-237 | the upload is accepted exactly when it has at least 5 lines and line 0 has at least two ';'-fields. Fewer than 5 lines is TooFewLines; otherwise a missing field 1 is NoOwnIban. On success the own IBAN is the stripped field 1 of line 0 and the data starts at line 4 |
| TransactionsRoutes.AmountText | money-backend/app/routes/transactions/__init__.py:276-278 | the rewritten amount text contains no ','. Text without '.' just has ',' turned into '.' and is stripped |
| TransactionsRoutes.RouteGermanAmount | money-backend/app/routes/transactions/__init__.py:276-279 | a German amount in the statement becomes its digits with '.' before the cents, and `float` reads it as the signed number those digits give with the cents as decimals |
| TransactionsRoutes.ImportDict | money-backend/app/routes/transactions/__init__.py:312-336 | the row dictionary has exactly the listed attribute keys, each holding its import value: the raw date strings, the own IBAN as iban, the parsed amount |
| TransactionsRoutes.ImportDictTransaction | money-backend/app/routes/transactions/__init__.py:322-336 | the transaction later built from that dictionary holds those values and None elsewhere |
| TransactionsRoutes.RowToData | money-backend/app/routes/transactions/__init__.py:260-338 | a missing amount column, an empty amount cell, an unparsable amount or a missing date column rejects the row with its number. Otherwise the row gives its dictionary |
| TransactionsRoutes.RowsToDataMeaning | money-backend/app/routes/transactions/__init__.py:257-348 | the import succeeds iff every row does, and then gives one dictionary per row in order |
| TransactionsRoutes.CollectRows | money-backend/app/routes/transactions/__init__.py:257-348 | the row loop computes exactly `RowsToData`, stopping at the first rejected row |
| TransactionsRoutes.ImportCsv | money-backend/app/routes/transactions/__init__.py:191-380 | a bad upload is a 400 with nothing changed. A pipeline error is a 500 after a rollback. Otherwise 201 iff the save commits, else 500 with nothing saved |
| TransactionsRoutes.MetadataReadBack | money-backend/app/routes/transactions/__init__.py:225-237 | the file written by `add_metadata` is read back by the importer with the Trade Republic IBAN as own IBAN and the original lines as data |
| TransactionsRoutes.Categorized | money-backend/app/routes/transactions/__init__.py:418-422 | a matching transaction gets the rule's category and id whatever it had, and nothing else changes. A transaction that does not match is unchanged |
| TransactionsRoutes.ApplyRuleTo | money-backend/app/routes/transactions/__init__.py:416-422 | every transaction, position by position, is categorised by the rule |
| TransactionsRoutes.MatchCount | money-backend/app/routes/transactions/__init__.py:415-422 | the count is 0 iff no transaction matches, and the full length iff all do |
| TransactionsRoutes.ApplyRuleIdempotent | money-backend/app/routes/transactions/__init__.py:416-422 | applying a rule twice equals applying it once |
| TransactionsRoutes.CategorizeAll | money-backend/app/routes/transactions/__init__.py:412-422 | the loop leaves the session as `ApplyRuleTo` and counts exactly the matches |
| TransactionsRoutes.ApplySpecificRule | money-backend/app/routes/transactions/__init__.py:404-435 | an unknown rule is a 500. No match is a 200 without a commit. Otherwise the categorised session is committed (200), or rolled back on failure (500) |
| TransactionsRoutes.Reverted | money-backend/app/routes/transactions/__init__.py:449-451 | a transaction carrying the rule loses category and rule; any other is unchanged |
| TransactionsRoutes.RevertIn | money-backend/app/routes/transactions/__init__.py:443-451 | every transaction, position by position, is reverted |
| TransactionsRoutes.CarryCount | money-backend/app/routes/transactions/__init__.py:443-446 | the affected count is 0 iff no transaction carries the rule, and the full length iff all do |
| TransactionsRoutes.RevertClears | money-backend/app/routes/transactions/__init__.py:449-451 | after a revert no transaction carries the rule, and reverting again changes nothing |
| TransactionsRoutes.ApplyThenRevert | money-backend/app/routes/transactions/__init__.py:416-451 | reverting right after applying clears exactly the matching transactions and reverts the others as usual |
| TransactionsRoutes.ClearRule | money-backend/app/routes/transactions/__init__.py:443-451 | the loop leaves the session as `RevertIn` and counts exactly the transactions carrying the rule |
| TransactionsRoutes.RevertRuleApplication | money-backend/app/routes/transactions/__init__.py:438-465 | nothing affected is a 200 without a commit. Otherwise the reverted session is committed (200), or rolled back on failure (500) |
| TransactionsRoutes.LatestWithIdMeaning | money-backend/app/routes/transactions/__init__.py:672-677 | `categories_dict.get(id)` finds the latest earlier category with that id, or none |
| TransactionsRoutes.AttachedToMeaning | money-backend/app/routes/transactions/__init__.py:674-679 | a category is attached to a parent iff it has a parent id and a category with that id has appeared by then; it is then the latest such |
| TransactionsRoutes.RootsMeaning | money-backend/app/routes/transactions/__init__.py:674-675 | the roots are exactly the categories without a parent, in iteration order |
| TransactionsRoutes.ChildrenMeaning | money-backend/app/routes/transactions/__init__.py:676-679 | a parent's subcategories are exactly the categories attached to it, in order and never before it |
| TransactionsRoutes.DroppedChild | money-backend/app/routes/transactions/__init__.py:677-679 | a child whose parent has not appeared yet is in no list at all |
| TransactionsRoutes.OnePlace | money-backend/app/routes/transactions/__init__.py:674-679 | a category appears in at most one place: never both a root and a child, and never under two parents |
| TransactionsRoutes.BuildHierarchy | money-backend/app/routes/transactions/__init__.py:657-681 | the loop computes exactly the roots and the subcategory lists of every category |
| RulesRoutes.FirstIncomplete | money-backend/app/routes/rules/__init__.py:60-65 | finds the first condition missing field, operator or value, or reports that all are complete |
| RulesRoutes.Built | money-backend/app/routes/rules/__init__.py:67-72 | a built condition carries the requested field, operator and value, its index as sequence, and the rule's id |
| RulesRoutes.BuildConditions | money-backend/app/routes/rules/__init__.py:60-73 | one condition per request in order, with sequence equal to its index |
| RulesRoutes.BuiltConditionsOrdered | money-backend/app/routes/rules/__init__.py:71 | built conditions have strictly increasing sequences and distinct ids |
| RulesRoutes.NextRuleId | money-backend/app/routes/rules/__init__.py:75-76 | a new rule's id is used by no stored rule |
| RulesRoutes.NewRule | money-backend/app/routes/rules/__init__.py:47-73 | a request missing name, category_id or conditions is rejected. An incomplete condition is rejected at its index. Otherwise the rule has the requested fields, "AND" as default operator, and the built conditions |
| RulesRoutes.NewRuleWellFormed | money-backend/app/models/rule.py:13-32 | a created rule with an operator of at most 10 characters meets the `rule` and `rule_condition` column constraints |
| RulesRoutes.CreateRule | money-backend/app/routes/rules/__init__.py:42-100 | a rejected request is a 400 with nothing saved. Otherwise the rule is appended and committed (201), or rolled back (500) |
| RulesRoutes.UpdatedFields | money-backend/app/routes/rules/__init__.py:120-125 | only the supplied name, category and operator change, and the rest of the rule is kept |
| RulesRoutes.EmptyUpdateKeepsRule | money-backend/app/routes/rules/__init__.py:120-125 | an update supplying nothing leaves the rule unchanged |
| RulesRoutes.EditedRule | money-backend/app/routes/rules/__init__.py:120-146 | the conditions are replaced wholesale when supplied and kept otherwise. An incomplete condition fails at its index |
| RulesRoutes.PendingRule | money-backend/app/routes/rules/__init__.py:133-146 | when a condition is rejected, the rule holds the updated fields and the conditions built so far |
| RulesRoutes.ReapplyCarriesOnlyMatches | money-backend/app/routes/rules/__init__.py:111-165 | after revert-then-reapply a transaction carries the rule iff it matches the edited rule, and the newly affected count is that number |
| RulesRoutes.CarryMatches | money-backend/app/routes/rules/__init__.py:160-165 | applying a rule that no transaction carries makes exactly the matching ones carry it |
| RulesRoutes.UntouchedByUpdate | money-backend/app/routes/rules/__init__.py:160-165 | a transaction that neither carried the rule nor matches the edited rule keeps what it had |
| RulesRoutes.RevertKeepsHashes | money-backend/app/routes/rules/__init__.py:115-117 | reverting never changes hash uniqueness |
| RulesRoutes.UpdateRule | money-backend/app/routes/rules/__init__.py:102-192 | an unknown rule is a 500. Otherwise the old categorisations are reverted and counted and the rule is rewritten. An incomplete condition is a 400 with those changes pending and uncommitted. A complete update is committed, then reapplied and committed again |
| RulesRoutes.CommitUpdate | money-backend/app/routes/rules/__init__.py:149-168 | the first commit failing is a 500. When it succeeds, an optional reapply counts the matches and commits again, with a 500 rollback on failure |
| RulesRoutes.ReplaceConditions | money-backend/app/routes/rules/__init__.py:127-146 | the loop stops at the first incomplete condition, and the rule holds exactly the conditions built before it |
| ProcessTransactions.CompareDate | money-backend/process_transactions.py:74-79 | the date filters compare the booking date (inclusive at both ends); a non-date raises |
| ProcessTransactions.CompareAmount | money-backend/process_transactions.py:97-105 | the amount filters compare the numeric amount (inclusive); a non-number raises |
| ProcessTransactions.EqualsInt | money-backend/process_transactions.py:89 | `category_id == n` holds iff the category is numerically n |
| ProcessTransactions.AllHoldMeaning | money-backend/process_transactions.py:113 | `all(f(tx) for f in filters)` is true iff every filter holds. It is false or raises according to the first filter that does not hold |
| ProcessTransactions.Combined | money-backend/process_transactions.py:110-113 | no filters give no filter function; otherwise the combined filter is their conjunction |
| ProcessTransactions.NoFilterSelectsAll | money-backend/process_transactions.py:111-113 | with no active filter every transaction is selected |
| ProcessTransactions.FilterSelects | money-backend/process_transactions.py:112-113 | a transaction is selected iff every active filter holds for it |
| ProcessTransactions.StartPart | money-backend/process_transactions.py:71-74 | a start-date filter is added exactly when the option is given and parses, and it is "booked on or after" the parsed date |
| ProcessTransactions.EndPart | money-backend/process_transactions.py:76-79 | an end-date filter is added exactly when the option is given and parses, and it is "booked on or before" the parsed date |
| ProcessTransactions.CategoryPart | money-backend/process_transactions.py:81-92 | no filter when the option is not given; given text other than "null" and "not_null" that `int` cannot read aborts with InvalidCategoryId of that text, and nothing else aborts |
| ProcessTransactions.MinPart | money-backend/process_transactions.py:94-100 | aborts with InvalidMinAmount exactly when the option is given and `float` cannot read it; otherwise the filter, if any, is "amount at least" the value read |
| ProcessTransactions.MaxPart | money-backend/process_transactions.py:102-108 | aborts with InvalidMaxAmount exactly when the option is given and `float` cannot read it; otherwise the filter, if any, is "amount at most" the value read |
| ProcessTransactions.Criteria | money-backend/process_transactions.py:69-108 | the filters are start, end, category, min and max, in that order. It fails exactly when one of category, min and max fails, with the error of the first one that fails |
| ProcessTransactions.BadStartDateIgnored | money-backend/process_transactions.py:71-74 | an unparsable start date adds no filter, exactly as if none were given |
| ProcessTransactions.BadEndDateIgnored | money-backend/process_transactions.py:76-79 | an unparsable end date adds no filter, exactly as if none were given |
| ProcessTransactions.CategoryNullMeaning | money-backend/process_transactions.py:82-85 | "null" selects exactly the uncategorised transactions and "not_null" exactly the categorised ones |
| ProcessTransactions.CategoryIdMeaning | money-backend/process_transactions.py:86-89 | an integer category id selects exactly the transactions of that category |
| ProcessTransactions.DateFilters | money-backend/process_transactions.py:71-79 | the date part of the filter loop gives exactly the start and end filters |
| ProcessTransactions.CollectFilters | money-backend/process_transactions.py:69-108 | the filter-building code computes exactly `Criteria` |
| ProcessTransactions.CategoryFilter | money-backend/process_transactions.py:81-92 | the `--category-id` branch appends exactly `CategoryPart`'s filters, or stops the command with its error |
| ProcessTransactions.MinFilter | money-backend/process_transactions.py:94-100 | the `--min-amount` branch appends exactly `MinPart`'s filter, or stops the command with its error |
| ProcessTransactions.MaxFilter | money-backend/process_transactions.py:102-108 | the `--max-amount` branch appends exactly `MaxPart`'s filter, or stops the command with its error |
| ProcessTransactions.Overridden | money-backend/process_transactions.py:116-134 | without flags the stages are kept. Each only-* flag replaces them by one stage, and the later assignment wins: hashing, then cleaning, then transfers, then rules |
| ProcessTransactions.OverrideIsSingleStage | money-backend/process_transactions.py:116-134 | with any only-* flag the pipeline is one stage of one of the four classes |
| ProcessTransactions.OverridePipeline | money-backend/process_transactions.py:116-134 | the assignments leave the pipeline as `Overridden` |
| ProcessTransactions.ProcessTransactionsCommand | money-backend/process_transactions.py:63-139 | an invalid argument aborts with the configured pipeline and nothing processed. Otherwise the overridden pipeline reprocesses the selected transactions as `process_existing_transactions` does |
| PyStr.Strip | money-backend/app/utils/transaction_middlewares.py:71 | `strip()` removes surrounding whitespace only, and the result neither starts nor ends with whitespace |
| PyStr.StripIdempotent | money-backend/app/utils/transaction_middlewares.py:71 | stripping twice equals stripping once |
| PyStr.LowerIdempotent | money-backend/app/utils/rule_engine.py:17-18 | lowering twice equals lowering once |
| PyStr.Contains | money-backend/app/utils/rule_engine.py:23 | `in` on strings holds iff the needle occurs in the text |
| PyStr.RFind | money-backend/preprocess_csv.py:76 | `rfind` gives the last index of the character, or -1 iff it is absent |
| PyStr.ReplaceChar | money-backend/app/utils/transaction_middlewares.py:80 | `replace` of one character: text without it is unchanged, a replacement without it leaves none, and a one-character replacement keeps the length and changes exactly the positions holding the character |
| PyStr.ReplaceCharAppend | money-backend/app/utils/transaction_middlewares.py:80 | `replace` of one character works piece by piece over a concatenation |
| PyStr.Split | money-backend/app/routes/transactions/__init__.py:225 | `split` gives at least one piece and no piece contains the separator |
| PyNum.ParseFloat | money-backend/app/routes/transactions/__init__.py:279 | a parsed amount is an exact decimal in normal form |
| PyNum.ParseFloatLiteral | money-backend/app/routes/transactions/__init__.py:279 | `float` reads an optional '-', digits, '.' and digits as the signed number of all the digits with the digits after the point as decimals |
| PyNum.FloatTextRoundTrip | money-backend/app/utils/generate_transaction_hashes.py:30 | `float(str(x))` gives back x for every amount in normal form |
| PyNum.IntTextRoundTrip | money-backend/process_transactions.py:88 | `int(str(i))` gives back i |
| PyDate.Strptime | money-backend/preprocess_csv.py:48 | a parsed value is always a valid calendar datetime |
| PyDate.IsoDateRoundTrip | money-backend/process_transactions.py:59 | "%Y-%m-%d" reads back the ISO text of every valid date |
| PyDate.IsoDateTimeRoundTrip | money-backend/preprocess_csv.py:12 | "%Y-%m-%dT%H:%M:%S" reads back the ISO text of every valid datetime |
| PyDate.ShortYearRoundTrip | money-backend/app/routes/transactions/__init__.py:25 | "%d.%m.%y" reads back the DD.MM.YY text of every date in 1969-2068 |

## Left out

- I/O: file reading and writing, the HTTP layer (request parsing, JSON response bodies, CORS), logging, argparse, and the app factory. The import route takes the uploaded file as a name and text, and `add_metadata` returns the lines it would write. `process_csv_file` (reading and writing the CSV files) is not part of this model; `process_row` and `add_metadata` are.
- CSV quoting: a CSV line is split on ";" with no quote handling.
- Floats are exact decimals. `float()` accepts sign, digits and at most one '.', and exponent notation, inf, nan and underscores are not modelled. `str()` of a float renders short decimals positionally, as CPython does for them.
- `str.lower` is ASCII only: there is no Unicode case mapping. `str.strip` and `splitlines` recognise Python's full sets of white-space and line-break characters.
- PyNum.ParseInt: `int()` is modelled with ASCII digits only; underscores between digits and non-ASCII decimal digits, which `int()` accepts, are rejected.
- RuleEngine.EvaluateCondition, Models.GetAttr: `getattr` of a relationship name (`category`, `applied_rule`, `bank_account`) yields the related object, whose `str()` is a repr that is not a function of the row (the `Category` repr holds a memory address). Such a condition is evaluated as if the attribute were None, so a condition on a relationship is never true in the model.
- Models.SetAttr: names that SQLAlchemy adds to every model (`query`, `metadata`, `registry`, methods) are treated like unknown names; only the columns and the three relationships count as attributes.
- TransactionService.UpdateTransaction: the foreign key of a relationship set to None is cleared at the commit. A query inside a stage (the rule stage loading its rules) would autoflush and clear it before the stage reads it; that earlier flush is not modelled.
- `strptime` covers only the directives the code uses (%Y %m %d %y %H %M %S), following CPython's patterns. `%y` maps 69-99 to the 1900s and 00-68 to the 2000s.
- Digest.Md5: a deterministic stand-in that returns 32 lowercase hex characters. It is not MD5.
- The database is two snapshots with commit and rollback. SQL, ids from autoincrement beyond "a new unused id", joins, `joinedload` and column length limits (iban at most 34 characters, `String(n)` widths) are not modelled. Uniqueness of `transaction_hash` is modelled as the commit condition. Errors the flush raises for other reasons (a wrongly typed value on a Date or Integer column, such as a string in `booking_date` given to `update_transaction`, or a foreign key naming no row) are folded into the `commitOk` flag.
- Middlewares.SortBy: `order_by(Rule.created_at)` is modelled as a stable insertion sort. Equal timestamps keep their stored order, which SQL does not promise.
- Stage aliasing: a stage object placed twice in one pipeline, or shared across pipelines, is modelled as independent copies.
- `PatternExtractionMiddleware` and `EnrichmentMiddleware` are not in the modelled core.
- The string matching on detached-instance errors is an abstract "stale rule", which evaluates to false.
- Environment configuration: the Trade Republic IBANs are constants with the configured defaults. `MAIN_IBAN` and `TRADEREPUBLIC_IBAN` of the conversion script are parameters.
- Routes other than import, apply-rule, revert-rule, the category summary, and rule create and update are not modelled: listing, search, statistics, `/apply-rules` and the CRUD routes. Neither are the category summary's SQL counts and sums; only its hierarchy build is.
- The cascade delete of a rule's conditions is not modelled, because rule deletion is not in the modelled core.
- RulesRoutes.RuleRequest: an optional request field is None both when the JSON key is absent and when it is null. On create this changes nothing for `logical_operator`: a null one is left out of the INSERT, so the column default "AND" applies, as in the model. On update the source writes NULL into the non-nullable `logical_operator` column and the commit fails with status 500, where the model keeps the old operator and can answer 200. A null `name` or `category_id` passes the source's key check and fails at the commit, where the model rejects it with 400.
- RulesRoutes.UpdateRule: on the 400 path the reverted transactions and partially built conditions stay pending in the session. Whether the request teardown discards them is not modelled.
- TransactionService.SaveTransactions: per-record exceptions are an input set of failing indices. Their cause (for example a `setattr` type error) is not modelled.
- HashBackfill.UpdateTransactionHashes: the hash counter and the collisions are returned instead of logged.
