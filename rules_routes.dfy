/** The rule routes that change what a rule is: `create_rule` validates the
    request and stores the rule with its conditions in request order, and
    `update_rule` reverts the rule's old categorisations, rewrites the rule
    and, unless told not to, applies it again to every transaction. */
module RulesRoutes {
  import opened Wrappers
  import opened Values
  import opened Models
  import opened RuleEngine
  import opened Store
  import opened TransactionsRoutes

  /** One condition of a request body; `None` is a key the JSON object lacks. */
  datatype ConditionRequest = ConditionRequest(field: Option<string>, operator: Option<string>, value: Option<string>)

  /** A rule request body; `None` is a key the JSON object lacks. */
  datatype RuleRequest = RuleRequest(
    name: Option<string>,
    categoryId: Option<int>,
    logicalOperator: Option<string>,
    conditions: Option<seq<ConditionRequest>>,
    reapplyRule: Option<bool>)

  /** `all(key in condition_data for key in ['field', 'operator', 'value'])` */
  predicate Complete(c: ConditionRequest) {
    c.field.Some? && c.operator.Some? && c.value.Some?
  }

  /** The position of the first incomplete condition, where the loop over
      the conditions returns 400. */
  function FirstIncomplete(cs: seq<ConditionRequest>): (r: Option<nat>)
    ensures r.Some? ==>
      && r.value < |cs| && !Complete(cs[r.value])
      && forall k :: 0 <= k < r.value ==> Complete(cs[k])
    ensures r.None? <==> forall k :: 0 <= k < |cs| ==> Complete(cs[k])
  {
    if cs == [] then None
    else if !Complete(cs[0]) then Some(0)
    else
      match FirstIncomplete(cs[1..])
      case None => None
      case Some(k) => Some(k + 1)
  }

  // ---------------------------------------------------------------------
  // Identifiers the database hands out

  /** The largest condition id among `cs`, or 0. */
  function MaxConditionIdIn(cs: seq<RuleCondition>): (m: nat)
    ensures forall j :: 0 <= j < |cs| ==> cs[j].id <= m
  {
    if cs == [] then 0
    else
      var rest := MaxConditionIdIn(cs[1..]);
      if cs[0].id > rest then cs[0].id else rest
  }

  /** The largest condition id of any stored rule, or 0. */
  function MaxConditionId(rules: seq<Rule>): (m: nat)
    ensures forall k, j :: 0 <= k < |rules| && 0 <= j < |rules[k].conditions| ==> rules[k].conditions[j].id <= m
  {
    if rules == [] then 0
    else
      var here := MaxConditionIdIn(rules[0].conditions);
      var rest := MaxConditionId(rules[1..]);
      assert forall k, j :: 1 <= k < |rules| && 0 <= j < |rules[k].conditions| ==>
        rules[k].conditions[j].id == rules[1..][k - 1].conditions[j].id;
      if here > rest then here else rest
  }

  /** The largest rule id, or 0. */
  function MaxRuleId(rules: seq<Rule>): (m: nat)
    ensures forall k :: 0 <= k < |rules| ==> rules[k].id <= m
  {
    if rules == [] then 0
    else
      var rest := MaxRuleId(rules[1..]);
      if rules[0].id > rest then rules[0].id else rest
  }

  /** The id SQLite gives the next inserted rule: one above the largest. */
  function NextRuleId(rules: seq<Rule>): (id: int)
    ensures IndexOfRule(rules, id).None?
  {
    MaxRuleId(rules) + 1
  }

  // ---------------------------------------------------------------------
  // Building conditions

  /** `RuleCondition(field=..., operator=..., value=..., sequence=idx)`
      added to the rule. */
  function Built(c: ConditionRequest, ruleId: int, id: int, idx: nat): (r: RuleCondition)
    requires Complete(c)
    ensures r.field == c.field.value && r.operator == c.operator.value && r.value == c.value.value
    ensures r.sequence == idx && r.ruleId == ruleId && r.id == id
  {
    RuleCondition(id, ruleId, c.field.value, c.operator.value, c.value.value, idx)
  }

  /** The conditions built from complete requests: the `idx`-th keeps the
      request's field, operator and value, has `sequence == idx`, belongs
      to the rule and takes the id after the one before it. */
  function BuildConditions(cs: seq<ConditionRequest>, ruleId: int, firstId: int): (r: seq<RuleCondition>)
    requires forall k :: 0 <= k < |cs| ==> Complete(cs[k])
    ensures |r| == |cs|
    ensures forall k :: 0 <= k < |cs| ==> r[k] == Built(cs[k], ruleId, firstId + k, k)
    ensures forall k :: 0 <= k < |cs| ==> r[k].sequence == k && r[k].ruleId == ruleId && r[k].id == firstId + k
  {
    seq(|cs|, k requires 0 <= k < |cs| => Built(cs[k], ruleId, firstId + k, k))
  }

  /** Built conditions are in `sequence` order with distinct ids, so the
      `sorted(rule.conditions, key=sequence)` of the response keeps them as
      they are. */
  lemma {:induction false} BuiltConditionsOrdered(cs: seq<ConditionRequest>, ruleId: int, firstId: int)
    requires forall k :: 0 <= k < |cs| ==> Complete(cs[k])
    ensures var r := BuildConditions(cs, ruleId, firstId);
      forall a, b :: 0 <= a < b < |r| ==> r[a].sequence < r[b].sequence && r[a].id != r[b].id
  {
  }

  /** Building the conditions one at a time, as the loops do. */
  lemma {:induction false} BuildConditionsStep(cs: seq<ConditionRequest>, ruleId: int, firstId: int, i: nat)
    requires i < |cs| && forall k :: 0 <= k <= i ==> Complete(cs[k])
    ensures BuildConditions(cs[..i + 1], ruleId, firstId)
         == BuildConditions(cs[..i], ruleId, firstId)
            + [Built(cs[i], ruleId, firstId + i, i)]
  {
  }

  // ---------------------------------------------------------------------
  // create_rule

  /** Why `create_rule` answers 400. */
  datatype CreateError = MissingRuleKeys | IncompleteCondition(index: nat)

  /** The rule `create_rule` stores: 400 without name, category or
      conditions, or at the first incomplete condition; otherwise the rule
      with the given name and category, the given logical operator or "AND",
      and its conditions in request order. */
  function NewRule(req: RuleRequest, id: int, now: nat, firstConditionId: int): (r: Result<Rule, CreateError>)
    ensures (req.name.None? || req.categoryId.None? || req.conditions.None?) ==> r == Err(MissingRuleKeys)
    ensures req.name.Some? && req.categoryId.Some? && req.conditions.Some? ==>
      && (r.Err? <==> exists k :: 0 <= k < |req.conditions.value| && !Complete(req.conditions.value[k]))
      && (r.Err? ==> r == Err(IncompleteCondition(FirstIncomplete(req.conditions.value).value)))
    ensures r.Ok? ==>
      && r.value.id == id && r.value.name == req.name.value && r.value.categoryId == req.categoryId.value
      && r.value.userId.None? && r.value.createdAt == now
      && r.value.logicalOperator == (if req.logicalOperator.Some? then req.logicalOperator.value else DefaultLogicalOperator)
      && r.value.conditions == BuildConditions(req.conditions.value, id, firstConditionId)
  {
    if req.name.None? || req.categoryId.None? || req.conditions.None? then Err(MissingRuleKeys)
    else
      match FirstIncomplete(req.conditions.value)
      case Some(k) => Err(IncompleteCondition(k))
      case None =>
        Ok(Rule(id, req.name.value, req.categoryId.value, None, req.logicalOperator.GetOr(DefaultLogicalOperator), now,
                BuildConditions(req.conditions.value, id, firstConditionId)))
  }

  /** A created rule's conditions all belong to it, so with an operator of
      at most 10 characters the rule meets the column constraints. */
  lemma {:induction false} NewRuleWellFormed(req: RuleRequest, id: int, now: nat, firstConditionId: int)
    requires NewRule(req, id, now, firstConditionId).Ok?
    requires req.logicalOperator.None? || |req.logicalOperator.value| <= 10
    ensures WellFormedRule(NewRule(req, id, now, firstConditionId).value)
  {
  }

  /** `POST /rules/`: 400 with nothing stored when the request is
      incomplete; otherwise the rule is added with a fresh id and committed
      (201), and a failing commit rolls back (500). */
  method CreateRule(db: Database, req: RuleRequest, now: nat, commitOk: bool) returns (status: nat, created: Option<Rule>)
    requires db.Valid()
    modifies db
    ensures db.Valid()
    ensures var id := NextRuleId(old(db.working.rules));
      var built := NewRule(req, id, now, MaxConditionId(old(db.working.rules)) + 1);
      && (built.Err? ==> status == 400 && created.None? && db.working == old(db.working) && db.committed == old(db.committed))
      && (built.Ok? ==>
            var after := old(db.working).(rules := old(db.working.rules) + [built.value]);
            && (status == 201 <==> commitOk && UniqueHashes(old(db.working.transactions)))
            && (status == 201 ==> created == Some(built.value) && db.working == db.committed == after)
            && (status != 201 ==> status == 500 && created.None? && db.working == db.committed == old(db.committed)))
  {
    if req.name.None? || req.categoryId.None? || req.conditions.None? {
      return 400, None;
    }
    var id := NextRuleId(db.working.rules);
    var firstId := MaxConditionId(db.working.rules) + 1;
    var requested := req.conditions.value;
    var conditions: seq<RuleCondition> := [];
    var idx := 0;
    while idx < |requested|
      invariant 0 <= idx <= |requested|
      invariant forall k :: 0 <= k < idx ==> Complete(requested[k])
      invariant conditions == BuildConditions(requested[..idx], id, firstId)
      invariant db.working == old(db.working) && db.committed == old(db.committed)
    {
      var c := requested[idx];
      if !Complete(c) {
        assert FirstIncomplete(requested).Some?;
        return 400, None;
      }
      BuildConditionsStep(requested, id, firstId, idx);
      conditions := conditions + [Built(c, id, firstId + idx, idx)];
      idx := idx + 1;
    }
    assert requested[..idx] == requested;
    var rule := Rule(id, req.name.value, req.categoryId.value, None, req.logicalOperator.GetOr(DefaultLogicalOperator), now, conditions);
    assert NewRule(req, id, now, firstId) == Ok(rule);
    db.working := db.working.(rules := db.working.rules + [rule]);
    var ok := db.Commit(commitOk);
    if !ok {
      db.Rollback();
      return 500, None;
    }
    status, created := 201, Some(rule);
  }

  // ---------------------------------------------------------------------
  // update_rule

  /** The rule's own columns after `update_rule`: each one the request
      supplies is replaced, every other one is kept. */
  function UpdatedFields(rule: Rule, req: RuleRequest): (r: Rule)
    ensures r.id == rule.id && r.userId == rule.userId && r.createdAt == rule.createdAt && r.conditions == rule.conditions
    ensures r.name == (if req.name.Some? then req.name.value else rule.name)
    ensures r.categoryId == (if req.categoryId.Some? then req.categoryId.value else rule.categoryId)
    ensures r.logicalOperator == (if req.logicalOperator.Some? then req.logicalOperator.value else rule.logicalOperator)
  {
    rule.(name := req.name.GetOr(rule.name),
          categoryId := req.categoryId.GetOr(rule.categoryId),
          logicalOperator := req.logicalOperator.GetOr(rule.logicalOperator))
  }

  /** A request that supplies nothing leaves the rule as it is. */
  lemma {:induction false} EmptyUpdateKeepsRule(rule: Rule)
    ensures UpdatedFields(rule, RuleRequest(None, None, None, None, None)) == rule
  {
  }

  /** The rule `update_rule` commits, or, at an incomplete condition, its
      position: the old conditions are replaced wholesale when the request
      has `conditions`, and kept otherwise. */
  function EditedRule(rule: Rule, req: RuleRequest, firstConditionId: int): (r: Result<Rule, nat>)
    ensures req.conditions.None? ==> r == Ok(UpdatedFields(rule, req))
    ensures req.conditions.Some? ==>
      && (r.Err? <==> FirstIncomplete(req.conditions.value).Some?)
      && (r.Err? ==> r.error == FirstIncomplete(req.conditions.value).value)
      && (r.Ok? ==> r.value == UpdatedFields(rule, req).(conditions := BuildConditions(req.conditions.value, rule.id, firstConditionId)))
  {
    var fields := UpdatedFields(rule, req);
    match req.conditions
    case None => Ok(fields)
    case Some(cs) =>
      match FirstIncomplete(cs)
      case Some(k) => Err(k)
      case None => Ok(fields.(conditions := BuildConditions(cs, rule.id, firstConditionId)))
  }

  /** The rule as the session holds it when the loop stops at the `k`-th
      condition: new columns, old conditions deleted, the complete ones
      before `k` added. */
  function PendingRule(rule: Rule, req: RuleRequest, firstConditionId: int, k: nat): (r: Rule)
    requires req.conditions.Some? && k <= |req.conditions.value|
    requires forall j :: 0 <= j < k ==> Complete(req.conditions.value[j])
    ensures |r.conditions| == k
    ensures r == UpdatedFields(rule, req).(conditions := r.conditions)
  {
    UpdatedFields(rule, req).(conditions := BuildConditions(req.conditions.value[..k], rule.id, firstConditionId))
  }

  /** `data.get('reapply_rule', True)` */
  function Reapply(req: RuleRequest): bool {
    req.reapplyRule.GetOr(true)
  }

  /** After a reapplied update a transaction carries the rule exactly when
      the edited rule matches it as the revert left it, so the newly
      categorised count is the number carrying the rule afterwards. */
  lemma {:induction false} ReapplyCarriesOnlyMatches(ts: seq<BankTransaction>, edited: Rule)
    ensures var reverted := RevertIn(ts, edited.id);
      var after := ApplyRuleTo(reverted, edited);
      && (forall k :: 0 <= k < |ts| ==> (after[k].ruleId == Int(edited.id) <==> EvaluateRule(reverted[k], Live(edited))))
      && CarryCount(after, edited.id) == MatchCount(reverted, edited)
  {
    var reverted := RevertIn(ts, edited.id);
    var after := ApplyRuleTo(reverted, edited);
    CarryMatches(reverted, edited, after);
  }

  /** When no transaction of `ts` carries the rule, the pass leaves exactly
      the matches carrying it. */
  lemma {:induction false} CarryMatches(ts: seq<BankTransaction>, rule: Rule, after: seq<BankTransaction>)
    requires forall k :: 0 <= k < |ts| ==> ts[k].ruleId != Int(rule.id)
    requires after == ApplyRuleTo(ts, rule)
    ensures CarryCount(after, rule.id) == MatchCount(ts, rule)
  {
    assert forall k :: 0 <= k < |after| ==> Carries(rule.id)(after[k]) == Matches(rule)(ts[k]);
    CountWhereAgree(after, Carries(rule.id), ts, Matches(rule));
  }

  /** A transaction the old rule did not carry and the edited rule does not
      match comes out of a reapplied update as it went in. */
  lemma {:induction false} UntouchedByUpdate(ts: seq<BankTransaction>, edited: Rule, k: nat)
    requires k < |ts| && ts[k].ruleId != Int(edited.id) && !EvaluateRule(ts[k], Live(edited))
    ensures ApplyRuleTo(RevertIn(ts, edited.id), edited)[k] == ts[k]
  {
  }

  /** A revert touches no hash, so the unique index holds after it exactly
      when it held before. */
  lemma {:induction false} RevertKeepsHashes(ts: seq<BankTransaction>, ruleId: int)
    ensures UniqueHashes(RevertIn(ts, ruleId)) == UniqueHashes(ts)
  {
    var r := RevertIn(ts, ruleId);
    assert forall k :: 0 <= k < |ts| ==> r[k].transactionHash == ts[k].transactionHash;
  }

  /** The session after the committed part of an update: the rule's
      transactions reverted and the rule rewritten. */
  function Saved(start: Snapshot, index: nat, ruleId: int, edited: Rule): Snapshot
    requires index < |start.rules|
  {
    start.(transactions := RevertIn(start.transactions, ruleId), rules := start.rules[index := edited])
  }

  /** `PUT /rules/<rule_id>`: an unknown rule is a 500 after a rollback.
      Otherwise the rule's transactions are reverted and the rule is
      rewritten; an incomplete condition answers 400 with those changes
      pending and nothing committed. A complete request is committed, and
      then, when `reapply_rule` is not false, the edited rule is applied to
      every transaction and committed again; each failing commit rolls back
      to what was last committed and answers 500. */
  method UpdateRule(db: Database, ruleId: int, req: RuleRequest, commitOk: bool, reapplyCommitOk: bool)
    returns (status: nat, affectedCount: nat, newlyAffectedCount: nat)
    requires db.Valid()
    modifies db
    ensures db.Valid()
    ensures IndexOfRule(old(db.working.rules), ruleId).None? ==>
      status == 500 && db.working == db.committed == old(db.committed)
    ensures IndexOfRule(old(db.working.rules), ruleId).Some? ==>
      var index := IndexOfRule(old(db.working.rules), ruleId).value;
      var rule := old(db.working.rules)[index];
      var firstId := MaxConditionId(old(db.working.rules)) + 1;
      && affectedCount == CarryCount(old(db.working.transactions), ruleId)
      && (EditedRule(rule, req, firstId).Err? ==>
            var k := EditedRule(rule, req, firstId).error;
            && status == 400 && db.committed == old(db.committed)
            && db.working == Saved(old(db.working), index, ruleId, PendingRule(rule, req, firstId, k)))
      && (EditedRule(rule, req, firstId).Ok? ==>
            var saved := Saved(old(db.working), index, ruleId, EditedRule(rule, req, firstId).value);
            UpdateOutcome(status, newlyAffectedCount, db.working, db.committed, old(db.committed), saved,
                          EditedRule(rule, req, firstId).value, Reapply(req),
                          commitOk && UniqueHashes(old(db.working.transactions)), reapplyCommitOk))
  {
    var found := IndexOfRule(db.working.rules, ruleId);
    if found.None? {
      db.Rollback();
      return 500, 0, 0;
    }
    ghost var start := db.working;
    var index := found.value;
    var rule := db.working.rules[index];
    var firstId := MaxConditionId(db.working.rules) + 1;
    affectedCount := ClearRule(db, ruleId);
    rule := UpdatedFields(rule, req);
    if req.conditions.Some? {
      var stoppedAt;
      stoppedAt, rule := ReplaceConditions(db, index, rule, req.conditions.value, firstId);
      if stoppedAt.Some? {
        assert rule == PendingRule(start.rules[index], req, firstId, stoppedAt.value);
        return 400, affectedCount, 0;
      }
    } else {
      db.working := db.working.(rules := db.working.rules[index := rule]);
    }
    assert EditedRule(start.rules[index], req, firstId) == Ok(rule);
    assert db.working == Saved(start, index, ruleId, rule);
    RevertKeepsHashes(start.transactions, ruleId);
    status, newlyAffectedCount := CommitUpdate(db, rule, Reapply(req), commitOk, reapplyCommitOk);
  }

  /** The end of `update_rule`: the edits are committed; then, when asked,
      the edited rule is applied to every transaction and committed again.
      Each failing commit rolls back. */
  method CommitUpdate(db: Database, edited: Rule, reapply: bool, commitOk: bool, reapplyCommitOk: bool)
    returns (status: nat, newlyAffectedCount: nat)
    requires db.Valid()
    modifies db
    ensures db.Valid()
    ensures UpdateOutcome(status, newlyAffectedCount, db.working, db.committed, old(db.committed), old(db.working),
                          edited, reapply, commitOk && UniqueHashes(old(db.working.transactions)), reapplyCommitOk)
  {
    var ok := db.Commit(commitOk);
    if !ok {
      db.Rollback();
      return 500, 0;
    }
    status, newlyAffectedCount := 200, 0;
    if reapply {
      newlyAffectedCount := CategorizeAll(db, edited);
      var reapplied := db.Commit(reapplyCommitOk);
      if !reapplied {
        db.Rollback();
        status := 500;
      }
    }
  }

  /** The conditions loop of `update_rule`: the old conditions are deleted
      and the requested ones added in order until the first incomplete one,
      where it stops. */
  method ReplaceConditions(db: Database, index: nat, fields: Rule, requested: seq<ConditionRequest>, firstId: int)
    returns (stoppedAt: Option<nat>, rule: Rule)
    requires index < |db.working.rules|
    modifies db
    ensures stoppedAt == FirstIncomplete(requested)
    ensures stoppedAt.Some? ==>
      && stoppedAt.value <= |requested|
      && rule == fields.(conditions := BuildConditions(requested[..stoppedAt.value], fields.id, firstId))
    ensures stoppedAt.None? ==> rule == fields.(conditions := BuildConditions(requested, fields.id, firstId))
    ensures db.working == old(db.working).(rules := old(db.working.rules)[index := rule])
    ensures db.committed == old(db.committed)
  {
    var conditions: seq<RuleCondition> := [];
    rule := fields.(conditions := conditions);
    db.working := db.working.(rules := db.working.rules[index := rule]);
    var idx := 0;
    while idx < |requested|
      invariant 0 <= idx <= |requested|
      invariant forall k :: 0 <= k < idx ==> Complete(requested[k])
      invariant conditions == BuildConditions(requested[..idx], fields.id, firstId)
      invariant rule == fields.(conditions := conditions)
      invariant db.working == old(db.working).(rules := old(db.working.rules)[index := rule])
      invariant db.committed == old(db.committed)
    {
      var c := requested[idx];
      if !Complete(c) {
        assert FirstIncomplete(requested) == Some(idx);
        return Some(idx), rule;
      }
      BuildConditionsStep(requested, fields.id, firstId, idx);
      conditions := conditions + [Built(c, fields.id, firstId + idx, idx)];
      rule := rule.(conditions := conditions);
      db.working := db.working.(rules := db.working.rules[index := rule]);
      idx := idx + 1;
    }
    assert requested[..idx] == requested;
    stoppedAt := None;
  }

  /** What a complete update ends in, from the first commit on. */
  ghost predicate UpdateOutcome(status: nat, newlyAffectedCount: nat, working: Snapshot, committed: Snapshot,
                                before: Snapshot, saved: Snapshot, edited: Rule, reapply: bool,
                                firstCommits: bool, reapplyCommitOk: bool)
  {
    var after := saved.(transactions := ApplyRuleTo(saved.transactions, edited));
    && (!firstCommits ==> status == 500 && working == committed == before)
    && (firstCommits && !reapply ==> status == 200 && newlyAffectedCount == 0 && working == committed == saved)
    && (firstCommits && reapply ==>
          && newlyAffectedCount == MatchCount(saved.transactions, edited)
          && (status == 200 <==> reapplyCommitOk && UniqueHashes(after.transactions))
          && (status == 200 ==> working == committed == after)
          && (status != 200 ==> status == 500 && working == committed == saved))
  }
}
