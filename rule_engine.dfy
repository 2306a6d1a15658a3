/** `RuleEngine`: evaluating one condition, a whole rule under AND/OR, and
    picking the first matching rule of an ordered list. */
module RuleEngine {
  import opened Wrappers
  import opened PyStr
  import opened Values
  import opened Models

  /** The four comparison operators, applied to the lower-cased texts. */
  function OperatorHolds(op: string, fieldText: string, condText: string): bool {
    if op == "equals" then fieldText == condText
    else if op == "contains" then Contains(fieldText, condText)
    else if op == "starts_with" then StartsWith(fieldText, condText)
    else if op == "ends_with" then EndsWith(fieldText, condText)
    else false
  }

  lemma {:induction false} StartsWithMeans(s: string, p: string)
    ensures StartsWith(s, p) <==> exists rest :: s == p + rest
  {
    if StartsWith(s, p) {
      assert s == p + s[|p|..];
    }
    if exists rest :: s == p + rest {
      var rest :| s == p + rest;
      assert s[..|p|] == p;
    }
  }

  lemma {:induction false} EndsWithMeans(s: string, p: string)
    ensures EndsWith(s, p) <==> exists head :: s == head + p
  {
    if EndsWith(s, p) {
      assert s == s[..|s| - |p|] + p;
    }
    if exists head :: s == head + p {
      var head :| s == head + p;
      assert s[|head|..] == p;
    }
  }

  /** `evaluate_condition`: false when the transaction has no value for the
      field; otherwise the operator decides on the lower-cased `str()` of the
      field value and of the condition value, and an unknown operator is
      false. */
  function EvaluateCondition(t: BankTransaction, c: RuleCondition): (r: bool)
    ensures GetAttr(t, c.field) == NoneVal ==> !r
    ensures c.operator !in {"equals", "contains", "starts_with", "ends_with"} ==> !r
    ensures GetAttr(t, c.field) != NoneVal ==>
      var f, v := Lower(Text(GetAttr(t, c.field))), Lower(c.value);
      && (c.operator == "equals" ==> (r <==> f == v))
      && (c.operator == "contains" ==> (r <==> Occurs(v, f)))
      && (c.operator == "starts_with" ==> (r <==> exists rest :: f == v + rest))
      && (c.operator == "ends_with" ==> (r <==> exists head :: f == head + v))
  {
    var fv := GetAttr(t, c.field);
    if fv == NoneVal then false
    else
      var f, v := Lower(Text(fv)), Lower(c.value);
      StartsWithMeans(f, v);
      EndsWithMeans(f, v);
      OperatorHolds(c.operator, f, v)
  }

  /** Changing the case of the condition value never changes the outcome. */
  lemma {:induction false} ConditionValueCaseInsensitive(t: BankTransaction, c: RuleCondition, w: string)
    requires Lower(w) == Lower(c.value)
    ensures EvaluateCondition(t, c.(value := w)) == EvaluateCondition(t, c)
  {
  }

  /** Replacing the field's value by a text that differs only in case never
      changes the outcome. */
  lemma {:induction false} FieldValueCaseInsensitive(t: BankTransaction, c: RuleCondition, w: string)
    requires IsColumn(c.field) && GetAttr(t, c.field) != NoneVal
    requires Lower(w) == Lower(Text(GetAttr(t, c.field)))
    ensures EvaluateCondition(SetAttr(t, c.field, Str(w)).value, c) == EvaluateCondition(t, c)
  {
    GetSetAttr(t, c.field, Str(w), c.field);
  }

  /** A rule as the engine sees it: either loaded, or an instance whose session
      has expired, on which any attribute access raises; the engine catches
      that and reports no match. */
  datatype RuleRef = Live(rule: Rule) | Stale

  /** `all(...)` over the conditions. */
  function AllHold(t: BankTransaction, cs: seq<RuleCondition>): (r: bool)
    ensures r <==> forall k :: 0 <= k < |cs| ==> EvaluateCondition(t, cs[k])
  {
    if cs == [] then true
    else EvaluateCondition(t, cs[0]) && AllHold(t, cs[1..])
  }

  /** `any(...)` over the conditions. */
  function AnyHolds(t: BankTransaction, cs: seq<RuleCondition>): (r: bool)
    ensures r <==> exists k :: 0 <= k < |cs| && EvaluateCondition(t, cs[k])
  {
    if cs == [] then false
    else if EvaluateCondition(t, cs[0]) then true
    else
      var rest := AnyHolds(t, cs[1..]);
      assert rest ==> exists k :: 0 <= k < |cs| && EvaluateCondition(t, cs[k]) by {
        if rest {
          var k :| 0 <= k < |cs[1..]| && EvaluateCondition(t, cs[1..][k]);
          assert EvaluateCondition(t, cs[k + 1]);
        }
      }
      assert (exists k :: 0 <= k < |cs| && EvaluateCondition(t, cs[k])) ==> rest by {
        if exists k :: 0 <= k < |cs| && EvaluateCondition(t, cs[k]) {
          var k :| 0 <= k < |cs| && EvaluateCondition(t, cs[k]);
          assert k != 0;
          assert cs[1..][k - 1] == cs[k];
        }
      }
      rest
  }

  /** `evaluate_rule`: no conditions never matches; "OR" matches when some
      condition holds; "AND" and every other operator when all hold; an
      expired rule never matches. */
  function EvaluateRule(t: BankTransaction, rr: RuleRef): (r: bool)
    ensures rr.Stale? ==> !r
    ensures rr.Live? && rr.rule.conditions == [] ==> !r
    ensures rr.Live? && rr.rule.logicalOperator == "OR" ==>
      (r <==> exists k :: 0 <= k < |rr.rule.conditions| && EvaluateCondition(t, rr.rule.conditions[k]))
    ensures rr.Live? && rr.rule.logicalOperator != "OR" ==>
      (r <==> rr.rule.conditions != [] && forall k :: 0 <= k < |rr.rule.conditions| ==> EvaluateCondition(t, rr.rule.conditions[k]))
  {
    match rr
    case Stale => false
    case Live(rule) =>
      if rule.conditions == [] then false
      else if rule.logicalOperator == "AND" then AllHold(t, rule.conditions)
      else if rule.logicalOperator == "OR" then AnyHolds(t, rule.conditions)
      else AllHold(t, rule.conditions)
  }

  /** Any logical operator other than "OR" behaves exactly like "AND". */
  lemma {:induction false} UnknownOperatorIsAnd(t: BankTransaction, rule: Rule, op: string)
    requires op != "OR"
    ensures EvaluateRule(t, Live(rule.(logicalOperator := op))) == EvaluateRule(t, Live(rule.(logicalOperator := "AND")))
  {
  }

  /** The triple `apply_rules` returns. */
  datatype Selection = Selection(matched: bool, categoryId: Option<int>, ruleId: Option<int>)

  const NoMatch := Selection(false, None, None)

  /** `rules[i]` is the first rule of the list that matches `t`. */
  predicate FirstMatchAt(t: BankTransaction, rules: seq<RuleRef>, i: int) {
    0 <= i < |rules| && EvaluateRule(t, rules[i])
    && forall j :: 0 <= j < i ==> !EvaluateRule(t, rules[j])
  }

  /** `apply_rules`: the category and id of the first rule in list order that
      matches, or no match at all. */
  function ApplyRules(t: BankTransaction, rules: seq<RuleRef>): (s: Selection)
    ensures s.matched <==> exists i :: 0 <= i < |rules| && EvaluateRule(t, rules[i])
    ensures s.matched ==>
      exists i :: (FirstMatchAt(t, rules, i)
                   && s.categoryId == Some(rules[i].rule.categoryId) && s.ruleId == Some(rules[i].rule.id))
    ensures !s.matched ==> s == NoMatch
  {
    if rules == [] then NoMatch
    else if EvaluateRule(t, rules[0]) then
      assert FirstMatchAt(t, rules, 0);
      Selection(true, Some(rules[0].rule.categoryId), Some(rules[0].rule.id))
    else
      var s := ApplyRules(t, rules[1..]);
      if s.matched then
        var i :| FirstMatchAt(t, rules[1..], i)
          && s.categoryId == Some(rules[1..][i].rule.categoryId) && s.ruleId == Some(rules[1..][i].rule.id);
        FirstMatchShift(rules, rr => EvaluateRule(t, rr), i);
        s
      else
        NoMatchShift(rules, rr => EvaluateRule(t, rr));
        s
  }

  /** A first hit in the tail is a first hit of the list when the head
      misses. */
  lemma {:induction false} FirstMatchShift<T>(xs: seq<T>, p: T -> bool, i: int)
    requires xs != [] && !p(xs[0])
    requires 0 <= i < |xs[1..]| && p(xs[1..][i]) && forall j :: 0 <= j < i ==> !p(xs[1..][j])
    ensures xs[i + 1] == xs[1..][i]
    ensures forall j :: 0 <= j < i + 1 ==> !p(xs[j])
  {
    forall j | 0 <= j < i + 1
      ensures !p(xs[j])
    {
      if j > 0 {
        assert xs[j] == xs[1..][j - 1];
      }
    }
  }

  /** Nothing in the list hits when neither the head nor the tail does. */
  lemma {:induction false} NoMatchShift<T>(xs: seq<T>, p: T -> bool)
    requires xs != [] && !p(xs[0])
    requires forall i :: 0 <= i < |xs[1..]| ==> !p(xs[1..][i])
    ensures forall i :: 0 <= i < |xs| ==> !p(xs[i])
  {
    forall i | 1 <= i < |xs|
      ensures !p(xs[i])
    {
      assert xs[i] == xs[1..][i - 1];
    }
  }

  /** Once a rule of the list matches, rules appended after the list are
      never consulted. */
  lemma {:induction false} LaterRulesIgnored(t: BankTransaction, rules: seq<RuleRef>, more: seq<RuleRef>)
    requires exists i :: 0 <= i < |rules| && EvaluateRule(t, rules[i])
    ensures ApplyRules(t, rules + more) == ApplyRules(t, rules)
  {
    var all := rules + more;
    assert all[0] == rules[0];
    if EvaluateRule(t, rules[0]) {
      assert ApplyRules(t, all) == Selection(true, Some(rules[0].rule.categoryId), Some(rules[0].rule.id));
    } else {
      var i :| 0 <= i < |rules| && EvaluateRule(t, rules[i]);
      assert i > 0 && rules[1..][i - 1] == rules[i];
      TailOfAppend(rules, more);
      LaterRulesIgnored(t, rules[1..], more);
      assert ApplyRules(t, all) == ApplyRules(t, all[1..]);
    }
  }

  lemma {:induction false} TailOfAppend<T>(a: seq<T>, b: seq<T>)
    requires |a| > 0
    ensures (a + b)[1..] == a[1..] + b
  {
  }
}
