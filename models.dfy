/** The ORM entities the core works on: `BankTransaction` (table
    `bank_transaction`), `Rule` and `RuleCondition`, and the two shapes a
    record takes on its way through the middleware pipeline. */
module Models {
  import opened Wrappers
  import opened Values

  /** One row of `bank_transaction`. Every column holds a dynamic value,
      because attribute assignment in Python stores whatever it is given
      (the import stores raw date strings in the date columns, for example). */
  datatype BankTransaction = BankTransaction(
    id: Value,
    bookingDate: Value,
    valueDate: Value,
    status: Value,
    payer: Value,
    payee: Value,
    purpose: Value,
    transactionType: Value,
    iban: Value,
    amount: Value,
    creditorId: Value,
    mandateReference: Value,
    customerReference: Value,
    categoryId: Value,
    transactionHash: Value,
    ruleId: Value,
    bankAccountId: Value,
    counterpartyIban: Value,
    isInternalTransfer: Value)

  /** The columns of `bank_transaction`. */
  datatype Column =
    | IdCol
    | BookingDateCol
    | ValueDateCol
    | StatusCol
    | PayerCol
    | PayeeCol
    | PurposeCol
    | TransactionTypeCol
    | IbanCol
    | AmountCol
    | CreditorIdCol
    | MandateReferenceCol
    | CustomerReferenceCol
    | CategoryIdCol
    | TransactionHashCol
    | RuleIdCol
    | BankAccountIdCol
    | CounterpartyIbanCol
    | IsInternalTransferCol

  /** The attribute name of each column. */
  function ColumnName(c: Column): string {
    match c
    case IdCol => "id"
    case BookingDateCol => "booking_date"
    case ValueDateCol => "value_date"
    case StatusCol => "status"
    case PayerCol => "payer"
    case PayeeCol => "payee"
    case PurposeCol => "purpose"
    case TransactionTypeCol => "transaction_type"
    case IbanCol => "iban"
    case AmountCol => "amount"
    case CreditorIdCol => "creditor_id"
    case MandateReferenceCol => "mandate_reference"
    case CustomerReferenceCol => "customer_reference"
    case CategoryIdCol => "category_id"
    case TransactionHashCol => "transaction_hash"
    case RuleIdCol => "rule_id"
    case BankAccountIdCol => "bank_account_id"
    case CounterpartyIbanCol => "counterparty_iban"
    case IsInternalTransferCol => "is_internal_transfer"
  }

  /** The column an attribute name denotes, if any. */
  function ColumnOf(name: string): (r: Option<Column>)
    ensures r.Some? ==> ColumnName(r.value) == name
  {
    if name == "id" then Some(IdCol)
    else if name == "booking_date" then Some(BookingDateCol)
    else if name == "value_date" then Some(ValueDateCol)
    else if name == "status" then Some(StatusCol)
    else if name == "payer" then Some(PayerCol)
    else if name == "payee" then Some(PayeeCol)
    else if name == "purpose" then Some(PurposeCol)
    else if name == "transaction_type" then Some(TransactionTypeCol)
    else if name == "iban" then Some(IbanCol)
    else if name == "amount" then Some(AmountCol)
    else if name == "creditor_id" then Some(CreditorIdCol)
    else if name == "mandate_reference" then Some(MandateReferenceCol)
    else if name == "customer_reference" then Some(CustomerReferenceCol)
    else if name == "category_id" then Some(CategoryIdCol)
    else if name == "transaction_hash" then Some(TransactionHashCol)
    else if name == "rule_id" then Some(RuleIdCol)
    else if name == "bank_account_id" then Some(BankAccountIdCol)
    else if name == "counterparty_iban" then Some(CounterpartyIbanCol)
    else if name == "is_internal_transfer" then Some(IsInternalTransferCol)
    else None
  }

  /** Every column's attribute name denotes that column. */
  lemma {:induction false} ColumnOfName(c: Column)
    ensures ColumnOf(ColumnName(c)) == Some(c)
  {
    if c.IdCol? || c.BookingDateCol? || c.ValueDateCol? || c.StatusCol? || c.PayerCol? {
      LeadingNames(c);
    } else if c.PayeeCol? || c.PurposeCol? || c.TransactionTypeCol? || c.IbanCol? || c.AmountCol? {
      TextNames(c);
    } else if c.CreditorIdCol? || c.MandateReferenceCol? || c.CustomerReferenceCol? || c.CategoryIdCol? || c.TransactionHashCol? {
      ReferenceNames(c);
    } else {
      TrailingNames(c);
    }
  }

  // The helpers below each take a few columns, so that no proof has to
  // tell all nineteen names apart at once.

  lemma {:induction false} LeadingNames(c: Column)
    requires c.IdCol? || c.BookingDateCol? || c.ValueDateCol? || c.StatusCol? || c.PayerCol?
    ensures ColumnOf(ColumnName(c)) == Some(c)
  {
  }

  lemma {:induction false} TextNames(c: Column)
    requires c.PayeeCol? || c.PurposeCol? || c.TransactionTypeCol? || c.IbanCol? || c.AmountCol?
    ensures ColumnOf(ColumnName(c)) == Some(c)
  {
  }

  lemma {:induction false} ReferenceNames(c: Column)
    requires c.CreditorIdCol? || c.MandateReferenceCol? || c.CustomerReferenceCol? || c.CategoryIdCol? || c.TransactionHashCol?
    ensures ColumnOf(ColumnName(c)) == Some(c)
  {
  }

  lemma {:induction false} TrailingNames(c: Column)
    requires c.RuleIdCol? || c.BankAccountIdCol? || c.CounterpartyIbanCol? || c.IsInternalTransferCol?
    ensures ColumnOf(ColumnName(c)) == Some(c)
  {
  }

  predicate IsColumn(name: string) {
    ColumnOf(name).Some?
  }

  /** A freshly constructed `BankTransaction()`: every attribute is None until
      the row is inserted. */
  const Blank := BankTransaction(NoneVal, NoneVal, NoneVal, NoneVal, NoneVal, NoneVal, NoneVal,
                                 NoneVal, NoneVal, NoneVal, NoneVal, NoneVal, NoneVal, NoneVal,
                                 NoneVal, NoneVal, NoneVal, NoneVal, NoneVal)

  function Get(t: BankTransaction, c: Column): Value {
    match c
    case IdCol => t.id
    case BookingDateCol => t.bookingDate
    case ValueDateCol => t.valueDate
    case StatusCol => t.status
    case PayerCol => t.payer
    case PayeeCol => t.payee
    case PurposeCol => t.purpose
    case TransactionTypeCol => t.transactionType
    case IbanCol => t.iban
    case AmountCol => t.amount
    case CreditorIdCol => t.creditorId
    case MandateReferenceCol => t.mandateReference
    case CustomerReferenceCol => t.customerReference
    case CategoryIdCol => t.categoryId
    case TransactionHashCol => t.transactionHash
    case RuleIdCol => t.ruleId
    case BankAccountIdCol => t.bankAccountId
    case CounterpartyIbanCol => t.counterpartyIban
    case IsInternalTransferCol => t.isInternalTransfer
  }

  function Set(t: BankTransaction, c: Column, v: Value): BankTransaction {
    match c
    case IdCol => t.(id := v)
    case BookingDateCol => t.(bookingDate := v)
    case ValueDateCol => t.(valueDate := v)
    case StatusCol => t.(status := v)
    case PayerCol => t.(payer := v)
    case PayeeCol => t.(payee := v)
    case PurposeCol => t.(purpose := v)
    case TransactionTypeCol => t.(transactionType := v)
    case IbanCol => t.(iban := v)
    case AmountCol => t.(amount := v)
    case CreditorIdCol => t.(creditorId := v)
    case MandateReferenceCol => t.(mandateReference := v)
    case CustomerReferenceCol => t.(customerReference := v)
    case CategoryIdCol => t.(categoryId := v)
    case TransactionHashCol => t.(transactionHash := v)
    case RuleIdCol => t.(ruleId := v)
    case BankAccountIdCol => t.(bankAccountId := v)
    case CounterpartyIbanCol => t.(counterpartyIban := v)
    case IsInternalTransferCol => t.(isInternalTransfer := v)
  }

  /** Setting a column and reading it back gives the value set, and every
      other column keeps its value. */
  lemma {:induction false} GetSet(t: BankTransaction, c: Column, v: Value, d: Column)
    ensures Get(Set(t, c, v), c) == v
    ensures d != c ==> Get(Set(t, c, v), d) == Get(t, d)
  {
  }

  /** Two transactions with the same value in every column are the same. */
  lemma {:induction false} ColumnsDetermine(t: BankTransaction, u: BankTransaction)
    requires forall c :: Get(t, c) == Get(u, c)
    ensures t == u
  {
    LeadingColumnsAgree(t, u);
    TextColumnsAgree(t, u);
    ReferenceColumnsAgree(t, u);
    TrailingColumnsAgree(t, u);
  }

  // The four helpers below each read a few columns through `Get`, so that
  // no proof has to unfold all nineteen cases at once.

  lemma {:induction false} LeadingColumnsAgree(t: BankTransaction, u: BankTransaction)
    requires forall c :: Get(t, c) == Get(u, c)
    ensures t.id == u.id && t.bookingDate == u.bookingDate && t.valueDate == u.valueDate
    ensures t.status == u.status && t.payer == u.payer
  {
    assert Get(t, IdCol) == Get(u, IdCol);
    assert Get(t, BookingDateCol) == Get(u, BookingDateCol);
    assert Get(t, ValueDateCol) == Get(u, ValueDateCol);
    assert Get(t, StatusCol) == Get(u, StatusCol);
    assert Get(t, PayerCol) == Get(u, PayerCol);
  }

  lemma {:induction false} TextColumnsAgree(t: BankTransaction, u: BankTransaction)
    requires forall c :: Get(t, c) == Get(u, c)
    ensures t.payee == u.payee && t.purpose == u.purpose && t.transactionType == u.transactionType
    ensures t.iban == u.iban && t.amount == u.amount
  {
    assert Get(t, PayeeCol) == Get(u, PayeeCol);
    assert Get(t, PurposeCol) == Get(u, PurposeCol);
    assert Get(t, TransactionTypeCol) == Get(u, TransactionTypeCol);
    assert Get(t, IbanCol) == Get(u, IbanCol);
    assert Get(t, AmountCol) == Get(u, AmountCol);
  }

  lemma {:induction false} ReferenceColumnsAgree(t: BankTransaction, u: BankTransaction)
    requires forall c :: Get(t, c) == Get(u, c)
    ensures t.creditorId == u.creditorId && t.mandateReference == u.mandateReference
    ensures t.customerReference == u.customerReference && t.categoryId == u.categoryId
    ensures t.transactionHash == u.transactionHash
  {
    assert Get(t, CreditorIdCol) == Get(u, CreditorIdCol);
    assert Get(t, MandateReferenceCol) == Get(u, MandateReferenceCol);
    assert Get(t, CustomerReferenceCol) == Get(u, CustomerReferenceCol);
    assert Get(t, CategoryIdCol) == Get(u, CategoryIdCol);
    assert Get(t, TransactionHashCol) == Get(u, TransactionHashCol);
  }

  lemma {:induction false} TrailingColumnsAgree(t: BankTransaction, u: BankTransaction)
    requires forall c :: Get(t, c) == Get(u, c)
    ensures t.ruleId == u.ruleId && t.bankAccountId == u.bankAccountId
    ensures t.counterpartyIban == u.counterpartyIban && t.isInternalTransfer == u.isInternalTransfer
  {
    assert Get(t, RuleIdCol) == Get(u, RuleIdCol);
    assert Get(t, BankAccountIdCol) == Get(u, BankAccountIdCol);
    assert Get(t, CounterpartyIbanCol) == Get(u, CounterpartyIbanCol);
    assert Get(t, IsInternalTransferCol) == Get(u, IsInternalTransferCol);
  }

  /** The many-to-one relationships of `BankTransaction`, each carried by a
      foreign-key column: `category` (the backref of `Category.transactions`),
      `applied_rule` and `bank_account`. */
  datatype Relation = CategoryRel | AppliedRuleRel | BankAccountRel

  function RelationName(r: Relation): string {
    match r
    case CategoryRel => "category"
    case AppliedRuleRel => "applied_rule"
    case BankAccountRel => "bank_account"
  }

  /** The foreign-key column a relationship is synchronised into at flush. */
  function ForeignKey(r: Relation): Column {
    match r
    case CategoryRel => CategoryIdCol
    case AppliedRuleRel => RuleIdCol
    case BankAccountRel => BankAccountIdCol
  }

  /** The relationship an attribute name denotes, if any. */
  function RelationOf(name: string): (r: Option<Relation>)
    ensures r.Some? ==> RelationName(r.value) == name
    ensures r.None? ==> forall rel :: RelationName(rel) != name
  {
    if name == "category" then Some(CategoryRel)
    else if name == "applied_rule" then Some(AppliedRuleRel)
    else if name == "bank_account" then Some(BankAccountRel)
    else None
  }

  /** No relationship name is a column name. */
  lemma {:induction false} RelationsAreNotColumns()
    ensures forall rel :: ColumnOf(RelationName(rel)).None?
  {
    forall rel
      ensures ColumnOf(RelationName(rel)).None?
    {
      match rel
      case CategoryRel => assert ColumnOf("category").None?;
      case AppliedRuleRel => assert ColumnOf("applied_rule").None?;
      case BankAccountRel => assert ColumnOf("bank_account").None?;
    }
  }

  predicate IsRelation(name: string) {
    RelationOf(name).Some?
  }

  /** `hasattr(t, name)` for the names the model knows: the columns and the
      relationships. */
  predicate IsAttribute(name: string) {
    IsColumn(name) || IsRelation(name)
  }

  /** `getattr(t, name, None)` for a column. A relationship yields the related
      ORM object, whose text is not a function of the row, so the model reads
      it, like any other name, as None. */
  function GetAttr(t: BankTransaction, name: string): Value {
    match ColumnOf(name)
    case Some(c) => Get(t, c)
    case None => NoneVal
  }

  /** `setattr(t, name, v)` guarded by `hasattr`, with the row as the next
      flush writes it: a column takes the value; a relationship set to None
      has its foreign key cleared; a relationship given any other value
      raises (None), because only an ORM object can be assigned to it; a name
      that is no attribute leaves the transaction as it is. */
  function SetAttr(t: BankTransaction, name: string, v: Value): (r: Option<BankTransaction>)
    ensures r.None? <==> IsRelation(name) && v != NoneVal
  {
    match ColumnOf(name)
    case Some(c) => Some(Set(t, c, v))
    case None =>
      match RelationOf(name)
      case Some(rel) => if v == NoneVal then Some(Set(t, ForeignKey(rel), NoneVal)) else None
      case None => Some(t)
  }

  /** Setting a column and reading it back gives the value set while every
      other name keeps its value; a relationship accepts only None, which
      clears its foreign key and nothing else; a name that is no attribute
      changes nothing. */
  lemma {:induction false} GetSetAttr(t: BankTransaction, name: string, v: Value, other: string)
    ensures IsColumn(name) ==> SetAttr(t, name, v).Some? && GetAttr(SetAttr(t, name, v).value, name) == v
    ensures IsColumn(name) && other != name ==> GetAttr(SetAttr(t, name, v).value, other) == GetAttr(t, other)
    ensures IsRelation(name) ==> (SetAttr(t, name, v).Some? <==> v == NoneVal)
    ensures IsRelation(name) && v == NoneVal ==> forall c :: (Get(SetAttr(t, name, v).value, c) ==
      if c == ForeignKey(RelationOf(name).value) then NoneVal else Get(t, c))
    ensures !IsAttribute(name) ==> SetAttr(t, name, v) == Some(t)
  {
    if IsColumn(name) && IsColumn(other) {
      GetSet(t, ColumnOf(name).value, v, ColumnOf(other).value);
    } else if IsColumn(name) {
      GetSet(t, ColumnOf(name).value, v, ColumnOf(name).value);
    } else if IsRelation(name) && v == NoneVal {
      var fk := ForeignKey(RelationOf(name).value);
      forall c
        ensures Get(SetAttr(t, name, v).value, c) == if c == fk then NoneVal else Get(t, c)
      {
        GetSet(t, fk, NoneVal, c);
      }
    }
  }

  function Lookup(m: map<string, Value>, key: string): Value {
    if key in m then m[key] else NoneVal
  }

  /** `BankTransaction()` followed by `setattr(t, key, value)` for every key of
      a dictionary that names a column: each column holds the dictionary's
      value, or None when the key is absent. A relationship key leaves its
      foreign key alone until a flush. */
  function FromItems(m: map<string, Value>): (t: BankTransaction)
    ensures forall c :: Get(t, c) == Lookup(m, ColumnName(c))
  {
    BankTransaction(
      Lookup(m, "id"), Lookup(m, "booking_date"), Lookup(m, "value_date"), Lookup(m, "status"),
      Lookup(m, "payer"), Lookup(m, "payee"), Lookup(m, "purpose"), Lookup(m, "transaction_type"),
      Lookup(m, "iban"), Lookup(m, "amount"), Lookup(m, "creditor_id"), Lookup(m, "mandate_reference"),
      Lookup(m, "customer_reference"), Lookup(m, "category_id"), Lookup(m, "transaction_hash"),
      Lookup(m, "rule_id"), Lookup(m, "bank_account_id"), Lookup(m, "counterparty_iban"),
      Lookup(m, "is_internal_transfer"))
  }

  /** Keys that are not columns take no part in the transaction built from a
      dictionary. */
  lemma {:induction false} FromItemsIgnoresOtherKeys(m: map<string, Value>, key: string, v: Value)
    requires !IsColumn(key)
    ensures FromItems(m[key := v]) == FromItems(m)
  {
    var a, b := FromItems(m[key := v]), FromItems(m);
    forall c
      ensures Get(a, c) == Get(b, c)
    {
      ColumnOfName(c);
      assert ColumnName(c) != key;
    }
    ColumnsDetermine(a, b);
  }

  function Pick(m: map<string, Value>, key: string, current: Value): Value {
    if key in m then m[key] else current
  }

  /** `setattr(t, key, value)` for every key of an update dictionary that
      names a column, as the object holds it before any flush: those columns
      take the dictionary's value, the others keep theirs. */
  function Overlay(t: BankTransaction, m: map<string, Value>): (r: BankTransaction)
    ensures forall c :: Get(r, c) == if ColumnName(c) in m then m[ColumnName(c)] else Get(t, c)
  {
    BankTransaction(
      Pick(m, "id", t.id), Pick(m, "booking_date", t.bookingDate), Pick(m, "value_date", t.valueDate),
      Pick(m, "status", t.status), Pick(m, "payer", t.payer), Pick(m, "payee", t.payee),
      Pick(m, "purpose", t.purpose), Pick(m, "transaction_type", t.transactionType),
      Pick(m, "iban", t.iban), Pick(m, "amount", t.amount), Pick(m, "creditor_id", t.creditorId),
      Pick(m, "mandate_reference", t.mandateReference), Pick(m, "customer_reference", t.customerReference),
      Pick(m, "category_id", t.categoryId), Pick(m, "transaction_hash", t.transactionHash),
      Pick(m, "rule_id", t.ruleId), Pick(m, "bank_account_id", t.bankAccountId),
      Pick(m, "counterparty_iban", t.counterpartyIban), Pick(m, "is_internal_transfer", t.isInternalTransfer))
  }

  /** An update without column keys changes nothing. */
  lemma {:induction false} OverlayWithoutColumns(t: BankTransaction, m: map<string, Value>)
    requires forall k :: k in m ==> !IsColumn(k)
    ensures Overlay(t, m) == t
  {
    forall c
      ensures Get(Overlay(t, m), c) == Get(t, c)
    {
      ColumnOfName(c);
    }
    ColumnsDetermine(Overlay(t, m), t);
  }

  /** Every relationship key of a dictionary holds None, the one JSON value
      `setattr` accepts for a relationship. */
  predicate Settable(m: map<string, Value>) {
    && ("category" in m ==> m["category"] == NoneVal)
    && ("applied_rule" in m ==> m["applied_rule"] == NoneVal)
    && ("bank_account" in m ==> m["bank_account"] == NoneVal)
  }

  /** The dictionary sets the relationship whose foreign key is `c`. */
  predicate ClearedBy(m: map<string, Value>, c: Column) {
    || (c == CategoryIdCol && "category" in m)
    || (c == RuleIdCol && "applied_rule" in m)
    || (c == BankAccountIdCol && "bank_account" in m)
  }

  /** The row as the flush writes it after the dictionary's relationship keys
      were set to None: SQLAlchemy synchronises each such relationship into
      its foreign key, which becomes None whatever the column itself was set
      to, and in whichever order the keys came. */
  function Flushed(t: BankTransaction, m: map<string, Value>): (r: BankTransaction)
    ensures forall c :: Get(r, c) == if ClearedBy(m, c) then NoneVal else Get(t, c)
  {
    var t1 := if "category" in m then t.(categoryId := NoneVal) else t;
    var t2 := if "applied_rule" in m then t1.(ruleId := NoneVal) else t1;
    if "bank_account" in m then t2.(bankAccountId := NoneVal) else t2
  }

  /** `setattr(t, key, value)` for every key of an update dictionary, followed
      by the flush: None when a relationship key holds a value other than
      None (the loop raises); otherwise the row with every column key's
      value, every set relationship's foreign key cleared and every other
      column kept. */
  function UpdatedRow(t: BankTransaction, m: map<string, Value>): (r: Option<BankTransaction>)
    ensures r.Some? <==> Settable(m)
    ensures r.Some? ==> forall c :: (Get(r.value, c) ==
      if ClearedBy(m, c) then NoneVal else if ColumnName(c) in m then m[ColumnName(c)] else Get(t, c))
  {
    if Settable(m) then Some(Flushed(Overlay(t, m), m)) else None
  }

  /** A one-key update dictionary does what a single `setattr` does. */
  lemma {:induction false} SingleUpdate(t: BankTransaction, name: string, v: Value)
    ensures UpdatedRow(t, map[name := v]) == SetAttr(t, name, v)
  {
    match ColumnOf(name)
    case Some(c) =>
      SingleColumnUpdate(t, name, c, v);
    case None =>
      match RelationOf(name)
      case Some(rel) =>
        if v == NoneVal {
          SingleRelationUpdate(t, name, rel);
        }
      case None =>
        SingleOtherUpdate(t, name, v);
  }

  lemma {:induction false} SingleColumnUpdate(t: BankTransaction, name: string, c: Column, v: Value)
    requires ColumnOf(name) == Some(c)
    ensures UpdatedRow(t, map[name := v]) == Some(Set(t, c, v))
  {
    var m := map[name := v];
    RelationsAreNotColumns();
    assert "category" !in m && "applied_rule" !in m && "bank_account" !in m;
    var u := UpdatedRow(t, m).value;
    forall d
      ensures Get(u, d) == Get(Set(t, c, v), d)
    {
      GetSet(t, c, v, d);
      ColumnOfName(d);
    }
    ColumnsDetermine(u, Set(t, c, v));
  }

  lemma {:induction false} SingleRelationUpdate(t: BankTransaction, name: string, rel: Relation)
    requires ColumnOf(name).None? && RelationOf(name) == Some(rel)
    ensures UpdatedRow(t, map[name := NoneVal]) == Some(Set(t, ForeignKey(rel), NoneVal))
  {
    var u := UpdatedRow(t, map[name := NoneVal]).value;
    forall d
      ensures Get(u, d) == Get(Set(t, ForeignKey(rel), NoneVal), d)
    {
      GetSet(t, ForeignKey(rel), NoneVal, d);
      ColumnOfName(d);
    }
    ColumnsDetermine(u, Set(t, ForeignKey(rel), NoneVal));
  }

  lemma {:induction false} SingleOtherUpdate(t: BankTransaction, name: string, v: Value)
    requires ColumnOf(name).None? && RelationOf(name).None?
    ensures UpdatedRow(t, map[name := v]) == Some(t)
  {
    var u := UpdatedRow(t, map[name := v]).value;
    forall d
      ensures Get(u, d) == Get(t, d)
    {
      ColumnOfName(d);
    }
    ColumnsDetermine(u, t);
  }

  /** The `is_internal_transfer` column default, applied when a row is
      inserted without a value for it. */
  function WithInsertDefaults(t: BankTransaction): (r: BankTransaction)
    ensures r.isInternalTransfer == (if t.isInternalTransfer == NoneVal then Bool(false) else t.isInternalTransfer)
    ensures r.(isInternalTransfer := t.isInternalTransfer) == t
  {
    if t.isInternalTransfer == NoneVal then t.(isInternalTransfer := Bool(false)) else t
  }

  /** A value in the import dictionary (a `dict`) or a stored transaction (an
      ORM object); each stage branches on which of the two it is given. */
  datatype Record = Raw(items: map<string, Value>) | Entity(tx: BankTransaction)

  /** One condition of a rule; `value` is compared as text. */
  datatype RuleCondition = RuleCondition(
    id: int, ruleId: int, field: string, operator: string, value: string, sequence: int)

  /** A categorisation rule. `createdAt` stands for the `created_at`
      timestamp, of which only the order matters. */
  datatype Rule = Rule(
    id: int,
    name: string,
    categoryId: int,
    userId: Option<int>,
    logicalOperator: string,
    createdAt: nat,
    conditions: seq<RuleCondition>)

  /** The column constraints of `rule` and `rule_condition`: `logical_operator`
      is at most 10 characters and every condition belongs to its rule. */
  predicate WellFormedRule(r: Rule) {
    |r.logicalOperator| <= 10
    && forall k :: 0 <= k < |r.conditions| ==> r.conditions[k].ruleId == r.id
  }

  /** Rule creation's default for `logical_operator`. */
  const DefaultLogicalOperator := "AND"
}
