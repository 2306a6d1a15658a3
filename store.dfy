/** The database as the core sees it: the session's working set and the last
    committed state, with one commit point.

    Queries read the working set: the session flushes pending changes before
    each query, so a record added earlier in the same batch is already
    "existing" for a later duplicate check. */
module Store {
  import opened Wrappers
  import opened Values
  import opened Models
  import opened Middlewares

  datatype Snapshot = Snapshot(transactions: seq<BankTransaction>, rules: seq<Rule>, nextId: nat)

  /** The unique index on `transaction_hash`; NULLs never collide. */
  predicate UniqueHashes(ts: seq<BankTransaction>) {
    forall i, j :: 0 <= i < j < |ts| && ts[i].transactionHash != NoneVal ==>
      ts[i].transactionHash != ts[j].transactionHash
  }

  class Database {
    var committed: Snapshot
    var working: Snapshot

    /** What the database guarantees of a committed state. */
    ghost predicate Valid()
      reads this
    {
      UniqueHashes(committed.transactions)
    }

    constructor(initial: Snapshot)
      requires UniqueHashes(initial.transactions)
      ensures Valid() && committed == initial && working == initial
    {
      committed := initial;
      working := initial;
    }

    /** `db.session.commit()`: succeeds when the database accepts it (`ok`
        stands for everything outside the model) and the unique index holds;
        a failed commit changes nothing here, the caller rolls back. */
    method Commit(ok: bool) returns (success: bool)
      requires Valid()
      modifies this
      ensures Valid()
      ensures success == (ok && UniqueHashes(old(working).transactions))
      ensures working == old(working)
      ensures committed == if success then old(working) else old(committed)
    {
      success := ok && UniqueHashes(working.transactions);
      if success {
        committed := working;
      }
    }

    /** `db.session.rollback()`: the working set returns to the committed state. */
    method Rollback()
      requires Valid()
      modifies this
      ensures Valid() && committed == old(committed) && working == old(committed)
    {
      working := committed;
    }
  }

  /** `BankTransaction.query.filter_by(transaction_hash=h).first()`; `h` of
      None selects by `IS NULL`. */
  function FirstWithHash(ts: seq<BankTransaction>, h: Value): (r: Option<nat>)
    ensures r.Some? ==>
      (r.value < |ts| && ts[r.value].transactionHash == h
       && forall k :: 0 <= k < r.value ==> ts[k].transactionHash != h)
    ensures r.None? ==> forall k :: 0 <= k < |ts| ==> ts[k].transactionHash != h
  {
    if ts == [] then None
    else if ts[0].transactionHash == h then Some(0)
    else
      match FirstWithHash(ts[1..], h)
      case None => None
      case Some(k) => Some(k + 1)
  }

  /** `BankTransaction.query.get(id)` */
  function IndexOfId(ts: seq<BankTransaction>, id: int): (r: Option<nat>)
    ensures r.Some? ==>
      (r.value < |ts| && ts[r.value].id == Int(id)
       && forall k :: 0 <= k < r.value ==> ts[k].id != Int(id))
    ensures r.None? ==> forall k :: 0 <= k < |ts| ==> ts[k].id != Int(id)
  {
    if ts == [] then None
    else if ts[0].id == Int(id) then Some(0)
    else
      match IndexOfId(ts[1..], id)
      case None => None
      case Some(k) => Some(k + 1)
  }

  /** `Rule.query.get(id)` */
  function IndexOfRule(rules: seq<Rule>, id: int): (r: Option<nat>)
    ensures r.Some? ==>
      (r.value < |rules| && rules[r.value].id == id
       && forall k :: 0 <= k < r.value ==> rules[k].id != id)
    ensures r.None? ==> forall k :: 0 <= k < |rules| ==> rules[k].id != id
  {
    if rules == [] then None
    else if rules[0].id == id then Some(0)
    else
      match IndexOfRule(rules[1..], id)
      case None => None
      case Some(k) => Some(k + 1)
  }

  /** A filter over stored transactions, as the Python callable passed to the
      processing functions; an `Err` is the exception it raises. */
  type TxFilter = BankTransaction -> Result<bool, Fault>

  /** `[tx for tx in query.all() if filter_func(tx)]` from position `from`
      on: the positions the filter accepts, in order, or the first exception
      it raises. */
  function SelectFrom(ts: seq<BankTransaction>, filter: TxFilter, from: nat): (r: Result<seq<nat>, Fault>)
    requires from <= |ts|
    ensures r.Ok? ==> forall k :: 0 <= k < |r.value| ==> from <= r.value[k] < |ts|
    ensures r.Ok? ==> forall a, b :: 0 <= a < b < |r.value| ==> r.value[a] < r.value[b]
    ensures r.Ok? ==> forall i :: from <= i < |ts| ==> (i in r.value <==> filter(ts[i]) == Ok(true))
    ensures r.Err? <==> exists i :: from <= i < |ts| && filter(ts[i]).Err?
    decreases |ts| - from
  {
    if from == |ts| then Ok([])
    else
      match filter(ts[from])
      case Err(e) => Err(e)
      case Ok(keep) =>
        match SelectFrom(ts, filter, from + 1)
        case Err(e) => Err(e)
        case Ok(rest) => Ok(if keep then [from] + rest else rest)
  }

  /** The transactions to process: those the filter accepts, or all of them
      when there is no filter. */
  function Select(ts: seq<BankTransaction>, filter: Option<TxFilter>): (r: Result<seq<nat>, Fault>)
    ensures r.Ok? ==> forall k :: 0 <= k < |r.value| ==> r.value[k] < |ts|
    ensures filter.None? ==> r == Ok(seq(|ts|, k => k))
    ensures filter.Some? ==> r == SelectFrom(ts, filter.value, 0)
  {
    match filter
    case None => Ok(seq(|ts|, k => k))
    case Some(f) => SelectFrom(ts, f, 0)
  }
}
