/** `TransactionService`: import (pipeline, then save with duplicate
    detection), reprocessing of stored transactions, and single updates.

    The service works on the application's pipeline object and on the
    database session. Per-record errors that the source catches while saving
    are given as the set `failing` of input positions; whether the database
    accepts a commit is the flag `commitOk` (the unique index on
    `transaction_hash` is checked by the model itself). */
module TransactionService {
  import opened Wrappers
  import opened Values
  import opened Models
  import opened Middlewares
  import opened Store
  import opened Pipeline

  /** `process_import_data`: the dictionaries through `process_bulk`; a fault
      is raised again unchanged. */
  method ProcessImportData(p: TransactionMiddlewarePipeline, proc: Processor, data: seq<map<string, Value>>)
    returns (r: Result<seq<Record>, Fault>)
    modifies p
    ensures (p.middlewares, r) == Bulk(proc, old(p.middlewares), Raws(data))
  {
    r := p.ProcessBulk(proc, Raws(data));
  }

  function Raws(data: seq<map<string, Value>>): (r: seq<Record>)
    ensures |r| == |data| && forall i :: 0 <= i < |data| ==> r[i] == Raw(data[i])
  {
    seq(|data|, i requires 0 <= i < |data| => Raw(data[i]))
  }

  // ---------------------------------------------------------------------
  // save_transactions

  /** The row as inserted: the id the database assigns when none was given,
      and the `is_internal_transfer` default. */
  function StoredForm(t: BankTransaction, nextId: nat): (r: BankTransaction)
    ensures r.transactionHash == t.transactionHash
    ensures t.id != NoneVal ==> r.id == t.id
    ensures forall c :: c != IdCol && c != IsInternalTransferCol ==> Get(r, c) == Get(t, c)
  {
    WithInsertDefaults(if t.id == NoneVal then t.(id := Int(nextId)) else t)
  }

  /** The value an input gives column `c`: None for the foreign key of a
      relationship key (the flush clears it), otherwise the column key's
      value or None when the key is absent. */
  function ItemValue(item: map<string, Value>, c: Column): Value {
    if ClearedBy(item, c) then NoneVal else Lookup(item, ColumnName(c))
  }

  /** The row an input is inserted as: its column keys set on a fresh
      transaction and the flush's clearing of the relationships it sets, then
      the id and the default the insert supplies. */
  function Inserted(item: map<string, Value>, nextId: nat): (r: BankTransaction)
    ensures r.transactionHash == Lookup(item, "transaction_hash")
    ensures forall c :: c != IdCol && c != IsInternalTransferCol ==> Get(r, c) == ItemValue(item, c)
  {
    var u := Flushed(FromItems(item), item);
    assert forall c :: Get(u, c) == ItemValue(item, c);
    assert u.transactionHash == Get(u, TransactionHashCol);
    StoredForm(u, nextId)
  }

  /** The state of the save loop: the working set, the transactions saved so
      far with the input positions they came from, and the two counters. */
  datatype SaveState = SaveState(
    snap: Snapshot,
    saved: seq<BankTransaction>,
    savedFrom: seq<nat>,
    duplicates: nat,
    failures: nat)

  /** The hash in item `item` is already in the working set. */
  predicate KnownHash(ts: seq<BankTransaction>, item: map<string, Value>) {
    "transaction_hash" in item && FirstWithHash(ts, item["transaction_hash"]).Some?
  }

  /** One turn of the save loop, for the item at input position `i`: a
      failing item is skipped, an item whose hash is already in the working
      set is counted as a duplicate, an item with a relationship key that
      holds something other than None is lost to the error `setattr` raises,
      and any other one is built from its keys and added. */
  function SaveOne(st: SaveState, i: nat, item: map<string, Value>, failing: set<nat>): (r: SaveState)
    ensures r.snap.rules == st.snap.rules
    ensures i in failing ==> r == st.(failures := st.failures + 1)
    ensures i !in failing && KnownHash(st.snap.transactions, item) ==> r == st.(duplicates := st.duplicates + 1)
    ensures i !in failing && !KnownHash(st.snap.transactions, item) && !Settable(item) ==>
      r == st.(failures := st.failures + 1)
    ensures i !in failing && !KnownHash(st.snap.transactions, item) && Settable(item) ==>
      var t := Inserted(item, st.snap.nextId);
      && r.saved == st.saved + [t] && r.savedFrom == st.savedFrom + [i]
      && r.snap.transactions == st.snap.transactions + [t]
      && r.duplicates == st.duplicates && r.failures == st.failures
  {
    if i in failing then st.(failures := st.failures + 1)
    else if KnownHash(st.snap.transactions, item) then st.(duplicates := st.duplicates + 1)
    else if !Settable(item) then st.(failures := st.failures + 1)
    else
      var t := Inserted(item, st.snap.nextId);
      SaveState(st.snap.(transactions := st.snap.transactions + [t], nextId := st.snap.nextId + 1),
                st.saved + [t], st.savedFrom + [i], st.duplicates, st.failures)
  }

  /** The save loop over `data`, from the working set `snap`. */
  function SaveFold(snap: Snapshot, data: seq<map<string, Value>>, failing: set<nat>): SaveState {
    if data == [] then SaveState(snap, [], [], 0, 0)
    else SaveOne(SaveFold(snap, data[..|data| - 1], failing), |data| - 1, data[|data| - 1], failing)
  }

  /** Every input is saved, skipped as a duplicate or lost to an error, and
      the saved transactions are appended to the working set in input
      order. */
  lemma {:induction false} SaveAccounting(snap: Snapshot, data: seq<map<string, Value>>, failing: set<nat>)
    ensures var st := SaveFold(snap, data, failing);
      && |st.saved| + st.duplicates + st.failures == |data|
      && st.snap.transactions == snap.transactions + st.saved
      && st.snap.rules == snap.rules
      && |st.savedFrom| == |st.saved|
  {
    if data != [] {
      var init := data[..|data| - 1];
      SaveAccounting(snap, init, failing);
      var st := SaveFold(snap, init, failing);
      assert st.snap.transactions + [Inserted(data[|data| - 1], st.snap.nextId)]
        == snap.transactions + (st.saved + [Inserted(data[|data| - 1], st.snap.nextId)]);
    }
  }

  /** Each saved transaction comes from a later input than the one before
      it, and from an input that did not fail. */
  lemma {:induction false} SaveOrder(snap: Snapshot, data: seq<map<string, Value>>, failing: set<nat>)
    ensures var st := SaveFold(snap, data, failing);
      && |st.savedFrom| == |st.saved|
      && (forall a, b :: 0 <= a < b < |st.savedFrom| ==> st.savedFrom[a] < st.savedFrom[b])
      && (forall k :: 0 <= k < |st.savedFrom| ==> st.savedFrom[k] < |data| && st.savedFrom[k] !in failing)
  {
    if data != [] {
      SaveOrder(snap, data[..|data| - 1], failing);
    }
  }

  /** Each saved transaction carries the column values of the input it came
      from, with the foreign key of every relationship the input sets
      cleared. */
  lemma {:induction false} SaveOrigins(snap: Snapshot, data: seq<map<string, Value>>, failing: set<nat>)
    ensures var st := SaveFold(snap, data, failing);
      && |st.savedFrom| == |st.saved|
      && (forall k :: 0 <= k < |st.saved| ==>
            && st.savedFrom[k] < |data|
            && forall c :: c != IdCol && c != IsInternalTransferCol ==>
                 Get(st.saved[k], c) == ItemValue(data[st.savedFrom[k]], c))
  {
    SaveOrder(snap, data, failing);
    if data != [] {
      var init := data[..|data| - 1];
      SaveOrigins(snap, init, failing);
      SaveOrder(snap, init, failing);
      var st := SaveFold(snap, init, failing);
      assert forall k :: 0 <= k < |st.savedFrom| ==> data[st.savedFrom[k]] == init[st.savedFrom[k]];
    }
  }

  /** An input left out of the saved list failed, carried a hash that was
      already stored (possibly by an earlier input of the same batch), or
      set a relationship to something other than None. */
  lemma {:induction false} SkippedMeansFailedOrKnown(snap: Snapshot, data: seq<map<string, Value>>, failing: set<nat>, i: nat)
    requires i < |data|
    requires i !in SaveFold(snap, data, failing).savedFrom
    ensures i in failing || KnownHash(SaveFold(snap, data[..i], failing).snap.transactions, data[i])
            || !Settable(data[i])
  {
    var init := data[..|data| - 1];
    SaveOrder(snap, init, failing);
    if i == |data| - 1 {
      assert data[..i] == init;
    } else {
      assert init[..i] == data[..i] && init[i] == data[i];
      var st := SaveFold(snap, init, failing);
      assert i !in st.savedFrom;
      SkippedMeansFailedOrKnown(snap, init, failing, i);
    }
  }

  /** Two inputs of one batch with the same hash are never both saved: the
      first, once saved, is in the working set by the time the second is
      checked, and the second then counts as a duplicate. */
  lemma {:induction false} SameHashInBatch(snap: Snapshot, a: map<string, Value>, b: map<string, Value>)
    requires "transaction_hash" in a && "transaction_hash" in b
    requires a["transaction_hash"] == b["transaction_hash"]
    ensures |SaveFold(snap, [a, b], {}).saved| <= 1
    ensures Settable(a) ==> SaveFold(snap, [a, b], {}).duplicates >= 1
  {
    assert [a][..0] == [] && [a][0] == a;
    assert SaveFold(snap, [], {}) == SaveState(snap, [], [], 0, 0);
    var st := SaveFold(snap, [a], {});
    assert st == SaveOne(SaveState(snap, [], [], 0, 0), 0, a, {});
    assert [a, b][..1] == [a];
    assert SaveFold(snap, [a, b], {}) == SaveOne(st, 1, b, {});
    if !KnownHash(snap.transactions, a) && Settable(a) {
      var t := Inserted(a, snap.nextId);
      assert st.snap.transactions == snap.transactions + [t];
      assert st.snap.transactions[|snap.transactions|].transactionHash == b["transaction_hash"];
      assert KnownHash(st.snap.transactions, b);
    }
  }

  /** Adding a transaction whose hash is None or not yet stored keeps the hash
      column unique. */
  lemma {:induction false} AppendKeepsUnique(ts: seq<BankTransaction>, t: BankTransaction)
    requires UniqueHashes(ts)
    requires t.transactionHash == NoneVal || FirstWithHash(ts, t.transactionHash).None?
    ensures UniqueHashes(ts + [t])
  {
  }

  /** The duplicate check keeps the unique index intact: saving from a working
      set with unique hashes ends in one with unique hashes. */
  lemma {:induction false} SaveKeepsHashesUnique(snap: Snapshot, data: seq<map<string, Value>>, failing: set<nat>)
    requires UniqueHashes(snap.transactions)
    ensures UniqueHashes(SaveFold(snap, data, failing).snap.transactions)
  {
    if data != [] {
      var init := data[..|data| - 1];
      SaveKeepsHashesUnique(snap, init, failing);
      var st := SaveFold(snap, init, failing);
      var item := data[|data| - 1];
      if |data| - 1 !in failing && !KnownHash(st.snap.transactions, item) && Settable(item) {
        AppendKeepsUnique(st.snap.transactions, Inserted(item, st.snap.nextId));
      }
    }
  }

  /** `save_transactions`: one add per new transaction and a single commit;
      a failed commit rolls the whole batch back and raises. */
  method SaveTransactions(db: Database, data: seq<map<string, Value>>, failing: set<nat>, commitOk: bool)
    returns (r: Result<seq<BankTransaction>, Fault>)
    requires db.Valid()
    modifies db
    ensures db.Valid()
    ensures var st := SaveFold(old(db.working), data, failing);
      && (r.Ok? <==> commitOk && UniqueHashes(st.snap.transactions))
      && (r.Ok? ==> r.value == st.saved && db.committed == st.snap && db.working == st.snap)
      && (r.Err? ==> r.error == DatabaseError && db.committed == old(db.committed) && db.working == old(db.committed))
  {
    var saved: seq<BankTransaction> := [];
    ghost var savedFrom: seq<nat> := [];
    var duplicates := 0;
    var failures := 0;
    var i := 0;
    while i < |data|
      invariant 0 <= i <= |data|
      invariant db.committed == old(db.committed) && db.Valid()
      invariant SaveFold(old(db.working), data[..i], failing)
        == SaveState(db.working, saved, savedFrom, duplicates, failures)
    {
      assert data[..i + 1][..i] == data[..i] && data[..i + 1][i] == data[i];
      if i in failing {
        failures := failures + 1;
      } else if KnownHash(db.working.transactions, data[i]) {
        duplicates := duplicates + 1;
      } else if !Settable(data[i]) {
        failures := failures + 1;
      } else {
        var t := Inserted(data[i], db.working.nextId);
        db.working := db.working.(transactions := db.working.transactions + [t], nextId := db.working.nextId + 1);
        saved := saved + [t];
        savedFrom := savedFrom + [i];
      }
      i := i + 1;
    }
    assert data[..i] == data;
    var ok := db.Commit(commitOk);
    if ok {
      r := Ok(saved);
    } else {
      db.Rollback();
      r := Err(DatabaseError);
    }
  }

  /** `import_and_save_transactions`: the pipeline, then the save; any fault
      rolls the session back and is raised again. */
  method ImportAndSave(p: TransactionMiddlewarePipeline, proc: Processor, db: Database,
                       data: seq<map<string, Value>>, failing: set<nat>, commitOk: bool)
    returns (r: Result<seq<BankTransaction>, Fault>)
    requires KeepsKind(proc) && db.Valid()
    modifies p, db
    ensures db.Valid()
    ensures var bulk := Bulk(proc, old(p.middlewares), Raws(data));
      && p.middlewares == bulk.0
      && (bulk.1.Err? ==> r == Err(bulk.1.error) && db.working == db.committed == old(db.committed))
      && (bulk.1.Ok? ==>
            (forall k :: 0 <= k < |bulk.1.value| ==> bulk.1.value[k].Raw?)
            && var st := SaveFold(old(db.working), Items(bulk.1.value), failing);
               && (r.Ok? <==> commitOk && UniqueHashes(st.snap.transactions))
               && (r.Ok? ==> r.value == st.saved && db.committed == st.snap && db.working == st.snap)
               && (r.Err? ==> r.error == DatabaseError && db.working == db.committed == old(db.committed)))
  {
    BulkKeepsKind(proc, p.middlewares, Raws(data));
    var processed := ProcessImportData(p, proc, data);
    if processed.Err? {
      db.Rollback();
      return Err(processed.error);
    }
    r := SaveTransactions(db, Items(processed.value), failing, commitOk);
    if r.Err? {
      db.Rollback();
    }
  }

  function Items(recs: seq<Record>): (r: seq<map<string, Value>>)
    requires forall k :: 0 <= k < |recs| ==> recs[k].Raw?
    ensures |r| == |recs| && forall k :: 0 <= k < |recs| ==> r[k] == recs[k].items
  {
    seq(|recs|, k requires 0 <= k < |recs| && recs[k].Raw? => recs[k].items)
  }

  // ---------------------------------------------------------------------
  // process_existing_transactions

  /** The reprocessing loop over the positions `idxs`: each transaction is
      written back as its pass leaves it, also when a stage raised, and the
      loop goes on with the next one. */
  function ExistingRun(proc: Processor, stages: seq<Stage>, ts: seq<BankTransaction>, idxs: seq<nat>)
    : (r: (seq<Stage>, seq<BankTransaction>))
    requires KeepsKind(proc)
    requires forall k :: 0 <= k < |idxs| ==> idxs[k] < |ts|
    ensures |r.0| == |stages| && |r.1| == |ts|
    ensures forall i :: 0 <= i < |ts| && i !in idxs ==> r.1[i] == ts[i]
    decreases |idxs|
  {
    if idxs == [] then (stages, ts)
    else
      var i := idxs[0];
      var p := Run(proc, stages, Entity(ts[i]));
      ExistingRun(proc, p.0, ts[i := p.1.record.tx], idxs[1..])
  }

  /** With every stage loaded and distinct positions, each selected
      transaction ends up exactly as one pass over it leaves it. */
  lemma {:induction false} ExistingRunLoaded(proc: Processor, stages: seq<Stage>, ts: seq<BankTransaction>, idxs: seq<nat>, j: nat)
    requires KeepsKind(proc) && KeepsLoaded(proc)
    requires forall k :: 0 <= k < |stages| ==> Loaded(stages[k])
    requires forall k :: 0 <= k < |idxs| ==> idxs[k] < |ts|
    requires forall a, b :: 0 <= a < b < |idxs| ==> idxs[a] != idxs[b]
    requires j < |idxs|
    ensures ExistingRun(proc, stages, ts, idxs).1[idxs[j]] == Run(proc, stages, Entity(ts[idxs[j]])).1.record.tx
    decreases |idxs|
  {
    var i := idxs[0];
    var p := Run(proc, stages, Entity(ts[i]));
    RunLoaded(proc, stages, Entity(ts[i]));
    var ts' := ts[i := p.1.record.tx];
    var rest := idxs[1..];
    if j == 0 {
      assert i !in rest;
    } else {
      assert ts'[idxs[j]] == ts[idxs[j]];
      ExistingRunLoaded(proc, stages, ts', rest, j - 1);
    }
  }

  /** The loop of `process_existing_transactions`: each selected transaction
      through the pipeline, written back whatever its fault. */
  method RunSelected(p: TransactionMiddlewarePipeline, proc: Processor, db: Database, idxs: seq<nat>)
    requires KeepsKind(proc) && db.Valid()
    requires forall k :: 0 <= k < |idxs| ==> idxs[k] < |db.working.transactions|
    modifies p, db
    ensures db.Valid() && db.committed == old(db.committed)
    ensures var (st, ts) := ExistingRun(proc, old(p.middlewares), old(db.working.transactions), idxs);
      p.middlewares == st && db.working == old(db.working).(transactions := ts)
  {
    var k := 0;
    while k < |idxs|
      invariant 0 <= k <= |idxs|
      invariant |db.working.transactions| == |old(db.working.transactions)|
      invariant db.working == old(db.working).(transactions := db.working.transactions)
      invariant db.committed == old(db.committed) && db.Valid()
      invariant ExistingRun(proc, old(p.middlewares), old(db.working.transactions), idxs)
        == ExistingRun(proc, p.middlewares, db.working.transactions, idxs[k..])
    {
      assert idxs[k..][1..] == idxs[k + 1..];
      var i := idxs[k];
      var step := p.ProcessTransaction(proc, Entity(db.working.transactions[i]));
      db.working := db.working.(transactions := db.working.transactions[i := step.record.tx]);
      k := k + 1;
    }
  }

  /** `process_existing_transactions`: the selected transactions through the
      pipeline with per-record errors swallowed, then one commit. The result
      is the number selected, not the number that went through without
      error. A fault from the filter or a failed commit rolls back and is
      raised. */
  method ProcessExisting(p: TransactionMiddlewarePipeline, proc: Processor, db: Database,
                         filter: Option<TxFilter>, commitOk: bool)
    returns (r: Result<nat, Fault>)
    requires KeepsKind(proc) && db.Valid()
    modifies p, db
    ensures db.Valid()
    ensures var sel := Select(old(db.working.transactions), filter);
      && (sel.Err? ==> r == Err(sel.error) && p.middlewares == old(p.middlewares)
                       && db.working == db.committed == old(db.committed))
      && (sel.Ok? ==>
            var (st, ts) := ExistingRun(proc, old(p.middlewares), old(db.working.transactions), sel.value);
            && p.middlewares == st
            && (r.Ok? <==> commitOk && UniqueHashes(ts))
            && (r.Ok? ==> r.value == |sel.value| && db.working == db.committed == old(db.working).(transactions := ts))
            && (r.Err? ==> r.error == DatabaseError && db.working == db.committed == old(db.committed)))
  {
    var sel := Select(db.working.transactions, filter);
    if sel.Err? {
      db.Rollback();
      return Err(sel.error);
    }
    var idxs := sel.value;
    RunSelected(p, proc, db, idxs);
    var ok := db.Commit(commitOk);
    if ok {
      r := Ok(|idxs|);
    } else {
      db.Rollback();
      r := Err(DatabaseError);
    }
  }

  // ---------------------------------------------------------------------
  // get_transaction_by_id, update_transaction

  /** `get_transaction_by_id`: the transaction with that id, or None. */
  function GetTransactionById(ts: seq<BankTransaction>, id: int): (r: Option<BankTransaction>)
    ensures r.Some? <==> exists k :: 0 <= k < |ts| && ts[k].id == Int(id)
    ensures r.Some? ==> r.value.id == Int(id) && r.value in ts
  {
    match IndexOfId(ts, id)
    case None => None
    case Some(k) => Some(ts[k])
  }

  /** `update_transaction`: the keys of `updates` set on the stored
      transaction, then, when asked, one pass through the pipeline, then a
      commit, whose flush clears the foreign key of every relationship the
      update set to None. An unknown id gives None and changes nothing; a
      relationship key holding anything else, a fault from the pipeline or a
      failed commit rolls back and gives None. */
  method UpdateTransaction(p: TransactionMiddlewarePipeline, proc: Processor, db: Database, id: int,
                           updates: map<string, Value>, applyMiddleware: bool, commitOk: bool)
    returns (r: Option<BankTransaction>)
    requires KeepsKind(proc) && db.Valid()
    modifies p, db
    ensures db.Valid()
    ensures var found := IndexOfId(old(db.working.transactions), id);
      && (found.None? ==> r.None? && db.working == old(db.working) && db.committed == old(db.committed)
                          && p.middlewares == old(p.middlewares))
      && (found.Some? && !Settable(updates) ==>
            r.None? && db.working == db.committed == old(db.committed) && p.middlewares == old(p.middlewares))
      && (found.Some? && Settable(updates) ==>
            var changed := Overlay(old(db.working.transactions)[found.value], updates);
            var pass := Run(proc, old(p.middlewares), Entity(changed));
            var final := if applyMiddleware then pass.1.record.tx else changed;
            var row := Flushed(final, updates);
            var ts := old(db.working.transactions)[found.value := row];
            && p.middlewares == (if applyMiddleware then pass.0 else old(p.middlewares))
            && (r.Some? <==> (!applyMiddleware || pass.1.fault.None?) && commitOk && UniqueHashes(ts))
            && (r.Some? ==> r.value == row && db.working == db.committed == old(db.working).(transactions := ts))
            && (r.Some? && !applyMiddleware ==>
                  Some(r.value) == UpdatedRow(old(db.working.transactions)[found.value], updates))
            && (r.None? ==> db.working == db.committed == old(db.committed)))
  {
    var found := IndexOfId(db.working.transactions, id);
    if found.None? {
      return None;
    }
    var i := found.value;
    if !Settable(updates) {
      db.Rollback();
      return None;
    }
    var t := Overlay(db.working.transactions[i], updates);
    if applyMiddleware {
      var step := p.ProcessTransaction(proc, Entity(t));
      if step.fault.Some? {
        db.Rollback();
        return None;
      }
      t := step.record.tx;
    }
    t := Flushed(t, updates);
    db.working := db.working.(transactions := db.working.transactions[i := t]);
    var ok := db.Commit(commitOk);
    if ok {
      r := Some(t);
    } else {
      db.Rollback();
      r := None;
    }
  }

  /** Update keys that are neither columns nor relationships are ignored:
      they change neither the in-memory transaction, nor whether the update
      is accepted, nor what the flush writes. */
  lemma {:induction false} UpdateIgnoresOtherKeys(t: BankTransaction, updates: map<string, Value>, key: string, v: Value)
    requires !IsAttribute(key)
    ensures Overlay(t, updates[key := v]) == Overlay(t, updates)
    ensures Settable(updates[key := v]) == Settable(updates)
    ensures forall u :: Flushed(u, updates[key := v]) == Flushed(u, updates)
    ensures UpdatedRow(t, updates[key := v]) == UpdatedRow(t, updates)
  {
    forall c
      ensures Get(Overlay(t, updates[key := v]), c) == Get(Overlay(t, updates), c)
    {
      ColumnOfName(c);
    }
    ColumnsDetermine(Overlay(t, updates[key := v]), Overlay(t, updates));
  }

  /** An update of one relationship: None clears its foreign key and leaves
      the rest of the row, any other value is refused. */
  lemma {:induction false} RelationUpdate(t: BankTransaction, rel: Relation, v: Value)
    ensures UpdatedRow(t, map[RelationName(rel) := v]).Some? <==> v == NoneVal
    ensures v == NoneVal ==> forall c :: (Get(UpdatedRow(t, map[RelationName(rel) := v]).value, c) ==
      if c == ForeignKey(rel) then NoneVal else Get(t, c))
  {
    SingleUpdate(t, RelationName(rel), v);
    GetSetAttr(t, RelationName(rel), v, RelationName(rel));
  }

  /** Clearing a relationship wins over a value for its foreign key given in
      the same update, whichever key comes first. */
  lemma {:induction false} RelationClearWins(t: BankTransaction, updates: map<string, Value>, rel: Relation)
    requires Settable(updates) && RelationName(rel) in updates
    ensures Get(UpdatedRow(t, updates).value, ForeignKey(rel)) == NoneVal
  {
  }
}
