/** `TransactionMiddlewarePipeline`: an ordered list of stages that a record
    passes through one after the other. No stage's exception is caught
    here: the first one ends the pass and reaches the caller, with the
    record as the failing stage left it.

    The pipeline only calls each stage's `process`; its facts are stated for
    any `process` and instantiated with the concrete stages. */
module Pipeline {
  import opened Wrappers
  import opened Models
  import opened Middlewares
  import opened Store

  /** A stage's `process`: the stage's new state and the outcome. */
  type Processor = (Stage, Record) -> (Stage, Step)

  /** No stage turns a dictionary into a transaction object or back. */
  ghost predicate KeepsKind(proc: Processor) {
    forall s: Stage, rec: Record :: proc(s, rec).1.record.Raw? == rec.Raw?
  }

  /** A stage keeps its class. */
  ghost predicate KeepsClass(proc: Processor) {
    forall s: Stage, rec: Record :: ClassName(proc(s, rec).0) == ClassName(s)
  }

  /** A stage with its reference data in place keeps its state. */
  ghost predicate KeepsLoaded(proc: Processor) {
    forall s: Stage, rec: Record :: Loaded(s) ==> proc(s, rec).0 == s
  }

  /** The concrete stages' `process`, with the database's answers `env`. */
  function StageProcess(env: Env): (proc: Processor)
    ensures forall s: Stage, rec: Record :: proc(s, rec) == Process(s, env, rec)
    ensures KeepsKind(proc) && KeepsClass(proc) && KeepsLoaded(proc)
  {
    var proc := (s: Stage, rec: Record) => Process(s, env, rec);
    assert KeepsKind(proc) && KeepsLoaded(proc) by {
      forall s: Stage, rec: Record
        ensures proc(s, rec).1.record.Raw? == rec.Raw?
        ensures Loaded(s) ==> proc(s, rec).0 == s
      {
        ProcessKeepsKind(s, env, rec);
        LoadedAtMostOnce(s, env, rec);
      }
    }
    proc
  }

  /** One pass of `rec` through `stages`: the stages afterwards (with any
      reference data they loaded) and the outcome. Stages after a failing
      one are not run. */
  function Run(proc: Processor, stages: seq<Stage>, rec: Record): (r: (seq<Stage>, Step))
    ensures |r.0| == |stages|
    ensures stages == [] ==> r == ([], Step(rec, None))
    ensures KeepsKind(proc) ==> r.1.record.Raw? == rec.Raw?
  {
    if stages == [] then ([], Step(rec, None))
    else
      var p := proc(stages[0], rec);
      if p.1.fault.Some? then ([p.0] + stages[1..], p.1)
      else
        var r := Run(proc, stages[1..], p.1.record);
        ([p.0] + r.0, r.1)
  }

  /** A pass keeps the class of every stage. */
  lemma {:induction false} RunKeepsClass(proc: Processor, stages: seq<Stage>, rec: Record)
    requires KeepsClass(proc)
    ensures var r := Run(proc, stages, rec).0;
      forall k :: 0 <= k < |stages| ==> ClassName(r[k]) == ClassName(stages[k])
  {
    if stages != [] {
      var p := proc(stages[0], rec);
      if p.1.fault.None? {
        RunKeepsClass(proc, stages[1..], p.1.record);
        var r := Run(proc, stages[1..], p.1.record);
        assert forall k :: 1 <= k < |stages| ==> ([p.0] + r.0)[k] == r.0[k - 1];
      } else {
        assert forall k :: 1 <= k < |stages| ==> ([p.0] + stages[1..])[k] == stages[k];
      }
    }
  }

  /** Running two lists of stages one after the other is running their
      concatenation; a fault in the first list keeps the second from running. */
  lemma {:induction false} RunAppend(proc: Processor, a: seq<Stage>, b: seq<Stage>, rec: Record)
    ensures var ra := Run(proc, a, rec);
      Run(proc, a + b, rec) ==
        if ra.1.fault.Some? then (ra.0 + b, ra.1)
        else (ra.0 + Run(proc, b, ra.1.record).0, Run(proc, b, ra.1.record).1)
  {
    if a == [] {
      assert a + b == b;
      assert [] + Run(proc, b, rec).0 == Run(proc, b, rec).0;
    } else {
      var p := proc(a[0], rec);
      var tail := a[1..];
      assert a + b == [a[0]] + (tail + b);
      RunCons(proc, a[0], tail + b, rec);
      if p.1.fault.Some? {
        assert [p.0] + (tail + b) == ([p.0] + tail) + b;
      } else {
        RunAppend(proc, tail, b, p.1.record);
        var ra := Run(proc, tail, p.1.record);
        if ra.1.fault.Some? {
          assert [p.0] + (ra.0 + b) == ([p.0] + ra.0) + b;
        } else {
          var rb := Run(proc, b, ra.1.record);
          assert [p.0] + (ra.0 + rb.0) == ([p.0] + ra.0) + rb.0;
        }
      }
    }
  }

  /** The first stage runs first; the others only when it did not raise. */
  lemma {:induction false} RunCons(proc: Processor, s: Stage, rest: seq<Stage>, rec: Record)
    ensures var p := proc(s, rec);
      Run(proc, [s] + rest, rec) ==
        if p.1.fault.Some? then ([p.0] + rest, p.1)
        else ([p.0] + Run(proc, rest, p.1.record).0, Run(proc, rest, p.1.record).1)
  {
    assert ([s] + rest)[0] == s && ([s] + rest)[1..] == rest;
  }

  /** A pass through a single stage is that stage's `process`. */
  lemma {:induction false} RunSingle(proc: Processor, s: Stage, rec: Record)
    ensures Run(proc, [s], rec) == ([proc(s, rec).0], proc(s, rec).1)
  {
    assert [s][1..] == [];
    var p := proc(s, rec);
    if p.1.fault.None? {
      assert Run(proc, [s][1..], p.1.record) == ([], Step(p.1.record, None));
      assert Step(p.1.record, None) == p.1;
      assert [p.0] + [] == [p.0];
    } else {
      assert [p.0] + [s][1..] == [p.0];
    }
  }

  /** Once every stage has its reference data, a pass leaves the stages as
      they are. */
  lemma {:induction false} RunLoaded(proc: Processor, stages: seq<Stage>, rec: Record)
    requires KeepsLoaded(proc)
    requires forall k :: 0 <= k < |stages| ==> Loaded(stages[k])
    ensures Run(proc, stages, rec).0 == stages
  {
    if stages != [] {
      var p := proc(stages[0], rec);
      if p.1.fault.None? {
        RunLoaded(proc, stages[1..], p.1.record);
      }
    }
  }

  /** A pass ends in a fault exactly when some stage raised on the record the
      stages before it produced; the fault is that stage's. */
  lemma {:induction false} RunFaultIsStageFault(proc: Processor, stages: seq<Stage>, rec: Record)
    requires Run(proc, stages, rec).1.fault.Some?
    ensures exists k :: (0 <= k < |stages| &&
                         var before := Run(proc, stages[..k], rec);
                         && before.1.fault.None?
                         && proc(stages[k], before.1.record).1 == Run(proc, stages, rec).1)
  {
    var step := proc(stages[0], rec).1;
    if step.fault.Some? {
      assert stages[..0] == [];
      assert Run(proc, stages[..0], rec).1 == Step(rec, None);
    } else {
      var tail := stages[1..];
      var whole := Run(proc, stages, rec).1;
      assert whole == Run(proc, tail, step.record).1;
      RunFaultIsStageFault(proc, tail, step.record);
      var k :| 0 <= k < |tail| &&
        var before := Run(proc, tail[..k], step.record);
        && before.1.fault.None?
        && proc(tail[k], before.1.record).1 == whole;
      var before := Run(proc, tail[..k], step.record);
      assert Run(proc, stages[..k + 1], rec).1 == before.1 by {
        PrefixOfTail(stages, k);
        RunAppend(proc, [stages[0]], tail[..k], rec);
        RunSingle(proc, stages[0], rec);
      }
      assert stages[k + 1] == tail[k];
      assert proc(stages[k + 1], Run(proc, stages[..k + 1], rec).1.record).1 == whole;
    }
  }

  /** `[self.process_transaction(t) for t in transactions]`: the records in
      order, or the first fault, which ends the list. */
  function Bulk(proc: Processor, stages: seq<Stage>, recs: seq<Record>): (r: (seq<Stage>, Result<seq<Record>, Fault>))
    ensures |r.0| == |stages|
    ensures r.1.Ok? ==> |r.1.value| == |recs|
    ensures recs == [] ==> r == (stages, Ok([]))
    decreases |recs|
  {
    if recs == [] then (stages, Ok([]))
    else
      var p := Run(proc, stages, recs[0]);
      if p.1.fault.Some? then (p.0, Err(p.1.fault.value))
      else
        var rest := Bulk(proc, p.0, recs[1..]);
        (rest.0, if rest.1.Ok? then Ok([p.1.record] + rest.1.value) else rest.1)
  }

  /** The first record goes through the stages first, and the rest through
      the stages it leaves behind, unless it raised. */
  lemma {:induction false} BulkCons(proc: Processor, stages: seq<Stage>, rec: Record, rest: seq<Record>)
    ensures var p := Run(proc, stages, rec);
      Bulk(proc, stages, [rec] + rest) ==
        if p.1.fault.Some? then (p.0, Err(p.1.fault.value))
        else
          var b := Bulk(proc, p.0, rest);
          (b.0, if b.1.Ok? then Ok([p.1.record] + b.1.value) else b.1)
  {
    assert ([rec] + rest)[0] == rec && ([rec] + rest)[1..] == rest;
  }

  /** With every stage loaded, the bulk result is record by record the result
      of processing that record alone, and it fails exactly when one of them
      does. */
  lemma {:induction false} BulkLoaded(proc: Processor, stages: seq<Stage>, recs: seq<Record>)
    requires KeepsLoaded(proc)
    requires forall k :: 0 <= k < |stages| ==> Loaded(stages[k])
    ensures Bulk(proc, stages, recs).0 == stages
    ensures Bulk(proc, stages, recs).1.Ok? <==>
      forall i :: 0 <= i < |recs| ==> Run(proc, stages, recs[i]).1.fault.None?
    ensures Bulk(proc, stages, recs).1.Ok? ==>
      forall i :: 0 <= i < |recs| ==> Bulk(proc, stages, recs).1.value[i] == Run(proc, stages, recs[i]).1.record
  {
    if recs != [] {
      RunLoaded(proc, stages, recs[0]);
      var step := Run(proc, stages, recs[0]).1;
      if step.fault.None? {
        var tail := recs[1..];
        BulkLoaded(proc, stages, tail);
        assert forall i :: 1 <= i < |recs| ==> recs[i] == tail[i - 1];
      }
    }
  }

  /** Dictionaries in, dictionaries out. */
  lemma {:induction false} BulkKeepsKind(proc: Processor, stages: seq<Stage>, recs: seq<Record>)
    requires KeepsKind(proc)
    requires forall i :: 0 <= i < |recs| ==> recs[i].Raw?
    ensures var r := Bulk(proc, stages, recs).1;
      r.Ok? ==> forall i :: 0 <= i < |r.value| ==> r.value[i].Raw?
    decreases |recs|
  {
    if recs != [] {
      var p := Run(proc, stages, recs[0]);
      if p.1.fault.None? {
        BulkKeepsKind(proc, p.0, recs[1..]);
      }
    }
  }

  /** The processing of stored transactions at positions `idxs`, each
      written back as its pass leaves it; the first fault stops the loop. */
  function DbRun(proc: Processor, stages: seq<Stage>, ts: seq<BankTransaction>, idxs: seq<nat>)
    : (r: (seq<Stage>, seq<BankTransaction>, Option<Fault>))
    requires KeepsKind(proc)
    requires forall k :: 0 <= k < |idxs| ==> idxs[k] < |ts|
    ensures |r.0| == |stages| && |r.1| == |ts|
    ensures forall i :: 0 <= i < |ts| && i !in idxs ==> r.1[i] == ts[i]
    decreases |idxs|
  {
    if idxs == [] then (stages, ts, None)
    else
      var i := idxs[0];
      var p := Run(proc, stages, Entity(ts[i]));
      var ts' := ts[i := p.1.record.tx];
      if p.1.fault.Some? then (p.0, ts', p.1.fault)
      else DbRun(proc, p.0, ts', idxs[1..])
  }

  /** One more stage of a pass, seen from the stages already done. */
  lemma {:induction false} RunStep(proc: Processor, done: seq<Stage>, todo: seq<Stage>, rec: Record)
    requires todo != []
    ensures var p := proc(todo[0], rec);
      Join(done, Run(proc, todo, rec)) ==
        if p.1.fault.Some? then (done + [p.0] + todo[1..], p.1)
        else Join(done + [p.0], Run(proc, todo[1..], p.1.record))
  {
    var p := proc(todo[0], rec);
    var whole := Run(proc, todo, rec);
    if p.1.fault.Some? {
      assert Join(done, whole) == (done + [p.0] + todo[1..], p.1) by {
        assert whole == ([p.0] + todo[1..], p.1);
        assert done + ([p.0] + todo[1..]) == done + [p.0] + todo[1..];
      }
    } else {
      var r := Run(proc, todo[1..], p.1.record);
      assert Join(done, whole) == Join(done + [p.0], r) by {
        assert whole == ([p.0] + r.0, r.1);
        assert done + ([p.0] + r.0) == (done + [p.0]) + r.0;
      }
    }
  }

  function Join(prefix: seq<Stage>, r: (seq<Stage>, Step)): (seq<Stage>, Step) {
    (prefix + r.0, r.1)
  }

  class TransactionMiddlewarePipeline {
    var middlewares: seq<Stage>

    /** `middlewares or []` */
    constructor(initial: Option<seq<Stage>>)
      ensures middlewares == if initial.Some? then initial.value else []
    {
      middlewares := if initial.Some? then initial.value else [];
    }

    method AddMiddleware(s: Stage)
      modifies this
      ensures middlewares == old(middlewares) + [s]
    {
      middlewares := middlewares + [s];
    }

    /** Drops every stage of the given class name, keeping the others in order. */
    method RemoveMiddleware(name: string)
      modifies this
      ensures middlewares == Without(old(middlewares), name)
    {
      var all := middlewares;
      var kept: seq<Stage> := [];
      var i := 0;
      while i < |all|
        invariant 0 <= i <= |all|
        invariant kept == KeepWhere(all[..i], OtherClass(name))
      {
        KeepWhereSnoc(all, i, OtherClass(name));
        if ClassName(all[i]) != name {
          kept := kept + [all[i]];
        }
        i := i + 1;
      }
      assert all[..i] == all;
      middlewares := kept;
    }

    /** `process_transaction`: the record through every stage in order. */
    method ProcessTransaction(proc: Processor, rec: Record) returns (result: Step)
      modifies this
      ensures (middlewares, result) == Run(proc, old(middlewares), rec)
    {
      var stages := middlewares;
      var done: seq<Stage> := [];
      var current := rec;
      var i := 0;
      assert stages[0..] == stages && [] + Run(proc, stages, rec).0 == Run(proc, stages, rec).0;
      while i < |stages|
        invariant 0 <= i <= |stages| && |done| == i
        invariant Run(proc, stages, rec) == Join(done, Run(proc, stages[i..], current))
      {
        RunStep(proc, done, stages[i..], current);
        var (s, step) := proc(stages[i], current);
        assert stages[i..][1..] == stages[i + 1..];
        if step.fault.Some? {
          middlewares := done + [s] + stages[i + 1..];
          result := step;
          return;
        }
        done := done + [s];
        current := step.record;
        i := i + 1;
      }
      assert stages[i..] == [] && done + [] == done;
      middlewares := done;
      result := Step(current, None);
    }

    /** `process_bulk` */
    method ProcessBulk(proc: Processor, recs: seq<Record>) returns (result: Result<seq<Record>, Fault>)
      modifies this
      ensures (middlewares, result) == Bulk(proc, old(middlewares), recs)
    {
      var done: seq<Record> := [];
      var i := 0;
      assert recs[0..] == recs;
      ghost var whole := Bulk(proc, middlewares, recs);
      assert whole.1.Ok? ==> [] + whole.1.value == whole.1.value;
      while i < |recs|
        invariant 0 <= i <= |recs|
        invariant Bulk(proc, old(middlewares), recs) == Prepend(done, Bulk(proc, middlewares, recs[i..]))
      {
        var before := middlewares;
        assert recs[i..] == [recs[i]] + recs[i + 1..];
        BulkCons(proc, before, recs[i], recs[i + 1..]);
        var step := ProcessTransaction(proc, recs[i]);
        if step.fault.Some? {
          result := Err(step.fault.value);
          return;
        }
        ghost var rest := Bulk(proc, middlewares, recs[i + 1..]);
        assert rest.1.Ok? ==> done + ([step.record] + rest.1.value) == (done + [step.record]) + rest.1.value;
        done := done + [step.record];
        i := i + 1;
      }
      assert recs[i..] == [] && done + [] == done;
      result := Ok(done);
    }

    /** `process_db_transactions`: the stored transactions the filter accepts
        (all when there is none), each changed in place, then one commit.
        A fault from the filter or from a stage, or a failed commit,
        reaches the caller without a rollback. */
    method ProcessDbTransactions(db: Database, proc: Processor, filter: Option<TxFilter>, commitOk: bool)
      returns (raised: Option<Fault>)
      requires KeepsKind(proc)
      requires db.Valid()
      modifies this, db
      ensures db.Valid()
      ensures var sel := Select(old(db.working.transactions), filter);
        && (sel.Err? ==> raised == Some(sel.error) && middlewares == old(middlewares)
                         && db.working == old(db.working) && db.committed == old(db.committed))
        && (sel.Ok? ==>
              var (st, ts, fault) := DbRun(proc, old(middlewares), old(db.working.transactions), sel.value);
              && middlewares == st
              && db.working == old(db.working).(transactions := ts)
              && (fault.Some? ==> raised == fault && db.committed == old(db.committed))
              && (fault.None? ==>
                    (raised.None? <==> commitOk && UniqueHashes(ts))
                    && (raised.Some? ==> raised == Some(DatabaseError))
                    && db.committed == if raised.None? then db.working else old(db.committed)))
    {
      var sel := Select(db.working.transactions, filter);
      if sel.Err? {
        return Some(sel.error);
      }
      var idxs := sel.value;
      var k := 0;
      while k < |idxs|
        invariant 0 <= k <= |idxs|
        invariant |db.working.transactions| == |old(db.working.transactions)|
        invariant db.working == old(db.working).(transactions := db.working.transactions)
        invariant db.committed == old(db.committed) && db.Valid()
        invariant DbRun(proc, old(middlewares), old(db.working.transactions), idxs)
          == DbRun(proc, middlewares, db.working.transactions, idxs[k..])
      {
        assert idxs[k..][1..] == idxs[k + 1..];
        var i := idxs[k];
        var step := ProcessTransaction(proc, Entity(db.working.transactions[i]));
        assert step.record.Entity?;
        db.working := db.working.(transactions := db.working.transactions[i := step.record.tx]);
        if step.fault.Some? {
          return step.fault;
        }
        k := k + 1;
      }
      var ok := db.Commit(commitOk);
      raised := if ok then None else Some(DatabaseError);
    }
  }

  function Prepend(done: seq<Record>, r: (seq<Stage>, Result<seq<Record>, Fault>))
    : (seq<Stage>, Result<seq<Record>, Fault>)
  {
    (r.0, if r.1.Ok? then Ok(done + r.1.value) else r.1)
  }

  /** The items that satisfy `p`, in their order. */
  function KeepWhere<T>(xs: seq<T>, p: T -> bool): (r: seq<T>)
    ensures |r| <= |xs|
  {
    if xs == [] then []
    else
      var last := xs[|xs| - 1];
      KeepWhere(xs[..|xs| - 1], p) + (if p(last) then [last] else [])
  }

  /** An item is kept exactly when it was there and satisfies `p`. */
  lemma {:induction false} KeepWhereHas<T>(xs: seq<T>, p: T -> bool, x: T)
    ensures x in KeepWhere(xs, p) <==> x in xs && p(x)
  {
    if xs != [] {
      var init := xs[..|xs| - 1];
      KeepWhereHas(init, p, x);
      assert xs == init + [xs[|xs| - 1]];
    }
  }

  /** A list whose every item satisfies `p` is kept whole. */
  lemma {:induction false} KeepWhereAll<T>(xs: seq<T>, p: T -> bool)
    requires forall k :: 0 <= k < |xs| ==> p(xs[k])
    ensures KeepWhere(xs, p) == xs
  {
    if xs != [] {
      var init := xs[..|xs| - 1];
      KeepWhereAll(init, p);
      assert xs == init + [xs[|xs| - 1]];
    }
  }

  /** Looking at one more item of a prefix. */
  lemma {:induction false} KeepWhereSnoc<T>(xs: seq<T>, i: nat, p: T -> bool)
    requires i < |xs|
    ensures KeepWhere(xs[..i + 1], p) == KeepWhere(xs[..i], p) + (if p(xs[i]) then [xs[i]] else [])
  {
    assert xs[..i + 1][..i] == xs[..i];
  }

  /** Keeping commutes with concatenation. */
  lemma {:induction false} KeepWhereAppend<T>(a: seq<T>, b: seq<T>, p: T -> bool)
    ensures KeepWhere(a + b, p) == KeepWhere(a, p) + KeepWhere(b, p)
    decreases |b|
  {
    if b == [] {
      assert a + b == a;
    } else {
      var init := b[..|b| - 1];
      assert (a + b)[..|a + b| - 1] == a + init;
      KeepWhereAppend(a, init, p);
    }
  }

  /** Whether a stage is of another class than `name`. */
  function OtherClass(name: string): Stage -> bool {
    (s: Stage) => ClassName(s) != name
  }

  /** `[m for m in middlewares if m.__class__.__name__ != name]` */
  function Without(stages: seq<Stage>, name: string): (r: seq<Stage>)
    ensures |r| <= |stages|
  {
    KeepWhere(stages, OtherClass(name))
  }

  /** No stage of that class name is left, every other stage is kept, and a
      list without one is returned as it is. */
  lemma {:induction false} WithoutMeaning(stages: seq<Stage>, name: string)
    ensures var r := Without(stages, name);
      && (forall k :: 0 <= k < |r| ==> ClassName(r[k]) != name)
      && (forall s :: s in r <==> s in stages && ClassName(s) != name)
      && ((forall k :: 0 <= k < |stages| ==> ClassName(stages[k]) != name) ==> r == stages)
  {
    var r := Without(stages, name);
    var p := OtherClass(name);
    forall s
      ensures s in r <==> s in stages && ClassName(s) != name
    {
      KeepWhereHas(stages, p, s);
    }
    forall k | 0 <= k < |r|
      ensures ClassName(r[k]) != name
    {
      KeepWhereHas(stages, p, r[k]);
    }
    if forall k :: 0 <= k < |stages| ==> ClassName(stages[k]) != name {
      KeepWhereAll(stages, p);
    }
  }

  /** Removing a class name twice is removing it once. */
  /** The filter works stage by stage, so it splits over a concatenation:
      the relative order of the kept stages is that of the input. */
  lemma {:induction false} WithoutAppend(a: seq<Stage>, b: seq<Stage>, name: string)
    ensures Without(a + b, name) == Without(a, name) + Without(b, name)
  {
    KeepWhereAppend(a, b, OtherClass(name));
  }

  lemma {:induction false} WithoutIdempotent(stages: seq<Stage>, name: string)
    ensures Without(Without(stages, name), name) == Without(stages, name)
  {
    WithoutMeaning(stages, name);
    WithoutMeaning(Without(stages, name), name);
  }

  lemma {:induction false} PrefixOfTail<T>(s: seq<T>, k: nat)
    requires k < |s|
    ensures s[..k + 1] == [s[0]] + s[1..][..k]
  {
  }
}
