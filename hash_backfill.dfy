/** `generate_transaction_hashes`: the eight-field transaction fingerprint and
    the backfill that gives every stored transaction without a hash one. */
module HashBackfill {
  import opened Wrappers
  import opened PyStr
  import opened PyDate
  import opened Values
  import opened Models
  import opened Digest
  import opened Middlewares
  import opened Store

  /** `v.isoformat() if v else ""`: dates and date-times render as ISO text,
      a falsy value as nothing, and any other truthy value has no
      `isoformat` and raises. */
  function IsoText(v: Value): (r: Result<string, Fault>)
    ensures !Truthy(v) ==> r == Ok("")
    ensures v.DateVal? ==> r == Ok(IsoFormat(v.d))
    ensures v.DateTimeVal? ==> r == Ok(IsoDateTimeText(v.t))
    ensures r.Err? <==> Truthy(v) && !v.DateVal? && !v.DateTimeVal?
  {
    if !Truthy(v) then Ok("")
    else
      match v
      case DateVal(d) => Ok(IsoFormat(d))
      case DateTimeVal(t) => Ok(IsoDateTimeText(t))
      case _ => Err(AttributeError)
  }

  /** The eight values the fingerprint is taken over, in order. */
  datatype HashFields = HashFields(
    bookingDate: Value, valueDate: Value, amount: Value, payee: Value,
    payer: Value, purpose: Value, transactionType: Value, iban: Value)

  function FieldsOf(t: BankTransaction): HashFields {
    HashFields(t.bookingDate, t.valueDate, t.amount, t.payee, t.payer, t.purpose, t.transactionType, t.iban)
  }

  /** The pieces joined with "|": `str()` of the amount (so None gives
      "None"), `or ''` of the five texts. */
  function Pieces(f: HashFields, booking: string, value: string): (r: seq<string>)
    ensures |r| == 8
  {
    [booking, value, Text(f.amount), TextOrEmpty(f.payee), TextOrEmpty(f.payer),
     TextOrEmpty(f.purpose), TextOrEmpty(f.transactionType), TextOrEmpty(f.iban)]
  }

  /** The pieces with `sep` between each two. */
  function JoinWith(sep: char, pieces: seq<string>): string
    requires |pieces| >= 1
  {
    if |pieces| == 1 then pieces[0] else pieces[0] + [sep] + JoinWith(sep, pieces[1..])
  }

  /** The fingerprint's input text, or the exception a date field raises. */
  function HashInput(f: HashFields): (r: Result<string, Fault>)
    ensures r.Ok? <==> IsoText(f.bookingDate).Ok? && IsoText(f.valueDate).Ok?
    ensures r.Ok? ==> r.value == JoinWith('|', Pieces(f, IsoText(f.bookingDate).value, IsoText(f.valueDate).value))
  {
    match IsoText(f.bookingDate)
    case Err(e) => Err(e)
    case Ok(b) =>
      match IsoText(f.valueDate)
      case Err(e) => Err(e)
      case Ok(v) => Ok(JoinWith('|', Pieces(f, b, v)))
  }

  /** `generate_transaction_hash(tx)`: the digest of the input text. */
  function GenerateTransactionHash(t: BankTransaction): (r: Result<string, Fault>)
    ensures r.Ok? <==> HashInput(FieldsOf(t)).Ok?
    ensures r.Ok? ==> r.value == Md5(HashInput(FieldsOf(t)).value) && |r.value| == 32
  {
    match HashInput(FieldsOf(t))
    case Err(e) => Err(e)
    case Ok(s) => Ok(Md5(s))
  }

  /** Splitting the joined text at the separator gives the pieces back when
      none of them contains it. */
  lemma {:induction false} SplitJoin(sep: char, pieces: seq<string>)
    requires |pieces| >= 1
    requires forall k :: 0 <= k < |pieces| ==> sep !in pieces[k]
    ensures Split(JoinWith(sep, pieces), sep) == pieces
    decreases |pieces|
  {
    if |pieces| == 1 {
      assert Find(pieces[0], sep) == -1;
    } else {
      SplitJoin(sep, pieces[1..]);
      SplitAfter(pieces[0], sep, JoinWith(sep, pieces[1..]));
      assert pieces == [pieces[0]] + pieces[1..];
    }
  }

  /** Fields whose pieces hold no "|" are told apart by their input text:
      equal texts mean equal pieces. */
  lemma {:induction false} InputDeterminesPieces(f: HashFields, g: HashFields)
    requires HashInput(f).Ok? && HashInput(g).Ok?
    requires NoBar(f) && NoBar(g)
    requires HashInput(f) == HashInput(g)
    ensures Pieces(f, IsoText(f.bookingDate).value, IsoText(f.valueDate).value)
         == Pieces(g, IsoText(g.bookingDate).value, IsoText(g.valueDate).value)
  {
    var p := Pieces(f, IsoText(f.bookingDate).value, IsoText(f.valueDate).value);
    var q := Pieces(g, IsoText(g.bookingDate).value, IsoText(g.valueDate).value);
    SplitJoin('|', p);
    SplitJoin('|', q);
  }

  /** None of the eight pieces contains "|". */
  predicate NoBar(f: HashFields)
    requires HashInput(f).Ok?
  {
    var p := Pieces(f, IsoText(f.bookingDate).value, IsoText(f.valueDate).value);
    forall k :: 0 <= k < 8 ==> '|' !in p[k]
  }

  /** A missing payee and an empty payee give the same fingerprint, but a
      missing amount is rendered "None" and so differs from an empty one. */
  lemma {:induction false} NoneRendering(f: HashFields)
    requires HashInput(f).Ok?
    ensures HashInput(f.(payee := NoneVal)) == HashInput(f.(payee := Str("")))
    ensures |HashInput(f.(amount := NoneVal)).value| == |HashInput(f.(amount := Str(""))).value| + 4
  {
    var b, v := IsoText(f.bookingDate).value, IsoText(f.valueDate).value;
    assert Pieces(f.(payee := NoneVal), b, v) == Pieces(f.(payee := Str("")), b, v);
    AmountRendering(f, b, v);
  }

  /** The amount piece is "None" for a missing amount and "" for an empty one. */
  lemma {:induction false} AmountRendering(f: HashFields, b: string, v: string)
    requires HashInput(f).Ok? && b == IsoText(f.bookingDate).value && v == IsoText(f.valueDate).value
    ensures |HashInput(f.(amount := NoneVal)).value| == |HashInput(f.(amount := Str(""))).value| + 4
  {
    var pf, qf := f.(amount := NoneVal), f.(amount := Str(""));
    var p := Pieces(pf, b, v);
    var q := Pieces(qf, b, v);
    assert p[2] == "None" && q[2] == "";
    assert forall k :: 0 <= k < |p| && k != 2 ==> p[k] == q[k];
    JoinLength(p, q, 2);
    assert HashInput(pf).value == JoinWith('|', p);
    assert HashInput(qf).value == JoinWith('|', q);
  }

  /** Changing one piece changes the joined length by its difference. */
  lemma {:induction false} JoinLength(p: seq<string>, q: seq<string>, i: nat)
    requires |p| == |q| >= 1 && i < |p|
    requires forall k :: 0 <= k < |p| && k != i ==> p[k] == q[k]
    ensures |JoinWith('|', p)| - |p[i]| == |JoinWith('|', q)| - |q[i]|
    decreases |p|
  {
    if |p| > 1 {
      if i == 0 {
        assert p[1..] == q[1..];
      } else {
        JoinLength(p[1..], q[1..], i - 1);
      }
    }
  }

  // ---------------------------------------------------------------------
  // update_transaction_hashes

  /** `BankTransaction.query.filter(transaction_hash.is_(None)).all()`: the
      positions of the transactions without a hash. */
  function HashlessFrom(ts: seq<BankTransaction>, from: nat): (r: seq<nat>)
    requires from <= |ts|
    ensures forall k :: 0 <= k < |r| ==> from <= r[k] < |ts| && ts[r[k]].transactionHash == NoneVal
    ensures forall a, b :: 0 <= a < b < |r| ==> r[a] < r[b]
    ensures forall i :: from <= i < |ts| && ts[i].transactionHash == NoneVal ==> i in r
    decreases |ts| - from
  {
    if from == |ts| then []
    else
      var rest := HashlessFrom(ts, from + 1);
      if ts[from].transactionHash == NoneVal then [from] + rest else rest
  }

  function Hashless(ts: seq<BankTransaction>): seq<nat> {
    HashlessFrom(ts, 0)
  }

  /** The state of the backfill loop: the transactions as the session holds
      them, the two counters and `hash_counter`. */
  datatype Backfill = Backfill(ts: seq<BankTransaction>, updated: nat, duplicates: nat, counter: map<string, nat>)

  /** One turn of the loop, for the transaction at position `i`: its hash is
      assigned unless a transaction with another id already holds it. The
      session flushes before the query, so hashes assigned earlier in the same
      run count as existing. */
  function BackfillOne(st: Backfill, i: nat, h: string): (r: Backfill)
    requires i < |st.ts|
    ensures |r.ts| == |st.ts| && r.updated + r.duplicates == st.updated + st.duplicates + 1
    ensures h in r.counter && r.counter[h] == (if h in st.counter then st.counter[h] else 0) + 1
    ensures forall x :: x != h ==> (x in r.counter <==> x in st.counter) && (x in st.counter ==> r.counter[x] == st.counter[x])
  {
    var existing := FirstWithHash(st.ts, Str(h));
    var counter := st.counter[h := (if h in st.counter then st.counter[h] else 0) + 1];
    if existing.Some? && st.ts[existing.value].id != st.ts[i].id then
      st.(duplicates := st.duplicates + 1, counter := counter)
    else
      Backfill(st.ts[i := st.ts[i].(transactionHash := Str(h))], st.updated + 1, st.duplicates, counter)
  }

  /** With hashes unique, a turn counts a duplicate exactly when some
      transaction with another id already holds the hash, and otherwise
      assigns the hash to the transaction at `i`. */
  lemma {:induction false} BackfillOneCases(st: Backfill, i: nat, h: string)
    requires i < |st.ts| && UniqueHashes(st.ts)
    ensures var r := BackfillOne(st, i, h);
      (exists j :: 0 <= j < |st.ts| && st.ts[j].transactionHash == Str(h) && st.ts[j].id != st.ts[i].id)
        <==> (r.duplicates == st.duplicates + 1 && r.updated == st.updated && r.ts == st.ts)
    ensures var r := BackfillOne(st, i, h);
      (forall j :: 0 <= j < |st.ts| && st.ts[j].transactionHash == Str(h) ==> st.ts[j].id == st.ts[i].id)
        <==> (r.ts == st.ts[i := st.ts[i].(transactionHash := Str(h))] && r.updated == st.updated + 1
              && r.duplicates == st.duplicates)
  {
  }

  /** The turn that finds another transaction holding the hash. */
  lemma {:induction false} BackfillOneDuplicate(ts: seq<BankTransaction>, updated: nat, duplicates: nat,
                                               counter: map<string, nat>, i: nat, h: string)
    requires i < |ts|
    requires var e := FirstWithHash(ts, Str(h)); e.Some? && ts[e.value].id != ts[i].id
    ensures BackfillOne(Backfill(ts, updated, duplicates, counter), i, h)
      == Backfill(ts, updated, duplicates + 1, counter[h := (if h in counter then counter[h] else 0) + 1])
  {
  }

  /** The turn that assigns the hash. */
  lemma {:induction false} BackfillOneAssign(ts: seq<BankTransaction>, updated: nat, duplicates: nat,
                                            counter: map<string, nat>, i: nat, h: string)
    requires i < |ts|
    requires var e := FirstWithHash(ts, Str(h)); !(e.Some? && ts[e.value].id != ts[i].id)
    ensures BackfillOne(Backfill(ts, updated, duplicates, counter), i, h)
      == Backfill(ts[i := ts[i].(transactionHash := Str(h))], updated + 1, duplicates,
                  counter[h := (if h in counter then counter[h] else 0) + 1])
  {
  }

  /** `us` is `ts` with at most the hash column changed. */
  predicate Rehashed(ts: seq<BankTransaction>, us: seq<BankTransaction>) {
    && |us| == |ts|
    && forall j :: 0 <= j < |ts| ==> us[j] == ts[j].(transactionHash := us[j].transactionHash)
  }

  /** Setting one more hash keeps the rest of each transaction. */
  lemma {:induction false} RehashedStep(ts: seq<BankTransaction>, us: seq<BankTransaction>, i: nat, v: Value)
    requires Rehashed(ts, us) && i < |us|
    ensures Rehashed(ts, us[i := us[i].(transactionHash := v)])
  {
    var ws := us[i := us[i].(transactionHash := v)];
    forall j | 0 <= j < |ts|
      ensures ws[j] == ts[j].(transactionHash := ws[j].transactionHash)
    {
      if j == i {
        assert ws[j] == us[i].(transactionHash := v);
      } else {
        assert ws[j] == us[j];
      }
    }
  }

  /** A turn changes at most the hash at position `i`. */
  lemma {:induction false} BackfillOneRehashes(ts: seq<BankTransaction>, st: Backfill, i: nat, h: string)
    requires i < |st.ts| && Rehashed(ts, st.ts)
    ensures Rehashed(ts, BackfillOne(st, i, h).ts)
  {
    RehashedStep(ts, st.ts, i, Str(h));
  }

  /** The loop over the positions `idxs`, stopping at the first exception. */
  function BackfillFold(ts: seq<BankTransaction>, idxs: seq<nat>): (r: (Backfill, Option<Fault>))
    requires forall k :: 0 <= k < |idxs| ==> idxs[k] < |ts|
    ensures |r.0.ts| == |ts|
    decreases |idxs|
  {
    if idxs == [] then (Backfill(ts, 0, 0, map[]), None)
    else
      var prev := BackfillFold(ts, idxs[..|idxs| - 1]);
      var i := idxs[|idxs| - 1];
      if prev.1.Some? then prev
      else
        match GenerateTransactionHash(prev.0.ts[i])
        case Err(e) => (prev.0, Some(e))
        case Ok(h) => (BackfillOne(prev.0, i, h), None)
  }

  /** The loop changes nothing but the hash column. */
  lemma {:induction false} FoldRehashes(ts: seq<BankTransaction>, idxs: seq<nat>)
    requires forall k :: 0 <= k < |idxs| ==> idxs[k] < |ts|
    ensures Rehashed(ts, BackfillFold(ts, idxs).0.ts)
    decreases |idxs|
  {
    if idxs == [] {
    } else {
      var init := idxs[..|idxs| - 1];
      FoldRehashes(ts, init);
      var prev := BackfillFold(ts, init);
      var i := idxs[|idxs| - 1];
      if prev.1.None? && GenerateTransactionHash(prev.0.ts[i]).Ok? {
        BackfillOneRehashes(ts, prev.0, i, GenerateTransactionHash(prev.0.ts[i]).value);
      }
    }
  }

  /** One more turn of the loop, after a prefix that raised nothing. */
  lemma {:induction false} BackfillStep(ts: seq<BankTransaction>, idxs: seq<nat>, k: nat, st: Backfill,
                                       h: Result<string, Fault>)
    requires forall j :: 0 <= j < |idxs| ==> idxs[j] < |ts|
    requires k < |idxs| && BackfillFold(ts, idxs[..k]) == (st, None)
    requires |st.ts| == |ts| && h == GenerateTransactionHash(st.ts[idxs[k]])
    ensures h.Err? ==> BackfillFold(ts, idxs[..k + 1]) == (st, Some(h.error))
    ensures h.Ok? ==> BackfillFold(ts, idxs[..k + 1]) == (BackfillOne(st, idxs[k], h.value), None)
  {
    var pre := idxs[..k + 1];
    assert pre[..|pre| - 1] == idxs[..k];
    assert pre[|pre| - 1] == idxs[k];
    assert |st.ts| == |ts|;
  }

  /** Once a turn has raised, the loop has stopped: the outcome of the whole
      run is that of the prefix. */
  lemma {:induction false} BackfillFaultStays(ts: seq<BankTransaction>, idxs: seq<nat>, k: nat)
    requires forall j :: 0 <= j < |idxs| ==> idxs[j] < |ts|
    requires k <= |idxs| && BackfillFold(ts, idxs[..k]).1.Some?
    ensures BackfillFold(ts, idxs) == BackfillFold(ts, idxs[..k])
    decreases |idxs| - k
  {
    if k < |idxs| {
      assert idxs[..k + 1][..k] == idxs[..k];
      BackfillFaultStays(ts, idxs, k + 1);
    } else {
      assert idxs[..k] == idxs;
    }
  }

  /** The fingerprint does not read the hash column. */
  lemma {:induction false} HashIgnoresHashColumn(t: BankTransaction, v: Value)
    ensures GenerateTransactionHash(t.(transactionHash := v)) == GenerateTransactionHash(t)
  {
    assert FieldsOf(t.(transactionHash := v)) == FieldsOf(t);
  }

  /** How many of the transactions at `idxs` have fingerprint `h`. */
  function HashCount(ts: seq<BankTransaction>, idxs: seq<nat>, h: string): nat
    requires forall k :: 0 <= k < |idxs| ==> idxs[k] < |ts|
    decreases |idxs|
  {
    if idxs == [] then 0
    else HashCount(ts, idxs[..|idxs| - 1], h) + (if GenerateTransactionHash(ts[idxs[|idxs| - 1]]) == Ok(h) then 1 else 0)
  }

  /** A loop that ran to the end has counted each transaction once, as
      updated or as duplicate, and `hash_counter` holds exactly the
      fingerprints computed with how often each occurred. */
  lemma {:induction false} BackfillCounts(ts: seq<BankTransaction>, idxs: seq<nat>)
    requires forall k :: 0 <= k < |idxs| ==> idxs[k] < |ts|
    requires BackfillFold(ts, idxs).1.None?
    ensures var st := BackfillFold(ts, idxs).0;
      && st.updated + st.duplicates == |idxs|
      && (forall h :: h in st.counter <==> HashCount(ts, idxs, h) > 0)
      && (forall h :: h in st.counter ==> st.counter[h] == HashCount(ts, idxs, h))
    decreases |idxs|
  {
    if idxs != [] {
      var init := idxs[..|idxs| - 1];
      var prev := BackfillFold(ts, init);
      var i := idxs[|idxs| - 1];
      BackfillCounts(ts, init);
      FoldRehashes(ts, init);
      HashIgnoresHashColumn(ts[i], prev.0.ts[i].transactionHash);
      assert prev.0.ts[i] == ts[i].(transactionHash := prev.0.ts[i].transactionHash);
    }
  }

  /** Stored ids are distinct (the primary key). */
  predicate DistinctIds(ts: seq<BankTransaction>) {
    forall i, j :: 0 <= i < j < |ts| ==> ts[i].id != ts[j].id
  }

  /** Assigning a hash that no transaction holds yet keeps the hash column
      unique. */
  lemma {:induction false} AssignKeepsUnique(ts: seq<BankTransaction>, i: nat, h: string)
    requires i < |ts| && UniqueHashes(ts)
    requires FirstWithHash(ts, Str(h)).None?
    ensures UniqueHashes(ts[i := ts[i].(transactionHash := Str(h))])
  {
  }

  /** With distinct ids, the backfill never gives two transactions the same
      hash, so the commit is refused only for reasons outside the model. */
  lemma {:induction false} BackfillKeepsUnique(ts: seq<BankTransaction>, idxs: seq<nat>)
    requires forall k :: 0 <= k < |idxs| ==> idxs[k] < |ts|
    requires UniqueHashes(ts) && DistinctIds(ts)
    ensures UniqueHashes(BackfillFold(ts, idxs).0.ts)
    decreases |idxs|
  {
    if idxs != [] {
      var init := idxs[..|idxs| - 1];
      BackfillKeepsUnique(ts, init);
      FoldRehashes(ts, init);
      var prev := BackfillFold(ts, init);
      var i := idxs[|idxs| - 1];
      assert DistinctIds(prev.0.ts) by {
        assert forall j :: 0 <= j < |ts| ==> prev.0.ts[j].id == ts[j].id;
      }
      if prev.1.None? && GenerateTransactionHash(prev.0.ts[i]).Ok? {
        var h := GenerateTransactionHash(prev.0.ts[i]).value;
        var existing := FirstWithHash(prev.0.ts, Str(h));
        if existing.Some? && prev.0.ts[existing.value].id == prev.0.ts[i].id {
          assert existing.value == i;
          assert prev.0.ts[i].transactionHash == Str(h);
          var rest := prev.0.ts[i := prev.0.ts[i].(transactionHash := Str(h))];
          assert rest == prev.0.ts;
        } else if existing.None? {
          AssignKeepsUnique(prev.0.ts, i, h);
        }
      }
    }
  }

  /** The transactions the run leaves alone: those that had a hash, and
      those at positions it did not reach. Each one it reached either keeps
      no hash (a duplicate) or gets its fingerprint. */
  lemma {:induction false} BackfillTouchesOnlyHashless(ts: seq<BankTransaction>, idxs: seq<nat>, j: nat)
    requires forall k :: 0 <= k < |idxs| ==> idxs[k] < |ts|
    requires j < |ts|
    ensures var r := BackfillFold(ts, idxs).0.ts[j];
      && (j !in idxs ==> r == ts[j])
      && (r != ts[j] ==> GenerateTransactionHash(ts[j]).Ok? && r.transactionHash == Str(GenerateTransactionHash(ts[j]).value))
    decreases |idxs|
  {
    if idxs != [] {
      var init := idxs[..|idxs| - 1];
      BackfillTouchesOnlyHashless(ts, init, j);
      FoldRehashes(ts, init);
      var prev := BackfillFold(ts, init);
      var i := idxs[|idxs| - 1];
      assert j !in idxs ==> j !in init && j != i;
      HashIgnoresHashColumn(ts[i], prev.0.ts[i].transactionHash);
      assert prev.0.ts[i] == ts[i].(transactionHash := prev.0.ts[i].transactionHash);
    }
  }

  /** `duplicate_hashes`: the fingerprints counted more than once. */
  function Collisions(counter: map<string, nat>): (r: map<string, nat>)
    ensures forall h :: h in r <==> h in counter && counter[h] > 1
    ensures forall h :: h in r ==> r[h] == counter[h]
  {
    map h | h in counter && counter[h] > 1 :: counter[h]
  }

  /** `update_transaction_hashes`: the loop over the hashless transactions,
      one commit, and `(updated, duplicates)`; the collisions it reports are
      returned beside. An exception from the fingerprint or the commit
      leaves the loop's changes uncommitted in the session and is raised. */
  method UpdateTransactionHashes(db: Database, commitOk: bool)
    returns (r: Result<(nat, nat), Fault>, collisions: map<string, nat>)
    requires db.Valid()
    modifies db
    ensures db.Valid()
    ensures var run := BackfillFold(old(db.working.transactions), Hashless(old(db.working.transactions)));
      && db.working == old(db.working).(transactions := run.0.ts)
      && (run.1.Some? ==> r == Err(run.1.value) && db.committed == old(db.committed))
      && (run.1.None? ==>
            && (r.Ok? <==> commitOk && UniqueHashes(run.0.ts))
            && (r.Ok? ==> r.value == (run.0.updated, run.0.duplicates) && db.committed == db.working
                          && collisions == Collisions(run.0.counter))
            && (r.Err? ==> r.error == DatabaseError && db.committed == old(db.committed)))
  {
    var run, fault := BackfillLoop(db.working.transactions);
    db.working := db.working.(transactions := run.ts);
    collisions := map[];
    if fault.Some? {
      return Err(fault.value), collisions;
    }
    var ok := db.Commit(commitOk);
    if !ok {
      return Err(DatabaseError), collisions;
    }
    collisions := Collisions(run.counter);
    r := Ok((run.updated, run.duplicates));
  }

  /** One turn of the loop once the fingerprint is computed: a hash that
      another transaction holds counts a duplicate, otherwise it is
      assigned; either way it is counted. */
  method BackfillTurn(st: Backfill, i: nat, txHash: string) returns (next: Backfill)
    requires i < |st.ts|
    ensures next == BackfillOne(st, i, txHash)
    ensures |next.ts| == |st.ts|
  {
    var ts := st.ts;
    var counter := st.counter[txHash := (if txHash in st.counter then st.counter[txHash] else 0) + 1];
    var existing := FirstWithHash(ts, Str(txHash));
    if existing.Some? && ts[existing.value].id != ts[i].id {
      BackfillOneDuplicate(ts, st.updated, st.duplicates, st.counter, i, txHash);
      next := Backfill(ts, st.updated, st.duplicates + 1, counter);
    } else {
      BackfillOneAssign(ts, st.updated, st.duplicates, st.counter, i, txHash);
      next := Backfill(ts[i := ts[i].(transactionHash := Str(txHash))], st.updated + 1, st.duplicates, counter);
    }
  }

  /** The loop of `update_transaction_hashes`, up to the commit: the hashless
      transactions in order, stopping at the first fingerprint that raises. */
  method BackfillLoop(ts0: seq<BankTransaction>) returns (run: Backfill, fault: Option<Fault>)
    ensures BackfillFold(ts0, Hashless(ts0)) == (run, fault)
  {
    var transactions := Hashless(ts0);
    run := Backfill(ts0, 0, 0, map[]);
    fault := None;
    var k := 0;
    while k < |transactions| && fault.None?
      invariant 0 <= k <= |transactions| && |run.ts| == |ts0|
      invariant BackfillFold(ts0, transactions[..k]) == (run, fault)
    {
      var i := transactions[k];
      var h := GenerateTransactionHash(run.ts[i]);
      BackfillStep(ts0, transactions, k, run, h);
      if h.Err? {
        fault := Some(h.error);
      } else {
        run := BackfillTurn(run, i, h.value);
      }
      k := k + 1;
    }
    if fault.Some? {
      BackfillFaultStays(ts0, transactions, k);
    } else {
      assert transactions[..k] == transactions;
    }
  }

  /** With distinct ids, a backfill that computes every fingerprint commits
      whenever the database accepts; updated plus duplicates is then the
      number of hashless transactions. */
  lemma {:induction false} BackfillSummary(ts: seq<BankTransaction>)
    requires UniqueHashes(ts) && DistinctIds(ts)
    requires BackfillFold(ts, Hashless(ts)).1.None?
    ensures UniqueHashes(BackfillFold(ts, Hashless(ts)).0.ts)
    ensures var st := BackfillFold(ts, Hashless(ts)).0;
      st.updated + st.duplicates == |Hashless(ts)|
  {
    BackfillKeepsUnique(ts, Hashless(ts));
    BackfillCounts(ts, Hashless(ts));
  }
}
