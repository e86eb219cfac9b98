/** The simulator's transaction store: c/src/store.c over the tables of c/src/db.c.

    SQLite is a map for each table; every statement may fail, as the flags of an operation say. */
module Store {
  import opened Decimal
  import opened Listing
  import opened Wrappers

  const TX_COUNTER: string := "transaction_counter"
  const SIG_COUNTER: string := "signature_counter"

  datatype Row = Row(
    client: string,
    external: string,
    processType: string,
    processData: string,
    active: bool,          // ACTIVE or FINISHED
    sigCounter: nat,
    signature: string)

  datatype Ledger = Ledger(settings: map<string, string>, rows: map<int, Row>)

  /** What schema creation leaves in an empty database. */
  const EMPTY: Ledger := Ledger(map[TX_COUNTER := "0", SIG_COUNTER := "0"], map[])

  /** The value a counter is stored at. */
  function Counter(settings: map<string, string>, key: string): int {
    if key in settings then Atoll(settings[key]) else 0
  }

  /** Whether reading and writing a setting work. */
  datatype Access = Access(read: bool, write: bool)

  /** Which statements of an operation succeed. */
  datatype Luck = Luck(
    find: bool,       // the lookup of a finish is prepared
    look: bool,       // and its step works
    tx: Access,
    sig: Access,
    random: bool,
    prepare: bool,    // the INSERT or UPDATE is prepared
    step: bool,       // and its step works
    reload: bool)     // the lookup that reads the row back is prepared

  datatype Request = Request(client: string, processType: string, processData: string, external: string)

  datatype Outcome =
    | Done(number: int, sigCounter: nat)   // 0
    | Failed                               // -1
    | NoTransaction                        // -1 with ErrorNoTransaction

  /** The number db_increment_counter hands out, and the settings after it. */
  function NextNumber(settings: map<string, string>, key: string, a: Access): int {
    (if a.read then Counter(settings, key) else 0) + 1
  }

  function Incremented(settings: map<string, string>, key: string, a: Access): map<string, string>
    requires NextNumber(settings, key, a) > 0
  {
    if a.write then settings[key := Print(NextNumber(settings, key, a))] else settings
  }

  /** Counters hold decimal numbers that are not negative. */
  predicate GoodCounters(settings: map<string, string>) {
    Counter(settings, TX_COUNTER) >= 0 && Counter(settings, SIG_COUNTER) >= 0
  }

  /** store_start_transaction in simulator mode: the ledger after it and its result. */
  function Start(s: Ledger, q: Request, luck: Luck, signature: string): (Ledger, Outcome)
    requires GoodCounters(s.settings)
  {
    var n := NextNumber(s.settings, TX_COUNTER, luck.tx);
    var s1 := Incremented(s.settings, TX_COUNTER, luck.tx);
    CountersApart(s.settings, luck.tx);
    var g := NextNumber(s1, SIG_COUNTER, luck.sig);
    var s2 := Incremented(s1, SIG_COUNTER, luck.sig);
    if !luck.random || !luck.prepare || !luck.step || n in s.rows then (Ledger(s2, s.rows), Failed)
    else
      var row := Row(q.client, q.external, q.processType, q.processData, true, g, signature);
      (Ledger(s2, s.rows[n := row]), if luck.reload then Done(n, g) else Failed)
  }

  lemma CountersApart(settings: map<string, string>, a: Access)
    requires GoodCounters(settings)
    ensures var t := Incremented(settings, TX_COUNTER, a);
            Counter(t, SIG_COUNTER) == Counter(settings, SIG_COUNTER)
  {
    assert TX_COUNTER != SIG_COUNTER by {
      assert TX_COUNTER[0] != SIG_COUNTER[0];
    }
  }

  function Pick(new_: string, old_: string): string {
    if new_ != "" then new_ else old_
  }

  /** store_finish_transaction in simulator mode. */
  function Finish(s: Ledger, n: int, q: Request, luck: Luck, signature: string): (Ledger, Outcome)
    requires GoodCounters(s.settings)
  {
    if !luck.find then (s, Failed)
    else if !luck.look || n !in s.rows || !s.rows[n].active then (s, NoTransaction)
    else
      var g := NextNumber(s.settings, SIG_COUNTER, luck.sig);
      var s1 := Incremented(s.settings, SIG_COUNTER, luck.sig);
      if !luck.random || !luck.prepare || !luck.step then (Ledger(s1, s.rows), Failed)
      else
        var r := s.rows[n];
        var row := Row(r.client, r.external, Pick(q.processType, r.processType),
                       Pick(q.processData, r.processData), false, g, signature);
        (Ledger(s1, s.rows[n := row]), if luck.reload then Done(n, g) else Failed)
  }

  // ----- The counter -----

  lemma IncrementedCounter(settings: map<string, string>, key: string, a: Access)
    requires NextNumber(settings, key, a) > 0
    ensures Counter(Incremented(settings, key, a), key) ==
            if a.write then NextNumber(settings, key, a) else Counter(settings, key)
  {
    AtollPrint(NextNumber(settings, key, a));
  }

  /** db_increment_counter hands out the next number and stores it, through the decimal text, exactly
      when the write works and the read works or there was nothing to read yet. */
  lemma CounterAdvances(settings: map<string, string>, key: string, a: Access)
    requires Counter(settings, key) >= 0
    ensures var n := NextNumber(settings, key, a); var c := Counter(settings, key);
            && n > 0
            && (n == c + 1 == Counter(Incremented(settings, key, a), key)
                <==> a.write && (a.read || c == 0))
  {
    IncrementedCounter(settings, key, a);
  }

  // ----- Runs -----

  datatype Op =
    | StartOp(q: Request, luck: Luck, signature: string)
    | FinishOp(number: int, q: Request, luck: Luck, signature: string)

  function Do(s: Ledger, op: Op): (Ledger, Outcome)
    requires GoodCounters(s.settings)
  {
    match op
    case StartOp(q, luck, g) => Start(s, q, luck, g)
    case FinishOp(n, q, luck, g) => Finish(s, n, q, luck, g)
  }

  const PERFECT: Access := Access(true, true)

  function Tx(s: Ledger): int { Counter(s.settings, TX_COUNTER) }

  function Sig(s: Ledger): int { Counter(s.settings, SIG_COUNTER) }

  /** Row numbers and signature counters are numbers that were handed out, and no two rows share one. */
  predicate Books(s: Ledger) {
    && GoodCounters(s.settings)
    && (forall n :: n in s.rows ==> 1 <= n <= Tx(s) && 1 <= s.rows[n].sigCounter <= Sig(s))
    && (forall m, n :: m in s.rows && n in s.rows && m != n ==> s.rows[m].sigCounter != s.rows[n].sigCounter)
  }

  function Active(rows: map<int, Row>): set<int> {
    set n | n in rows && rows[n].active
  }

  function Finished(rows: map<int, Row>): set<int> {
    set n | n in rows && !rows[n].active
  }

  lemma EmptyBooks()
    ensures Books(EMPTY) && Tx(EMPTY) == 0 && Sig(EMPTY) == 0
    ensures Active(EMPTY.rows) == {} && Finished(EMPTY.rows) == {}
  {
    assert TX_COUNTER[0] != SIG_COUNTER[0];
    AtollPrint(0);
    assert Print(0) == "0";
  }

  /** What an operation does to a counter. */
  function Moved(c: int, a: Access): int {
    if a.write then (if a.read then c else 0) + 1 else c
  }

  /** What a start does to the counters and the rows. */
  lemma StartEffect(s: Ledger, q: Request, luck: Luck, g: string)
    requires GoodCounters(s.settings)
    ensures var t := Start(s, q, luck, g).0;
            && Tx(t) == Moved(Tx(s), luck.tx) && Sig(t) == Moved(Sig(s), luck.sig)
            && (t.rows == s.rows || StartsRow(s, t, luck, (if luck.tx.read then Tx(s) else 0) + 1))
            && (luck.random && luck.prepare && luck.step && (if luck.tx.read then Tx(s) else 0) + 1 !in s.rows ==>
                  t.rows != s.rows)
  {
    assert TX_COUNTER[0] != SIG_COUNTER[0];
    var s1 := Incremented(s.settings, TX_COUNTER, luck.tx);
    IncrementedCounter(s.settings, TX_COUNTER, luck.tx);
    CountersApart(s.settings, luck.tx);
    IncrementedCounter(s1, SIG_COUNTER, luck.sig);
  }

  /** t has the new active row n, with the signature counter of a start. */
  predicate StartsRow(s: Ledger, t: Ledger, luck: Luck, n: int) {
    && luck.random && luck.prepare && luck.step
    && n !in s.rows && n in t.rows && t.rows == s.rows[n := t.rows[n]]
    && t.rows[n].active && t.rows[n].sigCounter == (if luck.sig.read then Sig(s) else 0) + 1
  }

  /** What a finish does. */
  lemma FinishEffect(s: Ledger, n: int, q: Request, luck: Luck, g: string)
    requires GoodCounters(s.settings)
    ensures var t := Finish(s, n, q, luck, g).0;
            && (!luck.find || !luck.look || n !in Active(s.rows) ==> t == s)
            && (luck.find && luck.look && n in Active(s.rows) ==>
                  && Tx(t) == Tx(s) && Sig(t) == Moved(Sig(s), luck.sig)
                  && (if luck.random && luck.prepare && luck.step then FinishesRow(s, t, luck, n)
                      else t.rows == s.rows))
  {
    assert TX_COUNTER[0] != SIG_COUNTER[0];
    IncrementedCounter(s.settings, SIG_COUNTER, luck.sig);
  }

  /** Row n of t is that of s, finished with a new signature counter. */
  predicate FinishesRow(s: Ledger, t: Ledger, luck: Luck, n: int) {
    && n in s.rows && n in t.rows && t.rows == s.rows[n := t.rows[n]]
    && !t.rows[n].active && t.rows[n].sigCounter == (if luck.sig.read then Sig(s) else 0) + 1
  }

  /** A counter is written only if it was read, and a row is written only with numbers that were. */
  predicate Harmless(op: Op) {
    var luck := op.luck;
    var writes := luck.random && luck.prepare && luck.step;
    match op
    case StartOp(_, _, _) =>
      && (luck.tx.write ==> luck.tx.read) && (luck.sig.write ==> luck.sig.read)
      && (writes ==> luck.tx.write && luck.sig.write)
    case FinishOp(n, _, _, _) =>
      n < 1 || !luck.find || !luck.look || ((luck.sig.write ==> luck.sig.read) && (writes ==> luck.sig.write))
  }

  lemma BooksWithRow(s: Ledger, t: Ledger, n: int)
    requires Books(s) && GoodCounters(t.settings) && Tx(t) == n == Tx(s) + 1 && Sig(t) == Sig(s) + 1
    requires n in t.rows && t.rows == s.rows[n := t.rows[n]] && t.rows[n].sigCounter == Sig(t)
    ensures Books(t)
  {
    hide Counter;
  }

  lemma BooksWithSameRows(s: Ledger, t: Ledger)
    requires Books(s) && t.rows == s.rows && Tx(s) <= Tx(t) && Sig(s) <= Sig(t)
    ensures Books(t)
  {
    hide Counter;
  }

  lemma HarmlessStart(s: Ledger, op: Op)
    requires Books(s) && Harmless(op) && op.StartOp?
    ensures var t := Do(s, op).0; Books(t) && Tx(s) <= Tx(t) && Sig(s) <= Sig(t)
  {
    var t := Do(s, op).0;
    StartEffect(s, op.q, op.luck, op.signature);
    hide Start, Counter;
    if t.rows == s.rows {
      BooksWithSameRows(s, t);
    } else {
      BooksWithRow(s, t, Tx(s) + 1);
    }
    hide Books;
  }

  lemma HarmlessFinish(s: Ledger, op: Op)
    requires Books(s) && Harmless(op) && op.FinishOp?
    ensures var t := Do(s, op).0; Books(t) && Tx(s) <= Tx(t) && Sig(s) <= Sig(t)
  {
    FinishEffect(s, op.number, op.q, op.luck, op.signature);
    hide Finish, Counter;
  }

  /** A harmless operation keeps the books, whatever else fails, and counters never go back. */
  lemma BooksKept(s: Ledger, op: Op)
    requires Books(s) && Harmless(op)
    ensures var t := Do(s, op).0; Books(t) && Tx(s) <= Tx(t) && Sig(s) <= Sig(t)
  {
    if op.StartOp? {
      HarmlessStart(s, op);
    } else {
      HarmlessFinish(s, op);
    }
    hide Do, Books, Harmless;
  }

  /** Two active rows, the first with the higher signature counter. */
  function Pair(n: nat): Ledger {
    Ledger(map[TX_COUNTER := Print(n + 1), SIG_COUNTER := Print(2)],
           map[n as int := Row("", "", "", "", true, 2, ""), n + 1 := Row("", "", "", "", true, 1, "")])
  }

  lemma PairBooks(n: nat)
    requires n >= 1
    ensures Books(Pair(n)) && Tx(Pair(n)) == n + 1 && Sig(Pair(n)) == 2
    ensures n in Active(Pair(n).rows) && n + 1 in Pair(n).rows
    ensures Pair(n).rows[n as int].sigCounter == 2 && Pair(n).rows[n + 1].sigCounter == 1
  {
    assert TX_COUNTER[0] != SIG_COUNTER[0];
    AtollPrint(n + 1);
    AtollPrint(2);
    hide Print, Atoll;
  }

  /** A start that is not harmless breaks the books of the empty store or of two rows. */
  lemma HarmfulStart(op: Op)
    requires op.StartOp? && !Harmless(op)
    ensures Books(EMPTY) && Books(Pair(1)) && (!Books(Do(EMPTY, op).0) || !Books(Do(Pair(1), op).0))
  {
    EmptyBooks();
    PairBooks(1);
    StartEffect(EMPTY, op.q, op.luck, op.signature);
    StartEffect(Pair(1), op.q, op.luck, op.signature);
    hide Start, Counter, Pair;
    if op.luck.tx.write && !op.luck.tx.read {
      assert 2 in Do(Pair(1), op).0.rows;
    } else if op.luck.sig.write && !op.luck.sig.read {
      assert 1 in Do(Pair(1), op).0.rows && Do(Pair(1), op).0.rows[1].sigCounter == 2;
    } else {
      assert 1 in Do(EMPTY, op).0.rows;
    }
  }

  /** A finish that is not harmless breaks the books of two rows. */
  lemma HarmfulFinish(op: Op)
    requires op.FinishOp? && !Harmless(op)
    ensures op.number >= 1 && Books(Pair(op.number)) && !Books(Do(Pair(op.number), op).0)
  {
    var n := op.number;
    PairBooks(n);
    FinishEffect(Pair(n), n, op.q, op.luck, op.signature);
    hide Finish, Counter, Pair;
    assert n in Do(Pair(n), op).0.rows && n + 1 in Do(Pair(n), op).0.rows;
  }

  /** The books survive an operation from every ledger exactly when the operation is harmless. */
  lemma BooksKeptExactly(op: Op)
    ensures (forall s :: Books(s) ==> Books(Do(s, op).0)) <==> Harmless(op)
  {
    if Harmless(op) {
      forall s | Books(s)
        ensures Books(Do(s, op).0)
      {
        BooksKept(s, op);
      }
    } else if op.StartOp? {
      HarmfulStart(op);
    } else {
      HarmfulFinish(op);
    }
    hide Do, Harmless;
  }

  /** The numbers an operation reports are new. */
  lemma NumbersAreNew(s: Ledger, op: Op)
    requires Books(s) && Harmless(op) && Do(s, op).1.Done?
    ensures var d := Do(s, op).1; var t := Do(s, op).0;
            && d.sigCounter == Sig(s) + 1 == Sig(t)
            && (op.StartOp? ==> d.number == Tx(s) + 1 == Tx(t))
            && d.number in t.rows && t.rows[d.number].sigCounter == d.sigCounter
            && t.rows[d.number].active == op.StartOp?
  {
    match op
    case StartOp(q, luck, g) =>
      StartEffect(s, q, luck, g);
      CountersApart(s.settings, luck.tx);
    case FinishOp(n, q, luck, g) => FinishEffect(s, n, q, luck, g);
  }

  /** An operation gets as far as its signature counter. */
  predicate Signs(s: Ledger, op: Op) {
    op.StartOp? || (op.luck.find && op.luck.look && op.number in Active(s.rows))
  }

  /** What a row holds that a request started. */
  predicate Holds(r: Row, q: Request, signature: string) {
    && r.client == q.client && r.external == q.external
    && r.processType == q.processType && r.processData == q.processData
    && r.active && r.signature == signature
  }

  /** A start writes its own request into at most one new row and touches no other, whatever fails; it
      reports that row exactly when nothing it needs failed and the number was free. */
  lemma StartedRow(s: Ledger, op: Op)
    requires GoodCounters(s.settings) && op.StartOp?
    ensures var (t, r) := Do(s, op);
            var n := (if op.luck.tx.read then Tx(s) else 0) + 1;
            && (forall m :: m in s.rows ==> m in t.rows && t.rows[m] == s.rows[m])
            && (forall m :: m in t.rows && m !in s.rows ==> m == n && Holds(t.rows[m], op.q, op.signature))
            && (n in t.rows && n !in s.rows <==> op.luck.random && op.luck.prepare && op.luck.step && n !in s.rows)
            && (r.Done? <==> n in t.rows && n !in s.rows && op.luck.reload)
            && (r.Done? ==> r.number == n && r.sigCounter == t.rows[n].sigCounter)
  {
    hide Incremented;
    CountersApart(s.settings, op.luck.tx);
  }

  /** A finish of an active row keeps its owner, takes the request's type and data where it has any, and
      touches no other row; it reports the row exactly when nothing it needs failed. */
  lemma FinishedRow(s: Ledger, op: Op)
    requires GoodCounters(s.settings) && op.FinishOp? && Signs(s, op)
    ensures var (t, r) := Do(s, op);
            var n, written := op.number, op.luck.random && op.luck.prepare && op.luck.step;
            && t.rows.Keys == s.rows.Keys && (forall m :: m in s.rows && m != n ==> t.rows[m] == s.rows[m])
            && (r.Done? <==> written && op.luck.reload)
            && (r.Done? ==> r.number == n && r.sigCounter == t.rows[n].sigCounter)
            && (!written ==> t.rows == s.rows)
            && (written ==>
                  var a, b := s.rows[n], t.rows[n];
                  && !b.active && b.signature == op.signature && b.client == a.client && b.external == a.external
                  && b.processType == (if op.q.processType != "" then op.q.processType else a.processType)
                  && b.processData == (if op.q.processData != "" then op.q.processData else a.processData))
  {
    hide Incremented;
  }

  /** FINISHED never reverts, even if every statement may fail: a finished row stays as it is, an active
      one keeps its owner, and a process type or data once given is replaced only by another. */
  lemma FinishedForEver(s: Ledger, op: Op, n: int)
    requires GoodCounters(s.settings) && n in s.rows
    ensures var t := Do(s, op).0;
            && n in t.rows && (!s.rows[n].active ==> t.rows[n] == s.rows[n])
            && t.rows[n].client == s.rows[n].client && t.rows[n].external == s.rows[n].external
            && (t.rows[n].processType == s.rows[n].processType || t.rows[n].processType == op.q.processType != "")
            && (t.rows[n].processData == s.rows[n].processData || t.rows[n].processData == op.q.processData != "")
  {
    hide Counter;
  }

  /** ErrorNoTransaction is reported for a number that is not active, and for any number when the lookup
      breaks; either way nothing changes, and nothing changes for a number that is not active. */
  lemma RejectedChangesNothing(s: Ledger, n: int, q: Request, luck: Luck, g: string)
    requires GoodCounters(s.settings)
    ensures var (t, r) := Finish(s, n, q, luck, g);
            && (r == NoTransaction <==> luck.find && (!luck.look || n !in Active(s.rows)))
            && (r == NoTransaction || n !in Active(s.rows) ==> t == s)
  {
  }

  /** Whether an operation used up a transaction number without a row to show for it. */
  function LostNumber(s: Ledger, op: Op): nat
    requires GoodCounters(s.settings)
  {
    if op.StartOp? && op.luck.tx.write && Do(s, op).0.rows == s.rows then 1 else 0
  }

  /** Whether it used up a signature counter. */
  function LostSignature(s: Ledger, op: Op): nat
    requires GoodCounters(s.settings)
  {
    if Signs(s, op) && op.luck.sig.write && Do(s, op).0.rows == s.rows then 1 else 0
  }

  lemma RowAdded(rows: map<int, Row>, n: int, r: Row)
    requires n !in rows && r.active
    ensures Active(rows[n := r]) == Active(rows) + {n} && Finished(rows[n := r]) == Finished(rows)
    ensures n !in Active(rows)
  {
  }

  lemma RowFinished(rows: map<int, Row>, n: int, r: Row)
    requires n in rows && rows[n].active && !r.active
    ensures Active(rows[n := r]) == Active(rows) - {n} && Finished(rows[n := r]) == Finished(rows) + {n}
    ensures n in Active(rows) && n !in Finished(rows)
  {
  }

  predicate Balanced(s: Ledger, t: Ledger, lostTx: nat, lostSig: nat) {
    && Tx(t) - |Active(t.rows)| - |Finished(t.rows)| == Tx(s) - |Active(s.rows)| - |Finished(s.rows)| + lostTx
    && Sig(t) - |Active(t.rows)| - 2 * |Finished(t.rows)|
       == Sig(s) - |Active(s.rows)| - 2 * |Finished(s.rows)| + lostSig
  }

  lemma StartBalance(s: Ledger, op: Op)
    requires GoodCounters(s.settings) && Harmless(op) && op.StartOp?
    ensures Balanced(s, Do(s, op).0, LostNumber(s, op), LostSignature(s, op))
  {
    hide Start, Counter, Active, Finished, GoodCounters, Tx, Sig;
    var t := Do(s, op).0;
    StartEffect(s, op.q, op.luck, op.signature);
    if t.rows != s.rows {
      RowAdded(s.rows, Tx(s) + 1, t.rows[Tx(s) + 1]);
    }
  }

  lemma FinishBalance(s: Ledger, op: Op)
    requires Books(s) && Harmless(op) && op.FinishOp?
    ensures Balanced(s, Do(s, op).0, 0, LostSignature(s, op))
  {
    var t := Do(s, op).0;
    var n := op.number;
    FinishEffect(s, n, op.q, op.luck, op.signature);
    if n in Active(s.rows) && t.rows != s.rows {
      RowFinished(s.rows, n, t.rows[n]);
    }
    hide Finish, Counter, Finished;
  }

  /** One operation's part in the balance of the counters. */
  lemma Balance(s: Ledger, op: Op)
    requires Books(s) && Harmless(op)
    ensures Balanced(s, Do(s, op).0, LostNumber(s, op), LostSignature(s, op))
  {
    if op.StartOp? {
      StartBalance(s, op);
    } else {
      FinishBalance(s, op);
    }
    hide Do, Balanced, Harmless, Signs;
  }

  predicate AllHarmless(ops: seq<Op>) {
    forall i :: 0 <= i < |ops| ==> Harmless(ops[i])
  }

  /** The ledger after a run that starts with an empty store. */
  ghost function Run(ops: seq<Op>): (s: Ledger)
    requires AllHarmless(ops)
    ensures Books(s)
    decreases |ops|
  {
    if ops == [] then EmptyBooks(); EMPTY
    else
      var n := |ops| - 1;
      BooksKept(Run(ops[..n]), ops[n]);
      Do(Run(ops[..n]), ops[n]).0
  }

  ghost function LostNumbers(ops: seq<Op>): nat
    requires AllHarmless(ops)
    decreases |ops|
  {
    if ops == [] then 0
    else
      var n := |ops| - 1;
      LostNumbers(ops[..n]) + LostNumber(Run(ops[..n]), ops[n])
  }

  ghost function LostSignatures(ops: seq<Op>): nat
    requires AllHarmless(ops)
    decreases |ops|
  {
    if ops == [] then 0
    else
      var n := |ops| - 1;
      LostSignatures(ops[..n]) + LostSignature(Run(ops[..n]), ops[n])
  }

  /** The ledger invariant.  After any run of harmless operations, whatever else fails, the transaction
      counter is the number of rows plus the numbers used up without one, and the signature counter is one
      for each active and two for each finished row plus the signatures used up without one. */
  lemma {:induction false} LedgerBalances(ops: seq<Op>)
    requires AllHarmless(ops)
    ensures var s := Run(ops);
            && Books(s)
            && Tx(s) == |Active(s.rows)| + |Finished(s.rows)| + LostNumbers(ops)
            && Sig(s) == |Active(s.rows)| + 2 * |Finished(s.rows)| + LostSignatures(ops)
    decreases |ops|
  {
    hide Do, Counter, Harmless, LostNumber, LostSignature, Books;
    if ops == [] {
      EmptyBooks();
    } else {
      var n := |ops| - 1;
      LedgerBalances(ops[..n]);
      Balance(Run(ops[..n]), ops[n]);
    }
  }

  /** The counters never fall short of the rows. */
  lemma CountersCoverRows(ops: seq<Op>)
    requires AllHarmless(ops)
    ensures var s := Run(ops);
            Tx(s) >= |Active(s.rows)| + |Finished(s.rows)| && Sig(s) >= |Active(s.rows)| + 2 * |Finished(s.rows)|
  {
    hide Run, Counter, Harmless;
    LedgerBalances(ops);
  }

  const NO_FAILURE: Luck := Luck(true, true, PERFECT, PERFECT, true, true, true, true)

  predicate AllLucky(ops: seq<Op>): (r: bool)
    ensures r ==> AllHarmless(ops)
  {
    forall i :: 0 <= i < |ops| ==> ops[i].luck == NO_FAILURE
  }

  lemma LuckyLosesNothing(s: Ledger, op: Op)
    requires Books(s) && op.luck == NO_FAILURE
    ensures LostNumber(s, op) == 0 && LostSignature(s, op) == 0
  {
    match op
    case StartOp(q, luck, g) => StartEffect(s, q, luck, g);
    case FinishOp(n, q, luck, g) => FinishEffect(s, n, q, luck, g);
  }

  /** Without failures the counters are exactly the rows. */
  lemma {:induction false} LuckyRunBalances(ops: seq<Op>)
    requires AllLucky(ops)
    ensures var s := Run(ops);
            Tx(s) == |Active(s.rows)| + |Finished(s.rows)| && Sig(s) == |Active(s.rows)| + 2 * |Finished(s.rows)|
    decreases |ops|
  {
    hide Counter, Run, AllHarmless;
    LedgerBalances(ops);
    LuckyRunLosesNothing(ops);
  }

  lemma {:induction false} LuckyRunLosesNothing(ops: seq<Op>)
    requires AllLucky(ops)
    ensures LostNumbers(ops) == 0 && LostSignatures(ops) == 0
    decreases |ops|
  {
    hide Do, Counter, LostNumber, LostSignature, Harmless;
    if ops != [] {
      var n := |ops| - 1;
      LuckyRunLosesNothing(ops[..n]);
      LuckyLosesNothing(Run(ops[..n]), ops[n]);
    }
  }

  /** What the i-th operation of a run reported. */
  ghost function Report(ops: seq<Op>, i: nat): Outcome
    requires AllHarmless(ops) && i < |ops|
  {
    Do(Run(ops[..i]), ops[i]).1
  }

  lemma RunNext(ops: seq<Op>, i: nat)
    requires AllHarmless(ops) && i < |ops|
    ensures Run(ops[..i + 1]) == Do(Run(ops[..i]), ops[i]).0
  {
    assert ops[..i + 1][..i] == ops[..i];
    hide Do, Harmless;
  }

  lemma {:induction false} CountersGrow(ops: seq<Op>, i: nat, j: nat)
    requires AllHarmless(ops) && i <= j <= |ops|
    ensures Tx(Run(ops[..i])) <= Tx(Run(ops[..j])) && Sig(Run(ops[..i])) <= Sig(Run(ops[..j]))
    decreases j
  {
    hide Do, Counter;
    if i < j {
      CountersGrow(ops, i, j - 1);
      assert ops[..j][..j - 1] == ops[..j - 1];
      BooksKept(Run(ops[..j - 1]), ops[j - 1]);
    }
  }

  /** Over a whole run the signature counters reported are strictly increasing, and so are the numbers
      of the transactions started. */
  lemma NumbersRise(ops: seq<Op>, i: nat, j: nat)
    requires AllHarmless(ops) && i < j < |ops|
    requires Report(ops, i).Done? && Report(ops, j).Done?
    ensures Report(ops, i).sigCounter < Report(ops, j).sigCounter
    ensures ops[i].StartOp? && ops[j].StartOp? ==> Report(ops, i).number < Report(ops, j).number
  {
    hide Do, Counter, Books, Harmless;
    NumbersAreNew(Run(ops[..i]), ops[i]);
    NumbersAreNew(Run(ops[..j]), ops[j]);
    RunNext(ops, i);
    hide Run;
    CountersGrow(ops, i + 1, j);
  }

  // ----- What a failing settings table does -----

  /** A read that fails starts the counter at 1 again: the new row repeats the signature counter of the
      first one. */
  lemma FailedReadRepeatsSignature(s: Ledger, q: Request, g: string, m: int)
    requires Books(s) && m in s.rows && s.rows[m].sigCounter == 1
    ensures var luck := Luck(true, true, PERFECT, Access(false, true), true, true, true, true);
            var (t, r) := Start(s, q, luck, g);
            && r == Done(Tx(s) + 1, 1) && m != Tx(s) + 1
            && t.rows[m].sigCounter == t.rows[Tx(s) + 1].sigCounter && !Books(t)
  {
    var luck := Luck(true, true, PERFECT, Access(false, true), true, true, true, true);
    CountersApart(s.settings, luck.tx);
    var t := Start(s, q, luck, g).0;
    assert m in t.rows && Tx(s) + 1 in t.rows;
    hide Counter;
  }

  /** A write that fails hands the same transaction number out again, and the next start fails. */
  lemma FailedWriteRepeatsNumber(s: Ledger, q: Request, g: string, luck: Luck)
    requires Books(s)
    ensures var broken := Luck(true, true, Access(true, false), PERFECT, true, true, true, true);
            var (t, r) := Start(s, q, broken, g);
            && r.Done? && r.number == Tx(s) + 1 && Tx(t) == Tx(s)
            && (luck.tx.read ==> Start(t, q, luck, g).1 == Failed)
  {
    assert TX_COUNTER[0] != SIG_COUNTER[0];
    var broken := Luck(true, true, Access(true, false), PERFECT, true, true, true, true);
    CountersApart(s.settings, broken.tx);
    IncrementedCounter(s.settings, SIG_COUNTER, PERFECT);
  }

  // ----- The C functions -----

  class Db {
    var settings: map<string, string>
    var rows: map<int, Row>

    /** The tables as a value. */
    function Contents(): Ledger
      reads this
    {
      Ledger(settings, rows)
    }

    constructor ()
      ensures Contents() == EMPTY
    {
      settings, rows := EMPTY.settings, EMPTY.rows;
    }

    /** db_get_setting */
    method GetSetting(key: string, works: bool) returns (value: Option<string>)
      ensures value == if works && key in settings then Some(settings[key]) else None
    {
      value := if works && key in settings then Some(settings[key]) else None;
    }

    /** db_set_setting */
    method SetSetting(key: string, value: string, works: bool) returns (rc: int)
      modifies this`settings
      ensures rc == if works then 0 else -1
      ensures settings == if works then old(settings)[key := value] else old(settings)
    {
      if works {
        settings := settings[key := value];
        return 0;
      }
      return -1;
    }

    /** db_increment_counter */
    method IncrementCounter(key: string, a: Access) returns (next: int)
      requires Counter(settings, key) >= 0
      modifies this`settings
      ensures next == NextNumber(old(settings), key, a)
      ensures settings == Incremented(old(settings), key, a)
    {
      var current: int := 0;
      var buf := GetSetting(key, a.read);
      if buf.Some? {
        current := Atoll(buf.value);
      }
      next := current + 1;
      var _ := SetSetting(key, Print(next), a.write);
    }

    /** store_start_transaction in simulator mode. */
    method StartTransaction(q: Request, luck: Luck, signature: string) returns (r: Outcome)
      requires GoodCounters(settings)
      modifies this
      ensures (Contents(), r) == Start(old(Contents()), q, luck, signature)
    {
      CountersApart(settings, luck.tx);
      var n := IncrementCounter(TX_COUNTER, luck.tx);
      var g := IncrementCounter(SIG_COUNTER, luck.sig);
      if !luck.random || !luck.prepare {
        return Failed;
      }
      if !luck.step || n in rows {
        return Failed;
      }
      rows := rows[n := Row(q.client, q.external, q.processType, q.processData, true, g, signature)];
      if !luck.reload {
        return Failed;
      }
      return Done(n, rows[n].sigCounter);
    }

    /** store_finish_transaction in simulator mode. */
    method FinishTransaction(n: int, q: Request, luck: Luck, signature: string) returns (r: Outcome)
      requires GoodCounters(settings)
      modifies this
      ensures (Contents(), r) == Finish(old(Contents()), n, q, luck, signature)
    {
      if !luck.find {
        return Failed;
      }
      if !luck.look || n !in rows {
        return NoTransaction;
      }
      var existing := rows[n];
      if !existing.active {
        return NoTransaction;
      }
      var g := IncrementCounter(SIG_COUNTER, luck.sig);
      if !luck.random {
        return Failed;
      }
      var finalType := if q.processType != "" then q.processType else existing.processType;
      var finalData := if q.processData != "" then q.processData else existing.processData;
      if !luck.prepare || !luck.step {
        return Failed;
      }
      rows := rows[n := existing.(processType := finalType, processData := finalData, active := false,
                                  sigCounter := g, signature := signature)];
      if !luck.reload {
        return Failed;
      }
      return Done(n, g);
    }

    /** store_list_open_transactions: the first max active numbers, in ascending order. */
    method ListOpenTransactions(max: nat) returns (out: seq<int>)
      ensures out == FirstOf(Active(rows), max)
    {
      out := Fetch(Active(rows), max);
    }
  }
}
