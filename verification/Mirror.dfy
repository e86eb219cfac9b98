/** The store in hardware mode: the transactions table as a mirror of the device's open transactions
    (c/src/store.c, store_start_transaction, store_finish_transaction and the two recorders). */
module Mirror {
  import opened ClientId
  import opened Device
  import opened Listing
  import opened Worm

  /** A row of the mirror: who started the transaction, and whether it is ACTIVE or FINISHED. */
  datatype Entry = Entry(client: Id, external: string, active: bool)

  function ActiveNumbers(rows: map<nat, Entry>): set<nat> {
    set n | n in rows && rows[n].active
  }

  /** The mirror agrees with the device. */
  predicate Agrees(rows: map<nat, Entry>, d: Tse) {
    ActiveNumbers(rows) == d.open
  }

  lemma OpenRecorded(rows: map<nat, Entry>, n: nat, e: Entry)
    requires e.active
    ensures ActiveNumbers(rows[n := e]) == ActiveNumbers(rows) + {n}
  {
  }

  lemma FinishRecorded(rows: map<nat, Entry>, n: nat, e: Entry)
    requires !e.active
    ensures ActiveNumbers(rows[n := e]) == ActiveNumbers(rows) - {n}
  {
  }

  /** One request to the store: whether the worker took the job, and whether the statement that records
      the outcome works. */
  datatype Request =
    | Start(client: Id, external: string, posted: bool, dbOk: bool)
    | Finish(client: Id, number: nat, posted: bool, dbOk: bool)

  class HardwareStore {
    const worm: Worm
    var rows: map<nat, Entry>

    ghost predicate Valid()
      reads this, worm
    {
      && worm.Valid() && AtRest(worm.mon) && worm.active
      && (worm.sound ==> worm.dev.open <= worm.dev.used)
    }

    constructor (worm: Worm)
      requires worm.Valid() && AtRest(worm.mon) && worm.active
      requires worm.sound ==> worm.dev.open <= worm.dev.used
      ensures this.worm == worm && rows == map[] && Valid()
    {
      this.worm := worm;
      rows := map[];
    }

    /** record_transaction_open */
    method RecordOpen(tx: Tx, external: string, dbOk: bool)
      modifies this`rows
      ensures rows == if dbOk then old(rows)[tx.number := Entry(tx.client, external, true)] else old(rows)
    {
      if dbOk {
        rows := rows[tx.number := Entry(tx.client, external, true)];
      }
    }

    /** record_transaction_finished */
    method RecordFinished(number: nat, dbOk: bool)
      modifies this`rows
      ensures rows == if dbOk && number in old(rows) then old(rows)[number := old(rows)[number].(active := false)]
                      else old(rows)
    {
      if dbOk && number in rows {
        rows := rows[number := rows[number].(active := false)];
      }
    }

    /** store_start_transaction: the mirror still agrees exactly when a started transaction was
        recorded. */
    method StartTransaction(client: Id, external: string, posted: bool, dbOk: bool) returns (rc: int)
      requires Valid()
      modifies this, worm
      ensures Valid() && (rc == 0 || rc == -1) && (!posted ==> rc == -1)
      ensures worm.sound ==> old(worm.sound)
      ensures worm.sound && old(Agrees(rows, worm.dev)) ==> (Agrees(rows, worm.dev) <==> rc != 0 || dbOk)
      ensures rc != 0 ==> rows == old(rows)
      ensures worm.sound && rc == 0 ==>
                exists n :: Opened(old(worm.dev), worm.dev, n)
                            && rows == if dbOk then old(rows)[n := Entry(Clip(client), external, true)] else old(rows)
      ensures posted && worm.Healthy() && SelfTestPossible(old(worm.dev), old(worm.known), worm.startup)
              && |old(worm.dev).open| < worm.dev.maxOpen && ClientUsable(old(worm.dev), old(worm.cache), client) ==>
                rc == 0
    {
      hide StartServed, Scan, Replay, OnceMore, OneCall, ClientServed;
      if !posted {
        return -1;
      }
      var tx;
      rc, tx := worm.StartTransaction(client);
      if rc != 0 {
        return -1;
      }
      RecordOpen(tx, external, dbOk);
      OpenRecorded(old(rows), tx.number, Entry(tx.client, external, true));
      return 0;
    }

    /** store_finish_transaction */
    method FinishTransaction(client: Id, number: nat, posted: bool, dbOk: bool) returns (rc: int)
      requires Valid()
      modifies this, worm
      ensures Valid() && (rc == 0 || rc == -1) && (!posted ==> rc == -1)
      ensures worm.sound ==> old(worm.sound)
      ensures worm.sound && old(Agrees(rows, worm.dev)) ==> (Agrees(rows, worm.dev) <==> rc != 0 || dbOk)
      ensures rc != 0 ==> rows == old(rows)
      ensures rc == 0 && dbOk && number in old(rows) ==>
                rows == old(rows)[number := old(rows)[number].(active := false)]
      ensures posted && worm.Healthy() && SelfTestPossible(old(worm.dev), old(worm.known), worm.startup)
              && SafeId(client) in old(worm.dev).registered && number in old(worm.dev).open ==>
                rc == 0
    {
      hide FinishServed, Scan, Replay, OnceMore, OneCall, Refreshed;
      if !posted {
        return -1;
      }
      var tx;
      rc, tx := worm.FinishTransaction(client, number);
      if rc == 0 {
        RecordFinished(number, dbOk);
        if number in old(rows) {
          FinishRecorded(old(rows), number, old(rows)[number].(active := false));
        }
      }
    }

    method Serve(q: Request) returns (rc: int)
      requires Valid()
      modifies this, worm
      ensures Valid() && (worm.sound ==> old(worm.sound))
      ensures worm.sound && old(Agrees(rows, worm.dev)) ==> (Agrees(rows, worm.dev) <==> rc != 0 || q.dbOk)
    {
      match q {
        case Start(client, external, posted, dbOk) =>
          rc := StartTransaction(client, external, posted, dbOk);
        case Finish(client, number, posted, dbOk) =>
          rc := FinishTransaction(client, number, posted, dbOk);
      }
    }

    /** Any run of starts and finishes from a matching state, with whatever errors and recoveries the
        device goes through: as long as the records of what succeeded are written, the ACTIVE rows are
        the device's open transactions. */
    method ServeAll(qs: seq<Request>) returns (rcs: seq<int>)
      requires Valid() && (worm.sound ==> Agrees(rows, worm.dev))
      modifies this, worm
      ensures Valid() && |rcs| == |qs|
      ensures worm.sound && (forall i :: 0 <= i < |qs| ==> rcs[i] != 0 || qs[i].dbOk) ==> Agrees(rows, worm.dev)
    {
      rcs := [];
      for i := 0 to |qs|
        invariant Valid() && |rcs| == i
        invariant worm.sound && (forall k :: 0 <= k < i ==> rcs[k] != 0 || qs[k].dbOk) ==> Agrees(rows, worm.dev)
      {
        var rc := Serve(qs[i]);
        rcs := rcs + [rc];
      }
    }

    /** store_list_open_transactions: the device's open transactions, as many as fit, lowest first. */
    method ListOpenTransactions(max: nat) returns (out: seq<int>)
      requires Valid()
      ensures worm.sound && Agrees(rows, worm.dev) ==> out == FirstOf(worm.dev.open, max)
    {
      out := Fetch(ActiveNumbers(rows), max);
    }
  }
}
