/** `Service` and the stop handler of the HTTP server, one request at a time. */
module TransactionService {
  import opened Wrappers
  import opened TransactionTable
  import Ids = TransactionIds

  class Service {
    const repo: TransactionRepo
    var nextID: int

    constructor (repo: TransactionRepo)
      ensures this.repo == repo && nextID == 0
    {
      this.repo, nextID := repo, 0;
    }

    /** No call under way, nothing returned yet. */
    ghost function Now(floor: int): Ids.Core reads this, repo {
      Ids.Core(repo.rows, nextID, map[], [], floor)
    }

    /** `reachable` is whether the database answers; if not, the counter stays. */
    method InitCounter(reachable: bool) returns (r: Result<()>)
      modifies this
      ensures r.Ok? <==> reachable
      ensures r.Ok? ==> IsMax(repo.rows, nextID - 1)
      ensures r.Ok? && Unique(repo.rows) ==> Ids.Serial(Now(nextID - 1))
      ensures r.Err? ==> nextID == old(nextID)
    {
      if !reachable {
        return Err("read max numeric_id");
      }
      var m := repo.MaxNumericID();
      nextID := m + 1;
      return Ok(());
    }

    /** `uuid` is fresh. */
    method Start(cp: string, connectorNumber: int, idTag: string, meterStart: int, uuid: string, reachable: bool)
      returns (r: Result<int>)
      requires Unique(repo.rows) && Ids.Fresh(repo.rows, uuid)
      modifies this, repo
      ensures var row := Transaction(uuid, Some(old(nextID)), cp, connectorNumber, idTag, "active", meterStart, None, None);
              var after := Ids.SerialStart(old(Now(0)), row, reachable);
              && repo.rows == after.rows && nextID == after.nextID
              && (r.Ok? <==> |after.granted| == 1)
              && (r.Ok? ==> after.granted == [Ids.Grant(cp, r.value, uuid)])
      ensures r.Ok? <==> reachable && forall i :: 0 <= i < |old(repo.rows)| ==> !Holds(old(repo.rows)[i], cp, old(nextID))
      ensures r.Err? ==> repo.rows == old(repo.rows) && nextID == old(nextID)
      ensures r.Ok? ==> Find(repo.rows, cp, r.value).Some? && Find(repo.rows, cp, r.value).value.id == uuid
      ensures Unique(repo.rows)
    {
      var numericID := nextID;
      nextID := nextID + 1;
      var row := Transaction(uuid, Some(numericID), cp, connectorNumber, idTag, "active", meterStart, None, None);
      Ids.SerialStartExactly(old(Now(0)), row, reachable);
      var created := repo.Create(row, reachable);
      if created.Err? {
        nextID := numericID;
        return Err("create transaction");
      }
      FindIsTheRow(repo.rows, cp, numericID, |repo.rows| - 1);
      return Ok(numericID);
    }

    method Stop(id: string, meterStop: int, reason: string, reachable: bool) returns (r: Result<()>)
      requires Unique(repo.rows)
      modifies repo
      ensures Unique(repo.rows) && (r.Ok? <==> reachable)
      ensures repo.rows == if r.Ok? then StopRow(old(repo.rows), id, meterStop, reason) else old(repo.rows)
      ensures r.Ok? ==>
                && |repo.rows| == |old(repo.rows)|
                && forall i :: 0 <= i < |repo.rows| ==>
                     if old(repo.rows)[i].id == id then ClosedWith(old(repo.rows)[i], repo.rows[i], meterStop, reason)
                     else repo.rows[i] == old(repo.rows)[i]
    {
      if !reachable {
        return Err("stop transaction");
      }
      repo.Stop(id, meterStop, reason);
      return Ok(());
    }
  }

  lemma {:induction false} FirstHeld(rows: Table, cp: string, n: int, i: nat)
    requires i < |OfChargePoint(rows, cp)| && Holds(OfChargePoint(rows, cp)[i], cp, n)
    requires forall j :: 0 <= j < i ==> !Holds(OfChargePoint(rows, cp)[j], cp, n)
    ensures Find(rows, cp, n) == Some(OfChargePoint(rows, cp)[i])
  {
    var last := rows[|rows| - 1];
    var front := rows[..|rows| - 1];
    var list := OfChargePoint(rows, cp);
    if last.chargePointId != cp {
      assert list == OfChargePoint(front, cp);
      FirstHeld(front, cp, n, i);
    } else {
      assert list == [last] + OfChargePoint(front, cp);
      if i > 0 {
        assert !Holds(list[0], cp, n);
        assert forall j :: 0 <= j < i - 1 ==> OfChargePoint(front, cp)[j] == list[j + 1];
        FirstHeld(front, cp, n, i - 1);
      }
    }
  }

  lemma {:induction false} NoneHeld(rows: Table, cp: string, n: int)
    requires forall j :: 0 <= j < |OfChargePoint(rows, cp)| ==> !Holds(OfChargePoint(rows, cp)[j], cp, n)
    ensures Find(rows, cp, n) == None
  {
    if rows != [] {
      var last := rows[|rows| - 1];
      var rest := OfChargePoint(rows[..|rows| - 1], cp);
      var list := OfChargePoint(rows, cp);
      if last.chargePointId == cp {
        assert list == [last] + rest;
        assert !Holds(list[0], cp, n);
        assert forall j :: 0 <= j < |rest| ==> rest[j] == list[j + 1];
      } else {
        assert list == rest;
      }
      NoneHeld(rows[..|rows| - 1], cp, n);
    }
  }

  datatype StopRequest = StopRequest(chargePointId: string, transactionId: int, meterStop: int, reason: string)

  class Server {
    const transactionRepo: TransactionRepo
    const transactionSvc: Service

    constructor (repo: TransactionRepo, svc: Service)
      requires svc.repo == repo
      ensures transactionRepo == repo && transactionSvc == svc && Valid()
    {
      transactionRepo, transactionSvc := repo, svc;
    }

    predicate Valid() { transactionSvc.repo == transactionRepo }

    /** An error both when the list cannot be read and when no row has the number. */
    method FindTransactionByNumericID(cp: string, n: int, reachable: bool) returns (found: Result<Transaction>)
      ensures found.Ok? <==> reachable && Find(transactionRepo.rows, cp, n).Some?
      ensures found.Ok? ==> Find(transactionRepo.rows, cp, n) == Some(found.value)
    {
      if !reachable {
        return Err("list transactions");
      }
      var list := transactionRepo.ListByChargePoint(cp);
      AllOfChargePoint(transactionRepo.rows, cp);
      var i := 0;
      while i < |list|
        invariant 0 <= i <= |list| && forall j :: 0 <= j < i ==> !Holds(list[j], cp, n)
      {
        if list[i].numericId.Some? && list[i].numericId.value == n {
          FirstHeld(transactionRepo.rows, cp, n, i);
          return Ok(list[i]);
        }
        i := i + 1;
      }
      NoneHeld(transactionRepo.rows, cp, n);
      return Err("not found");
    }

    /** 400 for a body that does not decode, 404 when the list cannot be read or has no such number,
        500 when the update fails, and nothing changes; otherwise exactly that one row is
        stopped, whatever its status was. */
    method HandleStopTransaction(body: Option<StopRequest>, listable: bool, writable: bool) returns (status: int)
      requires Valid() && Unique(transactionRepo.rows)
      modifies transactionRepo
      ensures Unique(transactionRepo.rows)
      ensures status == 400 <==> body.None?
      ensures body.Some? ==>
                var req, rows := body.value, old(transactionRepo.rows);
                && (status == 404 <==> !listable || forall i :: 0 <= i < |rows| ==> !Holds(rows[i], req.chargePointId, req.transactionId))
                && (status == 500 <==> status != 404 && !writable)
                && (status == 200 <==> status != 404 && writable)
      ensures status != 200 ==> transactionRepo.rows == old(transactionRepo.rows)
      ensures status == 200 ==>
                var req, rows := body.value, old(transactionRepo.rows);
                && |transactionRepo.rows| == |rows|
                && forall i :: 0 <= i < |rows| ==>
                     if rows[i].chargePointId == req.chargePointId && rows[i].numericId == Some(req.transactionId)
                     then ClosedWith(rows[i], transactionRepo.rows[i], req.meterStop, req.reason)
                     else transactionRepo.rows[i] == rows[i]
    {
      if body.None? {
        return 400;
      }
      var req := body.value;
      ghost var rows := transactionRepo.rows;
      FindNone(rows, req.chargePointId, req.transactionId);
      var tx := FindTransactionByNumericID(req.chargePointId, req.transactionId, listable);
      if tx.Err? {
        return 404;
      }
      OneRow(rows, req.chargePointId, req.transactionId, tx.value);
      var stopped := transactionSvc.Stop(tx.value.id, req.meterStop, req.reason, writable);
      if stopped.Err? {
        return 500;
      }
      return 200;
    }
  }

  lemma {:induction false} AllOfChargePoint(rows: Table, cp: string)
    ensures forall i :: 0 <= i < |OfChargePoint(rows, cp)| ==> OfChargePoint(rows, cp)[i].chargePointId == cp
  {
    if rows != [] {
      AllOfChargePoint(rows[..|rows| - 1], cp);
    }
  }

  lemma OneRow(rows: Table, cp: string, n: int, t: Transaction)
    requires Unique(rows) && Find(rows, cp, n) == Some(t)
    ensures var at := Position(rows, t.id);
            && at < |rows| && rows[at] == t && Holds(t, cp, n)
            && forall i :: 0 <= i < |rows| && i != at ==> !Holds(rows[i], cp, n)
  {
    FindNone(rows, cp, n);
    var i :| 0 <= i < |rows| && rows[i] == t && Holds(rows[i], cp, n);
    var at := Position(rows, t.id);
    assert at <= i;
    assert at < i ==> !Clash(rows[at], rows[i]);
    forall j | 0 <= j < |rows| && j != at ensures !Holds(rows[j], cp, n) {
      assert j < at ==> !Clash(rows[j], rows[at]);
      assert at < j ==> !Clash(rows[at], rows[j]);
    }
  }
}
