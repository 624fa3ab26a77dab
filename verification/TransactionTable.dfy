/** The transactions table with its unique index, and the repository over it. */
module TransactionTable {
  import opened Wrappers

  datatype Transaction = Transaction(
    id: string,
    numericId: Option<int>,
    chargePointId: string,
    connectorNumber: int,
    idTag: string,
    status: string,
    startMeterWh: int,
    stopMeterWh: Option<int>,
    stopReason: Option<string>)

  /** The rows in order of insertion. */
  type Table = seq<Transaction>

  predicate Holds(t: Transaction, cp: string, n: int) {
    t.chargePointId == cp && t.numericId == Some(n)
  }

  /** Two rows that the primary key or the unique index keeps apart. */
  predicate Clash(a: Transaction, b: Transaction) {
    a.id == b.id || (a.chargePointId == b.chargePointId && a.numericId.Some? && a.numericId == b.numericId)
  }

  ghost predicate Unique(rows: Table) {
    forall i, j :: 0 <= i < j < |rows| ==> !Clash(rows[i], rows[j])
  }

  /** Whether the table takes the row. */
  predicate Admits(rows: Table, t: Transaction) {
    forall i :: 0 <= i < |rows| ==> !Clash(rows[i], t)
  }

  ghost predicate Stored(rows: Table, n: int) {
    exists i :: 0 <= i < |rows| && rows[i].numericId == Some(n)
  }

  /** What `COALESCE(MAX(numeric_id), 0)` means. */
  ghost predicate IsMax(rows: Table, m: int) {
    && (forall i :: 0 <= i < |rows| && rows[i].numericId.Some? ==> rows[i].numericId.value <= m)
    && (Stored(rows, m) || (m == 0 && forall i :: 0 <= i < |rows| ==> rows[i].numericId.None?))
  }

  /** `WHERE id = ... AND numeric_id IS NULL` picks at most one row. */
  function Position(rows: Table, id: string): (i: nat)
    ensures i <= |rows|
    ensures i < |rows| ==> rows[i].id == id
    ensures forall j :: 0 <= j < i ==> rows[j].id != id
  {
    if rows == [] then 0 else if rows[0].id == id then 0 else 1 + Position(rows[1..], id)
  }

  function Assigned(t: Transaction, n: int, status: string): Transaction {
    t.(numericId := Some(n), status := status)
  }

  function Stopped(t: Transaction, meterStop: int, reason: string): Transaction {
    t.(status := "stopped", stopMeterWh := Some(meterStop), stopReason := Some(reason))
  }

  function StopRow(rows: Table, id: string, meterStop: int, reason: string): Table {
    var i := Position(rows, id);
    if i < |rows| then rows[i := Stopped(rows[i], meterStop, reason)] else rows
  }

  /** The update is refused when the index would be violated. */
  predicate Assignable(rows: Table, id: string, n: int) {
    var i := Position(rows, id);
    i < |rows| && rows[i].numericId.None? && forall j :: 0 <= j < |rows| ==> !Holds(rows[j], rows[i].chargePointId, n)
  }

  function AssignRow(rows: Table, id: string, n: int, status: string): Table {
    var i := Position(rows, id);
    if Assignable(rows, id, n) then rows[i := Assigned(rows[i], n, status)] else rows
  }

  lemma OnlyThere(rows: Table, id: string)
    requires Unique(rows)
    ensures forall i :: 0 <= i < |rows| && rows[i].id == id ==> i == Position(rows, id)
  {
    forall i | 0 <= i < |rows| && rows[i].id == id ensures i == Position(rows, id) {
      assert Position(rows, id) < i ==> !Clash(rows[Position(rows, id)], rows[i]);
    }
  }

  // ----- What updates keep -----

  /** No row is lost and a row keeps its id, its charge point and any number it has. */
  ghost predicate Extends(rows: Table, rows': Table) {
    && |rows| <= |rows'|
    && forall i :: 0 <= i < |rows| ==>
         && rows'[i].id == rows[i].id && rows'[i].chargePointId == rows[i].chargePointId
         && (rows[i].numericId.Some? ==> rows'[i].numericId == rows[i].numericId)
  }

  lemma StopKeeps(rows: Table, id: string, meterStop: int, reason: string)
    requires Unique(rows)
    ensures Unique(StopRow(rows, id, meterStop, reason)) && Extends(rows, StopRow(rows, id, meterStop, reason))
  {
    var s := StopRow(rows, id, meterStop, reason);
    assert forall i :: 0 <= i < |rows| ==>
      s[i].id == rows[i].id && s[i].chargePointId == rows[i].chargePointId && s[i].numericId == rows[i].numericId;
    forall i, j | 0 <= i < j < |s| ensures !Clash(s[i], s[j]) {
      assert !Clash(rows[i], rows[j]);
    }
  }

  lemma AssignKeeps(rows: Table, id: string, n: int, status: string)
    requires Unique(rows)
    ensures Unique(AssignRow(rows, id, n, status)) && Extends(rows, AssignRow(rows, id, n, status))
  {
    var at := Position(rows, id);
    var a := AssignRow(rows, id, n, status);
    assert forall i :: 0 <= i < |rows| && i != at ==> a[i] == rows[i];
    forall i, j | 0 <= i < j < |a| ensures !Clash(a[i], a[j]) {
      assert !Clash(rows[i], rows[j]);
    }
  }

  lemma InsertKeepsExactly(rows: Table, t: Transaction)
    requires Unique(rows)
    ensures Unique(rows + [t]) <==> Admits(rows, t)
    ensures Extends(rows, rows + [t])
  {
    var e := rows + [t];
    assert e[|rows|] == t && forall i :: 0 <= i < |rows| ==> e[i] == rows[i];
    if Unique(e) {
      forall i | 0 <= i < |rows| ensures !Clash(rows[i], t) {
        assert !Clash(e[i], e[|rows|]);
      }
    }
  }

  // ----- Looking a transaction up -----

  /** The scan of `findTransactionByNumericID` over the rows of `cp`, newest first. */
  function Find(rows: Table, cp: string, n: int): Option<Transaction> {
    if rows == [] then None
    else if Holds(rows[|rows| - 1], cp, n) then Some(rows[|rows| - 1])
    else Find(rows[..|rows| - 1], cp, n)
  }

  /** Thanks to the index the scan order does not matter. */
  lemma {:induction false} FindIsTheRow(rows: Table, cp: string, n: int, i: nat)
    requires Unique(rows) && i < |rows| && Holds(rows[i], cp, n)
    ensures Find(rows, cp, n) == Some(rows[i])
  {
    var last := |rows| - 1;
    if i < last {
      assert !Clash(rows[i], rows[last]);
      FindIsTheRow(rows[..last], cp, n, i);
    }
  }

  lemma {:induction false} FindNone(rows: Table, cp: string, n: int)
    ensures Find(rows, cp, n) == None <==> forall i :: 0 <= i < |rows| ==> !Holds(rows[i], cp, n)
    ensures Find(rows, cp, n).Some? ==> exists i :: 0 <= i < |rows| && rows[i] == Find(rows, cp, n).value && Holds(rows[i], cp, n)
  {
    if rows != [] {
      var front := rows[..|rows| - 1];
      FindNone(front, cp, n);
      assert forall i :: 0 <= i < |front| ==> rows[i] == front[i];
    }
  }

  function OfChargePoint(rows: Table, cp: string): Table {
    if rows == [] then []
    else
      var last := rows[|rows| - 1];
      (if last.chargePointId == cp then [last] else []) + OfChargePoint(rows[..|rows| - 1], cp)
  }

  // ----- What an update leaves of its row -----

  /** Closed with this register and reason, whatever it was; the rest as before. */
  predicate ClosedWith(was: Transaction, now: Transaction, meterStop: int, reason: string) {
    && now.status == "stopped" && now.stopMeterWh == Some(meterStop) && now.stopReason == Some(reason)
    && now.id == was.id && now.numericId == was.numericId && now.chargePointId == was.chargePointId
    && now.connectorNumber == was.connectorNumber && now.idTag == was.idTag && now.startMeterWh == was.startMeterWh
  }

  predicate NumberedAs(was: Transaction, now: Transaction, n: int, status: string) {
    && now.numericId == Some(n) && now.status == status
    && now.id == was.id && now.chargePointId == was.chargePointId && now.connectorNumber == was.connectorNumber
    && now.idTag == was.idTag && now.startMeterWh == was.startMeterWh
    && now.stopMeterWh == was.stopMeterWh && now.stopReason == was.stopReason
  }

  ghost predicate Positions(rows: Table, cp: string, list: Table, at: seq<int>) {
    |at| == |list| && forall i :: 0 <= i < |at| ==> 0 <= at[i] < |rows| && list[i] == rows[at[i]] && rows[at[i]].chargePointId == cp
  }

  ghost predicate Descending(at: seq<int>) {
    forall i, j :: 0 <= i < j < |at| ==> at[j] < at[i]
  }

  ghost predicate Complete(rows: Table, cp: string, at: seq<int>) {
    forall k :: 0 <= k < |rows| && rows[k].chargePointId == cp ==> k in at
  }

  /** The list is of the rows of `cp` at these positions, all of them, last one first. */
  ghost predicate NewestFirst(rows: Table, cp: string, list: Table, at: seq<int>) {
    Positions(rows, cp, list, at) && Descending(at) && Complete(rows, cp, at)
  }

  lemma {:induction false} ListsNewestFirst(rows: Table, cp: string) returns (at: seq<int>)
    ensures NewestFirst(rows, cp, OfChargePoint(rows, cp), at)
  {
    if rows == [] {
      at := [];
    } else {
      var last := |rows| - 1;
      var rest := ListsNewestFirst(rows[..last], cp);
      at := (if rows[last].chargePointId == cp then [last] else []) + rest;
      PositionsStay(rows, cp, OfChargePoint(rows[..last], cp), rest);
      CompleteGrows(rows, cp, rest);
      if rows[last].chargePointId == cp {
        PositionsGrow(rows, cp, OfChargePoint(rows[..last], cp), rest);
      } else {
        assert at == rest;
      }
    }
  }

  lemma PositionsStay(rows: Table, cp: string, list: Table, at: seq<int>)
    requires rows != [] && Positions(rows[..|rows| - 1], cp, list, at)
    ensures Positions(rows, cp, list, at) && forall i :: 0 <= i < |at| ==> at[i] < |rows| - 1
  {
    forall i | 0 <= i < |at| ensures at[i] < |rows| - 1 && list[i] == rows[at[i]] && rows[at[i]].chargePointId == cp {
      assert rows[..|rows| - 1][at[i]] == rows[at[i]];
    }
  }

  lemma PositionsGrow(rows: Table, cp: string, list: Table, at: seq<int>)
    requires rows != [] && Positions(rows, cp, list, at) && Descending(at) && rows[|rows| - 1].chargePointId == cp
    requires forall i :: 0 <= i < |at| ==> at[i] < |rows| - 1
    ensures Positions(rows, cp, [rows[|rows| - 1]] + list, [|rows| - 1] + at) && Descending([|rows| - 1] + at)
  {
    var at' := [|rows| - 1] + at;
    assert at'[0] == |rows| - 1 && forall i :: 1 <= i < |at'| ==> at'[i] == at[i - 1];
  }

  lemma CompleteGrows(rows: Table, cp: string, at: seq<int>)
    requires rows != [] && Complete(rows[..|rows| - 1], cp, at)
    ensures var last := |rows| - 1;
            Complete(rows, cp, (if rows[last].chargePointId == cp then [last] else []) + at)
  {
    forall k | 0 <= k < |rows| && rows[k].chargePointId == cp
      ensures k in (if rows[|rows| - 1].chargePointId == cp then [|rows| - 1] else []) + at
    {
      if k < |rows| - 1 {
        assert rows[..|rows| - 1][k] == rows[k];
      }
    }
  }

  lemma Whole(rows: Table, list: Table)
    ensures rows[..|rows|] == rows && rows[..0] == [] && [] + list == list + [] == list
  {
  }

  lemma Regroup(a: Table, t: Transaction, b: Table)
    ensures a + ([t] + b) == (a + [t]) + b
  {
  }

  lemma LastListed(rows: Table, cp: string, i: nat)
    requires 0 < i <= |rows|
    ensures OfChargePoint(rows[..i], cp) ==
            if rows[i - 1].chargePointId == cp then [rows[i - 1]] + OfChargePoint(rows[..i - 1], cp)
            else OfChargePoint(rows[..i - 1], cp)
  {
    assert rows[..i][..i - 1] == rows[..i - 1];
    assert [] + OfChargePoint(rows[..i - 1], cp) == OfChargePoint(rows[..i - 1], cp);
  }

  ghost predicate ListedNewestFirst(rows: Table, cp: string, list: Table) {
    exists at :: NewestFirst(rows, cp, list, at)
  }

  /** What `ListByChargePoint` lists. */
  lemma OfChargePointNewestFirst(rows: Table, cp: string)
    ensures ListedNewestFirst(rows, cp, OfChargePoint(rows, cp))
  {
    var at := ListsNewestFirst(rows, cp);
  }

  class TransactionRepo {
    var rows: Table

    constructor ()
      ensures rows == []
    {
      rows := [];
    }

    /** `reachable` is whether the statement reaches the database at all. */
    method Create(t: Transaction, reachable: bool) returns (r: Result<string>)
      modifies this
      ensures r.Ok? <==> reachable && Admits(old(rows), t)
      ensures rows == if r.Ok? then old(rows) + [t] else old(rows)
      ensures r.Ok? ==> r.value == t.id
      ensures old(Unique(rows)) ==> Unique(rows)
    {
      if Unique(rows) {
        InsertKeepsExactly(rows, t);
      }
      if !reachable || !Admits(rows, t) {
        return Err("insert transaction");
      }
      rows := rows + [t];
      return Ok(t.id);
    }

    method AssignNumericID(id: string, n: int, status: string) returns (ok: bool)
      requires Unique(rows)
      modifies this
      ensures rows == AssignRow(old(rows), id, n, status) && Unique(rows) && Extends(old(rows), rows)
      ensures ok <==> Assignable(old(rows), id, n)
      ensures ok <==> exists i :: 0 <= i < |old(rows)| && old(rows)[i].id == id && old(rows)[i].numericId.None?
                        && forall j :: 0 <= j < |old(rows)| ==>
                             old(rows)[j].chargePointId != old(rows)[i].chargePointId || old(rows)[j].numericId != Some(n)
      ensures |rows| == |old(rows)|
      ensures forall i :: 0 <= i < |rows| ==>
                if ok && old(rows)[i].id == id then NumberedAs(old(rows)[i], rows[i], n, status) else rows[i] == old(rows)[i]
    {
      AssignKeeps(rows, id, n, status);
      OnlyThere(rows, id);
      var i := Position(rows, id);
      ok := Assignable(rows, id, n);
      if ok {
        rows := rows[i := Assigned(rows[i], n, status)];
      }
    }

    /** A row that is not there is not an error. */
    method Stop(id: string, meterStop: int, reason: string)
      requires Unique(rows)
      modifies this
      ensures rows == StopRow(old(rows), id, meterStop, reason) && Unique(rows) && Extends(old(rows), rows)
      ensures |rows| == |old(rows)|
      ensures forall i :: 0 <= i < |rows| ==>
                if old(rows)[i].id == id then ClosedWith(old(rows)[i], rows[i], meterStop, reason) else rows[i] == old(rows)[i]
    {
      OnlyThere(rows, id);
      StopKeeps(rows, id, meterStop, reason);
      var i := Position(rows, id);
      if i < |rows| {
        rows := rows[i := Stopped(rows[i], meterStop, reason)];
      }
    }

    method ListByChargePoint(cp: string) returns (out: Table)
      ensures out == OfChargePoint(rows, cp)
    {
      out := [];
      var i := |rows|;
      Whole(rows, OfChargePoint(rows, cp));
      while i > 0
        invariant 0 <= i <= |rows|
        invariant out + OfChargePoint(rows[..i], cp) == OfChargePoint(rows, cp)
      {
        LastListed(rows, cp, i);
        if rows[i - 1].chargePointId == cp {
          Regroup(out, rows[i - 1], OfChargePoint(rows[..i - 1], cp));
          out := out + [rows[i - 1]];
        }
        i := i - 1;
      }
      Whole(rows, out);
    }

    method MaxNumericID() returns (m: int)
      ensures IsMax(rows, m)
    {
      var best: Option<int> := None;
      var i := 0;
      while i < |rows|
        invariant 0 <= i <= |rows|
        invariant best.None? ==> forall j :: 0 <= j < i ==> rows[j].numericId.None?
        invariant best.Some? ==> Stored(rows[..i], best.value)
        invariant best.Some? ==> forall j :: 0 <= j < i && rows[j].numericId.Some? ==> rows[j].numericId.value <= best.value
      {
        ghost var was := best;
        if rows[i].numericId.Some? && (best.None? || best.value < rows[i].numericId.value) {
          best := rows[i].numericId;
          assert rows[..i + 1][i].numericId == best;
        } else if best.Some? {
          var k :| 0 <= k < |rows[..i]| && rows[..i][k].numericId == best;
          assert rows[..i + 1][k].numericId == best;
        }
        i := i + 1;
      }
      assert rows[..i] == rows;
      m := best.GetOr(0);
    }
  }
}
