/** Concurrent `Service.Start` calls over the transactions table: a call takes an id
    under the lock, inserts its row, and on failure puts the counter back.  Calls
    interleave between these steps and the process may restart at any time. */
module TransactionIds {
  import opened Wrappers
  import opened TransactionTable

  datatype Call = Taken(chargePointId: string, n: int) | Failed(failedFor: string, m: int)

  function IdOf(c: Call): int {
    match c
    case Taken(_, n) => n
    case Failed(_, m) => m
  }

  /** What a Start returned, and the row it inserted. */
  datatype Grant = Grant(chargePointId: string, n: int, row: string)

  /** `granted` and `floor`, the highest id stored when the counter was last initialised,
      are history. */
  datatype Core = Core(rows: Table, nextID: int, calls: map<nat, Call>, granted: seq<Grant>, floor: int)

  /** `reachable` is whether the insert reaches the database; `row` its fresh UUID. */
  datatype Step =
    | Take(taker: nat, cp: string)
    | Insert(inserter: nat, row: Transaction, reachable: bool)
    | LoseAck(loser: nat, lost: Transaction)      // the insert is carried out, but its answer is an error
    | Rollback(failer: nat)
    | Restart(stored: int)
    | AddPending(pending: Transaction)
    | Assign(assignee: string, number: int, status: string)
    | StopTransaction(stopped: string, meterStop: int, reason: string)

  /** The row a Start inserts, up to its payload. */
  predicate RowFor(c: Call, row: Transaction) {
    c.Taken? && Holds(row, c.chargePointId, c.n) && row.status == "active"
  }

  ghost predicate Can(s: Core, step: Step) {
    match step
    case Take(t, _) => t !in s.calls
    case Insert(t, row, _) => t in s.calls && RowFor(s.calls[t], row)
    case LoseAck(t, row) => t in s.calls && RowFor(s.calls[t], row)
    case Rollback(t) => t in s.calls && s.calls[t].Failed?
    case Restart(m) => IsMax(s.rows, m)
    case AddPending(row) => row.numericId.None? && Admits(s.rows, row)
    case Assign(_, _, _) => true
    case StopTransaction(_, _, _) => true
  }

  ghost function Next(s: Core, step: Step): Core
    requires Can(s, step)
  {
    match step
    case Take(t, cp) => s.(nextID := s.nextID + 1, calls := s.calls[t := Taken(cp, s.nextID)])
    case Insert(t, row, reachable) =>
      if reachable && Admits(s.rows, row)
      then s.(rows := s.rows + [row], calls := s.calls - {t},
              granted := s.granted + [Grant(row.chargePointId, IdOf(s.calls[t]), row.id)])
      else s.(calls := s.calls[t := Failed(s.calls[t].chargePointId, s.calls[t].n)])
    case LoseAck(t, row) =>
      s.(rows := if Admits(s.rows, row) then s.rows + [row] else s.rows,
         calls := s.calls[t := Failed(s.calls[t].chargePointId, s.calls[t].n)])
    case Rollback(t) => s.(nextID := IdOf(s.calls[t]), calls := s.calls - {t})
    case Restart(m) => s.(nextID := m + 1, calls := map[], floor := m)
    case AddPending(row) => s.(rows := s.rows + [row])
    case Assign(id, n, status) => s.(rows := AssignRow(s.rows, id, n, status))
    case StopTransaction(id, meterStop, reason) => s.(rows := StopRow(s.rows, id, meterStop, reason))
  }

  /** A process that has just read the highest stored id. */
  ghost predicate Initial(s: Core) {
    Unique(s.rows) && IsMax(s.rows, s.floor) && s.nextID == s.floor + 1 && s.calls == map[] && s.granted == []
  }

  ghost predicate IsRun(ss: seq<Core>, steps: seq<Step>) {
    && |ss| == |steps| + 1 && Initial(ss[0])
    && forall i :: 0 <= i < |steps| ==> Can(ss[i], steps[i]) && ss[i + 1] == Next(ss[i], steps[i])
  }

  // ----- Every interleaving: ids resolve -----

  ghost predicate Granted(rows: Table, g: Grant) {
    exists i :: 0 <= i < |rows| && Holds(rows[i], g.chargePointId, g.n) && rows[i].id == g.row
  }

  ghost predicate Sound(s: Core) {
    Unique(s.rows) && forall k :: 0 <= k < |s.granted| ==> Granted(s.rows, s.granted[k])
  }

  lemma GrantLasts(rows: Table, rows': Table, g: Grant)
    requires Granted(rows, g) && Extends(rows, rows')
    ensures Granted(rows', g)
  {
    var i :| 0 <= i < |rows| && Holds(rows[i], g.chargePointId, g.n) && rows[i].id == g.row;
    assert Holds(rows'[i], g.chargePointId, g.n) && rows'[i].id == g.row;
  }

  lemma TableStep(s: Core, step: Step)
    requires Unique(s.rows) && Can(s, step)
    ensures Unique(Next(s, step).rows) && Extends(s.rows, Next(s, step).rows)
  {
    match step {
      case Insert(_, row, _) => InsertKeepsExactly(s.rows, row);
      case LoseAck(_, row) => InsertKeepsExactly(s.rows, row);
      case AddPending(row) => InsertKeepsExactly(s.rows, row);
      case Assign(id, n, status) => AssignKeeps(s.rows, id, n, status);
      case StopTransaction(id, m, reason) => StopKeeps(s.rows, id, m, reason);
      case _ =>
    }
  }

  lemma StepKeepsSound(s: Core, step: Step)
    requires Sound(s) && Can(s, step)
    ensures Sound(Next(s, step))
  {
    var s' := Next(s, step);
    TableStep(s, step);
    forall k | 0 <= k < |s'.granted| ensures Granted(s'.rows, s'.granted[k]) {
      if k < |s.granted| {
        assert s'.granted[k] == s.granted[k];
        GrantLasts(s.rows, s'.rows, s.granted[k]);
      } else {
        assert s'.rows[|s.rows|] == step.row;
      }
    }
  }

  lemma {:induction false} RunIsSound(ss: seq<Core>, steps: seq<Step>, i: nat)
    requires IsRun(ss, steps) && i < |ss|
    ensures Sound(ss[i])
  {
    if i > 0 {
      RunIsSound(ss, steps, i - 1);
      StepKeepsSound(ss[i - 1], steps[i - 1]);
    }
  }

  lemma {:induction false} GrantsAccumulate(ss: seq<Core>, steps: seq<Step>, i: nat, j: nat)
    requires IsRun(ss, steps) && i <= j < |ss|
    ensures ss[i].granted <= ss[j].granted
    decreases j
  {
    if i < j {
      GrantsAccumulate(ss, steps, i, j - 1);
    }
  }

  /** However Starts, failed inserts, roll-backs and restarts interleave: two rows of a
      charge point never share a number. */
  lemma NumbersAreUnique(ss: seq<Core>, steps: seq<Step>, i: nat, a: nat, b: nat, cp: string, n: int)
    requires IsRun(ss, steps) && i < |ss| && a < |ss[i].rows| && b < |ss[i].rows|
    requires Holds(ss[i].rows[a], cp, n) && Holds(ss[i].rows[b], cp, n)
    ensures a == b
  {
    RunIsSound(ss, steps, i);
    assert a < b ==> !Clash(ss[i].rows[a], ss[i].rows[b]);
    assert b < a ==> !Clash(ss[i].rows[b], ss[i].rows[a]);
  }

  /** An id once returned by a Start resolves at every later moment to the row that Start
      inserted. */
  lemma IdsResolveForEver(ss: seq<Core>, steps: seq<Step>, i: nat, j: nat, k: nat)
    requires IsRun(ss, steps) && i <= j < |ss| && k < |ss[i].granted|
    ensures var g := ss[i].granted[k];
            var found := Find(ss[j].rows, g.chargePointId, g.n);
            found.Some? && found.value.id == g.row
  {
    GrantsAccumulate(ss, steps, i, j);
    RunIsSound(ss, steps, j);
    var g := ss[i].granted[k];
    assert ss[j].granted[k] == g;
    var at :| 0 <= at < |ss[j].rows| && Holds(ss[j].rows[at], g.chargePointId, g.n) && ss[j].rows[at].id == g.row;
    FindIsTheRow(ss[j].rows, g.chargePointId, g.n, at);
  }

  // ----- When ids never repeat -----

  ghost predicate InUse(s: Core, n: int) {
    Stored(s.rows, n) || exists t :: t in s.calls && IdOf(s.calls[t]) == n
  }

  ghost predicate AllBelow(rows: Table, n: int) {
    forall i :: 0 <= i < |rows| && rows[i].numericId.Some? ==> rows[i].numericId.value < n
  }

  /** Every id handed out since the counter was initialised is held by a row or by exactly
      one call, and the counter is above them all. */
  ghost predicate Apart(s: Core) {
    && s.floor < s.nextID && AllBelow(s.rows, s.nextID)
    && (forall t :: t in s.calls ==> s.floor < IdOf(s.calls[t]) < s.nextID && !Stored(s.rows, IdOf(s.calls[t])))
    && (forall t, u :: t in s.calls && u in s.calls && t != u ==> IdOf(s.calls[t]) != IdOf(s.calls[u]))
    && (forall n :: s.floor < n < s.nextID ==> InUse(s, n))
  }

  /** Putting the counter back keeps this exactly when no later Start has taken an id.
      `TransactionRollback` says what happens otherwise. */
  lemma RollbackKeepsApartExactly(s: Core, t: nat)
    requires Apart(s) && Can(s, Rollback(t))
    ensures Apart(Next(s, Rollback(t))) <==> s.nextID == IdOf(s.calls[t]) + 1
  {
    var s' := Next(s, Rollback(t));
    var n := IdOf(s.calls[t]);
    if s.nextID == n + 1 {
      forall i | 0 <= i < |s.rows| && s.rows[i].numericId.Some? ensures s.rows[i].numericId.value < n {
        assert s.rows[i].numericId.value == n ==> Stored(s.rows, n);
      }
      forall k | s'.floor < k < n ensures InUse(s', k) {
        assert InUse(s, k);
        if !Stored(s.rows, k) {
          var u :| u in s.calls && IdOf(s.calls[u]) == k;
          assert u in s'.calls && s'.calls[u] == s.calls[u];
        }
      }
    } else {
      assert InUse(s, n + 1);
      if Stored(s.rows, n + 1) {
        assert !AllBelow(s'.rows, n);
      } else {
        var u :| u in s.calls && IdOf(s.calls[u]) == n + 1;
        assert u in s'.calls;
      }
    }
  }

  lemma TakeKeepsApart(s: Core, t: nat, cp: string)
    requires Apart(s) && Can(s, Take(t, cp))
    ensures Apart(Next(s, Take(t, cp)))
  {
    var s' := Next(s, Take(t, cp));
    forall n | s'.floor < n < s'.nextID ensures InUse(s', n) {
      if n == s.nextID {
        assert IdOf(s'.calls[t]) == n;
      } else {
        assert InUse(s, n);
        if !Stored(s.rows, n) {
          var u :| u in s.calls && IdOf(s.calls[u]) == n;
          assert s'.calls[u] == s.calls[u];
        }
      }
    }
  }

  lemma StoredAfter(rows: Table, row: Transaction, n: int)
    ensures Stored(rows + [row], n) <==> Stored(rows, n) || row.numericId == Some(n)
  {
    var e := rows + [row];
    assert e[|rows|] == row && forall i :: 0 <= i < |rows| ==> e[i] == rows[i];
  }

  /** Numbers untouched: what is said about numbers alone stays. */
  lemma SameNumbers(rows: Table, rows': Table)
    requires |rows| <= |rows'|
    requires forall i :: 0 <= i < |rows| ==> rows'[i].numericId == rows[i].numericId
    requires forall i :: |rows| <= i < |rows'| ==> rows'[i].numericId.None?
    ensures forall n :: Stored(rows', n) <==> Stored(rows, n)
    ensures forall n :: AllBelow(rows, n) ==> AllBelow(rows', n)
    ensures forall m :: IsMax(rows, m) ==> IsMax(rows', m)
  {
    forall n | Stored(rows, n) ensures Stored(rows', n) {
      var i :| 0 <= i < |rows| && rows[i].numericId == Some(n);
      assert rows'[i].numericId == Some(n);
    }
  }

  lemma InsertKeepsApart(s: Core, t: nat, row: Transaction, reachable: bool)
    requires Apart(s) && Can(s, Insert(t, row, reachable))
    ensures Apart(Next(s, Insert(t, row, reachable)))
    ensures Next(s, Insert(t, row, reachable)).rows != s.rows <==>
              reachable && forall i :: 0 <= i < |s.rows| ==> s.rows[i].id != row.id
  {
    var s' := Next(s, Insert(t, row, reachable));
    var n := IdOf(s.calls[t]);
    assert (forall i :: 0 <= i < |s.rows| ==> s.rows[i].id != row.id) ==> Admits(s.rows, row) by {
      forall i | 0 <= i < |s.rows| ensures s.rows[i].numericId != Some(n) {
        assert s.rows[i].numericId == Some(n) ==> Stored(s.rows, n);
      }
    }
    forall k ensures Stored(s.rows + [row], k) <==> Stored(s.rows, k) || k == n {
      StoredAfter(s.rows, row, k);
    }
    forall k | s'.floor < k < s'.nextID ensures InUse(s', k) {
      assert InUse(s, k);
      if k != n && !Stored(s.rows, k) {
        var u :| u in s.calls && IdOf(s.calls[u]) == k;
        assert u in s'.calls && s'.calls[u] == s.calls[u];
      } else if k == n && t in s'.calls {
        assert IdOf(s'.calls[t]) == n;
      }
    }
  }

  /** An insert whose answer is lost keeps ids apart exactly when it was not carried out: otherwise
      the call goes on to give back an id that is stored. */
  lemma LostAckKeepsApartExactly(s: Core, t: nat, row: Transaction)
    requires Apart(s) && Can(s, LoseAck(t, row))
    ensures Apart(Next(s, LoseAck(t, row))) <==> !Admits(s.rows, row)
  {
    var s' := Next(s, LoseAck(t, row));
    if Admits(s.rows, row) {
      assert s'.rows[|s.rows|] == row;
      assert Stored(s'.rows, IdOf(s'.calls[t]));
    } else {
      InsertKeepsApart(s, t, row, false);
    }
  }

  /** The source never calls `AssignNumericID` while Starts run; no answer of the database is lost;
      a roll-back is safe when the counter still stands one above its id. */
  ghost predicate Orderly(s: Core, step: Step)
    requires Can(s, step)
  {
    !step.Assign? && !step.LoseAck? && (step.Rollback? ==> s.nextID == IdOf(s.calls[step.failer]) + 1)
  }

  lemma QuietRows(s: Core, step: Step)
    requires Can(s, step) && (step.AddPending? || step.StopTransaction?)
    ensures var rows' := Next(s, step).rows;
            && |s.rows| <= |rows'|
            && (forall i :: 0 <= i < |s.rows| ==> rows'[i].numericId == s.rows[i].numericId)
            && (forall i :: |s.rows| <= i < |rows'| ==> rows'[i].numericId.None?)
  {
  }

  lemma QuietKeepsApart(s: Core, step: Step)
    requires Apart(s) && Can(s, step) && (step.AddPending? || step.StopTransaction?)
    ensures Apart(Next(s, step))
  {
    QuietRows(s, step);
    SameNumbers(s.rows, Next(s, step).rows);
    forall n | s.floor < n < s.nextID ensures InUse(Next(s, step), n) {
      assert InUse(s, n);
    }
  }

  lemma StepKeepsApart(s: Core, step: Step)
    requires Apart(s) && Can(s, step) && Orderly(s, step)
    ensures Apart(Next(s, step))
  {
    match step {
      case Take(t, cp) => TakeKeepsApart(s, t, cp);
      case Insert(t, row, reachable) => InsertKeepsApart(s, t, row, reachable);
      case LoseAck(_, _) => assert false;
      case Rollback(t) => RollbackKeepsApartExactly(s, t);
      case Restart(m) => assert AllBelow(s.rows, m + 1);
      case AddPending(_) => QuietKeepsApart(s, step);
      case StopTransaction(_, _, _) => QuietKeepsApart(s, step);
      case Assign(_, _, _) => assert false;
    }
  }

  ghost predicate IsOrderlyRun(ss: seq<Core>, steps: seq<Step>) {
    IsRun(ss, steps) && forall i :: 0 <= i < |steps| ==> Orderly(ss[i], steps[i])
  }

  lemma {:induction false} OrderlyRunIsApart(ss: seq<Core>, steps: seq<Step>, i: nat)
    requires IsOrderlyRun(ss, steps) && i < |ss|
    ensures Apart(ss[i])
  {
    if i > 0 {
      OrderlyRunIsApart(ss, steps, i - 1);
      StepKeepsApart(ss[i - 1], steps[i - 1]);
    } else {
      assert AllBelow(ss[0].rows, ss[0].nextID);
    }
  }

  ghost predicate DistinctGrants(granted: seq<Grant>) {
    forall j, k :: 0 <= j < k < |granted| ==> granted[j].n != granted[k].n
  }

  lemma StepGrantsNew(s: Core, step: Step)
    requires Sound(s) && Apart(s) && Can(s, step) && DistinctGrants(s.granted)
    ensures DistinctGrants(Next(s, step).granted)
  {
    if step.Insert? {
      var n := IdOf(s.calls[step.inserter]);
      forall j | 0 <= j < |s.granted| ensures s.granted[j].n != n {
        assert Granted(s.rows, s.granted[j]);
        assert s.granted[j].n == n ==> Stored(s.rows, n);
      }
    }
  }

  /** The ids returned by Starts are pairwise distinct over all charge points, also
      across restarts and failed inserts. */
  lemma {:induction false} GrantedIdsAreDistinct(ss: seq<Core>, steps: seq<Step>, i: nat)
    requires IsOrderlyRun(ss, steps) && i < |ss|
    ensures DistinctGrants(ss[i].granted)
  {
    if i > 0 {
      GrantedIdsAreDistinct(ss, steps, i - 1);
      RunIsSound(ss, steps, i - 1);
      OrderlyRunIsApart(ss, steps, i - 1);
      StepGrantsNew(ss[i - 1], steps[i - 1]);
    }
  }

  /** An id is returned only above everything stored when the counter was last initialised,
      and an insert fails only if the database is out of reach or the UUID is taken. */
  lemma GrantedIdsAreNew(ss: seq<Core>, steps: seq<Step>, i: nat)
    requires IsOrderlyRun(ss, steps) && i < |steps| && steps[i].Insert?
    ensures var id := IdOf(ss[i].calls[steps[i].inserter]); id > ss[i].floor && !Stored(ss[i].rows, id)
    ensures |ss[i + 1].granted| == |ss[i].granted| + 1 <==>
              steps[i].reachable && forall k :: 0 <= k < |ss[i].rows| ==> ss[i].rows[k].id != steps[i].row.id
  {
    OrderlyRunIsApart(ss, steps, i);
    InsertKeepsApart(ss[i], steps[i].inserter, steps[i].row, steps[i].reachable);
  }

  // ----- One Start at a time -----

  ghost predicate Fresh(rows: Table, id: string) {
    forall i :: 0 <= i < |rows| ==> rows[i].id != id
  }

  /** The whole of `Start` with nothing in between. */
  ghost function SerialStart(s: Core, row: Transaction, reachable: bool): Core
    requires s.calls == map[] && Holds(row, row.chargePointId, s.nextID) && row.status == "active"
  {
    var s1 := Next(s, Take(0, row.chargePointId));
    var s2 := Next(s1, Insert(0, row, reachable));
    if 0 in s2.calls then Next(s2, Rollback(0)) else s2
  }

  ghost predicate Serial(s: Core) {
    Unique(s.rows) && s.calls == map[] && IsMax(s.rows, s.nextID - 1)
  }

  ghost predicate Blocked(s: Core, cp: string) {
    exists i :: 0 <= i < |s.rows| && Holds(s.rows[i], cp, s.nextID)
  }

  /** A Start that fails, for whatever reason, leaves everything as it was; it succeeds
      unless the database is out of reach or the charge point already has a row with
      the counter's id. */
  lemma SerialStartExactly(s: Core, row: Transaction, reachable: bool)
    requires s.calls == map[] && Holds(row, row.chargePointId, s.nextID) && row.status == "active"
    requires Fresh(s.rows, row.id)
    ensures var s' := SerialStart(s, row, reachable);
            if reachable && !Blocked(s, row.chargePointId)
            then s' == s.(rows := s.rows + [row], nextID := s.nextID + 1,
                          granted := s.granted + [Grant(row.chargePointId, s.nextID, row.id)])
            else s' == s
  {
    assert Admits(s.rows, row) <==> !Blocked(s, row.chargePointId);
    var s1 := Next(s, Take(0, row.chargePointId));
    assert s1.calls - {0} == map[];
    assert s1.calls[0 := Failed(row.chargePointId, s.nextID)] - {0} == map[];
  }

  lemma SerialIsNotBlocked(s: Core, cp: string)
    requires Serial(s)
    ensures !Blocked(s, cp)
  {
  }

  lemma MaxIsUnique(rows: Table, m: int, n: int)
    requires IsMax(rows, m) && IsMax(rows, n)
    ensures m == n
  {
  }

  lemma SerialStartKeeps(s: Core, row: Transaction, reachable: bool)
    requires Serial(s) && Holds(row, row.chargePointId, s.nextID) && row.status == "active" && Fresh(s.rows, row.id)
    ensures Serial(SerialStart(s, row, reachable))
    ensures SerialStart(s, row, reachable).granted ==
              s.granted + if reachable then [Grant(row.chargePointId, s.nextID, row.id)] else []
    ensures !reachable ==> SerialStart(s, row, reachable) == s
  {
    SerialIsNotBlocked(s, row.chargePointId);
    SerialStartExactly(s, row, reachable);
    if reachable {
      InsertKeepsExactly(s.rows, row);
      var e := s.rows + [row];
      assert e[|s.rows|] == row;
      assert Admits(s.rows, row);
    }
  }

  // ----- One Start at a time, restarted anywhere -----

  /** No Start begins while another is under way.  A restart may come at any point: between
      Starts, after an id was taken, after a failed insert, after a successful one. */
  ghost predicate Alone(s: Core, step: Step)
    requires Can(s, step)
  {
    !step.Assign? && !step.LoseAck? && (step.Take? ==> s.calls == map[])
  }

  ghost predicate IsSerialRun(ss: seq<Core>, steps: seq<Step>) {
    IsRun(ss, steps) && forall i :: 0 <= i < |steps| ==> Alone(ss[i], steps[i])
  }

  /** The counter is one above the highest stored id, and two while a Start holds the next. */
  ghost predicate InStep(s: Core) {
    && Unique(s.rows)
    && (forall t, u :: t in s.calls && u in s.calls ==> t == u)
    && (forall t :: t in s.calls ==> s.nextID == IdOf(s.calls[t]) + 1)
    && IsMax(s.rows, if s.calls == map[] then s.nextID - 1 else s.nextID - 2)
  }

  /** What `s` would be had the Start under way failed and put the counter back. */
  function Abandoned(s: Core): Core {
    if s.calls == map[] then s else s.(nextID := s.nextID - 1, calls := map[])
  }

  lemma AbandonedIsFailure(s: Core, t: nat, row: Transaction)
    requires InStep(s) && t in s.calls
    ensures s.calls[t].Failed? ==> Next(s, Rollback(t)) == Abandoned(s)
    ensures s.calls[t].Taken? && RowFor(s.calls[t], row) ==>
              Next(Next(s, Insert(t, row, false)), Rollback(t)) == Abandoned(s)
  {
    assert s.calls - {t} == map[];
    if s.calls[t].Taken? && RowFor(s.calls[t], row) {
      assert s.calls[t := Failed(s.calls[t].chargePointId, s.calls[t].n)] - {t} == map[];
    }
  }

  /** A restart, at whatever point of a Start, leaves what a Start that failed leaves. */
  lemma RestartKeepsInStep(s: Core, m: int)
    requires InStep(s) && Can(s, Restart(m))
    ensures Next(s, Restart(m)) == Abandoned(s).(floor := m) && InStep(Next(s, Restart(m)))
  {
    MaxIsUnique(s.rows, m, if s.calls == map[] then s.nextID - 1 else s.nextID - 2);
  }

  lemma InsertKeepsInStep(s: Core, t: nat, row: Transaction, reachable: bool)
    requires InStep(s) && Can(s, Insert(t, row, reachable))
    ensures InStep(Next(s, Insert(t, row, reachable)))
  {
    if reachable && Admits(s.rows, row) {
      InsertKeepsExactly(s.rows, row);
      var e := s.rows + [row];
      assert e[|s.rows|] == row;
      assert s.calls - {t} == map[];
      assert Stored(e, s.nextID - 1);
    }
  }

  lemma StepKeepsInStep(s: Core, step: Step)
    requires InStep(s) && Can(s, step) && Alone(s, step)
    ensures InStep(Next(s, step))
  {
    TableStep(s, step);
    match step {
      case Take(_, _) =>
      case Insert(t, row, reachable) => InsertKeepsInStep(s, t, row, reachable);
      case LoseAck(_, _) => assert false;
      case Rollback(t) => assert s.calls - {t} == map[];
      case Restart(m) => RestartKeepsInStep(s, m);
      case AddPending(_) =>
        QuietRows(s, step);
        SameNumbers(s.rows, Next(s, step).rows);
      case StopTransaction(_, _, _) =>
        QuietRows(s, step);
        SameNumbers(s.rows, Next(s, step).rows);
      case Assign(_, _, _) => assert false;
    }
  }

  lemma {:induction false} SerialRunInStep(ss: seq<Core>, steps: seq<Step>, i: nat)
    requires IsSerialRun(ss, steps) && i < |ss|
    ensures InStep(ss[i])
  {
    if i > 0 {
      SerialRunInStep(ss, steps, i - 1);
      StepKeepsInStep(ss[i - 1], steps[i - 1]);
    }
  }

  /** A restart at any point of a serial run leaves the state of a run in which the Start under
      way, if there is one, failed instead. */
  lemma RestartIsUnobservable(ss: seq<Core>, steps: seq<Step>, i: nat, m: int)
    requires IsSerialRun(ss, steps) && i < |ss| && Can(ss[i], Restart(m))
    ensures Next(ss[i], Restart(m)) == Abandoned(ss[i]).(floor := m)
  {
    SerialRunInStep(ss, steps, i);
    RestartKeepsInStep(ss[i], m);
  }

  /** And nothing ever reads the one field that tells the two apart. */
  lemma FloorIsUnobservable(s: Core, m: int, step: Step)
    requires Can(s, step)
    ensures Can(s.(floor := m), step)
    ensures Next(s.(floor := m), step).(floor := 0) == Next(s, step).(floor := 0)
  {
  }

  /** The numbers in the table, in order of insertion. */
  function Numbers(rows: Table): seq<int> {
    if rows == [] then []
    else
      var last := rows[|rows| - 1];
      Numbers(rows[..|rows| - 1]) + if last.numericId.Some? then [last.numericId.value] else []
  }

  /** `count` numbers from `first` on, without a gap. */
  function Consecutive(first: int, count: nat): seq<int> {
    seq(count, i => first + i)
  }

  lemma NumbersAppend(rows: Table, row: Transaction)
    ensures Numbers(rows + [row]) == Numbers(rows) + if row.numericId.Some? then [row.numericId.value] else []
  {
    assert (rows + [row])[..|rows|] == rows;
  }

  lemma {:induction false} NumbersSame(rows: Table, rows': Table)
    requires |rows| == |rows'| && forall i :: 0 <= i < |rows| ==> rows'[i].numericId == rows[i].numericId
    ensures Numbers(rows') == Numbers(rows)
    decreases |rows|
  {
    if rows != [] {
      NumbersSame(rows[..|rows| - 1], rows'[..|rows| - 1]);
    }
  }

  /** Whether a Start holds an id. */
  function Held(s: Core): nat { if s.calls == map[] then 0 else 1 }

  /** Since `o` the numbers stored are consecutive without a gap, each Start was granted the
      next one, and the counter stands where they end. */
  ghost predicate Progress(o: Core, s: Core) {
    && s.nextID == o.nextID + |s.granted| + Held(s)
    && Numbers(s.rows) == Numbers(o.rows) + Consecutive(o.nextID, |s.granted|)
    && forall k :: 0 <= k < |s.granted| ==> s.granted[k].n == o.nextID + k
  }

  lemma ConsecutiveJoin(first: int, count: nat)
    ensures Consecutive(first, count + 1) == Consecutive(first, count) + [first + count]
  {
  }

  lemma InsertProgress(o: Core, s: Core, t: nat, row: Transaction, reachable: bool)
    requires InStep(s) && Progress(o, s) && Can(s, Insert(t, row, reachable))
    ensures Progress(o, Next(s, Insert(t, row, reachable)))
  {
    var s' := Next(s, Insert(t, row, reachable));
    if s'.rows != s.rows {
      NumbersAppend(s.rows, row);
      assert s.calls - {t} == map[];
      ConsecutiveJoin(o.nextID, |s.granted|);
      assert Numbers(o.rows) + Consecutive(o.nextID, |s.granted|) + [s.nextID - 1]
          == Numbers(o.rows) + (Consecutive(o.nextID, |s.granted|) + [s.nextID - 1]);
    } else {
      assert t in s'.calls;
    }
  }

  /** Every step but an insert moves the counter with the Start it belongs to. */
  lemma OtherProgress(s: Core, step: Step)
    requires InStep(s) && Can(s, step) && Alone(s, step) && !step.Insert?
    ensures var s' := Next(s, step);
            s'.granted == s.granted && s'.nextID - Held(s') == s.nextID - Held(s) && Numbers(s'.rows) == Numbers(s.rows)
  {
    var s' := Next(s, step);
    match step {
      case Take(t, _) => assert t in s'.calls;
      case LoseAck(_, _) => assert false;
      case Rollback(t) => assert s.calls - {t} == map[];
      case Restart(m) => RestartKeepsInStep(s, m);
      case AddPending(row) => NumbersAppend(s.rows, row);
      case StopTransaction(_, _, _) =>
        QuietRows(s, step);
        NumbersSame(s.rows, s'.rows);
      case Assign(_, _, _) => assert false;
    }
  }

  lemma {:induction false} SerialRunProgress(ss: seq<Core>, steps: seq<Step>, i: nat)
    requires IsSerialRun(ss, steps) && i < |ss|
    ensures InStep(ss[i]) && Progress(ss[0], ss[i])
  {
    SerialRunInStep(ss, steps, i);
    if i > 0 {
      SerialRunProgress(ss, steps, i - 1);
      var step := steps[i - 1];
      if step.Insert? {
        InsertProgress(ss[0], ss[i - 1], step.inserter, step.row, step.reachable);
      } else {
        OtherProgress(ss[i - 1], step);
      }
    } else {
      assert Numbers(ss[0].rows) + Consecutive(ss[0].nextID, 0) == Numbers(ss[0].rows);
    }
  }

  /** With Starts one at a time, restarts anywhere: the numbers stored are the old ones and then
      consecutive ones without a gap, and between Starts the counter is one above the
      highest stored. */
  lemma SerialIdsAreConsecutive(ss: seq<Core>, steps: seq<Step>, i: nat)
    requires IsSerialRun(ss, steps) && i < |ss|
    ensures Numbers(ss[i].rows) == Numbers(ss[0].rows) + Consecutive(ss[0].nextID, |ss[i].granted|)
    ensures forall k :: 0 <= k < |ss[i].granted| ==> ss[i].granted[k].n == ss[0].nextID + k
    ensures ss[i].nextID == ss[0].nextID + |ss[i].granted| + Held(ss[i])
    ensures ss[i].calls == map[] ==> IsMax(ss[i].rows, ss[i].nextID - 1)
  {
    SerialRunProgress(ss, steps, i);
  }

  // ----- Two Starts at once: a charge point that can never start again -----

  /** Two calls take ids, the second inserts its row and the first fails and puts the counter
      back below it.  The next Start reuses the first id; every later one of this charge
      point fails and changes nothing, until a restart or another charge point's
      Start moves the counter. */
  lemma OverlappingFailureBlocks(s: Core, cp: string, lost: Transaction, kept: Transaction, reused: Transaction)
    requires Serial(s)
    requires Holds(lost, cp, s.nextID) && Holds(kept, cp, s.nextID + 1) && Holds(reused, cp, s.nextID)
    requires lost.status == kept.status == reused.status == "active"
    requires Fresh(s.rows, kept.id) && Fresh(s.rows + [kept], reused.id)
    ensures var s1 := Next(s, Take(0, cp));
            var s2 := Next(s1, Take(1, cp));
            var s3 := Next(s2, Insert(1, kept, true));
            var s4 := Next(s3, Insert(0, lost, false));
            var s5 := Next(s4, Rollback(0));
            && s5.calls == map[] && s5.nextID == s.nextID && s5.rows == s.rows + [kept]
            && var s6 := SerialStart(s5, reused, true);
               && s6.rows == s.rows + [kept] + [reused] && s6.nextID == s.nextID + 1
               && Blocked(s6, cp)
               && forall row, reachable :: Holds(row, cp, s6.nextID) && row.status == "active" && Fresh(s6.rows, row.id) ==>
                    SerialStart(s6, row, reachable) == s6
  {
    var s1 := Next(s, Take(0, cp));
    var s2 := Next(s1, Take(1, cp));
    assert Admits(s2.rows, kept);
    var s3 := Next(s2, Insert(1, kept, true));
    var s4 := Next(s3, Insert(0, lost, false));
    var s5 := Next(s4, Rollback(0));
    assert s5.calls == map[];
    assert s5.rows == s.rows + [kept];
    SerialIsNotBlocked(s, cp);
    assert !Blocked(s5, cp);
    SerialStartExactly(s5, reused, true);
    var s6 := SerialStart(s5, reused, true);
    assert s6.rows[|s.rows|] == kept;
    assert Blocked(s6, cp);
    forall row, reachable | Holds(row, cp, s6.nextID) && row.status == "active" && Fresh(s6.rows, row.id)
      ensures SerialStart(s6, row, reachable) == s6
    {
      SerialStartExactly(s6, row, reachable);
    }
  }

  // ----- A lost answer: the same with Starts one at a time -----

  /** A Start alone whose insert gets a lost answer, up to its roll-back. */
  ghost function LostStart(s: Core, row: Transaction): Core
    requires s.calls == map[] && Holds(row, row.chargePointId, s.nextID) && row.status == "active"
  {
    var s1 := Next(s, Take(0, row.chargePointId));
    Next(Next(s1, LoseAck(0, row)), Rollback(0))
  }

  /** It returns an error and the counter is back; its charge point is blocked exactly when the insert
      was carried out.  Blocked, every further Start of it fails and changes nothing, a Start of
      another charge point stores the same id a second time, and a restart mends it. */
  lemma LostAckBlocksExactly(s: Core, row: Transaction, next: Transaction, reachable: bool, m: int)
    requires Serial(s) && Holds(row, row.chargePointId, s.nextID) && row.status == "active"
    requires Holds(next, next.chargePointId, s.nextID) && next.status == "active" && Fresh(s.rows + [row], next.id)
    ensures var s' := LostStart(s, row);
            && s'.calls == map[] && s'.nextID == s.nextID && s'.granted == s.granted
            && s'.rows == (if Fresh(s.rows, row.id) then s.rows + [row] else s.rows)
            && (Blocked(s', row.chargePointId) <==> Fresh(s.rows, row.id))
            && (Fresh(s.rows, row.id) && next.chargePointId == row.chargePointId ==> SerialStart(s', next, reachable) == s')
            && (Fresh(s.rows, row.id) && next.chargePointId != row.chargePointId && reachable ==>
                  SerialStart(s', next, reachable).rows == s.rows + [row, next])
            && (Can(s', Restart(m)) ==> Serial(Next(s', Restart(m))))
  {
    SerialIsNotBlocked(s, row.chargePointId);
    assert Admits(s.rows, row) <==> Fresh(s.rows, row.id) by {
      forall i | 0 <= i < |s.rows| ensures !Holds(s.rows[i], row.chargePointId, s.nextID) {
        assert Holds(s.rows[i], row.chargePointId, s.nextID) ==> Blocked(s, row.chargePointId);
      }
    }
    var s1 := Next(s, Take(0, row.chargePointId));
    assert s1.calls[0 := Failed(row.chargePointId, s.nextID)] - {0} == map[];
    var s' := LostStart(s, row);
    InsertKeepsExactly(s.rows, row);
    if Fresh(s.rows, row.id) {
      assert s'.rows[|s.rows|] == row;
      SerialStartExactly(s', next, reachable);
      if next.chargePointId != row.chargePointId { OtherIsFree(s, row, next.chargePointId); }
      assert s.rows + [row] + [next] == s.rows + [row, next];
    }
  }

  lemma OtherIsFree(s: Core, row: Transaction, cp: string)
    requires Serial(s) && cp != row.chargePointId
    ensures !Blocked(s.(rows := s.rows + [row]), cp)
  {
    SerialIsNotBlocked(s, cp);
    var e := s.rows + [row];
    forall i | 0 <= i < |e| ensures !Holds(e[i], cp, s.nextID) {
      assert i < |s.rows| ==> e[i] == s.rows[i];
    }
  }
}
