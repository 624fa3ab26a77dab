/** What a roll-back of the counter can lead to.  If no later Start has taken an id, no orderly
    continuation ever stores an id twice; if one has, whether its row is stored, its
    insert under way or its insert failed, some orderly continuation stores an id twice. */
module TransactionRollback {
  import opened Wrappers
  import opened TransactionTable
  import opened TransactionIds

  /** No two rows, of whatever charge points, share a number above `b`. */
  ghost predicate DistinctAbove(rows: Table, b: int) {
    forall i, j :: 0 <= i < j < |rows| && rows[i].numericId.Some? && rows[i].numericId == rows[j].numericId ==>
      rows[i].numericId.value <= b
  }

  ghost predicate OrderlyStep(s: Core, step: Step, t: Core) {
    Can(s, step) && Orderly(s, step) && t == Next(s, step)
  }

  ghost predicate IsPath(ss: seq<Core>, steps: seq<Step>) {
    |ss| == |steps| + 1 && forall i :: 0 <= i < |steps| ==> OrderlyStep(ss[i], steps[i], ss[i + 1])
  }

  /** `t` is reached from `s` by orderly steps. */
  ghost predicate Leads(s: Core, t: Core) {
    exists ss, steps :: IsPath(ss, steps) && ss[0] == s && ss[|steps|] == t
  }

  lemma LeadsItself(s: Core)
    ensures Leads(s, s)
  {
    var ss, steps: seq<Step> := [s], [];
    assert IsPath(ss, steps) && ss[0] == s && ss[|steps|] == s;
  }

  lemma LeadsOn(s: Core, t: Core, step: Step)
    requires Leads(s, t) && Can(t, step) && Orderly(t, step)
    ensures Leads(s, Next(t, step))
  {
    var ss, steps :| IsPath(ss, steps) && ss[0] == s && ss[|steps|] == t;
    var ss', steps' := ss + [Next(t, step)], steps + [step];
    forall i | 0 <= i < |steps'| ensures OrderlyStep(ss'[i], steps'[i], ss'[i + 1]) {
      if i < |steps| {
        assert OrderlyStep(ss[i], steps[i], ss[i + 1]);
      }
    }
    assert IsPath(ss', steps') && ss'[0] == s && ss'[|steps'|] == Next(t, step);
  }

  // ----- Safe roll-backs -----

  lemma StepKeepsDistinct(s: Core, step: Step, b: int)
    requires Apart(s) && DistinctAbove(s.rows, b) && Can(s, step) && Orderly(s, step)
    ensures DistinctAbove(Next(s, step).rows, b)
  {
    var rows' := Next(s, step).rows;
    if step.Insert? && rows' != s.rows {
      var n := IdOf(s.calls[step.inserter]);
      forall i | 0 <= i < |s.rows| ensures s.rows[i].numericId != Some(n) {
        assert s.rows[i].numericId == Some(n) ==> Stored(s.rows, n);
      }
    } else if step.AddPending? || step.StopTransaction? {
      QuietRows(s, step);
    }
  }

  lemma {:induction false} PathKeepsDistinct(ss: seq<Core>, steps: seq<Step>, i: nat, b: int)
    requires IsPath(ss, steps) && Apart(ss[0]) && DistinctAbove(ss[0].rows, b) && i < |ss|
    ensures Apart(ss[i]) && DistinctAbove(ss[i].rows, b)
  {
    if i > 0 {
      PathKeepsDistinct(ss, steps, i - 1, b);
      assert OrderlyStep(ss[i - 1], steps[i - 1], ss[i]);
      StepKeepsApart(ss[i - 1], steps[i - 1]);
      StepKeepsDistinct(ss[i - 1], steps[i - 1], b);
    }
  }

  /** In every orderly run: ids apart, and no number above the counter's floor in two rows. */
  lemma {:induction false} OrderlyRunsAreDistinct(ss: seq<Core>, steps: seq<Step>, i: nat)
    requires IsOrderlyRun(ss, steps) && i < |ss|
    ensures Apart(ss[i]) && Unique(ss[i].rows) && DistinctAbove(ss[i].rows, ss[i].floor)
  {
    OrderlyRunIsApart(ss, steps, i);
    RunIsSound(ss, steps, i);
    if i > 0 {
      OrderlyRunsAreDistinct(ss, steps, i - 1);
      if !steps[i - 1].Restart? {
        StepKeepsDistinct(ss[i - 1], steps[i - 1], ss[i - 1].floor);
      }
    }
  }

  // ----- Unsafe roll-backs -----

  /** A name longer than any in the table. */
  lemma {:induction false} NewName(rows: Table) returns (name: string)
    ensures forall i :: 0 <= i < |rows| ==> |rows[i].id| < |name| && |rows[i].chargePointId| < |name|
  {
    if rows == [] {
      name := "x";
    } else {
      var front, last := rows[..|rows| - 1], rows[|rows| - 1];
      var rest := NewName(front);
      name := rest + last.id + last.chargePointId + "x";
      forall i | 0 <= i < |rows| ensures |rows[i].id| < |name| && |rows[i].chargePointId| < |name| {
        assert i < |front| ==> rows[i] == front[i];
      }
    }
  }

  lemma {:induction false} FreeThread(busy: set<nat>) returns (t: nat)
    ensures forall u :: u in busy ==> u < t
    decreases |busy|
  {
    t := 0;
    if u: nat :| u in busy {
      var rest := busy - {u};
      var r := FreeThread(rest);
      t := if r <= u then u + 1 else r;
      forall v | v in busy ensures v < t {
        assert v == u || v in rest;
      }
    }
  }

  /** A Start of a new charge point takes the counter's id and stores it, used or not. */
  lemma NewcomerStarts(o: Core, s: Core) returns (s': Core)
    requires Leads(o, s)
    ensures Leads(o, s') && s'.nextID == s.nextID + 1 && s'.calls == s.calls
    ensures |s'.rows| == |s.rows| + 1 && s'.rows[..|s.rows|] == s.rows && s'.rows[|s.rows|].numericId == Some(s.nextID)
  {
    var t := FreeThread(s.calls.Keys);
    assert t !in s.calls.Keys;
    var name := NewName(s.rows);
    var row := Transaction(name, Some(s.nextID), name, 1, "", "active", 0, None, None);
    LeadsOn(o, s, Take(t, name));
    var s1 := Next(s, Take(t, name));
    assert Admits(s1.rows, row);
    LeadsOn(o, s1, Insert(t, row, true));
    s' := Next(s1, Insert(t, row, true));
    assert s1.calls - {t} == s.calls;
  }

  lemma TwiceRepeats(rows: Table, rows': Table, n: int, b: int)
    requires Stored(rows, n) && n > b && |rows'| == |rows| + 1 && rows'[..|rows|] == rows && rows'[|rows|].numericId == Some(n)
    ensures !DistinctAbove(rows', b)
  {
    var i :| 0 <= i < |rows| && rows[i].numericId == Some(n);
    assert rows'[i] == rows[i];
  }

  /** The counter stands at `n` and `n + 1` is stored: two Starts later it is stored twice. */
  lemma StoredRepeats(o: Core, s: Core, b: int) returns (x: Core)
    requires Leads(o, s) && Stored(s.rows, s.nextID + 1) && s.nextID + 1 > b
    ensures Leads(o, x) && !DistinctAbove(x.rows, b)
  {
    var s1 := NewcomerStarts(o, s);
    var i :| 0 <= i < |s.rows| && s.rows[i].numericId == Some(s.nextID + 1);
    assert s1.rows[i] == s.rows[i];
    assert Stored(s1.rows, s.nextID + 1);
    x := NewcomerStarts(o, s1);
    TwiceRepeats(s1.rows, x.rows, s.nextID + 1, b);
  }

  /** `n + 1` is held by a Start whose insert is still to come: let it come. */
  lemma TakenRepeats(o: Core, s: Core, u: nat, b: int) returns (x: Core)
    requires Leads(o, s) && u in s.calls && s.calls[u].Taken? && s.calls[u].n == s.nextID + 1 && s.nextID + 1 > b
    requires !Stored(s.rows, s.nextID + 1)
    ensures Leads(o, x) && !DistinctAbove(x.rows, b)
  {
    var name := NewName(s.rows);
    var n := s.nextID + 1;
    var row := Transaction(name, Some(n), s.calls[u].chargePointId, 1, "", "active", 0, None, None);
    forall i | 0 <= i < |s.rows| ensures !Clash(s.rows[i], row) {
      assert s.rows[i].numericId == Some(n) ==> Stored(s.rows, n);
    }
    LeadsOn(o, s, Insert(u, row, true));
    var s1 := Next(s, Insert(u, row, true));
    assert s1.rows[|s.rows|] == row;
    x := StoredRepeats(o, s1, b);
  }

  /** `n + 1` is held by a Start that has failed too: two others take `n` and `n + 1`, then it puts
      the counter back to `n + 1`. */
  lemma FailedRepeats(o: Core, s: Core, u: nat, b: int) returns (x: Core)
    requires Leads(o, s) && u in s.calls && s.calls[u].Failed? && s.calls[u].m == s.nextID + 1 && s.nextID + 1 > b
    ensures Leads(o, x) && !DistinctAbove(x.rows, b)
  {
    var n := s.nextID + 1;
    var s1 := NewcomerStarts(o, s);
    var s2 := NewcomerStarts(o, s1);
    LeadsOn(o, s2, Rollback(u));
    var s3 := Next(s2, Rollback(u));
    x := NewcomerStarts(o, s3);
    assert s2.rows[|s1.rows|].numericId == Some(n);
    assert Stored(s3.rows, n);
    TwiceRepeats(s3.rows, x.rows, n, b);
  }

  lemma UnsafeRepeats(s: Core, t: nat) returns (x: Core)
    requires Apart(s) && Can(s, Rollback(t)) && s.nextID != IdOf(s.calls[t]) + 1
    ensures Leads(Next(s, Rollback(t)), x) && !DistinctAbove(x.rows, s.floor)
  {
    var n := IdOf(s.calls[t]);
    var s' := Next(s, Rollback(t));
    LeadsItself(s');
    assert InUse(s, n + 1);
    if Stored(s.rows, n + 1) {
      x := StoredRepeats(s', s', s.floor);
    } else {
      var u :| u in s.calls && IdOf(s.calls[u]) == n + 1;
      assert u in s'.calls && s'.calls[u] == s.calls[u];
      if s.calls[u].Taken? {
        x := TakenRepeats(s', s', u, s.floor);
      } else {
        x := FailedRepeats(s', s', u, s.floor);
      }
    }
  }

  /** A roll-back can lead to an id stored twice exactly when a later Start has taken an id. */
  lemma RollbackIsSafeExactly(s: Core, t: nat)
    requires Apart(s) && DistinctAbove(s.rows, s.floor) && Can(s, Rollback(t))
    ensures (forall x :: Leads(Next(s, Rollback(t)), x) ==> DistinctAbove(x.rows, s.floor))
      <==> s.nextID == IdOf(s.calls[t]) + 1
  {
    var s' := Next(s, Rollback(t));
    if s.nextID == IdOf(s.calls[t]) + 1 {
      RollbackKeepsApartExactly(s, t);
      forall x | Leads(s', x) ensures DistinctAbove(x.rows, s.floor) {
        var ss, steps :| IsPath(ss, steps) && ss[0] == s' && ss[|steps|] == x;
        PathKeepsDistinct(ss, steps, |steps|, s.floor);
      }
    } else {
      var x := UnsafeRepeats(s, t);
    }
  }
}
