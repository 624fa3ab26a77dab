/** Timers.  In every calm run each charging transaction with an id is covered by
    a running sampling timer.  In every run whose stop timeouts fire on time,
    no transaction waits for its StopTransaction reply for more than 15 s, whatever
    replies, errors or replacements occur. */
module StopDeadline {
  import opened Wrappers
  import opened OrderedMaps
  import opened ChargePointTypes
  import opened ChargePointModel
  import opened Moves
  import opened MovesCover
  import SessionHistory

  // ----- The sampling timer -----

  ghost predicate Covered(s: Runtime) {
    forall c :: c in s.transactions.vals && Sampled(s.transactions.vals[c]) ==> s.meterValuesTimer.Some?
  }

  ghost predicate CoverInv(s: Runtime) {
    SessionHistory.Inv(s) && Covered(s)
  }

  lemma CoverMoveKeeps(s: Runtime, m: Move)
    requires CoverInv(s) && Legal(s, m) && Allowed(s, m, CALM)
    ensures CoverInv(Play(s, m))
  {
    SessionHistory.MoveKeeps(s, m);
    MoveCovers(s, m);
  }

  lemma MoveCovers(s: Runtime, m: Move)
    requires SessionHistory.RowsFit(s) && Covered(s) && Legal(s, m) && Allowed(s, m, CALM)
    ensures Covered(Play(s, m))
  {
    var t := Play(s, m);
    forall c | c in t.transactions.vals && Sampled(t.transactions.vals[c]) ensures t.meterValuesTimer.Some? {
      if c in s.transactions.vals {
        assert SessionHistory.RowFits(c, s.transactions.vals[c], s.meterCounter);
        assert Stoppable(s.transactions.vals[c]) ==> Sampled(s.transactions.vals[c]);
      }
    }
  }

  lemma ChargingIsSampled(ss: seq<Runtime>, es: seq<Event>, i: nat)
    requires IsRunWithin(ss, es, CALM) && i < |ss|
    ensures Covered(ss[i])
  {
    forall s: Runtime, m: Move | CoverInv(s) && Legal(s, m) && Allowed(s, m, CALM) ensures CoverInv(Play(s, m)) {
      CoverMoveKeeps(s, m);
    }
    KeptByRun(CoverInv, ss, es, i, CALM);
  }

  // ----- The stop deadline -----

  /** The stop of `tx` on `c` went out in entry `e`, and its own timeout is still to come. */
  predicate Awaits(s: Runtime, c: int, tx: Transaction, e: TraceEntry) {
    SessionHistory.Stops(e, tx) && Task(e.at + STOP_TIMEOUT, StopTimeoutTask(c)) in s.tasks
  }

  ghost predicate Awaited(s: Runtime, c: int, tx: Transaction) {
    exists e :: e in s.link.trace && Awaits(s, c, tx, e)
  }

  ghost predicate DeadlineInv(s: Runtime) {
    && (forall c :: c in s.transactions.vals && s.transactions.vals[c].stopPending ==>
          Awaited(s, c, s.transactions.vals[c]))
    && (forall t :: t in s.tasks && t.kind.StopTimeoutTask? ==> s.link.now <= t.due)
  }

  lemma StillAwaited(s: Runtime, t: Runtime, c: int, tx: Transaction, tx': Transaction)
    requires Awaited(s, c, tx) && tx'.meterStart == tx.meterStart
    requires forall e :: e in s.link.trace ==> e in t.link.trace
    requires forall k :: k in s.tasks && k.kind == StopTimeoutTask(c) ==> k in t.tasks
    ensures Awaited(t, c, tx')
  {
    var e :| e in s.link.trace && Awaits(s, c, tx, e);
    assert e in t.link.trace && Awaits(t, c, tx', e);
  }

  lemma TraceKept(s: Runtime, m: Move)
    requires Legal(s, m)
    ensures forall e :: e in s.link.trace ==> e in Play(s, m).link.trace
  {
    LinkFollows(s, m);
    if OnLink(s, m).Some? {
      SessionHistory.TraceGrowsBy(s.link, OnLink(s, m).value);
    }
  }

  lemma {:induction false} RemovalKeeps(tasks: seq<Task>, i: nat, t: Task)
    requires i < |tasks| && t in tasks && t != tasks[i]
    ensures t in tasks[..i] + tasks[i + 1..]
  {
    var j :| 0 <= j < |tasks| && tasks[j] == t;
    if j < i {
      assert (tasks[..i] + tasks[i + 1..])[j] == t;
    } else {
      assert (tasks[..i] + tasks[i + 1..])[j - 1] == t;
    }
  }

  lemma RowsAwaited(s: Runtime, m: Move)
    requires DeadlineInv(s) && Legal(s, m)
    ensures forall c :: c in Play(s, m).transactions.vals && Play(s, m).transactions.vals[c].stopPending ==>
                          Awaited(Play(s, m), c, Play(s, m).transactions.vals[c])
  {
    var t := Play(s, m);
    TraceKept(s, m);
    forall c | c in t.transactions.vals && t.transactions.vals[c].stopPending
      ensures Awaited(t, c, t.transactions.vals[c])
    {
      if m.Stop? && m.stopped == c {
        var e := Sent(s.link.now, s.link.nextUid, StopFrameOf(t.transactions.vals[c]));
        assert t.link.trace == s.link.trace + [e] && e in t.link.trace;
        assert Task(e.at + STOP_TIMEOUT, StopTimeoutTask(c)) in t.tasks;
        assert Awaits(t, c, t.transactions.vals[c], e);
      } else {
        if m.DropTask? || m.TimeOut? {
          var i := if m.DropTask? then m.index else m.task;
          forall k | k in s.tasks && k.kind == StopTimeoutTask(c) ensures k in t.tasks {
            RemovalKeeps(s.tasks, i, k);
          }
        }
        StillAwaited(s, t, c, s.transactions.vals[c], t.transactions.vals[c]);
      }
    }
  }

  lemma ClockFollows(s: Runtime, m: Move)
    requires Legal(s, m)
    ensures Play(s, m).link.now == if m.Wire? && m.link.LTime? then m.link.to else s.link.now
  {
  }

  lemma DeadlineMoveKeeps(s: Runtime, m: Move)
    requires DeadlineInv(s) && Legal(s, m) && Allowed(s, m, STOPS_ON_TIME)
    ensures DeadlineInv(Play(s, m))
  {
    RowsAwaited(s, m);
    ClockFollows(s, m);
    var t := Play(s, m);
    forall k | k in t.tasks && k.kind.StopTimeoutTask? ensures t.link.now <= k.due {
      assert k in s.tasks || k.due >= s.link.now;
    }
  }

  /** Over every run with the stop timeouts firing on time, whatever else is late. */
  lemma NoStopWaitsLonger(ss: seq<Runtime>, es: seq<Event>, i: nat, c: int)
    requires IsRunWithin(ss, es, STOPS_ON_TIME) && i < |ss|
    requires c in ss[i].transactions.vals && ss[i].transactions.vals[c].stopPending
    ensures exists e :: e in ss[i].link.trace && SessionHistory.Stops(e, ss[i].transactions.vals[c])
                        && ss[i].link.now <= e.at + 15000
  {
    forall s: Runtime, m: Move | DeadlineInv(s) && Legal(s, m) && Allowed(s, m, STOPS_ON_TIME)
      ensures DeadlineInv(Play(s, m))
    {
      DeadlineMoveKeeps(s, m);
    }
    KeptByRun(DeadlineInv, ss, es, i, STOPS_ON_TIME);
    var s := ss[i];
    var e :| e in s.link.trace && Awaits(s, c, s.transactions.vals[c], e);
    assert s.link.now <= e.at + 15000;
  }
}
