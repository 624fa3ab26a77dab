/** Overlapping appends to the bounded log.  An append puts its row, takes a snapshot
    of the charge point's rows, and deletes the snapshot's outranked rows one by
    one; between any two of these other appends may run.  In every interleaving no
    row among the newest 1000 ever inserted is deleted, and once the appends of a
    charge point have finished the store holds exactly those. */
module LogInterleaving {
  import opened Wrappers
  import opened LogOrder

  const MAX_LOGS: nat := 1000

  /** Where one call of `appendOcppLog` stands. */
  datatype Append =
    | Announced(event: LogEvent)                       // before `store.put`
    | Stored(chargePointId: string)                    // before the snapshot
    | Pruning(prunedId: string, victims: set<LogEvent>)

  /** A call of `loadEventsForChargePoint` between counting the rows and setting the counter. */
  datatype Loading = Loading(chargePointId: string, found: nat)

  /** `ever` is history: every row imported or announced.  `touched` are the charge
      points appended to.  `counts` is the in-memory counter beside the store. */
  datatype Log = Log(
    rows: set<LogEvent>,
    appends: map<nat, Append>,
    loads: map<nat, Loading>,
    counts: map<string, nat>,
    ever: set<LogEvent>,
    touched: set<string>)

  function For(rows: set<LogEvent>, cp: string): set<LogEvent> {
    set r | r in rows && r.chargePointId == cp
  }

  /** Announced rows whose put has not happened yet. */
  ghost function InTransit(s: Log): set<LogEvent> {
    set t | t in s.appends && s.appends[t].Announced? :: s.appends[t].event
  }

  /** Every row of `cp` that has been in the store. */
  ghost function Inserted(s: Log, cp: string): set<LogEvent> {
    For(s.ever - InTransit(s), cp)
  }

  datatype Step =
    | Announce(thread: nat, event: LogEvent)
    | Put(putting: nat)
    | Snapshot(reading: nat)
    | Delete(deleting: nat, victim: LogEvent)
    | Finish(finished: nat)
    | CountRows(counting: nat, chargePointId: string)
    | SetCount(setting: nat)

  ghost predicate Can(s: Log, step: Step) {
    match step
    case Announce(t, e) => t !in s.appends && forall r :: r in s.ever ==> r.id != e.id
    case Put(t) => t in s.appends && s.appends[t].Announced?
    case Snapshot(t) => t in s.appends && s.appends[t].Stored?
    case Delete(t, v) => t in s.appends && s.appends[t].Pruning? && v in s.appends[t].victims
    case Finish(t) => t in s.appends && s.appends[t].Pruning? && s.appends[t].victims == {}
    case CountRows(t, _) => t !in s.loads
    case SetCount(t) => t in s.loads
  }

  function Count(s: Log, cp: string): nat {
    if cp in s.counts then s.counts[cp] else 0
  }

  /** `current < 1000 ? current + 1 : current`. */
  function Bumped(n: nat): nat {
    if n < MAX_LOGS then n + 1 else n
  }

  ghost function Victims(rows: set<LogEvent>): set<LogEvent> {
    set r | r in rows && Outranked(rows, r, MAX_LOGS)
  }

  ghost function Next(s: Log, step: Step): Log
    requires Can(s, step)
  {
    match step
    case Announce(t, e) =>
      s.(appends := s.appends[t := Announced(e)],
         counts := s.counts[e.chargePointId := Bumped(Count(s, e.chargePointId))],
         ever := s.ever + {e},
         touched := s.touched + {e.chargePointId})
    case Put(t) =>
      var e := s.appends[t].event;
      s.(rows := s.rows + {e}, appends := s.appends[t := Stored(e.chargePointId)])
    case Snapshot(t) =>
      var cp := s.appends[t].chargePointId;
      s.(appends := s.appends[t := Pruning(cp, Victims(For(s.rows, cp)))])
    case Delete(t, v) =>
      s.(rows := s.rows - {v}, appends := s.appends[t := Pruning(s.appends[t].prunedId, s.appends[t].victims - {v})])
    case Finish(t) => s.(appends := s.appends - {t})
    case CountRows(t, cp) => s.(loads := s.loads[t := Loading(cp, |For(s.rows, cp)|)])
    case SetCount(t) =>
      s.(counts := s.counts[s.loads[t].chargePointId := Min(s.loads[t].found, MAX_LOGS)], loads := s.loads - {t})
  }

  /** A store as found when the page opens: any rows, no append under way. */
  ghost predicate Initial(s: Log) {
    && DistinctIds(s.rows) && s.ever == s.rows
    && s.appends == map[] && s.loads == map[] && s.touched == {}
  }

  // ----- The invariant -----

  predicate WorksFor(a: Append, cp: string) {
    match a
    case Announced(e) => e.chargePointId == cp
    case Stored(id) => id == cp
    case Pruning(id, _) => id == cp
  }

  /** An append that is bound to delete `r`. */
  predicate WillDelete(a: Append, r: LogEvent) {
    match a
    case Announced(e) => e.chargePointId == r.chargePointId
    case Stored(cp) => cp == r.chargePointId
    case Pruning(_, victims) => r in victims
  }

  ghost predicate Covered(s: Log, r: LogEvent) {
    exists t :: t in s.appends && WillDelete(s.appends[t], r)
  }

  ghost predicate AppendOk(s: Log, a: Append) {
    match a
    case Announced(e) => e in s.ever && e !in s.rows && e.chargePointId in s.touched
    case Stored(cp) => cp in s.touched
    case Pruning(cp, victims) =>
      && cp in s.touched
      && forall v :: v in victims ==>
           v.chargePointId == cp && v in s.ever && v !in InTransit(s) && Outranked(Inserted(s, cp), v, MAX_LOGS)
  }

  /** No row among the newest of its charge point is missing. */
  ghost predicate NewestKept(s: Log) {
    forall r :: r in s.ever && r !in InTransit(s) && r !in s.rows ==>
      Outranked(Inserted(s, r.chargePointId), r, MAX_LOGS)
  }

  /** Every row beyond the newest is about to be deleted, once anyone appends at all. */
  ghost predicate StaleCovered(s: Log) {
    forall r :: (r in s.rows && r.chargePointId in s.touched
                 && Outranked(Inserted(s, r.chargePointId), r, MAX_LOGS)) ==> Covered(s, r)
  }

  ghost predicate Inv(s: Log) {
    && DistinctIds(s.ever) && s.rows <= s.ever
    && (forall t :: t in s.appends ==> AppendOk(s, s.appends[t]))
    && (forall t, u :: t in s.appends && u in s.appends && t != u && s.appends[t].Announced? && s.appends[u].Announced? ==>
          s.appends[t].event != s.appends[u].event)
    && (forall r :: r in s.ever && r.chargePointId !in s.touched ==> r in s.rows)
    && NewestKept(s) && StaleCovered(s)
  }

  lemma InitialHolds(s: Log)
    requires Initial(s)
    ensures Inv(s)
  {
    assert InTransit(s) == {};
  }

  // ----- Steps -----

  lemma AnnounceTransit(s: Log, t: nat, e: LogEvent)
    requires Inv(s) && Can(s, Announce(t, e))
    ensures var s' := Next(s, Announce(t, e));
            && InTransit(s') == InTransit(s) + {e}
            && forall cp :: Inserted(s', cp) == Inserted(s, cp)
  {
    var s' := Next(s, Announce(t, e));
    forall x | x in InTransit(s) + {e} ensures x in InTransit(s') {
      if x == e {
        assert s'.appends[t].Announced?;
      } else {
        var u :| u in s.appends && s.appends[u].Announced? && s.appends[u].event == x;
        assert s'.appends[u] == s.appends[u];
      }
    }
    assert InTransit(s') == InTransit(s) + {e};
    assert e !in s.ever;
    assert s'.ever - InTransit(s') == s.ever - InTransit(s);
  }

  lemma AnnounceKeeps(s: Log, t: nat, e: LogEvent)
    requires Inv(s) && Can(s, Announce(t, e))
    ensures Inv(Next(s, Announce(t, e)))
  {
    var s' := Next(s, Announce(t, e));
    AnnounceTransit(s, t, e);
    assert e !in s.ever;
    assert DistinctIds(s'.ever);
    forall u | u in s'.appends ensures AppendOk(s', s'.appends[u]) {
      if u != t { assert AppendOk(s, s.appends[u]); }
    }
    forall u | u in s.appends && s.appends[u].Announced? ensures s.appends[u].event != e {
      assert AppendOk(s, s.appends[u]);
    }
    forall r | r in s'.rows && r.chargePointId in s'.touched
               && Outranked(Inserted(s', r.chargePointId), r, MAX_LOGS)
      ensures Covered(s', r)
    {
      if r.chargePointId == e.chargePointId {
        assert WillDelete(s'.appends[t], r);
      } else {
        var u :| u in s.appends && WillDelete(s.appends[u], r);
        assert s'.appends[u] == s.appends[u];
      }
    }
  }

  /** The set of rows once in the store grows by the row put. */
  lemma PutInserts(s: Log, t: nat)
    requires Inv(s) && Can(s, Put(t))
    ensures var e, s' := s.appends[t].event, Next(s, Put(t));
            && InTransit(s') == InTransit(s) - {e}
            && forall cp :: Inserted(s, cp) <= Inserted(s', cp)
                         && (cp != e.chargePointId ==> Inserted(s', cp) == Inserted(s, cp))
  {
    var e, s' := s.appends[t].event, Next(s, Put(t));
    forall x | x in InTransit(s) - {e} ensures x in InTransit(s') {
      var u :| u in s.appends && s.appends[u].Announced? && s.appends[u].event == x;
      assert u != t && s'.appends[u] == s.appends[u];
    }
    forall x | x in InTransit(s') ensures x in InTransit(s) - {e} {
      var u :| u in s'.appends && s'.appends[u].Announced? && s'.appends[u].event == x;
      assert u != t && s.appends[u] == s'.appends[u];
    }
    assert InTransit(s') == InTransit(s) - {e};
  }

  lemma PutKeeps(s: Log, t: nat)
    requires Inv(s) && Can(s, Put(t))
    ensures Inv(Next(s, Put(t)))
  {
    var e, s' := s.appends[t].event, Next(s, Put(t));
    assert AppendOk(s, s.appends[t]);
    PutInserts(s, t);
    forall u | u in s'.appends ensures AppendOk(s', s'.appends[u]) {
      if u != t {
        assert AppendOk(s, s.appends[u]);
        if s.appends[u].Pruning? {
          forall v | v in s.appends[u].victims ensures Outranked(Inserted(s', s.appends[u].prunedId), v, MAX_LOGS) {
            MoreRowsOutrank(Inserted(s, s.appends[u].prunedId), Inserted(s', s.appends[u].prunedId), v, MAX_LOGS);
          }
        }
      }
    }
    forall r | r in s'.ever && r !in InTransit(s') && r !in s'.rows
      ensures Outranked(Inserted(s', r.chargePointId), r, MAX_LOGS)
    {
      MoreRowsOutrank(Inserted(s, r.chargePointId), Inserted(s', r.chargePointId), r, MAX_LOGS);
    }
    forall r | r in s'.rows && r.chargePointId in s'.touched
               && Outranked(Inserted(s', r.chargePointId), r, MAX_LOGS)
      ensures Covered(s', r)
    {
      if r.chargePointId == e.chargePointId {
        assert WillDelete(s'.appends[t], r);
      } else {
        var u :| u in s.appends && WillDelete(s.appends[u], r);
        assert u != t && s'.appends[u] == s.appends[u];
      }
    }
  }

  /** Nothing outside the newest escapes a snapshot: the newest are all there to outrank it. */
  lemma SnapshotSees(s: Log, cp: string, r: LogEvent)
    requires Inv(s) && r in s.rows && r.chargePointId == cp && Outranked(Inserted(s, cp), r, MAX_LOGS)
    requires r !in InTransit(s)
    ensures r in Victims(For(s.rows, cp))
  {
    var all, kept := Inserted(s, cp), For(s.rows, cp);
    assert Newest(all, MAX_LOGS) <= kept;
    NewestOutrank(all, kept, r, MAX_LOGS);
  }

  lemma RowsAreInserted(s: Log)
    requires Inv(s)
    ensures forall r :: r in s.rows ==> r !in InTransit(s)
  {
    forall r | r in s.rows ensures r !in InTransit(s) {
      forall u | u in s.appends && s.appends[u].Announced? ensures s.appends[u].event != r {
        assert AppendOk(s, s.appends[u]);
      }
    }
  }

  /** A step of one append that is not an announcement leaves what is in transit alone. */
  lemma SameTransit(s: Log, s': Log, t: nat)
    requires t in s.appends && !s.appends[t].Announced?
    requires s'.ever == s.ever
    requires s'.appends == s.appends - {t} || (t in s'.appends && s'.appends == s.appends[t := s'.appends[t]] && !s'.appends[t].Announced?)
    ensures InTransit(s') == InTransit(s)
    ensures forall cp :: Inserted(s', cp) == Inserted(s, cp)
  {
    forall x | x in InTransit(s) ensures x in InTransit(s') {
      var u :| u in s.appends && s.appends[u].Announced? && s.appends[u].event == x;
      assert u in s'.appends && s'.appends[u] == s.appends[u];
    }
    forall x | x in InTransit(s') ensures x in InTransit(s) {
      var u :| u in s'.appends && s'.appends[u].Announced? && s'.appends[u].event == x;
      assert u in s.appends && s'.appends[u] == s.appends[u];
    }
    assert InTransit(s') == InTransit(s);
  }

  lemma SnapshotKeeps(s: Log, t: nat)
    requires Inv(s) && Can(s, Snapshot(t))
    ensures Inv(Next(s, Snapshot(t)))
  {
    var s' := Next(s, Snapshot(t));
    var cp := s.appends[t].chargePointId;
    SameTransit(s, s', t);
    RowsAreInserted(s);
    assert AppendOk(s, s.appends[t]);
    forall v | v in Victims(For(s.rows, cp)) ensures Outranked(Inserted(s', cp), v, MAX_LOGS) {
      MoreRowsOutrank(For(s.rows, cp), Inserted(s', cp), v, MAX_LOGS);
    }
    forall u | u in s'.appends ensures AppendOk(s', s'.appends[u]) {
      if u != t { assert AppendOk(s, s.appends[u]); }
    }
    forall r | r in s'.rows && r.chargePointId in s'.touched
               && Outranked(Inserted(s', r.chargePointId), r, MAX_LOGS)
      ensures Covered(s', r)
    {
      if r.chargePointId == cp {
        SnapshotSees(s, cp, r);
        assert WillDelete(s'.appends[t], r);
      } else {
        var u :| u in s.appends && WillDelete(s.appends[u], r);
        assert u != t && s'.appends[u] == s.appends[u];
      }
    }
  }

  lemma DeleteKeeps(s: Log, t: nat, v: LogEvent)
    requires Inv(s) && Can(s, Delete(t, v))
    ensures Inv(Next(s, Delete(t, v)))
  {
    var s' := Next(s, Delete(t, v));
    SameTransit(s, s', t);
    assert AppendOk(s, s.appends[t]);
    forall u | u in s'.appends ensures AppendOk(s', s'.appends[u]) {
      if u != t { assert AppendOk(s, s.appends[u]); }
    }
    forall r | r in s'.rows && r.chargePointId in s'.touched
               && Outranked(Inserted(s', r.chargePointId), r, MAX_LOGS)
      ensures Covered(s', r)
    {
      var u :| u in s.appends && WillDelete(s.appends[u], r);
      assert WillDelete(s'.appends[u], r);
    }
  }

  lemma FinishKeeps(s: Log, t: nat)
    requires Inv(s) && Can(s, Finish(t))
    ensures Inv(Next(s, Finish(t)))
  {
    var s' := Next(s, Finish(t));
    SameTransit(s, s', t);
    forall u | u in s'.appends ensures AppendOk(s', s'.appends[u]) {
      assert AppendOk(s, s.appends[u]);
    }
    forall r | r in s'.rows && r.chargePointId in s'.touched
               && Outranked(Inserted(s', r.chargePointId), r, MAX_LOGS)
      ensures Covered(s', r)
    {
      var u :| u in s.appends && WillDelete(s.appends[u], r);
      assert u != t && s'.appends[u] == s.appends[u];
    }
  }

  /** The counter beside the store has no say in what is stored. */
  lemma CountingKeeps(s: Log, s': Log)
    requires Inv(s)
    requires s'.rows == s.rows && s'.appends == s.appends && s'.ever == s.ever && s'.touched == s.touched
    ensures Inv(s')
  {
    assert InTransit(s') == InTransit(s);
    forall u | u in s'.appends ensures AppendOk(s', s'.appends[u]) {
      assert AppendOk(s, s.appends[u]);
    }
    forall r | r in s'.rows && r.chargePointId in s'.touched
               && Outranked(Inserted(s', r.chargePointId), r, MAX_LOGS)
      ensures Covered(s', r)
    {
      var u :| u in s.appends && WillDelete(s.appends[u], r);
      assert s'.appends[u] == s.appends[u];
    }
  }

  lemma StepKeeps(s: Log, step: Step)
    requires Inv(s) && Can(s, step)
    ensures Inv(Next(s, step))
  {
    match step {
      case Announce(t, e) => AnnounceKeeps(s, t, e);
      case Put(t) => PutKeeps(s, t);
      case Snapshot(t) => SnapshotKeeps(s, t);
      case Delete(t, v) => DeleteKeeps(s, t, v);
      case Finish(t) => FinishKeeps(s, t);
      case CountRows(_, _) => CountingKeeps(s, Next(s, step));
      case SetCount(_) => CountingKeeps(s, Next(s, step));
    }
  }

  ghost predicate IsRun(ss: seq<Log>, steps: seq<Step>) {
    && |ss| == |steps| + 1 && Initial(ss[0])
    && forall i :: 0 <= i < |steps| ==> Can(ss[i], steps[i]) && ss[i + 1] == Next(ss[i], steps[i])
  }

  lemma {:induction false} RunKeeps(ss: seq<Log>, steps: seq<Step>, i: nat)
    requires IsRun(ss, steps) && i < |ss|
    ensures Inv(ss[i])
  {
    if i == 0 {
      InitialHolds(ss[0]);
    } else {
      RunKeeps(ss, steps, i - 1);
      StepKeeps(ss[i - 1], steps[i - 1]);
    }
  }

  // ----- The promise -----

  ghost predicate Settled(s: Log, cp: string) {
    forall t :: t in s.appends ==> !WorksFor(s.appends[t], cp)
  }

  /** In every interleaving: a row among the newest 1000 ever inserted for its charge
      point is in the store. */
  lemma NewestSurvive(ss: seq<Log>, steps: seq<Step>, i: nat, r: LogEvent)
    requires IsRun(ss, steps) && i < |ss|
    requires r in Newest(Inserted(ss[i], r.chargePointId), MAX_LOGS)
    ensures r in ss[i].rows
  {
    RunKeeps(ss, steps, i);
  }

  lemma SettledIsInserted(s: Log, cp: string)
    requires Inv(s) && Settled(s, cp)
    ensures Inserted(s, cp) == For(s.ever, cp)
  {
    forall r | r in InTransit(s) ensures r.chargePointId != cp {
      var u :| u in s.appends && s.appends[u].Announced? && s.appends[u].event == r;
      assert !WorksFor(s.appends[u], cp);
    }
  }

  lemma SettledCoversNothing(s: Log, cp: string, r: LogEvent)
    requires Inv(s) && Settled(s, cp) && r.chargePointId == cp
    ensures !Covered(s, r)
  {
    forall u | u in s.appends ensures !WillDelete(s.appends[u], r) {
      assert AppendOk(s, s.appends[u]) && !WorksFor(s.appends[u], cp);
    }
  }

  lemma SettledHoldsNewest(s: Log, cp: string)
    requires Inv(s) && Settled(s, cp)
    ensures cp in s.touched ==> For(s.rows, cp) == Newest(For(s.ever, cp), MAX_LOGS)
    ensures cp !in s.touched ==> For(s.rows, cp) == For(s.ever, cp)
  {
    SettledIsInserted(s, cp);
    RowsAreInserted(s);
    if cp in s.touched {
      forall r | r in For(s.rows, cp) ensures !Outranked(For(s.ever, cp), r, MAX_LOGS) {
        SettledCoversNothing(s, cp, r);
      }
    }
  }

  /** Once the appends of a charge point have finished, the store holds exactly the newest
      1000 rows ever inserted for it, and so `min(1000, n)` of them. */
  lemma SettledStoreIsNewest(ss: seq<Log>, steps: seq<Step>, i: nat, cp: string)
    requires IsRun(ss, steps) && i < |ss| && Settled(ss[i], cp) && cp in ss[i].touched
    ensures For(ss[i].rows, cp) == Newest(For(ss[i].ever, cp), MAX_LOGS)
    ensures |For(ss[i].rows, cp)| == Min(MAX_LOGS, |For(ss[i].ever, cp)|)
  {
    RunKeeps(ss, steps, i);
    SettledHoldsNewest(ss[i], cp);
    NewestSize(For(ss[i].ever, cp), MAX_LOGS);
  }

  // ----- The counter beside the store -----

  ghost predicate CounterRight(s: Log, cp: string) {
    Count(s, cp) == Min(|For(s.ever, cp)|, MAX_LOGS)
  }

  ghost predicate NonePending(s: Log, cp: string) {
    forall t :: t in s.appends && s.appends[t].Announced? ==> s.appends[t].event.chargePointId != cp
  }

  /** A row count of the store is the eventual one exactly when no append is under way
      that has yet to put its row, or the store is full anyway. */
  lemma FoundIsRightExactly(s: Log, cp: string)
    requires Inv(s)
    ensures |For(s.rows, cp)| <= |For(s.ever, cp)|
    ensures Min(|For(s.rows, cp)|, MAX_LOGS) == Min(|For(s.ever, cp)|, MAX_LOGS)
      <==> NonePending(s, cp) || |For(s.rows, cp)| >= MAX_LOGS
  {
    SubsetIsSmaller(For(s.rows, cp), For(s.ever, cp));
    if NonePending(s, cp) {
      assert Inserted(s, cp) == For(s.ever, cp);
      assert Newest(Inserted(s, cp), MAX_LOGS) <= For(s.rows, cp);
      SubsetIsSmaller(Newest(Inserted(s, cp), MAX_LOGS), For(s.rows, cp));
      NewestSize(Inserted(s, cp), MAX_LOGS);
    } else {
      var t :| t in s.appends && s.appends[t].Announced? && s.appends[t].event.chargePointId == cp;
      assert AppendOk(s, s.appends[t]);
      assert s.appends[t].event in For(s.ever, cp) && s.appends[t].event !in For(s.rows, cp);
    }
  }

  ghost predicate Announces(step: Step, cp: string) {
    step.Announce? && step.event.chargePointId == cp
  }

  ghost predicate Sets(s: Log, step: Step, cp: string) {
    step.SetCount? && step.setting in s.loads && s.loads[step.setting].chargePointId == cp
  }

  lemma EverStep(s: Log, step: Step, cp: string)
    requires Can(s, step)
    ensures |For(Next(s, step).ever, cp)| == |For(s.ever, cp)| + (if Announces(step, cp) then 1 else 0)
  {
    if Announces(step, cp) {
      assert step.event !in s.ever;
      assert For(Next(s, step).ever, cp) == For(s.ever, cp) + {step.event};
    } else {
      assert For(Next(s, step).ever, cp) == For(s.ever, cp);
    }
  }

  /** Only a load can put a right counter wrong. */
  lemma CounterStays(s: Log, step: Step, cp: string)
    requires Can(s, step) && CounterRight(s, cp) && !Sets(s, step, cp)
    ensures CounterRight(Next(s, step), cp)
  {
    EverStep(s, step, cp);
  }

  lemma {:induction false} EverGrows(ss: seq<Log>, steps: seq<Step>, i: nat, j: nat, cp: string)
    requires IsRun(ss, steps) && i <= j < |ss|
    ensures |For(ss[i].ever, cp)| <= |For(ss[j].ever, cp)|
    ensures |For(ss[i].ever, cp)| == |For(ss[j].ever, cp)| <==> forall m :: i <= m < j ==> !Announces(steps[m], cp)
    decreases j
  {
    if i < j {
      EverGrows(ss, steps, i, j - 1, cp);
      EverStep(ss[j - 1], steps[j - 1], cp);
    }
  }

  lemma {:induction false} LoadWaits(ss: seq<Log>, steps: seq<Step>, i: nat, j: nat, t: nat)
    requires IsRun(ss, steps) && i <= j < |ss| && t in ss[i].loads
    requires forall m :: i <= m < j ==> steps[m] != SetCount(t)
    ensures t in ss[j].loads && ss[j].loads[t] == ss[i].loads[t]
    decreases j
  {
    if i < j {
      LoadWaits(ss, steps, i, j - 1, t);
    }
  }

  /** A load that counts the rows at step `i` and sets the counter at step `j` leaves it
      right exactly when no append had its put outstanding at the count and none was
      announced in between, or a full store was counted. */
  lemma LoadIsRightExactly(ss: seq<Log>, steps: seq<Step>, i: nat, j: nat, t: nat, cp: string)
    requires IsRun(ss, steps) && i < j < |steps|
    requires steps[i] == CountRows(t, cp) && steps[j] == SetCount(t)
    requires forall m :: i < m < j ==> steps[m] != SetCount(t)
    ensures CounterRight(ss[j + 1], cp) <==>
              || |For(ss[i].rows, cp)| >= MAX_LOGS
              || (NonePending(ss[i], cp) && forall m :: i <= m < j ==> !Announces(steps[m], cp))
  {
    RunKeeps(ss, steps, i);
    FoundIsRightExactly(ss[i], cp);
    LoadWaits(ss, steps, i + 1, j, t);
    EverGrows(ss, steps, i, j, cp);
    EverStep(ss[j], steps[j], cp);
  }

  lemma {:induction false} CounterStaysAlong(ss: seq<Log>, steps: seq<Step>, j: nat, k: nat, cp: string)
    requires IsRun(ss, steps) && j <= k < |ss| && CounterRight(ss[j], cp)
    requires forall m :: j <= m < k ==> !Sets(ss[m], steps[m], cp)
    ensures CounterRight(ss[k], cp)
    decreases k
  {
    if j < k {
      CounterStaysAlong(ss, steps, j, k - 1, cp);
      CounterStays(ss[k - 1], steps[k - 1], cp);
    }
  }

  /** Once right, and with all appends settled, the counter is the number of rows in the store.
      Only an oversized store that nothing has been appended to is reported as 1000. */
  lemma SettledCounterCountsRows(ss: seq<Log>, steps: seq<Step>, j: nat, k: nat, cp: string)
    requires IsRun(ss, steps) && j <= k < |ss| && CounterRight(ss[j], cp)
    requires forall m :: j <= m < k ==> !Sets(ss[m], steps[m], cp)
    requires Settled(ss[k], cp)
    ensures Count(ss[k], cp) == |For(ss[k].rows, cp)| <==> cp in ss[k].touched || |For(ss[k].rows, cp)| <= MAX_LOGS
  {
    CounterStaysAlong(ss, steps, j, k, cp);
    RunKeeps(ss, steps, k);
    SettledHoldsNewest(ss[k], cp);
    NewestSize(For(ss[k].ever, cp), MAX_LOGS);
  }
}
