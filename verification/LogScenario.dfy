/** Two runs in which the counter beside the log store ends up wrong and stays so: an append
    announced before the load counts but stored after, and one announced between the
    count and the assignment. */
module LogScenario {
  import opened LogOrder
  import opened LogInterleaving

  /** The run with these steps, from an empty store, ends in `s`. */
  ghost predicate After(steps: seq<Step>, s: Log) {
    exists ss :: IsRun(ss, steps) && ss[0] == EMPTY && ss[|steps|] == s
  }

  lemma AfterNext(steps: seq<Step>, s: Log, step: Step)
    requires After(steps, s) && Can(s, step)
    ensures After(steps + [step], Next(s, step))
  {
    var ss :| IsRun(ss, steps) && ss[0] == EMPTY && ss[|steps|] == s;
    var ss', steps' := ss + [Next(s, step)], steps + [step];
    forall i | 0 <= i < |steps'| ensures Can(ss'[i], steps'[i]) && ss'[i + 1] == Next(ss'[i], steps'[i]) {
      if i < |steps| { assert ss'[i] == ss[i] && steps'[i] == steps[i] && ss'[i + 1] == ss[i + 1]; }
    }
    assert IsRun(ss', steps') && ss'[|steps'|] == Next(s, step);
  }

  const EMPTY: Log := Log({}, map[], map[], map[], {}, {})

  lemma EmptyFirst()
    ensures After([], EMPTY)
  {
    var ss := [EMPTY];
    assert IsRun(ss, []) && ss[0] == EMPTY;
  }

  /** The one append of the run goes on to its end; the counter is as the load left it. */
  lemma AppendEnds(steps: seq<Step>, s: Log, e: LogEvent) returns (t: Log)
    requires After(steps, s) && s.appends == map[0 := Announced(e)] && s.rows == {}
    ensures After(steps + [Put(0), Snapshot(0), Finish(0)], t)
    ensures t.rows == {e} && t.appends == map[] && t.counts == s.counts
  {
    var cp := e.chargePointId;
    AfterNext(steps, s, Put(0));
    var s1 := Next(s, Put(0));
    assert s1.rows == {e} && s1.appends == map[0 := Stored(cp)];
    AfterNext(steps + [Put(0)], s1, Snapshot(0));
    var s2 := Next(s1, Snapshot(0));
    assert Victims(For(s1.rows, cp)) == {} by {
      forall r | r in For(s1.rows, cp) ensures !Outranked(For(s1.rows, cp), r, MAX_LOGS) {
        assert NewerThan(For(s1.rows, cp), r) == {};
      }
    }
    AfterNext(steps + [Put(0)] + [Snapshot(0)], s2, Finish(0));
    t := Next(s2, Finish(0));
    assert s2.appends - {0} == map[];
    assert steps + [Put(0)] + [Snapshot(0)] + [Finish(0)] == steps + [Put(0), Snapshot(0), Finish(0)];
  }

  /** Three steps from an empty store. */
  lemma ThreeSteps(a: Step, b: Step, c: Step)
    requires Can(EMPTY, a) && Can(Next(EMPTY, a), b) && Can(Next(Next(EMPTY, a), b), c)
    ensures After([a, b, c], Next(Next(Next(EMPTY, a), b), c))
  {
    EmptyFirst();
    AfterNext([], EMPTY, a);
    AfterNext([] + [a], Next(EMPTY, a), b);
    AfterNext([] + [a] + [b], Next(Next(EMPTY, a), b), c);
    assert [] + [a] + [b] + [c] == [a, b, c];
  }

  /** Everything has settled, one row is stored, and the counter says none. */
  ghost predicate Miscounted(s: Log, e: LogEvent) {
    s.appends == map[] && s.rows == {e} && Count(s, e.chargePointId) == 0 && |For(s.rows, e.chargePointId)| == 1
  }

  lemma NoRows(cp: string)
    ensures |For({}, cp)| == 0
  {
    assert For({}, cp) == {};
  }

  lemma OneRow(e: LogEvent)
    ensures |For({e}, e.chargePointId)| == 1
  {
    assert For({e}, e.chargePointId) == {e};
  }

  /** Announce, count, set; then put, and the append goes on to its end. */
  lemma LoadDuringPut(e: LogEvent)
    ensures exists s :: (Miscounted(s, e) && After(
      [Announce(0, e), CountRows(0, e.chargePointId), SetCount(0)] + [Put(0), Snapshot(0), Finish(0)], s))
  {
    var a, b, c := Announce(0, e), CountRows(0, e.chargePointId), SetCount(0);
    NoRows(e.chargePointId);
    OneRow(e);
    ThreeSteps(a, b, c);
    var s := AppendEnds([a, b, c], Next(Next(Next(EMPTY, a), b), c), e);
    assert Miscounted(s, e);
  }

  /** Count, announce, set; then put, and the append goes on to its end. */
  lemma AnnounceDuringLoad(e: LogEvent)
    ensures exists s :: (Miscounted(s, e) && After(
      [CountRows(0, e.chargePointId), Announce(0, e), SetCount(0)] + [Put(0), Snapshot(0), Finish(0)], s))
  {
    var a, b, c := CountRows(0, e.chargePointId), Announce(0, e), SetCount(0);
    NoRows(e.chargePointId);
    OneRow(e);
    ThreeSteps(a, b, c);
    var s := AppendEnds([a, b, c], Next(Next(Next(EMPTY, a), b), c), e);
    assert Miscounted(s, e);
  }
}
