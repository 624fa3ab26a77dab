/** The creation of a connector against the deletion of its charge point.  The cascade lists the
    rows and then deletes record and listed rows in one transaction; the create reads the
    record, lists, adds a row and puts the record back.  Interleaved, they can leave a row
    that outlives its charge point, or bring back a record with a stale count. */
module CascadeInterleaving {
  import opened Wrappers
  import opened LogOrder
  import opened Connectors

  /** The create.  `anew`, whether it listed after the cascade was done, and `late`, whether it put
      after that, are history. */
  datatype Create =
    | Idle
    | NotFound
    | ToList(record: ChargePointRecord)
    | ToAdd(record: ChargePointRecord, number: nat, listed: nat, anew: bool)
    | ToPut(record: ChargePointRecord, listed: nat, anew: bool, key: nat)
    | Done(listed: nat, anew: bool, key: nat, late: bool)

  datatype Cascade =
    | Waiting
    | Listed(keys: set<nat>, logs: set<int>)
    | Swept(keys: set<nat>)

  /** `base` are the tables both found: history. */
  datatype Race = Race(tables: Tables, create: Create, cascade: Cascade, base: Tables)

  datatype Move = Read | List(free: nat) | Add(now: int) | Put(now: int) | Sweep | Commit

  ghost predicate Can(s: Race, cp: string, m: Move) {
    match m
    case Read => s.create.Idle?
    case List(n) => s.create.ToList? && LeastFree(NumbersOf(s.tables.connectors, cp), n)
    case Add(_) => s.create.ToAdd?
    case Put(_) => s.create.ToPut?
    case Sweep => s.cascade.Waiting?
    case Commit => s.cascade.Listed?
  }

  ghost function Next(s: Race, cp: string, m: Move): Race
    requires Can(s, cp, m)
  {
    match m
    case Read =>
      s.(create := if cp in s.tables.chargePoints then ToList(s.tables.chargePoints[cp]) else NotFound)
    case List(n) => s.(create := ToAdd(s.create.record, n, |KeysOf(s.tables.connectors, cp)|, s.cascade.Swept?))
    case Add(now) =>
      var k, n := s.tables.nextKey, s.create.number;
      s.(tables := s.tables.(
           connectors := s.tables.connectors[k := ConnectorRecord(k, cp, n, n, "Available", now, now)], nextKey := k + 1),
         create := ToPut(s.create.record, s.create.listed, s.create.anew, k))
    case Put(now) =>
      s.(tables := s.tables.(chargePoints := s.tables.chargePoints[cp := Recount(s.create.record, s.create.listed + 1, now)]),
         create := Done(s.create.listed, s.create.anew, s.create.key, s.cascade.Swept?))
    case Sweep => s.(cascade := Listed(KeysOf(s.tables.connectors, cp), LogsOf(s.tables.logs, cp)))
    case Commit =>
      s.(tables := Tables(s.tables.chargePoints - {cp}, s.tables.connectors - s.cascade.keys, s.tables.nextKey,
                          s.tables.logs - s.cascade.logs),
         cascade := Swept(s.cascade.keys))
  }

  ghost predicate Initial(s: Race, cp: string) {
    Consistent(s.tables) && cp in s.tables.chargePoints && s.create.Idle? && s.cascade.Waiting? && s.base == s.tables
  }

  ghost predicate IsRun(ss: seq<Race>, cp: string, ms: seq<Move>) {
    && |ss| == |ms| + 1 && Initial(ss[0], cp)
    && forall i :: 0 <= i < |ms| ==> Can(ss[i], cp, ms[i]) && ss[i + 1] == Next(ss[i], cp, ms[i])
  }

  // ----- The invariant -----

  /** The create's row, once it has added it. */
  function Own(c: Create): set<nat> {
    if c.ToPut? || c.Done? then {c.key} else {}
  }

  /** The keys the cascade has deleted so far. */
  function Deleted(c: Cascade): set<nat> {
    if c.Swept? then c.keys else {}
  }

  /** The rows are those found and the create's, less what the cascade deleted; it deletes what it listed. */
  ghost predicate KeysOk(s: Race, cp: string) {
    var found := KeysOf(s.base.connectors, cp);
    (&& (forall k :: k in s.tables.connectors || k in found || k in Own(s.create) ==> k < s.tables.nextKey)
     && found !! Own(s.create)
     && KeysOf(s.tables.connectors, cp) == found + Own(s.create) - Deleted(s.cascade)
     && (!s.cascade.Waiting? ==> found <= s.cascade.keys <= found + Own(s.create)))
  }

  predicate HasListed(c: Create) { c.ToAdd? || c.ToPut? || c.Done? }

  ghost predicate FlagsOk(s: Race, cp: string) {
    && (HasListed(s.create) ==> s.create.listed == if s.create.anew then 0 else |KeysOf(s.base.connectors, cp)|)
    && (!s.cascade.Swept? ==>
          && cp in s.tables.chargePoints && !s.create.NotFound?
          && (HasListed(s.create) ==> !s.create.anew) && (s.create.Done? ==> !s.create.late))
    && (s.cascade.Swept? ==> (cp in s.tables.chargePoints <==> s.create.Done? && s.create.late))
    && (s.create.Done? && s.create.late ==>
          cp in s.tables.chargePoints && s.tables.chargePoints[cp].connectorCount == s.create.listed + 1)
  }

  ghost predicate Inv(s: Race, cp: string) {
    KeysOk(s, cp) && FlagsOk(s, cp)
  }

  lemma AddKeepsKeys(s: Race, cp: string, now: int)
    requires KeysOk(s, cp) && Can(s, cp, Add(now))
    ensures KeysOk(Next(s, cp, Add(now)), cp)
  {
    var k, n := s.tables.nextKey, s.create.number;
    var s' := Next(s, cp, Add(now));
    assert k !in s.tables.connectors && Own(s.create) == {} && Own(s'.create) == {k};
    KeysAfterAdd(s.tables.connectors, k, ConnectorRecord(k, cp, n, n, "Available", now, now), cp);
    assert !s.cascade.Waiting? ==> k !in s.cascade.keys;
  }

  lemma CommitKeepsKeys(s: Race, cp: string)
    requires KeysOk(s, cp) && Can(s, cp, Commit)
    ensures KeysOk(Next(s, cp, Commit), cp)
  {
    KeysAfterDrop(s.tables.connectors, s.cascade.keys, cp);
  }

  lemma SweepKeepsKeys(s: Race, cp: string)
    requires KeysOk(s, cp) && Can(s, cp, Sweep)
    ensures KeysOk(Next(s, cp, Sweep), cp)
  {
    assert Deleted(s.cascade) == {} && Deleted(Next(s, cp, Sweep).cascade) == {};
  }

  lemma OthersKeepKeys(s: Race, s': Race, cp: string)
    requires KeysOk(s, cp) && s'.base == s.base && s'.cascade == s.cascade && Own(s'.create) == Own(s.create)
    requires s'.tables.connectors == s.tables.connectors && s'.tables.nextKey == s.tables.nextKey
    ensures KeysOk(s', cp)
  {
  }

  lemma StepKeepsKeys(s: Race, cp: string, m: Move)
    requires KeysOk(s, cp) && Can(s, cp, m)
    ensures KeysOk(Next(s, cp, m), cp)
  {
    match m {
      case Add(now) => AddKeepsKeys(s, cp, now);
      case Commit => CommitKeepsKeys(s, cp);
      case Read => OthersKeepKeys(s, Next(s, cp, m), cp);
      case List(_) => OthersKeepKeys(s, Next(s, cp, m), cp);
      case Put(_) => OthersKeepKeys(s, Next(s, cp, m), cp);
      case Sweep => SweepKeepsKeys(s, cp);
    }
  }

  /** A listing finds the rows found first, or none once the cascade is done. */
  lemma ListFinds(s: Race, cp: string)
    requires KeysOk(s, cp) && s.create.ToList?
    ensures |KeysOf(s.tables.connectors, cp)| == if s.cascade.Swept? then 0 else |KeysOf(s.base.connectors, cp)|
  {
    assert Own(s.create) == {};
    if s.cascade.Swept? {
      assert KeysOf(s.tables.connectors, cp) == {};
    } else {
      assert KeysOf(s.tables.connectors, cp) == KeysOf(s.base.connectors, cp);
    }
  }

  lemma StepKeepsFlags(s: Race, cp: string, m: Move)
    requires KeysOk(s, cp) && FlagsOk(s, cp) && Can(s, cp, m)
    ensures FlagsOk(Next(s, cp, m), cp)
  {
    if m.List? { ListFinds(s, cp); }
  }

  lemma StepKeeps(s: Race, cp: string, m: Move)
    requires Inv(s, cp) && Can(s, cp, m)
    ensures Inv(Next(s, cp, m), cp)
  {
    StepKeepsKeys(s, cp, m);
    StepKeepsFlags(s, cp, m);
  }

  lemma {:induction false} RunKeeps(ss: seq<Race>, cp: string, ms: seq<Move>, i: nat)
    requires IsRun(ss, cp, ms) && i < |ss|
    ensures Inv(ss[i], cp)
  {
    if i > 0 {
      RunKeeps(ss, cp, ms, i - 1);
      StepKeeps(ss[i - 1], cp, ms[i - 1]);
    }
  }

  // ----- When both are over -----

  ghost predicate Over(s: Race) {
    (s.create.Done? || s.create.NotFound?) && s.cascade.Swept?
  }

  /** A row of `cp` is left though its record is gone. */
  ghost predicate RowOutlives(t: Tables, cp: string) {
    cp !in t.chargePoints && KeysOf(t.connectors, cp) != {}
  }

  /** The record is there and counts its rows wrongly. */
  ghost predicate StaleRecord(t: Tables, cp: string) {
    cp in t.chargePoints && t.chargePoints[cp].connectorCount != |KeysOf(t.connectors, cp)|
  }

  /** In every interleaving, when both are over: a row outlives its charge point exactly when the row was
      added after the cascade listed and the record put before it was deleted; the record is
      back with a wrong count exactly when it was put after it was deleted, unless the row was
      added after the cascade listed and the create had found no rows. */
  lemma RaceEndsExactly(ss: seq<Race>, cp: string, ms: seq<Move>, i: nat)
    requires IsRun(ss, cp, ms) && i < |ss| && Over(ss[i])
    ensures var c, keys := ss[i].create, ss[i].cascade.keys;
            && (RowOutlives(ss[i].tables, cp) <==> c.Done? && c.key !in keys && !c.late)
            && (StaleRecord(ss[i].tables, cp) <==> c.Done? && c.late && !(c.key !in keys && c.listed == 0))
            && (c.Done? ==> c.listed == if c.anew then 0 else |KeysOf(ss[i].base.connectors, cp)|)
  {
    RunKeeps(ss, cp, ms, i);
    var s := ss[i];
    var found := KeysOf(s.base.connectors, cp);
    if s.create.Done? {
      var k := s.create.key;
      assert KeysOf(s.tables.connectors, cp) == if k in s.cascade.keys then {} else {k};
    } else {
      assert KeysOf(s.tables.connectors, cp) == {};
    }
  }

  // ----- Both happen -----

  ghost predicate After(t: Tables, cp: string, ms: seq<Move>, s: Race) {
    exists ss: seq<Race> :: IsRun(ss, cp, ms) && ss[0].tables == t && ss[|ms|] == s
  }

  lemma AfterNext(t: Tables, cp: string, ms: seq<Move>, s: Race, m: Move)
    requires After(t, cp, ms, s) && Can(s, cp, m)
    ensures After(t, cp, ms + [m], Next(s, cp, m))
  {
    var ss: seq<Race> :| IsRun(ss, cp, ms) && ss[0].tables == t && ss[|ms|] == s;
    var ss', ms' := ss + [Next(s, cp, m)], ms + [m];
    forall i | 0 <= i < |ms'| ensures Can(ss'[i], cp, ms'[i]) && ss'[i + 1] == Next(ss'[i], cp, ms'[i]) {
      if i < |ms| { assert ss'[i] == ss[i] && ms'[i] == ms[i] && ss'[i + 1] == ss[i + 1]; }
    }
    assert IsRun(ss', cp, ms') && ss'[|ms'|] == Next(s, cp, m);
  }

  /** Read, list. */
  lemma CreateListed(t: Tables, cp: string) returns (n: nat, s: Race)
    requires Consistent(t) && cp in t.chargePoints
    ensures After(t, cp, [Read, List(n)], s) && s.create.ToAdd? && s.cascade.Waiting?
  {
    var s0 := Race(t, Idle, Waiting, t);
    var ss := [s0];
    assert IsRun(ss, cp, []) && ss[0].tables == t && ss[0] == s0;
    AfterNext(t, cp, [], s0, Read);
    var s1 := Next(s0, cp, Read);
    n := LeastFreeExists(NumbersOf(t.connectors, cp), 1);
    AfterNext(t, cp, [] + [Read], s1, List(n));
    s := Next(s1, cp, List(n));
    assert [] + [Read] + [List(n)] == [Read, List(n)];
  }

  /** Sweep, add: the row escapes the cascade. */
  lemma RowEscapes(t: Tables, cp: string) returns (n: nat, s: Race)
    requires Consistent(t) && cp in t.chargePoints
    ensures After(t, cp, [Read, List(n), Sweep, Add(0)], s) && s.create.ToPut? && s.cascade.Listed?
    ensures s.create.key !in s.cascade.keys
  {
    n, s := CreateListed(t, cp);
    AfterNext(t, cp, [Read, List(n)], s, Sweep);
    var s1 := Next(s, cp, Sweep);
    AfterNext(t, cp, [Read, List(n)] + [Sweep], s1, Add(0));
    s := Next(s1, cp, Add(0));
    assert [Read, List(n)] + [Sweep] + [Add(0)] == [Read, List(n), Sweep, Add(0)];
    var ss: seq<Race> :| IsRun(ss, cp, [Read, List(n)] + [Sweep]) && ss[0].tables == t && ss[3] == s1;
    RunKeeps(ss, cp, [Read, List(n)] + [Sweep], 3);
  }

  /** Whatever the tables, the new row may outlive its charge point. */
  lemma RowMayOutlive(t: Tables, cp: string)
    requires Consistent(t) && cp in t.chargePoints
    ensures exists n, s :: (After(t, cp, [Read, List(n), Sweep, Add(0), Put(0), Commit], s) && RowOutlives(s.tables, cp))
  {
    var n, s := RowEscapes(t, cp);
    var ms := [Read, List(n), Sweep, Add(0)];
    AfterNext(t, cp, ms, s, Put(0));
    var s1 := Next(s, cp, Put(0));
    AfterNext(t, cp, ms + [Put(0)], s1, Commit);
    var s2 := Next(s1, cp, Commit);
    Ends(t, cp, ms + [Put(0)] + [Commit], s2);
    assert ms + [Put(0)] + [Commit] == [Read, List(n), Sweep, Add(0), Put(0), Commit];
  }

  /** And if it has connectors, the record may come back with a count of connectors that are gone. */
  lemma RecordMayReturnStale(t: Tables, cp: string)
    requires Consistent(t) && cp in t.chargePoints && KeysOf(t.connectors, cp) != {}
    ensures exists n, s :: (After(t, cp, [Read, List(n), Sweep, Add(0), Commit, Put(0)], s) && StaleRecord(s.tables, cp))
  {
    var n, s := RowEscapes(t, cp);
    var ms := [Read, List(n), Sweep, Add(0)];
    AfterNext(t, cp, ms, s, Commit);
    var s1 := Next(s, cp, Commit);
    AfterNext(t, cp, ms + [Commit], s1, Put(0));
    var s2 := Next(s1, cp, Put(0));
    NotFresh(t, cp, ms, s);
    Ends(t, cp, ms + [Commit] + [Put(0)], s2);
    assert ms + [Commit] + [Put(0)] == [Read, List(n), Sweep, Add(0), Commit, Put(0)];
  }

  /** `RaceEndsExactly` for the end of such a run. */
  lemma Ends(t: Tables, cp: string, ms: seq<Move>, s: Race)
    requires After(t, cp, ms, s) && s.create.Done? && s.cascade.Swept?
    ensures RowOutlives(s.tables, cp) <==> s.create.key !in s.cascade.keys && !s.create.late
    ensures StaleRecord(s.tables, cp) <==> s.create.late && !(s.create.key !in s.cascade.keys && s.create.listed == 0)
  {
    var ss: seq<Race> :| IsRun(ss, cp, ms) && ss[0].tables == t && ss[|ms|] == s;
    RaceEndsExactly(ss, cp, ms, |ms|);
  }

  lemma NotFresh(t: Tables, cp: string, ms: seq<Move>, s: Race)
    requires After(t, cp, ms, s) && s.create.ToPut? && s.cascade.Listed?
    ensures s.create.listed == |KeysOf(t.connectors, cp)|
  {
    var ss: seq<Race> :| IsRun(ss, cp, ms) && ss[0].tables == t && ss[|ms|] == s;
    RunKeeps(ss, cp, ms, |ms|);
    SameBase(ss, cp, ms, |ms|);
  }

  lemma {:induction false} SameBase(ss: seq<Race>, cp: string, ms: seq<Move>, i: nat)
    requires IsRun(ss, cp, ms) && i < |ss|
    ensures ss[i].base == ss[0].tables
  {
    if i > 0 { SameBase(ss, cp, ms, i - 1); }
  }
}
