/** Creates of connectors that overlap.  `createConnector` reads the charge point's record,
    lists its connectors, adds a row and puts the record back, and waits between
    these; any number of creates may interleave.  Which rows a create saw when it
    listed decides whether numbers collide and whether the stored count is right. */
module ConnectorInterleaving {
  import opened Wrappers
  import opened LogOrder
  import opened Connectors

  /** Where a create stands.  `saw`, the creates whose rows it listed, is history. */
  datatype Create =
    | ToList(chargePointId: string, record: ChargePointRecord)
    | ToAdd(chargePointId: string, record: ChargePointRecord, number: nat, listed: nat, saw: set<nat>)
    | ToPut(chargePointId: string, record: ChargePointRecord, number: nat, listed: nat, saw: set<nat>, key: nat)
    | Done(chargePointId: string, record: ChargePointRecord, number: nat, listed: nat, saw: set<nat>, key: nat)

  /** `base` are the tables the creates found, `lastPut` who stored each record last: history. */
  datatype Machine = Machine(tables: Tables, creates: map<nat, Create>, base: Tables, lastPut: map<string, nat>)

  datatype Move =
    | Read(t: nat, cp: string)
    | List(t: nat, free: nat)
    | Add(t: nat, now: int)
    | Put(t: nat, now: int)

  predicate HasAdded(c: Create) { c.ToPut? || c.Done? }

  predicate HasListed(c: Create) { !c.ToList? }

  /** The creates of `cp` that have added their row. */
  ghost function AddedBy(s: Machine, cp: string): set<nat> {
    set t | t in s.creates && HasAdded(s.creates[t]) && s.creates[t].chargePointId == cp
  }

  ghost predicate Can(s: Machine, m: Move) {
    match m
    case Read(t, cp) => t !in s.creates && cp in s.tables.chargePoints
    case List(t, n) =>
      && t in s.creates && s.creates[t].ToList?
      && LeastFree(NumbersOf(s.tables.connectors, s.creates[t].chargePointId), n)
    case Add(t, _) => t in s.creates && s.creates[t].ToAdd?
    case Put(t, _) => t in s.creates && s.creates[t].ToPut?
  }

  ghost function Next(s: Machine, m: Move): Machine
    requires Can(s, m)
  {
    match m
    case Read(t, cp) => s.(creates := s.creates[t := ToList(cp, s.tables.chargePoints[cp])])
    case List(t, n) =>
      var c := s.creates[t];
      s.(creates := s.creates[t := ToAdd(c.chargePointId, c.record, n, |KeysOf(s.tables.connectors, c.chargePointId)|,
                                         AddedBy(s, c.chargePointId))])
    case Add(t, now) =>
      var c := s.creates[t];
      var k := s.tables.nextKey;
      s.(tables := s.tables.(
           connectors := s.tables.connectors[k := ConnectorRecord(k, c.chargePointId, c.number, c.number, "Available", now, now)],
           nextKey := k + 1),
         creates := s.creates[t := ToPut(c.chargePointId, c.record, c.number, c.listed, c.saw, k)])
    case Put(t, now) =>
      var c := s.creates[t];
      s.(tables := s.tables.(chargePoints := s.tables.chargePoints[c.chargePointId := Recount(c.record, c.listed + 1, now)]),
         creates := s.creates[t := Done(c.chargePointId, c.record, c.number, c.listed, c.saw, c.key)],
         lastPut := s.lastPut[c.chargePointId := t])
  }

  ghost predicate Initial(s: Machine) {
    Consistent(s.tables) && s.creates == map[] && s.base == s.tables && s.lastPut == map[]
  }

  ghost predicate IsRun(ss: seq<Machine>, ms: seq<Move>) {
    && |ss| == |ms| + 1 && Initial(ss[0])
    && forall i :: 0 <= i < |ms| ==> Can(ss[i], ms[i]) && ss[i + 1] == Next(ss[i], ms[i])
  }

  // ----- The invariant -----

  ghost function Taken(creates: map<nat, Create>, ts: set<nat>): set<nat> {
    set t | t in ts && t in creates && !creates[t].ToList? :: creates[t].number
  }

  /** A create listed the base rows and those of the creates it saw. */
  ghost predicate CreateOk(s: Machine, t: nat)
    requires t in s.creates
  {
    var c := s.creates[t];
    HasListed(c) ==>
      && c.saw <= AddedBy(s, c.chargePointId) && t !in c.saw
      && c.listed == |KeysOf(s.base.connectors, c.chargePointId)| + |c.saw|
      && LeastFree(NumbersOf(s.base.connectors, c.chargePointId) + Taken(s.creates, c.saw), c.number)
  }

  /** The rows are the base rows and those of the creates that have added. */
  ghost predicate RowsOk(s: Machine, cp: string) {
    && |KeysOf(s.tables.connectors, cp)| == |KeysOf(s.base.connectors, cp)| + |AddedBy(s, cp)|
    && NumbersOf(s.tables.connectors, cp) == NumbersOf(s.base.connectors, cp) + Taken(s.creates, AddedBy(s, cp))
  }

  ghost predicate PutOk(s: Machine, cp: string) {
    && (cp in s.lastPut ==>
          && s.lastPut[cp] in s.creates && s.creates[s.lastPut[cp]].Done? && s.creates[s.lastPut[cp]].chargePointId == cp
          && cp in s.tables.chargePoints
          && s.tables.chargePoints[cp].connectorCount == s.creates[s.lastPut[cp]].listed + 1)
    && ((exists t :: t in s.creates && s.creates[t].Done? && s.creates[t].chargePointId == cp) ==> cp in s.lastPut)
  }

  ghost predicate Inv(s: Machine) {
    && (forall k :: k in s.tables.connectors ==> k < s.tables.nextKey)
    && (forall t {:trigger CreateOk(s, t)} :: t in s.creates ==> CreateOk(s, t))
    && (forall cp {:trigger RowsOk(s, cp)} :: RowsOk(s, cp))
    && (forall cp {:trigger PutOk(s, cp)} :: PutOk(s, cp))
  }

  lemma InitialHolds(s: Machine)
    requires Initial(s)
    ensures Inv(s)
  {
    forall cp ensures RowsOk(s, cp) {
      assert AddedBy(s, cp) == {};
    }
  }

  /** Everything about a create that has listed is kept when its state moves on. */
  lemma OthersKeep(s: Machine, s': Machine, u: nat)
    requires u in s.creates && u in s'.creates && CreateOk(s, u) && s'.base == s.base
    requires HasListed(s.creates[u]) && HasListed(s'.creates[u])
    requires s'.creates[u].chargePointId == s.creates[u].chargePointId && s'.creates[u].number == s.creates[u].number
    requires s'.creates[u].listed == s.creates[u].listed && s'.creates[u].saw == s.creates[u].saw
    requires forall v :: v in s.creates && HasAdded(s.creates[v]) ==>
               && v in s'.creates && HasAdded(s'.creates[v])
               && s'.creates[v].number == s.creates[v].number && s'.creates[v].chargePointId == s.creates[v].chargePointId
    ensures CreateOk(s', u)
  {
    var c := s.creates[u];
    assert AddedBy(s, c.chargePointId) <= AddedBy(s', c.chargePointId);
    forall v | v in c.saw ensures v in s.creates && HasAdded(s.creates[v]) {
      assert v in AddedBy(s, c.chargePointId);
    }
    assert Taken(s'.creates, c.saw) == Taken(s.creates, c.saw);
  }

  lemma ReadKeeps(s: Machine, t: nat, cp: string)
    requires Inv(s) && Can(s, Read(t, cp))
    ensures Inv(Next(s, Read(t, cp)))
  {
    var s' := Next(s, Read(t, cp));
    forall u | u in s'.creates ensures CreateOk(s', u) {
      if u != t {
        assert CreateOk(s, u);
        if HasListed(s.creates[u]) { OthersKeep(s, s', u); }
      }
    }
    forall x ensures RowsOk(s', x) {
      assert RowsOk(s, x);
      assert AddedBy(s', x) == AddedBy(s, x);
      assert Taken(s'.creates, AddedBy(s', x)) == Taken(s.creates, AddedBy(s, x));
    }
    forall x ensures PutOk(s', x) {
      assert PutOk(s, x);
    }
  }

  lemma ListKeeps(s: Machine, t: nat, n: nat)
    requires Inv(s) && Can(s, List(t, n))
    ensures Inv(Next(s, List(t, n)))
  {
    var s' := Next(s, List(t, n));
    forall x ensures AddedBy(s', x) == AddedBy(s, x) && Taken(s'.creates, AddedBy(s', x)) == Taken(s.creates, AddedBy(s, x)) {
    }
    var cp := s.creates[t].chargePointId;
    assert RowsOk(s, cp);
    forall u | u in s'.creates ensures CreateOk(s', u) {
      if u != t {
        assert CreateOk(s, u);
        if HasListed(s.creates[u]) { OthersKeep(s, s', u); }
      }
    }
    forall x ensures RowsOk(s', x) {
      assert RowsOk(s, x);
    }
    forall x ensures PutOk(s', x) {
      assert PutOk(s, x);
    }
  }

  lemma AddedJoins(s: Machine, t: nat, now: int)
    requires Can(s, Add(t, now))
    ensures var s', cp := Next(s, Add(t, now)), s.creates[t].chargePointId;
            && t !in AddedBy(s, cp) && AddedBy(s', cp) == AddedBy(s, cp) + {t}
            && Taken(s'.creates, AddedBy(s', cp)) == Taken(s.creates, AddedBy(s, cp)) + {s.creates[t].number}
  {
    var s', cp, n := Next(s, Add(t, now)), s.creates[t].chargePointId, s.creates[t].number;
    assert AddedBy(s', cp) == AddedBy(s, cp) + {t};
    assert s'.creates[t].number == n;
    forall x | x in Taken(s'.creates, AddedBy(s', cp)) ensures x in Taken(s.creates, AddedBy(s, cp)) + {n} {
      var u :| u in AddedBy(s', cp) && s'.creates[u].number == x;
      assert u != t ==> s.creates[u].number == x;
    }
    forall x | x in Taken(s.creates, AddedBy(s, cp)) ensures x in Taken(s'.creates, AddedBy(s', cp)) {
      var u :| u in AddedBy(s, cp) && s.creates[u].number == x;
      assert s'.creates[u].number == x;
    }
    assert n in Taken(s'.creates, AddedBy(s', cp));
  }

  lemma AddedOwnRow(s: Machine, t: nat, now: int)
    requires Inv(s) && Can(s, Add(t, now))
    ensures RowsOk(Next(s, Add(t, now)), s.creates[t].chargePointId)
  {
    var s' := Next(s, Add(t, now));
    var x, k := s.creates[t].chargePointId, s.tables.nextKey;
    var row := s'.tables.connectors[k];
    assert RowsOk(s, x);
    assert k !in s.tables.connectors;
    KeysAfterAdd(s.tables.connectors, k, row, x);
    NumbersAfterAdd(s.tables.connectors, k, row);
    AddedJoins(s, t, now);
  }

  lemma AddedElsewhere(s: Machine, t: nat, now: int, x: string)
    requires Inv(s) && Can(s, Add(t, now)) && x != s.creates[t].chargePointId
    ensures RowsOk(Next(s, Add(t, now)), x)
  {
    var s' := Next(s, Add(t, now));
    var k := s.tables.nextKey;
    assert RowsOk(s, x);
    assert k !in s.tables.connectors;
    assert AddedBy(s', x) == AddedBy(s, x);
    assert Taken(s'.creates, AddedBy(s', x)) == Taken(s.creates, AddedBy(s, x));
    KeysAfterAdd(s.tables.connectors, k, s'.tables.connectors[k], x);
    assert NumbersOf(s'.tables.connectors, x) == NumbersOf(s.tables.connectors, x);
  }

  lemma NumbersAfterAdd(rows: Rows, key: nat, row: ConnectorRecord)
    requires key !in rows
    ensures NumbersOf(rows[key := row], row.chargePointId) == NumbersOf(rows, row.chargePointId) + {row.connectorNumber}
  {
    var cp, rows' := row.chargePointId, rows[key := row];
    KeysAfterAdd(rows, key, row, cp);
    forall x | x in NumbersOf(rows, cp) + {row.connectorNumber} ensures x in NumbersOf(rows', cp) {
      if x == row.connectorNumber {
        assert key in KeysOf(rows', cp) && rows'[key].connectorNumber == x;
      } else {
        var k :| k in KeysOf(rows, cp) && rows[k].connectorNumber == x;
        assert k in KeysOf(rows', cp) && rows'[k].connectorNumber == x;
      }
    }
    forall x | x in NumbersOf(rows', cp) ensures x in NumbersOf(rows, cp) + {row.connectorNumber} {
      var k :| k in KeysOf(rows', cp) && rows'[k].connectorNumber == x;
      if k != key { assert k in KeysOf(rows, cp) && rows[k].connectorNumber == x; }
    }
  }

  lemma AddKeepsAll(s: Machine, t: nat, now: int)
    requires Inv(s) && Can(s, Add(t, now))
    ensures Inv(Next(s, Add(t, now)))
  {
    var s' := Next(s, Add(t, now));
    forall u | u in s'.creates ensures CreateOk(s', u) {
      assert CreateOk(s, u);
      if HasListed(s.creates[u]) { OthersKeep(s, s', u); }
    }
    forall x ensures RowsOk(s', x) {
      if x == s.creates[t].chargePointId {
        AddedOwnRow(s, t, now);
      } else {
        AddedElsewhere(s, t, now, x);
      }
    }
    forall x ensures PutOk(s', x) {
      assert PutOk(s, x);
    }
  }

  lemma PutKeeps(s: Machine, t: nat, now: int)
    requires Inv(s) && Can(s, Put(t, now))
    ensures Inv(Next(s, Put(t, now)))
  {
    var s' := Next(s, Put(t, now));
    forall u | u in s'.creates ensures CreateOk(s', u) {
      assert CreateOk(s, u);
      if HasListed(s.creates[u]) { OthersKeep(s, s', u); }
    }
    forall x ensures RowsOk(s', x) {
      assert RowsOk(s, x);
      assert AddedBy(s', x) == AddedBy(s, x);
      assert Taken(s'.creates, AddedBy(s', x)) == Taken(s.creates, AddedBy(s, x));
    }
    forall x ensures PutOk(s', x) {
      assert PutOk(s, x);
      if x != s.creates[t].chargePointId && exists u :: u in s'.creates && s'.creates[u].Done? && s'.creates[u].chargePointId == x {
        var u :| u in s'.creates && s'.creates[u].Done? && s'.creates[u].chargePointId == x;
        assert u in s.creates && s.creates[u].Done?;
      }
    }
  }

  lemma StepKeeps(s: Machine, m: Move)
    requires Inv(s) && Can(s, m)
    ensures Inv(Next(s, m))
  {
    match m {
      case Read(t, cp) => ReadKeeps(s, t, cp);
      case List(t, n) => ListKeeps(s, t, n);
      case Add(t, now) => AddKeepsAll(s, t, now);
      case Put(t, now) => PutKeeps(s, t, now);
    }
  }

  lemma {:induction false} RunKeeps(ss: seq<Machine>, ms: seq<Move>, i: nat)
    requires IsRun(ss, ms) && i < |ss|
    ensures Inv(ss[i])
  {
    if i == 0 {
      InitialHolds(ss[0]);
    } else {
      RunKeeps(ss, ms, i - 1);
      StepKeeps(ss[i - 1], ms[i - 1]);
    }
  }

  // ----- Any number of creates -----

  lemma LeastFreeGrows(small: set<nat>, large: set<nat>, n: nat, m: nat)
    requires small <= large && LeastFree(small, n) && LeastFree(large, m)
    ensures n == m <==> n !in large
  {
    if n !in large {
      assert n < m ==> n in large;
      assert m < n ==> m in small;
    }
  }

  predicate SameListed(a: Create, b: Create) {
    HasListed(a) && HasListed(b) && a.chargePointId == b.chargePointId
  }

  lemma StepChains(s: Machine, m: Move, t: nat, u: nat)
    requires Inv(s) && Can(s, m) && t in Next(s, m).creates && u in Next(s, m).creates
    requires SameListed(Next(s, m).creates[t], Next(s, m).creates[u])
    requires t in s.creates && u in s.creates && SameListed(s.creates[t], s.creates[u]) ==>
               s.creates[t].saw <= s.creates[u].saw || s.creates[u].saw <= s.creates[t].saw
    ensures Next(s, m).creates[t].saw <= Next(s, m).creates[u].saw || Next(s, m).creates[u].saw <= Next(s, m).creates[t].saw
  {
    if t in s.creates { assert CreateOk(s, t); }
    if u in s.creates { assert CreateOk(s, u); }
  }

  /** Of two creates of one charge point that have listed, one saw all that the other did. */
  lemma {:induction false} SawsChain(ss: seq<Machine>, ms: seq<Move>, i: nat, t: nat, u: nat)
    requires IsRun(ss, ms) && i < |ss| && t in ss[i].creates && u in ss[i].creates
    requires SameListed(ss[i].creates[t], ss[i].creates[u])
    ensures ss[i].creates[t].saw <= ss[i].creates[u].saw || ss[i].creates[u].saw <= ss[i].creates[t].saw
  {
    if i > 0 {
      RunKeeps(ss, ms, i - 1);
      var s := ss[i - 1];
      if t in s.creates && u in s.creates && SameListed(s.creates[t], s.creates[u]) {
        SawsChain(ss, ms, i - 1, t, u);
      }
      StepChains(s, ms[i - 1], t, u);
    }
  }

  lemma CollideIf(s: Machine, t: nat, u: nat)
    requires Inv(s) && t in s.creates && u in s.creates && SameListed(s.creates[t], s.creates[u])
    requires s.creates[t].saw <= s.creates[u].saw
    ensures s.creates[t].number == s.creates[u].number <==> s.creates[t].number !in Taken(s.creates, s.creates[u].saw)
    ensures s.creates[u].number !in Taken(s.creates, s.creates[u].saw)
    ensures Taken(s.creates, s.creates[t].saw) <= Taken(s.creates, s.creates[u].saw)
  {
    var a, b := s.creates[t], s.creates[u];
    assert CreateOk(s, t) && CreateOk(s, u);
    var base := NumbersOf(s.base.connectors, a.chargePointId);
    assert Taken(s.creates, a.saw) <= Taken(s.creates, b.saw);
    LeastFreeGrows(base + Taken(s.creates, a.saw), base + Taken(s.creates, b.saw), a.number, b.number);
  }

  /** Two creates of a charge point take the same number exactly when no create that either of them
      saw took the number of either. */
  lemma NumbersCollideExactly(ss: seq<Machine>, ms: seq<Move>, i: nat, t: nat, u: nat)
    requires IsRun(ss, ms) && i < |ss| && t in ss[i].creates && u in ss[i].creates
    requires SameListed(ss[i].creates[t], ss[i].creates[u])
    ensures ss[i].creates[t].number == ss[i].creates[u].number <==>
              var seen := Taken(ss[i].creates, ss[i].creates[t].saw) + Taken(ss[i].creates, ss[i].creates[u].saw);
              ss[i].creates[t].number !in seen && ss[i].creates[u].number !in seen
  {
    RunKeeps(ss, ms, i);
    SawsChain(ss, ms, i, t, u);
    if ss[i].creates[t].saw <= ss[i].creates[u].saw {
      CollideIf(ss[i], t, u);
    } else {
      CollideIf(ss[i], u, t);
    }
  }

  ghost predicate AllDone(s: Machine, cp: string) {
    forall t :: t in s.creates && s.creates[t].chargePointId == cp ==> s.creates[t].Done?
  }

  /** Once all creates of a charge point have finished, its stored count is the number of its rows
      exactly when the last to store it had seen every other one. */
  lemma CountRightExactly(ss: seq<Machine>, ms: seq<Move>, i: nat, cp: string)
    requires IsRun(ss, ms) && i < |ss| && cp in ss[i].lastPut && AllDone(ss[i], cp)
    ensures cp in ss[i].tables.chargePoints && ss[i].lastPut[cp] in ss[i].creates && ss[i].creates[ss[i].lastPut[cp]].Done?
    ensures ss[i].tables.chargePoints[cp].connectorCount == |KeysOf(ss[i].tables.connectors, cp)| <==>
              ss[i].creates[ss[i].lastPut[cp]].saw == AddedBy(ss[i], cp) - {ss[i].lastPut[cp]}
  {
    RunKeeps(ss, ms, i);
    var s := ss[i];
    assert PutOk(s, cp) && RowsOk(s, cp);
    var last := s.lastPut[cp];
    assert CreateOk(s, last);
    var others := AddedBy(s, cp) - {last};
    assert last in AddedBy(s, cp) && |others| == |AddedBy(s, cp)| - 1;
    SubsetIsSmaller(s.creates[last].saw, others);
  }

  // ----- Seen means added before the listing -----

  /** A create never goes back. */
  predicate Advanced(was: Create, now: Create) {
    && now.chargePointId == was.chargePointId
    && (HasAdded(was) ==> HasAdded(now))
    && (was.Done? ==> now == was)
    && (HasListed(was) ==> HasListed(now) && now.saw == was.saw)
  }

  lemma StepAdvances(s: Machine, m: Move, t: nat)
    requires Can(s, m) && t in s.creates
    ensures t in Next(s, m).creates && Advanced(s.creates[t], Next(s, m).creates[t])
  {
  }

  lemma {:induction false} CreatesAdvance(ss: seq<Machine>, ms: seq<Move>, i: nat, j: nat, t: nat)
    requires IsRun(ss, ms) && i <= j < |ss| && t in ss[i].creates
    ensures t in ss[j].creates && Advanced(ss[i].creates[t], ss[j].creates[t])
    decreases j
  {
    if i < j {
      CreatesAdvance(ss, ms, i, j - 1, t);
      StepAdvances(ss[j - 1], ms[j - 1], t);
    }
  }

  /** A create saw another's row exactly when that row was added before it listed. */
  lemma SawExactly(ss: seq<Machine>, ms: seq<Move>, i: nat, j: nat, k: nat, t: nat, u: nat)
    requires IsRun(ss, ms) && i < |ms| && j < |ms| && i < k < |ss| && j < k
    requires ms[i].List? && ms[i].t == t && ms[j].Add? && ms[j].t == u
    requires ss[i].creates[t].chargePointId == ss[j].creates[u].chargePointId
    ensures t in ss[k].creates && HasListed(ss[k].creates[t])
    ensures u in ss[k].creates[t].saw <==> j < i
  {
    assert Can(ss[i], ms[i]) && ss[i + 1] == Next(ss[i], ms[i]);
    assert Can(ss[j], ms[j]) && ss[j + 1] == Next(ss[j], ms[j]);
    CreatesAdvance(ss, ms, i + 1, k, t);
    if j < i {
      CreatesAdvance(ss, ms, j + 1, i, u);
    } else if u in ss[i].creates && HasAdded(ss[i].creates[u]) {
      CreatesAdvance(ss, ms, i, j, u);
      assert false;
    }
  }

  // ----- Two creates -----

  /** Where in a run a create lists, adds and puts. */
  datatype Places = Places(list: nat, add: nat, put: nat)

  ghost predicate Took(ms: seq<Move>, t: nat, p: Places) {
    && p.list < |ms| && p.add < |ms| && p.put < |ms|
    && ms[p.list].List? && ms[p.list].t == t && ms[p.add].Add? && ms[p.add].t == t && ms[p.put].Put? && ms[p.put].t == t
  }

  lemma {:induction false} LastPutIs(ss: seq<Machine>, ms: seq<Move>, i: nat, j: nat, t: nat, cp: string)
    requires IsRun(ss, ms) && i <= j < |ss| && cp in ss[i].lastPut && ss[i].lastPut[cp] == t
    requires forall k :: i <= k < j && ms[k].Put? ==> ss[k].creates[ms[k].t].chargePointId != cp
    ensures cp in ss[j].lastPut && ss[j].lastPut[cp] == t
    decreases j
  {
    if i < j {
      LastPutIs(ss, ms, i, j - 1, t, cp);
      assert Can(ss[j - 1], ms[j - 1]) && ss[j] == Next(ss[j - 1], ms[j - 1]);
    }
  }

  lemma PutsOnce(ss: seq<Machine>, ms: seq<Move>, i: nat, j: nat)
    requires IsRun(ss, ms) && i < j < |ms| && ms[i].Put? && ms[j].Put?
    ensures ms[j].t != ms[i].t
  {
    var t := ms[i].t;
    assert Can(ss[i], ms[i]) && ss[i + 1] == Next(ss[i], ms[i]);
    CreatesAdvance(ss, ms, i + 1, j, t);
    assert Can(ss[j], ms[j]);
  }

  /** Of two creates the one that puts later is the last. */
  lemma LaterPutIsLast(ss: seq<Machine>, ms: seq<Move>, cp: string, a: nat, b: nat, p: nat, q: nat)
    requires IsRun(ss, ms) && ss[|ms|].creates.Keys == {a, b} && a != b
    requires p < q < |ms| && ms[p].Put? && ms[p].t == a && ms[q].Put? && ms[q].t == b
    requires ss[|ms|].creates[b].chargePointId == cp
    ensures cp in ss[|ms|].lastPut && ss[|ms|].lastPut[cp] == b
  {
    assert Can(ss[p], ms[p]) && ss[p + 1] == Next(ss[p], ms[p]);
    assert Can(ss[q], ms[q]) && ss[q + 1] == Next(ss[q], ms[q]);
    CreatesAdvance(ss, ms, q, |ms|, b);
    forall k | q + 1 <= k < |ms| ensures !ms[k].Put? {
      if ms[k].Put? {
        assert Can(ss[k], ms[k]);
        CreatesAdvance(ss, ms, k, |ms|, ms[k].t);
        PutsOnce(ss, ms, p, k);
        PutsOnce(ss, ms, q, k);
        assert false;
      }
    }
    LastPutIs(ss, ms, q + 1, |ms|, b, cp);
  }

  /** What two creates that have finished saw. */
  lemma TwoSaw(ss: seq<Machine>, ms: seq<Move>, cp: string, a: nat, b: nat, p: Places, q: Places)
    requires IsRun(ss, ms) && ss[|ms|].creates.Keys == {a, b} && a != b && Took(ms, a, p) && Took(ms, b, q)
    requires ss[|ms|].creates[a].Done? && ss[|ms|].creates[b].Done?
    requires ss[|ms|].creates[a].chargePointId == cp && ss[|ms|].creates[b].chargePointId == cp
    ensures AddedBy(ss[|ms|], cp) == {a, b}
    ensures ss[|ms|].creates[a].saw == if q.add < p.list then {b} else {}
    ensures ss[|ms|].creates[b].saw == if p.add < q.list then {a} else {}
  {
    var s, n := ss[|ms|], |ms|;
    SamePlace(ss, ms, a, p.list, p.add);
    SamePlace(ss, ms, b, q.list, q.add);
    SawExactly(ss, ms, p.list, q.add, n, a, b);
    SawExactly(ss, ms, q.list, p.add, n, b, a);
    TwoSeen(ss, ms, cp, a, b);
  }

  lemma TwoSeen(ss: seq<Machine>, ms: seq<Move>, cp: string, a: nat, b: nat)
    requires IsRun(ss, ms) && ss[|ms|].creates.Keys == {a, b} && a != b
    requires ss[|ms|].creates[a].Done? && ss[|ms|].creates[b].Done?
    requires ss[|ms|].creates[a].chargePointId == cp && ss[|ms|].creates[b].chargePointId == cp
    ensures AddedBy(ss[|ms|], cp) == {a, b}
    ensures ss[|ms|].creates[a].saw <= {b} && ss[|ms|].creates[b].saw <= {a}
  {
    RunKeeps(ss, ms, |ms|);
    assert CreateOk(ss[|ms|], a) && CreateOk(ss[|ms|], b);
    assert AddedBy(ss[|ms|], cp) == {a, b};
  }

  /** The numbers are equal exactly when both listed before either added. */
  lemma TwoNumbersExactly(ss: seq<Machine>, ms: seq<Move>, cp: string, a: nat, b: nat, p: Places, q: Places)
    requires IsRun(ss, ms) && ss[|ms|].creates.Keys == {a, b} && a != b && Took(ms, a, p) && Took(ms, b, q)
    requires ss[|ms|].creates[a].Done? && ss[|ms|].creates[b].Done?
    requires ss[|ms|].creates[a].chargePointId == cp && ss[|ms|].creates[b].chargePointId == cp
    ensures ss[|ms|].creates[a].number == ss[|ms|].creates[b].number <==> p.list < q.add && q.list < p.add
  {
    TwoSaw(ss, ms, cp, a, b, p, q);
    ListsFirst(ss, ms, a, p);
    ListsFirst(ss, ms, b, q);
    NumbersCollideExactly(ss, ms, |ms|, a, b);
    TakenByOne(ss[|ms|].creates, a);
    TakenByOne(ss[|ms|].creates, b);
  }

  lemma TakenByOne(creates: map<nat, Create>, t: nat)
    requires t in creates && HasListed(creates[t])
    ensures Taken(creates, {}) == {} && Taken(creates, {t}) == {creates[t].number}
  {
  }

  /** The count stored in the end is right exactly when the create that stored it last had
      listed after the other added. */
  lemma TwoCountsExactly(ss: seq<Machine>, ms: seq<Move>, cp: string, a: nat, b: nat, p: Places, q: Places)
    requires IsRun(ss, ms) && ss[|ms|].creates.Keys == {a, b} && a != b && Took(ms, a, p) && Took(ms, b, q)
    requires ss[|ms|].creates[a].Done? && ss[|ms|].creates[b].Done?
    requires ss[|ms|].creates[a].chargePointId == cp && ss[|ms|].creates[b].chargePointId == cp
    requires p.put < q.put       // b puts last
    ensures cp in ss[|ms|].tables.chargePoints
    ensures ss[|ms|].tables.chargePoints[cp].connectorCount == |KeysOf(ss[|ms|].tables.connectors, cp)| <==> p.add < q.list
  {
    TwoSaw(ss, ms, cp, a, b, p, q);
    LaterPutIsLast(ss, ms, cp, a, b, p.put, q.put);
    CountRightExactly(ss, ms, |ms|, cp);
    assert {a, b} - {b} == {a};
  }

  lemma ListsFirst(ss: seq<Machine>, ms: seq<Move>, t: nat, p: Places)
    requires IsRun(ss, ms) && Took(ms, t, p)
    ensures p.list < p.add
  {
    assert Can(ss[p.list], ms[p.list]) && Can(ss[p.add], ms[p.add]);
    if p.add < p.list {
      CreatesAdvance(ss, ms, p.add, p.list, t);
    }
  }

  lemma SamePlace(ss: seq<Machine>, ms: seq<Move>, t: nat, i: nat, j: nat)
    requires IsRun(ss, ms) && i < |ms| && j < |ms| && ms[i].List? && ms[i].t == t && ms[j].Add? && ms[j].t == t
    ensures t in ss[i].creates && t in ss[j].creates && t in ss[|ms|].creates
    ensures ss[i].creates[t].chargePointId == ss[|ms|].creates[t].chargePointId == ss[j].creates[t].chargePointId
  {
    assert Can(ss[i], ms[i]) && Can(ss[j], ms[j]);
    CreatesAdvance(ss, ms, i, |ms|, t);
    CreatesAdvance(ss, ms, j, |ms|, t);
  }
}
