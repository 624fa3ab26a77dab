/** Charge point and connector records of the browser database.  `Step` says what each
    operation does to the tables, the methods of `BrowserDb` do it, and the lemmas
    say what any sequence of operations keeps.  `ConnectorInterleaving` covers creates
    that overlap. */
module Connectors {
  import opened Wrappers
  import opened LogOrder

  /** Times are keys of a total order. */
  datatype ChargePointRecord = ChargePointRecord(
    id: string, name: string, ocppVersion: string, centralSystemUrl: string, connectorCount: nat,
    autoConnect: bool, status: string, createdAt: int, updatedAt: int)

  datatype ConnectorRecord = ConnectorRecord(
    id: nat, chargePointId: string, evseId: nat, connectorNumber: nat, status: string, createdAt: int, updatedAt: int)

  /** The object stores; `nextKey` is the key generator of `connectors`. */
  datatype Tables = Tables(
    chargePoints: map<string, ChargePointRecord>,
    connectors: map<nat, ConnectorRecord>,
    nextKey: nat,
    logs: map<int, LogEvent>)

  const NO_TABLES: Tables := Tables(map[], map[], 1, map[])

  const DEFAULT_URL: string := "ws://localhost:7080/ws/{chargePointId}"

  /** `value || fallback` on an optional string. */
  function Or(value: Option<string>, fallback: string): string {
    if value.Some? && value.value != "" then value.value else fallback
  }

  /** The text given, or the fallback when there is none or it is empty. */
  predicate Named(text: string, given: Option<string>, fallback: string) {
    && (given.Some? && given.value != "" ==> text == given.value)
    && (given.None? || given.value == "" ==> text == fallback)
  }

  // ----- What the operations mean -----

  type Rows = map<nat, ConnectorRecord>

  ghost function KeysOf(rows: Rows, cp: string): set<nat> {
    set k | k in rows && rows[k].chargePointId == cp
  }

  ghost function NumbersAt(rows: Rows, keys: set<nat>): set<nat>
    requires keys <= rows.Keys
  {
    set k | k in keys :: rows[k].connectorNumber
  }

  ghost function NumbersOf(rows: Rows, cp: string): set<nat> {
    NumbersAt(rows, KeysOf(rows, cp))
  }

  ghost predicate LeastFree(used: set<nat>, n: nat) {
    n >= 1 && n !in used && forall m :: 1 <= m < n ==> m in used
  }

  ghost function LogsOf(logs: map<int, LogEvent>, cp: string): set<int> {
    set k | k in logs && logs[k].chargePointId == cp
  }

  /** `connectorCount` and `updatedAt` assigned on a record read before. */
  function Recount(record: ChargePointRecord, count: nat, now: int): ChargePointRecord {
    record.(connectorCount := count, updatedAt := now)
  }

  /** A row as `createConnector` makes it. */
  predicate NewRow(row: ConnectorRecord, cp: string, now: int) {
    && row.chargePointId == cp && row.evseId == row.connectorNumber && row.status == "Available"
    && row.createdAt == now && row.updatedAt == now
  }

  ghost predicate Added(t: Tables, t': Tables, cp: string, row: ConnectorRecord, now: int)
    requires cp in t.chargePoints
  {
    && row.id == t.nextKey && NewRow(row, cp, now)
    && LeastFree(NumbersOf(t.connectors, cp), row.connectorNumber)
    && t' == Tables(
         t.chargePoints[cp := Recount(t.chargePoints[cp], |KeysOf(t.connectors, cp)| + 1, now)],
         t.connectors[row.id := row], t.nextKey + 1, t.logs)
  }

  /** One Available row under the next key, its number its evse id too, and its charge point counts one
      more; nothing else moves. */
  ghost predicate AddedRow(t: Tables, t': Tables, cp: string, row: ConnectorRecord, now: int) {
    && cp in t.chargePoints
    && row == ConnectorRecord(t.nextKey, cp, row.connectorNumber, row.connectorNumber, "Available", now, now)
    && t'.connectors == t.connectors[t.nextKey := row] && t'.nextKey == t.nextKey + 1 && t'.logs == t.logs
    && t'.chargePoints == t.chargePoints[cp :=
         t.chargePoints[cp].(connectorCount := |KeysOf(t.connectors, cp)| + 1, updatedAt := now)]
  }

  lemma AddedReads(t: Tables, t': Tables, cp: string, row: ConnectorRecord, now: int)
    requires cp in t.chargePoints && Added(t, t', cp, row, now)
    ensures AddedRow(t, t', cp, row, now)
  {
  }

  /** Of rows with the same number the oldest goes; the charge point may be gone already. */
  ghost predicate Dropped(t: Tables, t': Tables, cp: string, k: nat, now: int) {
    && t'.connectors == t.connectors - {k} && t'.nextKey == t.nextKey && t'.logs == t.logs
    && t'.chargePoints ==
       if cp in t.chargePoints
       then t.chargePoints[cp := Recount(t.chargePoints[cp], |KeysOf(t.connectors, cp) - {k}|, now)]
       else t.chargePoints
  }

  ghost predicate FirstNumbered(t: Tables, cp: string, n: nat, k: nat) {
    && k in KeysOf(t.connectors, cp) && t.connectors[k].connectorNumber == n
    && forall j :: j in KeysOf(t.connectors, cp) && t.connectors[j].connectorNumber == n ==> k <= j
  }

  datatype Op =
    | CreateChargePoint(id: string, name: Option<string>, version: Option<string>, url: Option<string>)
    | DeleteChargePoint(gone: string)
    | CreateConnector(at: string)
    | DeleteConnector(from: string, number: nat)

  ghost predicate Step(t: Tables, op: Op, now: int, t': Tables) {
    match op
    case CreateChargePoint(id, name, version, url) =>
      if id in t.chargePoints then t' == t
      else t' == t.(chargePoints := t.chargePoints[id := Fresh(id, name, version, url, now)])
    case DeleteChargePoint(id) =>
      t' == t.(chargePoints := t.chargePoints - {id}, connectors := t.connectors - KeysOf(t.connectors, id),
               logs := t.logs - LogsOf(t.logs, id))
    case CreateConnector(cp) =>
      if cp in t.chargePoints then exists row :: Added(t, t', cp, row, now) else t' == t
    case DeleteConnector(cp, n) =>
      if n in NumbersOf(t.connectors, cp) then exists k :: FirstNumbered(t, cp, n, k) && Dropped(t, t', cp, k, now) else t' == t
  }

  /** The record of a new charge point. */
  function Fresh(id: string, name: Option<string>, version: Option<string>, url: Option<string>, now: int): ChargePointRecord {
    ChargePointRecord(id, Or(name, id), Or(version, "1.6J"), Or(url, DEFAULT_URL), 0, false, "disconnected", now, now)
  }

  // ----- What every sequence of operations keeps -----

  ghost predicate Keyed(t: Tables) {
    && (forall k :: k in t.connectors ==> k < t.nextKey && t.connectors[k].id == k)
    && (forall cp :: cp in t.chargePoints ==> t.chargePoints[cp].id == cp)
  }

  ghost predicate Owned(t: Tables) {
    forall k :: k in t.connectors ==>
      && t.connectors[k].chargePointId in t.chargePoints
      && t.connectors[k].connectorNumber >= 1
      && t.connectors[k].evseId == t.connectors[k].connectorNumber
  }

  predicate SameNumber(a: ConnectorRecord, b: ConnectorRecord) {
    a.chargePointId == b.chargePointId && a.connectorNumber == b.connectorNumber
  }

  ghost predicate Distinct(rows: Rows) {
    forall j, k :: j in rows && k in rows && j != k ==> !SameNumber(rows[j], rows[k])
  }

  ghost predicate Counted(t: Tables) {
    forall cp :: cp in t.chargePoints ==> t.chargePoints[cp].connectorCount == |KeysOf(t.connectors, cp)|
  }

  ghost predicate Consistent(t: Tables) {
    Keyed(t) && Owned(t) && Distinct(t.connectors) && Counted(t)
  }

  lemma KeysAfterAdd(rows: Rows, key: nat, row: ConnectorRecord, cp: string)
    requires key !in rows
    ensures KeysOf(rows[key := row], cp) == KeysOf(rows, cp) + (if row.chargePointId == cp then {key} else {})
  {
  }

  lemma KeysAfterDrop(rows: Rows, gone: set<nat>, cp: string)
    ensures KeysOf(rows - gone, cp) == KeysOf(rows, cp) - gone
  {
  }

  lemma AddCounts(t: Tables, t': Tables, cp: string, row: ConnectorRecord, now: int)
    requires Keyed(t) && Counted(t) && cp in t.chargePoints && Added(t, t', cp, row, now)
    ensures Counted(t')
  {
    forall other | other in t'.chargePoints
      ensures t'.chargePoints[other].connectorCount == |KeysOf(t'.connectors, other)|
    {
      KeysAfterAdd(t.connectors, row.id, row, other);
      assert row.id !in KeysOf(t.connectors, other);
    }
  }

  lemma LeastFreeIsNew(rows: Rows, key: nat, row: ConnectorRecord)
    requires key !in rows && Distinct(rows) && LeastFree(NumbersOf(rows, row.chargePointId), row.connectorNumber)
    ensures Distinct(rows[key := row])
  {
    forall j | j in rows ensures !SameNumber(rows[j], row) && !SameNumber(row, rows[j]) {
      if rows[j].chargePointId == row.chargePointId {
        assert j in KeysOf(rows, row.chargePointId);
        assert rows[j].connectorNumber in NumbersOf(rows, row.chargePointId);
      }
    }
  }

  lemma AddKeeps(t: Tables, t': Tables, cp: string, row: ConnectorRecord, now: int)
    requires Consistent(t) && cp in t.chargePoints && Added(t, t', cp, row, now)
    ensures Consistent(t')
  {
    AddCounts(t, t', cp, row, now);
    LeastFreeIsNew(t.connectors, row.id, row);
  }

  lemma DropKeeps(t: Tables, t': Tables, cp: string, k: nat, now: int)
    requires Consistent(t) && k in KeysOf(t.connectors, cp) && Dropped(t, t', cp, k, now)
    ensures Consistent(t')
  {
    forall other ensures KeysOf(t'.connectors, other) == KeysOf(t.connectors, other) - {k} {
      KeysAfterDrop(t.connectors, {k}, other);
    }
    forall other | other in t'.chargePoints && other != cp
      ensures t'.chargePoints[other].connectorCount == |KeysOf(t'.connectors, other)|
    {
      assert KeysOf(t.connectors, other) - {k} == KeysOf(t.connectors, other);
    }
  }

  lemma CascadeKeeps(t: Tables, id: string, now: int, t': Tables)
    requires Consistent(t) && Step(t, DeleteChargePoint(id), now, t')
    ensures Consistent(t')
  {
    var gone := KeysOf(t.connectors, id);
    forall cp | cp != id ensures KeysOf(t'.connectors, cp) == KeysOf(t.connectors, cp) {
      KeysAfterDrop(t.connectors, gone, cp);
      assert KeysOf(t.connectors, cp) !! gone;
    }
  }

  lemma CreateKeeps(t: Tables, op: Op, now: int, t': Tables)
    requires Consistent(t) && op.CreateChargePoint? && Step(t, op, now, t')
    ensures Consistent(t')
  {
    if op.id !in t.chargePoints {
      assert KeysOf(t.connectors, op.id) == {};
    }
  }

  lemma StepKeeps(t: Tables, op: Op, now: int, t': Tables)
    requires Consistent(t) && Step(t, op, now, t')
    ensures Consistent(t')
  {
    match op {
      case CreateChargePoint(_, _, _, _) => CreateKeeps(t, op, now, t');
      case DeleteChargePoint(id) => CascadeKeeps(t, id, now, t');
      case CreateConnector(cp) =>
        if cp in t.chargePoints {
          var row :| Added(t, t', cp, row, now);
          AddKeeps(t, t', cp, row, now);
        }
      case DeleteConnector(cp, n) =>
        if n in NumbersOf(t.connectors, cp) {
          var k :| FirstNumbered(t, cp, n, k) && Dropped(t, t', cp, k, now);
          DropKeeps(t, t', cp, k, now);
        }
    }
  }

  ghost predicate IsRun(ts: seq<Tables>, ops: seq<Op>, times: seq<int>) {
    && |ts| == |ops| + 1 && |times| == |ops| && ts[0] == NO_TABLES
    && forall i :: 0 <= i < |ops| ==> Step(ts[i], ops[i], times[i], ts[i + 1])
  }

  /** Over any sequence of operations: connector numbers of a charge point are positive and
      distinct, `connectorCount` is the number of its rows, no row outlives its charge point. */
  lemma {:induction false} TablesStayConsistent(ts: seq<Tables>, ops: seq<Op>, times: seq<int>, i: nat)
    requires IsRun(ts, ops, times) && i < |ts|
    ensures Consistent(ts[i])
  {
    if i > 0 {
      TablesStayConsistent(ts, ops, times, i - 1);
      StepKeeps(ts[i - 1], ops[i - 1], times[i - 1], ts[i]);
    }
  }

  // ----- Numbering -----

  /** Pigeonhole: `n` consecutive numbers in use are `n` numbers in use. */
  lemma {:induction false} InUse(used: set<nat>, n: nat)
    requires forall m :: 1 <= m <= n ==> m in used
    ensures n <= |used|
    decreases n
  {
    if n > 0 {
      InUse(used - {n}, n - 1);
    }
  }

  /** The search of `createConnector` always has an answer. */
  lemma {:induction false} LeastFreeExists(used: set<nat>, n: nat) returns (free: nat)
    requires n >= 1 && forall m :: 1 <= m < n ==> m in used
    ensures LeastFree(used, free)
    decreases |used| + 1 - n
  {
    if n in used {
      InUse(used, n);
      free := LeastFreeExists(used, n + 1);
    } else {
      InUse(used, n - 1);
      free := n;
    }
  }

  lemma {:induction false} NumbersAreFew(rows: Rows, keys: set<nat>)
    requires keys <= rows.Keys
    ensures |NumbersAt(rows, keys)| <= |keys|
    decreases |keys|
  {
    if keys != {} {
      var k :| k in keys;
      var rest := keys - {k};
      NumbersAreFew(rows, rest);
      assert NumbersAt(rows, keys) == NumbersAt(rows, rest) + {rows[k].connectorNumber};
    }
  }

  lemma LeastFreeIsSmall(t: Tables, cp: string, n: nat)
    requires LeastFree(NumbersOf(t.connectors, cp), n)
    ensures n <= |KeysOf(t.connectors, cp)| + 1
  {
    InUse(NumbersOf(t.connectors, cp), n - 1);
    NumbersAreFew(t.connectors, KeysOf(t.connectors, cp));
  }

  lemma FreedIsLeast(used: set<nat>, n: nat, m: nat, next: nat)
    requires n in used && n >= 1 && LeastFree(used, m) && LeastFree(used - {n}, next)
    ensures next == if n < m then n else m
  {
    var want := if n < m then n else m;
    assert want !in used - {n};
    assert next < want ==> next in used;
  }

  /** A deleted number is handed out again before any larger one. */
  lemma DeletedNumberReturns(t: Tables, t1: Tables, cp: string, k: nat, m: nat, next: nat)
    requires Distinct(t.connectors) && Owned(t) && k in KeysOf(t.connectors, cp) && t1.connectors == t.connectors - {k}
    requires LeastFree(NumbersOf(t.connectors, cp), m) && LeastFree(NumbersOf(t1.connectors, cp), next)
    ensures var n := t.connectors[k].connectorNumber; next == if n < m then n else m
  {
    var n := t.connectors[k].connectorNumber;
    KeysAfterDrop(t.connectors, {k}, cp);
    assert NumbersOf(t1.connectors, cp) == NumbersOf(t.connectors, cp) - {n} by {
      forall x | x in NumbersOf(t.connectors, cp) - {n} ensures x in NumbersOf(t1.connectors, cp) {
        var j :| j in KeysOf(t.connectors, cp) && t.connectors[j].connectorNumber == x;
        assert j in KeysOf(t1.connectors, cp) && t1.connectors[j].connectorNumber == x;
      }
      forall x | x in NumbersOf(t1.connectors, cp) ensures x in NumbersOf(t.connectors, cp) - {n} {
        var j :| j in KeysOf(t1.connectors, cp) && t1.connectors[j].connectorNumber == x;
        assert j in KeysOf(t.connectors, cp) && !SameNumber(t.connectors[j], t.connectors[k]);
      }
    }
    FreedIsLeast(NumbersOf(t.connectors, cp), n, m, next);
  }

  // ----- The database -----

  ghost function Ids(s: seq<ConnectorRecord>): set<nat> {
    set i | 0 <= i < |s| :: s[i].id
  }

  /** The rows under `keys`, each once, in key order. */
  ghost predicate IsListing(rows: Rows, s: seq<ConnectorRecord>, keys: set<nat>) {
    && (forall i :: 0 <= i < |s| ==> s[i].id in rows && s[i] == rows[s[i].id])
    && (forall i, j :: 0 <= i < j < |s| ==> s[i].id < s[j].id)
    && Ids(s) == keys && |s| == |keys|
  }

  lemma ListedNext(rows: Rows, s: seq<ConnectorRecord>, keys: set<nat>, k: nat)
    requires IsListing(rows, s, keys) && k in rows && rows[k].id == k
    requires forall j :: j in keys ==> j < k
    ensures IsListing(rows, s + [rows[k]], keys + {k})
  {
    var s' := s + [rows[k]];
    assert s'[|s|].id == k;
    forall i | 0 <= i < |s| ensures s'[i].id in Ids(s) { assert s'[i] == s[i]; }
    forall j | j in Ids(s) ensures j in Ids(s') {
      var i :| 0 <= i < |s| && s[i].id == j;
      assert s'[i].id == j;
    }
    assert Ids(s') == keys + {k};
  }

  lemma ListedNumbers(rows: Rows, s: seq<ConnectorRecord>, keys: set<nat>)
    requires IsListing(rows, s, keys) && keys <= rows.Keys
    ensures (set i | 0 <= i < |s| :: s[i].connectorNumber) == NumbersAt(rows, keys)
  {
    var used := set i | 0 <= i < |s| :: s[i].connectorNumber;
    forall x | x in NumbersAt(rows, keys) ensures x in used {
      var k :| k in keys && rows[k].connectorNumber == x;
      assert k in Ids(s);
      var i :| 0 <= i < |s| && s[i].id == k;
      assert s[i].connectorNumber == x;
    }
    forall x | x in used ensures x in NumbersAt(rows, keys) {
      var i :| 0 <= i < |s| && s[i].connectorNumber == x;
      assert s[i].id in Ids(s);
    }
  }

  ghost function Members(ids: seq<int>): set<int> {
    set k | k in ids
  }

  class BrowserDb {
    var chargePoints: map<string, ChargePointRecord>
    var connectors: map<nat, ConnectorRecord>
    var nextKey: nat
    var logs: map<int, LogEvent>

    ghost function All(): Tables reads this { Tables(chargePoints, connectors, nextKey, logs) }

    ghost predicate Valid() reads this { Keyed(All()) }

    constructor ()
      ensures Valid() && All() == NO_TABLES
    {
      chargePoints, connectors, nextKey, logs := map[], map[], 1, map[];
    }

    method NewChargePoint(id: string, name: Option<string>, version: Option<string>, url: Option<string>, now: int)
      returns (r: Result<ChargePointRecord>)
      requires Valid()
      modifies this
      ensures Valid() && Step(old(All()), CreateChargePoint(id, name, version, url), now, All())
      ensures r.Err? <==> id in old(chargePoints)
      ensures r.Ok? ==> chargePoints == old(chargePoints)[id := r.value]
      ensures r.Ok? ==> Named(r.value.name, name, id) && Named(r.value.ocppVersion, version, "1.6J")
                        && Named(r.value.centralSystemUrl, url, "ws://localhost:7080/ws/{chargePointId}")
      ensures r.Ok? ==> r.value.id == id && r.value.connectorCount == 0 && !r.value.autoConnect
                        && r.value.status == "disconnected" && r.value.createdAt == now && r.value.updatedAt == now
    {
      if id in chargePoints {
        return Err("charge point already exists");
      }
      var record := ChargePointRecord(id, Or(name, id), Or(version, "1.6J"), Or(url, DEFAULT_URL), 0, false, "disconnected", now, now);
      chargePoints := chargePoints[id := record];
      return Ok(record);
    }

    /** Rows in key order; the sort by number that follows keeps that order among equals. */
    method ListConnectors(cp: string) returns (rows: seq<ConnectorRecord>)
      requires Valid()
      ensures IsListing(connectors, rows, KeysOf(connectors, cp))
    {
      rows := [];
      ghost var keys: set<nat> := {};
      var k := 0;
      while k < nextKey
        invariant 0 <= k <= nextKey
        invariant forall j :: j in keys <==> j < k && j in KeysOf(connectors, cp)
        invariant IsListing(connectors, rows, keys)
      {
        if k in connectors && connectors[k].chargePointId == cp {
          ListedNext(connectors, rows, keys, k);
          rows := rows + [connectors[k]];
          keys := keys + {k};
        }
        k := k + 1;
      }
      assert keys == KeysOf(connectors, cp);
    }

    /** The search stops because the numbers in use are finitely many. */
    method NextConnectorNumber(used: set<nat>) returns (n: nat)
      ensures LeastFree(used, n) && n <= |used| + 1
    {
      n := 1;
      while n in used
        invariant n >= 1 && forall m :: 1 <= m < n ==> m in used
        decreases |used| + 1 - n
      {
        InUse(used, n);
        n := n + 1;
      }
      InUse(used, n - 1);
    }

    method NewConnector(cp: string, now: int) returns (r: Result<ConnectorRecord>)
      requires Valid()
      modifies this
      ensures Valid() && Step(old(All()), CreateConnector(cp), now, All())
      ensures r.Err? <==> cp !in old(chargePoints)
      ensures r.Ok? ==> Added(old(All()), All(), cp, r.value, now) && r.value.connectorNumber <= |KeysOf(old(connectors), cp)| + 1
      ensures r.Ok? ==> AddedRow(old(All()), All(), cp, r.value, now)
    {
      if cp !in chargePoints {
        return Err("charge point not found");
      }
      var chargePoint := chargePoints[cp];
      var existing := ListConnectors(cp);
      var used := set i | 0 <= i < |existing| :: existing[i].connectorNumber;
      ListedNumbers(connectors, existing, KeysOf(connectors, cp));
      var n := NextConnectorNumber(used);
      LeastFreeIsSmall(All(), cp, n);
      var record := ConnectorRecord(nextKey, cp, n, n, "Available", now, now);
      connectors := connectors[nextKey := record];
      nextKey := nextKey + 1;
      chargePoints := chargePoints[cp := chargePoint.(connectorCount := |existing| + 1, updatedAt := now)];
      assert Added(old(All()), All(), cp, record, now);
      AddedReads(old(All()), All(), cp, record, now);
      return Ok(record);
    }

    method DeleteConnectorRecord(cp: string, n: nat, now: int)
      requires Valid()
      modifies this
      ensures Valid() && Step(old(All()), DeleteConnector(cp, n), now, All())
      ensures n !in NumbersOf(old(connectors), cp) ==> All() == old(All())
      ensures n in NumbersOf(old(connectors), cp) ==>
                && |KeysOf(connectors, cp)| == |KeysOf(old(connectors), cp)| - 1
                && chargePoints ==
                   if cp in old(chargePoints)
                   then old(chargePoints)[cp := old(chargePoints)[cp].(connectorCount := |KeysOf(connectors, cp)|, updatedAt := now)]
                   else old(chargePoints)
    {
      var existing := ListConnectors(cp);
      var i := 0;
      while i < |existing| && existing[i].connectorNumber != n
        invariant 0 <= i <= |existing| && forall j :: 0 <= j < i ==> existing[j].connectorNumber != n
      {
        i := i + 1;
      }
      if i == |existing| {
        forall k | k in KeysOf(connectors, cp) ensures connectors[k].connectorNumber != n {
          assert k in Ids(existing);
          var j :| 0 <= j < |existing| && existing[j].id == k;
          assert existing[j].connectorNumber != n;
        }
        return;
      }
      var k := existing[i].id;
      assert FirstNumbered(All(), cp, n, k) by {
        assert k in Ids(existing);
        forall j | j in KeysOf(connectors, cp) && connectors[j].connectorNumber == n ensures k <= j {
          assert j in Ids(existing);
          var at :| 0 <= at < |existing| && existing[at].id == j;
          assert at >= i;
        }
      }
      assert n in NumbersOf(connectors, cp);
      connectors := connectors - {k};
      assert KeysOf(connectors, cp) == KeysOf(old(connectors), cp) - {k};
      if cp in chargePoints {
        var remaining := ListConnectors(cp);
        chargePoints := chargePoints[cp := chargePoints[cp].(connectorCount := |remaining|, updatedAt := now)];
      }
      assert Dropped(old(All()), All(), cp, k, now);
    }

    method ListLogs(cp: string) returns (ids: seq<int>)
      ensures Members(ids) == LogsOf(logs, cp)
    {
      ids := [];
      var rest := logs.Keys;
      while exists k: int :: k in rest
        invariant rest <= logs.Keys
        invariant Members(ids) == LogsOf(logs, cp) - rest
        decreases rest
      {
        var k: int :| k in rest;
        ghost var was := ids;
        if logs[k].chargePointId == cp {
          ids := ids + [k];
        }
        assert Members(ids) == Members(was) + if logs[k].chargePointId == cp then {k} else {};
        assert k in LogsOf(logs, cp) <==> logs[k].chargePointId == cp;
        rest := rest - {k};
      }
    }

    method DeleteLogs(ids: seq<int>)
      modifies this`logs
      ensures logs == old(logs) - Members(ids)
    {
      var i := 0;
      while i < |ids|
        invariant 0 <= i <= |ids| && logs == old(logs) - Members(ids[..i])
      {
        assert ids[..i + 1] == ids[..i] + [ids[i]];
        assert Members(ids[..i + 1]) == Members(ids[..i]) + {ids[i]};
        logs := logs - {ids[i]};
        i := i + 1;
      }
      assert ids[..i] == ids;
    }

    /** The charge point goes, with exactly its connectors and its logs. */
    method DeleteChargePointCascade(id: string)
      requires Valid()
      modifies this
      ensures Valid() && forall now :: Step(old(All()), DeleteChargePoint(id), now, All())
    {
      var existing := ListConnectors(id);
      var existingLogs := ListLogs(id);
      chargePoints := chargePoints - {id};
      DeleteRows(existing);
      DeleteLogs(existingLogs);
    }

    method DeleteRows(rows: seq<ConnectorRecord>)
      modifies this`connectors
      ensures connectors == old(connectors) - Ids(rows)
    {
      var i := 0;
      while i < |rows|
        invariant 0 <= i <= |rows|
        invariant connectors.Keys == old(connectors).Keys - set j | 0 <= j < i :: rows[j].id
        invariant forall k :: k in connectors ==> connectors[k] == old(connectors)[k]
      {
        connectors := connectors - {rows[i].id};
        i := i + 1;
      }
    }
  }
}
