/** The log table, one call at a time, and the event list and counter kept beside it.
    `LogInterleaving` covers calls that overlap. */
module LogStore {
  import opened LogOrder
  import opened LogInterleaving

  lemma TailIsNewest(s: seq<LogEvent>, k: nat)
    requires SortedOldestFirst(s)
    ensures var cut := if |s| <= k then 0 else |s| - k;
            && Elements(s[cut..]) == Newest(Elements(s), k)
            && Elements(s[..cut]) == Elements(s) - Newest(Elements(s), k)
  {
    var cut := if |s| <= k then 0 else |s| - k;
    FrontIsOutranked(s, k);
    forall x ensures x in s[cut..] <==> x in Newest(Elements(s), k) {
      InTail(s, cut, x);
    }
    forall x ensures x in s[..cut] <==> x in Elements(s) && x !in Newest(Elements(s), k) {
      InFront(s, cut, x);
    }
  }

  lemma InTail(s: seq<LogEvent>, cut: nat, x: LogEvent)
    requires cut <= |s|
    ensures x in s[cut..] <==> exists i :: cut <= i < |s| && s[i] == x
  {
    if x in s[cut..] {
      var j :| 0 <= j < |s[cut..]| && s[cut..][j] == x;
      assert s[cut + j] == x;
    }
    if i :| cut <= i < |s| && s[i] == x {
      assert s[cut..][i - cut] == x;
    }
  }

  lemma InFront(s: seq<LogEvent>, cut: nat, x: LogEvent)
    requires cut <= |s|
    ensures x in s[..cut] <==> exists i :: 0 <= i < cut && s[i] == x
  {
    if x in s[..cut] {
      var j :| 0 <= j < |s[..cut]| && s[..cut][j] == x;
      assert s[j] == x;
    }
    if i :| 0 <= i < cut && s[i] == x {
      assert s[..cut][i] == x;
    }
  }

  lemma InsertSorted(s: seq<LogEvent>, i: nat, e: LogEvent)
    requires i <= |s| && SortedOldestFirst(s)
    requires forall j :: 0 <= j < i ==> Older(s[j], e)
    requires forall j :: i <= j < |s| ==> Older(e, s[j])
    ensures SortedOldestFirst(s[..i] + [e] + s[i..])
    ensures Elements(s[..i] + [e] + s[i..]) == Elements(s) + {e}
  {
    var r := s[..i] + [e] + s[i..];
    forall j, k | 0 <= j < k < |r| ensures Older(r[j], r[k]) {
      InsertedAt(s, i, e, j);
      InsertedAt(s, i, e, k);
    }
    assert s == s[..i] + s[i..];
    forall x ensures x in r <==> x in s || x == e { }
  }

  lemma InsertedAt(s: seq<LogEvent>, i: nat, e: LogEvent, j: nat)
    requires i <= |s| && j <= |s|
    ensures (s[..i] + [e] + s[i..])[j] == if j < i then s[j] else if j == i then e else s[j - 1]
  {
  }

  /** `rows.sort` by timestamp of rows that `getAll` lists by id. */
  method SortOldestFirst(rows: set<LogEvent>) returns (s: seq<LogEvent>)
    requires DistinctIds(rows)
    ensures SortedOldestFirst(s) && Elements(s) == rows
  {
    s := [];
    var rest := rows;
    while rest != {}
      invariant rest <= rows && Elements(s) == rows - rest && SortedOldestFirst(s)
      decreases rest
    {
      var e :| e in rest;
      var i := |s|;
      while i > 0 && Older(e, s[i - 1])
        invariant 0 <= i <= |s| && forall j :: i <= j < |s| ==> Older(e, s[j])
      {
        i := i - 1;
      }
      if i > 0 {
        assert s[i - 1] in Elements(s);
        assert s[i - 1].id != e.id && Older(s[i - 1], e);
      }
      InsertSorted(s, i, e);
      s := s[..i] + [e] + s[i..];
      rest := rest - {e};
    }
  }

  /** Of two rows the later in time, or of one time the greater id. */
  predicate Later(a: LogEvent, b: LogEvent) {
    b.timestamp < a.timestamp || (b.timestamp == a.timestamp && b.id < a.id)
  }

  /** As many of `rows` as `k` allows, each later than any left out. */
  ghost predicate KeepsLatest(kept: set<LogEvent>, rows: set<LogEvent>, k: nat) {
    && kept <= rows && |kept| == (if |rows| <= k then |rows| else k)
    && forall r, d :: r in kept && d in rows && d !in kept ==> Later(r, d)
  }

  /** The newest are as many as there may be, and each is later than any left out. */
  lemma NewestAreLatest(rows: set<LogEvent>, k: nat)
    requires DistinctIds(rows)
    ensures KeepsLatest(Newest(rows, k), rows, k)
  {
    NewestSize(rows, k);
    forall r, d | r in Newest(rows, k) && d in rows && d !in Newest(rows, k) ensures Later(r, d) {
      if !Later(r, d) {
        assert NewerThan(rows, d) <= NewerThan(rows, r);
        SubsetIsSmaller(NewerThan(rows, d), NewerThan(rows, r));
      }
    }
  }

  /** The rows of `cp` once `e` has been put and the rest pruned. */
  ghost function Pruned(rows: set<LogEvent>, e: LogEvent): set<LogEvent> {
    Newest(For((set r | r in rows && r.id != e.id) + {e}, e.chargePointId), MAX_LOGS)
  }

  /** What an append leaves of the charge point's rows: 1000 at most, each later than any that went. */
  lemma PrunedKeepsLatest(rows: set<LogEvent>, e: LogEvent)
    requires DistinctIds(rows)
    ensures KeepsLatest(Pruned(rows, e), (set r | r in rows && r.chargePointId == e.chargePointId && r.id != e.id) + {e}, 1000)
  {
    var all := (set r | r in rows && r.id != e.id) + {e};
    assert For(all, e.chargePointId) == (set r | r in rows && r.chargePointId == e.chargePointId && r.id != e.id) + {e};
    NewestAreLatest(For(all, e.chargePointId), MAX_LOGS);
  }

  ghost predicate Fresh(rows: set<LogEvent>, e: LogEvent) {
    forall r :: r in rows ==> r.id != e.id
  }

  lemma FreshAppendCounts(rows: set<LogEvent>, e: LogEvent)
    requires DistinctIds(rows)
    ensures Fresh(rows, e) ==> |Pruned(rows, e)| == Min(|For(rows, e.chargePointId)| + 1, MAX_LOGS)
  {
    var mine := For((set r | r in rows && r.id != e.id) + {e}, e.chargePointId);
    if Fresh(rows, e) {
      assert mine == For(rows, e.chargePointId) + {e};
      NewestSize(mine, MAX_LOGS);
    }
  }

  class OcppLogStore {
    var logs: map<int, LogEvent>

    ghost predicate Valid() reads this { forall id :: id in logs ==> logs[id].id == id }

    function Rows(): set<LogEvent> reads this { set id | id in logs :: logs[id] }

    constructor ()
      ensures Valid() && Rows() == {}
    {
      logs := map[];
    }

    lemma RowsAreKeyed()
      requires Valid()
      ensures DistinctIds(Rows())
      ensures forall r :: r in Rows() <==> r.id in logs && logs[r.id] == r
    {
      forall r | r in Rows() ensures r.id in logs && logs[r.id] == r {
        var id :| id in logs && logs[id] == r;
      }
    }

    method PutLog(e: LogEvent)
      requires Valid()
      modifies this
      ensures Valid() && Rows() == (set r: LogEvent | r in old(Rows()) && r.id != e.id) + {e}
    {
      RowsAreKeyed();
      logs := logs[e.id := e];
      RowsAreKeyed();
    }

    method DeleteLog(id: int)
      requires Valid()
      modifies this
      ensures Valid() && Rows() == set r: LogEvent | r in old(Rows()) && r.id != id
    {
      RowsAreKeyed();
      logs := logs - {id};
      RowsAreKeyed();
    }

    /** The snapshot is cut where the newest begin and its front deleted row by row. */
    method PruneOldLogs(cp: string)
      requires Valid()
      modifies this
      ensures Valid()
      ensures For(Rows(), cp) == Newest(For(old(Rows()), cp), MAX_LOGS)
      ensures forall r: LogEvent :: r.chargePointId != cp ==> (r in Rows() <==> r in old(Rows()))
    {
      RowsAreKeyed();
      ghost var all := For(Rows(), cp);
      NewestSize(all, MAX_LOGS);
      var rows := SortOldestFirst(For(Rows(), cp));
      ElementsSize(rows);
      TailIsNewest(rows, MAX_LOGS);
      if |rows| <= MAX_LOGS {
        assert rows[0..] == rows;
        return;
      }
      var i := 0;
      while i < |rows| - MAX_LOGS
        invariant 0 <= i <= |rows| - MAX_LOGS && Valid()
        invariant Rows() == old(Rows()) - Elements(rows[..i])
      {
        assert rows[..i + 1] == rows[..i] + [rows[i]];
        assert rows[i] in Elements(rows);
        DeleteLog(rows[i].id);
        i := i + 1;
      }
    }

    /** `put` replaces a row of the same id; what is kept of the charge point is the newest 1000. */
    method AppendOcppLog(e: LogEvent)
      requires Valid()
      modifies this
      ensures Valid()
      ensures For(Rows(), e.chargePointId) == Pruned(old(Rows()), e)
      ensures forall r: LogEvent :: r.chargePointId != e.chargePointId ==>
                (r in Rows() <==> r in old(Rows()) && r.id != e.id)
    {
      PutLog(e);
      PruneOldLogs(e.chargePointId);
    }

    /** `slice(-limit)`: the newest `limit` rows, oldest first, or all of them for a limit of 0. */
    method ListOcppLogs(cp: string, limit: nat) returns (s: seq<LogEvent>)
      requires Valid()
      ensures SortedOldestFirst(s)
      ensures Elements(s) == if limit == 0 then For(Rows(), cp) else Newest(For(Rows(), cp), limit)
      ensures forall i, j :: 0 <= i < j < |s| ==> Later(s[j], s[i])
      ensures limit > 0 ==> KeepsLatest(Elements(s), For(Rows(), cp), limit)
    {
      RowsAreKeyed();
      NewestAreLatest(For(Rows(), cp), limit);
      s := SortOldestFirst(For(Rows(), cp));
      TailIsNewest(s, limit);
      var cut := if limit == 0 || |s| <= limit then 0 else |s| - limit;
      assert s[0..] == s;
      s := s[cut..];
    }

    method CountOcppLogs(cp: string) returns (n: nat)
      requires Valid()
      ensures n == |For(Rows(), cp)|
    {
      n := |For(Rows(), cp)|;
    }
  }

  // ----- The realtime store -----

  function Others(events: seq<LogEvent>, cp: string): (r: seq<LogEvent>)
    ensures forall e :: e in r <==> e in events && e.chargePointId != cp
  {
    if events == [] then [] else
    (if events[0].chargePointId == cp then [] else [events[0]]) + Others(events[1..], cp)
  }

  function WithoutId(events: seq<LogEvent>, id: int): (r: seq<LogEvent>)
    ensures forall e :: e in r <==> e in events && e.id != id
    ensures |r| <= |events|
    ensures (forall e :: e in events ==> e.id != id) ==> r == events
  {
    if events == [] then [] else
    (if events[0].id == id then [] else [events[0]]) + WithoutId(events[1..], id)
  }

  lemma Associate(a: seq<LogEvent>, b: seq<LogEvent>, c: seq<LogEvent>)
    ensures a + (b + c) == (a + b) + c
  {
  }

  lemma FirstOfSum(a: seq<LogEvent>, b: seq<LogEvent>)
    requires a != []
    ensures (a + b)[0] == a[0] && (a + b)[1..] == a[1..] + b
  {
  }

  lemma OthersFrom(a: seq<LogEvent>, b: seq<LogEvent>, cp: string)
    requires a != []
    ensures Others(a + b, cp) == (if a[0].chargePointId == cp then [] else [a[0]]) + Others(a[1..] + b, cp)
  {
    FirstOfSum(a, b);
  }

  /** What is kept keeps its order. */
  lemma {:induction false} OthersJoin(a: seq<LogEvent>, b: seq<LogEvent>, cp: string)
    ensures Others(a + b, cp) == Others(a, cp) + Others(b, cp)
  {
    if a == [] {
      assert a + b == b;
    } else {
      OthersFrom(a, b, cp);
      OthersJoin(a[1..], b, cp);
      Associate(if a[0].chargePointId == cp then [] else [a[0]], Others(a[1..], cp), Others(b, cp));
    }
  }

  lemma WithoutIdFrom(a: seq<LogEvent>, b: seq<LogEvent>, id: int)
    requires a != []
    ensures WithoutId(a + b, id) == (if a[0].id == id then [] else [a[0]]) + WithoutId(a[1..] + b, id)
  {
    FirstOfSum(a, b);
  }

  lemma {:induction false} WithoutIdJoin(a: seq<LogEvent>, b: seq<LogEvent>, id: int)
    ensures WithoutId(a + b, id) == WithoutId(a, id) + WithoutId(b, id)
  {
    if a == [] {
      assert a + b == b;
    } else {
      WithoutIdFrom(a, b, id);
      WithoutIdJoin(a[1..], b, id);
      Associate(if a[0].id == id then [] else [a[0]], WithoutId(a[1..], id), WithoutId(b, id));
    }
  }

  lemma OneAlone(e: LogEvent, cp: string, id: int)
    ensures Others([e], cp) == if e.chargePointId == cp then [] else [e]
    ensures WithoutId([e], id) == if e.id == id then [] else [e]
  {
    assert [e][1..] == [];
  }

  const MAX_EVENTS: nat := 100

  /** The list after an append: at most one event is dropped, so a list that a load made
      longer than 100 never gets shorter again by fresh events. */
  function Listed(events: seq<LogEvent>, e: LogEvent): (r: seq<LogEvent>)
    ensures r != [] && r[|r| - 1] == e
    ensures |r| <= if |events| < MAX_EVENTS then MAX_EVENTS else |events|
    ensures forall x :: x in r ==> x == e || (x in events && x.id != e.id)
    ensures (forall x :: x in events ==> x.id != e.id) ==>
              r == (if |events| < MAX_EVENTS then events else events[1..]) + [e]
    ensures |events| < MAX_EVENTS ==> forall x :: x in events && x.id != e.id ==> x in r
  {
    var kept := WithoutId(events, e.id) + [e];
    if |kept| > MAX_EVENTS then kept[1..] else kept
  }

  /** An event of an id that is listed replaces the one listed, and is the last from now on. */
  lemma ListedReplaces(a: seq<LogEvent>, listed: LogEvent, b: seq<LogEvent>, e: LogEvent)
    requires listed.id == e.id && (forall x :: x in a ==> x.id != e.id) && (forall x :: x in b ==> x.id != e.id)
    ensures Listed(a + ([listed] + b), e) == if |a + b| < 100 then (a + b) + [e] else (a + b)[1..] + [e]
  {
    WithoutIdJoin(a, [listed] + b, e.id);
    WithoutIdJoin([listed], b, e.id);
    OneAlone(listed, e.chargePointId, e.id);
    assert [] + b == b;
    assert WithoutId(a + ([listed] + b), e.id) == a + b;
    if |a + b| >= 100 {
      FirstOfSum(a + b, [e]);
    }
  }

  class RealtimeStore {
    var events: seq<LogEvent>
    var totalLogCounts: map<string, nat>
    const db: OcppLogStore

    constructor (db: OcppLogStore)
      ensures events == [] && totalLogCounts == map[] && this.db == db
    {
      events, totalLogCounts, this.db := [], map[], db;
    }

    function Total(cp: string): nat reads this {
      if cp in totalLogCounts then totalLogCounts[cp] else 0
    }

    /** The counter agrees with the table and the table is within its bound. */
    ghost predicate Counted(cp: string) reads this, db {
      Total(cp) == |For(db.Rows(), cp)| <= MAX_LOGS
    }

    /** A counter that agrees with the table goes on agreeing. */
    method AppendEvent(e: LogEvent)
      requires db.Valid()
      modifies this, db
      ensures db.Valid()
      ensures events == Listed(old(events), e)
      ensures totalLogCounts ==
              if old(Total(e.chargePointId)) < MAX_LOGS
              then old(totalLogCounts)[e.chargePointId := old(Total(e.chargePointId)) + 1]
              else old(totalLogCounts)
      ensures For(db.Rows(), e.chargePointId) == Pruned(old(db.Rows()), e)
      ensures forall r: LogEvent :: r.chargePointId != e.chargePointId ==>
                (r in db.Rows() <==> r in old(db.Rows()) && r.id != e.id)
      ensures old(Counted(e.chargePointId)) && Fresh(old(db.Rows()), e) ==> Counted(e.chargePointId)
    {
      events := WithoutId(events, e.id) + [e];
      if |events| > MAX_EVENTS {
        events := events[1..];
      }
      var current := Total(e.chargePointId);
      if current < MAX_LOGS {
        totalLogCounts := totalLogCounts[e.chargePointId := current + 1];
      }
      db.RowsAreKeyed();
      FreshAppendCounts(db.Rows(), e);
      db.AppendOcppLog(e);
    }

    method LoadEventsForChargePoint(cp: string)
      requires db.Valid()
      modifies this
      ensures exists loaded :: events == Others(old(events), cp) + loaded && SortedOldestFirst(loaded)
                && Elements(loaded) == Newest(For(db.Rows(), cp), 100)
      ensures totalLogCounts == old(totalLogCounts)[cp := Min(|For(db.Rows(), cp)|, MAX_LOGS)]
      ensures Counted(cp) <==> |For(db.Rows(), cp)| <= MAX_LOGS
    {
      var loaded := db.ListOcppLogs(cp, 100);
      events := Others(events, cp) + loaded;
      var count := db.CountOcppLogs(cp);
      totalLogCounts := totalLogCounts[cp := Min(count, MAX_LOGS)];
    }
  }
}
