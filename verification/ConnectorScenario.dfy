/** Overlapping creates gone wrong, from any tables and for any charge point in them: both list
    first and take one number, or the one that listed first stores its count last. */
module ConnectorScenario {
  import opened Wrappers
  import opened Connectors
  import opened ConnectorInterleaving

  /** The run with these moves, from tables `t`, ends in `s`. */
  ghost predicate After(t: Tables, ms: seq<Move>, s: Machine) {
    exists ss: seq<Machine> :: ConnectorInterleaving.IsRun(ss, ms) && ss[0].tables == t && ss[|ms|] == s
  }

  lemma AfterNext(t: Tables, ms: seq<Move>, s: Machine, m: Move)
    requires After(t, ms, s) && Can(s, m)
    ensures After(t, ms + [m], Next(s, m))
  {
    var ss: seq<Machine> :| ConnectorInterleaving.IsRun(ss, ms) && ss[0].tables == t && ss[|ms|] == s;
    var ss', ms' := ss + [Next(s, m)], ms + [m];
    forall i | 0 <= i < |ms'| ensures Can(ss'[i], ms'[i]) && ss'[i + 1] == Next(ss'[i], ms'[i]) {
      if i < |ms| { assert ss'[i] == ss[i] && ms'[i] == ms[i] && ss'[i + 1] == ss[i + 1]; }
    }
    assert ConnectorInterleaving.IsRun(ss', ms') && ss'[|ms'|] == Next(s, m);
  }

  lemma Begin(t: Tables)
    requires Consistent(t)
    ensures After(t, [], Machine(t, map[], t, map[]))
  {
    var ss := [Machine(t, map[], t, map[])];
    assert ConnectorInterleaving.IsRun(ss, []) && ss[0].tables == t;
  }

  ghost predicate Stage(s: Machine, t: nat, cp: string, rank: nat) {
    && t in s.creates && s.creates[t].chargePointId == cp
    && match rank
       case 0 => s.creates[t].ToList?
       case 1 => s.creates[t].ToAdd?
       case 2 => s.creates[t].ToPut?
       case _ => s.creates[t].Done?
  }

  /** What one move of create `t` does to who stands where. */
  lemma Advances(s: Machine, m: Move, u: nat, cp: string, rank: nat)
    requires Can(s, m)
    ensures m.t != u && Stage(s, u, cp, rank) ==> Stage(Next(s, m), u, cp, rank)
    ensures m.List? && Stage(s, m.t, cp, 0) ==> Stage(Next(s, m), m.t, cp, 1)
    ensures m.Add? && Stage(s, m.t, cp, 1) ==> Stage(Next(s, m), m.t, cp, 2)
    ensures m.Put? && Stage(s, m.t, cp, 2) ==> Stage(Next(s, m), m.t, cp, 3)
    ensures m.Read? ==> Stage(Next(s, m), m.t, m.cp, 0)
    ensures Next(s, m).creates.Keys == s.creates.Keys + {m.t}
    ensures cp in s.tables.chargePoints ==> cp in Next(s, m).tables.chargePoints
  {
  }

  /** Both creates have read the record. */
  lemma BothRead(t: Tables, cp: string) returns (s: Machine)
    requires Consistent(t) && cp in t.chargePoints
    ensures After(t, [Read(0, cp), Read(1, cp)], s)
    ensures s.creates.Keys == {0, 1} && Stage(s, 0, cp, 0) && Stage(s, 1, cp, 0)
  {
    Begin(t);
    var s0 := Machine(t, map[], t, map[]);
    AfterNext(t, [], s0, Read(0, cp));
    var s1 := Next(s0, Read(0, cp));
    AfterNext(t, [] + [Read(0, cp)], s1, Read(1, cp));
    s := Next(s1, Read(1, cp));
    assert [] + [Read(0, cp)] + [Read(1, cp)] == [Read(0, cp), Read(1, cp)];
  }

  lemma Lists(t: Tables, ms: seq<Move>, s: Machine, u: nat, cp: string) returns (n: nat, s': Machine)
    requires After(t, ms, s) && Stage(s, u, cp, 0)
    ensures After(t, ms + [List(u, n)], s') && Can(s, List(u, n)) && s' == Next(s, List(u, n))
  {
    n := LeastFreeExists(NumbersOf(s.tables.connectors, cp), 1);
    AfterNext(t, ms, s, List(u, n));
    s' := Next(s, List(u, n));
  }

  ghost predicate Finished(s: Machine, cp: string) {
    s.creates.Keys == {0, 1} && Stage(s, 0, cp, 3) && Stage(s, 1, cp, 3) && cp in s.tables.chargePoints
  }

  lemma Adds(t: Tables, ms: seq<Move>, s: Machine, u: nat, v: nat, cp: string, rank: nat) returns (s': Machine)
    requires After(t, ms, s) && u != v && Stage(s, u, cp, 1) && Stage(s, v, cp, rank)
    ensures After(t, ms + [Add(u, 0)], s') && Stage(s', u, cp, 2) && Stage(s', v, cp, rank)
    ensures s'.creates.Keys == s.creates.Keys
  {
    AfterNext(t, ms, s, Add(u, 0));
    s' := Next(s, Add(u, 0));
    Advances(s, Add(u, 0), v, cp, rank);
  }

  lemma ListsBeside(t: Tables, ms: seq<Move>, s: Machine, u: nat, v: nat, cp: string, rank: nat) returns (n: nat, s': Machine)
    requires After(t, ms, s) && u != v && Stage(s, u, cp, 0) && Stage(s, v, cp, rank)
    ensures After(t, ms + [List(u, n)], s') && Stage(s', u, cp, 1) && Stage(s', v, cp, rank)
    ensures s'.creates.Keys == s.creates.Keys
  {
    n, s' := Lists(t, ms, s, u, cp);
    Advances(s, List(u, n), v, cp, rank);
  }

  /** Read, read, list, list, add, add, put, put. */
  lemma BothListFirst(t: Tables, cp: string) returns (n: nat, k: nat, s: Machine)
    requires Consistent(t) && cp in t.chargePoints
    ensures After(t, [Read(0, cp), Read(1, cp), List(0, n), List(1, k), Add(0, 0), Add(1, 0), Put(0, 0), Put(1, 0)], s)
    ensures s.creates.Keys == {0, 1} && Stage(s, 0, cp, 3) && Stage(s, 1, cp, 3)
  {
    var ms := [Read(0, cp), Read(1, cp)];
    s := BothRead(t, cp);
    n, s := ListsBeside(t, ms, s, 0, 1, cp, 0);
    k, s := ListsBeside(t, ms + [List(0, n)], s, 1, 0, cp, 1);
    s := Adds(t, ms + [List(0, n)] + [List(1, k)], s, 0, 1, cp, 1);
    s := Adds(t, ms + [List(0, n)] + [List(1, k)] + [Add(0, 0)], s, 1, 0, cp, 2);
    s := BothPut(t, ms + [List(0, n)] + [List(1, k)] + [Add(0, 0)] + [Add(1, 0)], s, cp, 0, 1);
    Flatten(ms, List(0, n), List(1, k), Add(0, 0), Add(1, 0), Put(0, 0), Put(1, 0));
  }

  /** Read, read, list, add, list, add; then the second puts, and the first puts last. */
  lemma FirstPutsLast(t: Tables, cp: string) returns (n: nat, k: nat, s: Machine)
    requires Consistent(t) && cp in t.chargePoints
    ensures After(t, [Read(0, cp), Read(1, cp), List(0, n), Add(0, 0), List(1, k), Add(1, 0), Put(1, 0), Put(0, 0)], s)
    ensures s.creates.Keys == {0, 1} && Stage(s, 0, cp, 3) && Stage(s, 1, cp, 3)
  {
    var ms := [Read(0, cp), Read(1, cp)];
    s := BothRead(t, cp);
    n, s := ListsBeside(t, ms, s, 0, 1, cp, 0);
    s := Adds(t, ms + [List(0, n)], s, 0, 1, cp, 0);
    k, s := ListsBeside(t, ms + [List(0, n)] + [Add(0, 0)], s, 1, 0, cp, 2);
    s := Adds(t, ms + [List(0, n)] + [Add(0, 0)] + [List(1, k)], s, 1, 0, cp, 2);
    s := BothPut(t, ms + [List(0, n)] + [Add(0, 0)] + [List(1, k)] + [Add(1, 0)], s, cp, 1, 0);
    Flatten(ms, List(0, n), Add(0, 0), List(1, k), Add(1, 0), Put(1, 0), Put(0, 0));
  }

  lemma Flatten(ms: seq<Move>, a: Move, b: Move, c: Move, d: Move, e: Move, f: Move)
    requires |ms| == 2
    ensures ms + [a] + [b] + [c] + [d] + [e] + [f] == [ms[0], ms[1], a, b, c, d, e, f]
  {
  }

  lemma BothPut(t: Tables, ms: seq<Move>, s: Machine, cp: string, a: nat, b: nat) returns (s': Machine)
    requires After(t, ms, s) && a != b && Stage(s, a, cp, 2) && Stage(s, b, cp, 2)
    ensures After(t, ms + [Put(a, 0)] + [Put(b, 0)], s')
    ensures s'.creates.Keys == s.creates.Keys && Stage(s', a, cp, 3) && Stage(s', b, cp, 3)
  {
    AfterNext(t, ms, s, Put(a, 0));
    var s1 := Next(s, Put(a, 0));
    Advances(s, Put(a, 0), b, cp, 2);
    AfterNext(t, ms + [Put(a, 0)], s1, Put(b, 0));
    s' := Next(s1, Put(b, 0));
    Advances(s1, Put(b, 0), a, cp, 3);
    assert {a, b} <= s.creates.Keys;
  }

  /** Whatever the tables: both creates take the same number, and the count stored misses a row. */
  lemma CreatesCollide(t: Tables, cp: string)
    requires Consistent(t) && cp in t.chargePoints
    ensures exists n, k, s :: (
      && After(t, [Read(0, cp), Read(1, cp), List(0, n), List(1, k), Add(0, 0), Add(1, 0), Put(0, 0), Put(1, 0)], s)
      && Finished(s, cp) && s.creates[0].number == s.creates[1].number
      && s.tables.chargePoints[cp].connectorCount != |KeysOf(s.tables.connectors, cp)|)
  {
    var n, k, s := BothListFirst(t, cp);
    JudgeTwo(t, [Read(0, cp), Read(1, cp), List(0, n), List(1, k), Add(0, 0), Add(1, 0), Put(0, 0), Put(1, 0)], s, cp,
             0, 1, Places(2, 4, 6), Places(3, 5, 7));
  }

  /** Whatever the tables: the numbers differ, and still the count stored misses a row. */
  lemma StaleCountStored(t: Tables, cp: string)
    requires Consistent(t) && cp in t.chargePoints
    ensures exists n, k, s :: (
      && After(t, [Read(0, cp), Read(1, cp), List(0, n), Add(0, 0), List(1, k), Add(1, 0), Put(1, 0), Put(0, 0)], s)
      && Finished(s, cp) && s.creates[0].number != s.creates[1].number
      && s.tables.chargePoints[cp].connectorCount != |KeysOf(s.tables.connectors, cp)|)
  {
    var n, k, s := FirstPutsLast(t, cp);
    JudgeTwo(t, [Read(0, cp), Read(1, cp), List(0, n), Add(0, 0), List(1, k), Add(1, 0), Put(1, 0), Put(0, 0)], s, cp,
             1, 0, Places(4, 5, 6), Places(2, 3, 7));
  }

  /** The two exact conditions, read off a run. */
  lemma JudgeTwo(t: Tables, ms: seq<Move>, s: Machine, cp: string, a: nat, b: nat, p: Places, q: Places)
    requires After(t, ms, s) && {a, b} == {0, 1} && a != b && Took(ms, a, p) && Took(ms, b, q) && p.put < q.put
    requires s.creates.Keys == {0, 1} && Stage(s, 0, cp, 3) && Stage(s, 1, cp, 3)
    ensures Finished(s, cp)
    ensures s.creates[0].number == s.creates[1].number <==> p.list < q.add && q.list < p.add
    ensures s.tables.chargePoints[cp].connectorCount == |KeysOf(s.tables.connectors, cp)| <==> p.add < q.list
  {
    var ss: seq<Machine> :| ConnectorInterleaving.IsRun(ss, ms) && ss[0].tables == t && ss[|ms|] == s;
    assert a in {0, 1} && b in {0, 1};
    TwoNumbersExactly(ss, ms, cp, a, b, p, q);
    TwoCountsExactly(ss, ms, cp, a, b, p, q);
  }
}
