/** The newest `k` of a finite set of log rows, ordered by timestamp and then id. */
module LogOrder {
  import opened Wrappers

  /** `id` and `timestamp` are keys of a total order. */
  datatype LogEvent = LogEvent(id: int, chargePointId: string, timestamp: int)

  predicate Older(a: LogEvent, b: LogEvent) {
    a.timestamp < b.timestamp || (a.timestamp == b.timestamp && a.id < b.id)
  }

  ghost predicate DistinctIds(rows: set<LogEvent>) {
    forall a, b :: a in rows && b in rows && a.id == b.id ==> a == b
  }

  ghost function NewerThan(rows: set<LogEvent>, r: LogEvent): set<LogEvent> {
    set x | x in rows && Older(r, x)
  }

  ghost predicate Outranked(rows: set<LogEvent>, r: LogEvent, k: nat) {
    |NewerThan(rows, r)| >= k
  }

  ghost function Newest(rows: set<LogEvent>, k: nat): set<LogEvent> {
    set r | r in rows && !Outranked(rows, r, k)
  }

  function Min(a: nat, b: nat): nat { if a < b then a else b }

  lemma {:induction false} SubsetIsSmaller<T>(a: set<T>, b: set<T>)
    requires a <= b
    ensures |a| <= |b|
    ensures |a| == |b| ==> a == b
    decreases |a|
  {
    if a != {} {
      var x :| x in a;
      SubsetIsSmaller(a - {x}, b - {x});
      assert |a - {x}| == |a| - 1 && |b - {x}| == |b| - 1;
      if |a| == |b| {
        assert a == (a - {x}) + {x} && b == (b - {x}) + {x};
      }
    }
  }

  lemma {:induction false} OldestExists(rows: set<LogEvent>) returns (r: LogEvent)
    requires rows != {} && DistinctIds(rows)
    ensures r in rows && forall x :: x in rows && x != r ==> Older(r, x)
    decreases |rows|
  {
    r :| r in rows;
    if rows != {r} {
      var rest := rows - {r};
      assert rest != {};
      var o := OldestExists(rest);
      assert o.id != r.id;
      var least := if Older(o, r) then o else r;
      forall x | x in rows && x != least ensures Older(least, x) {
        assert x == r || x == o || Older(o, x);
      }
      r := least;
    }
  }

  lemma MoreRowsOutrank(rows: set<LogEvent>, more: set<LogEvent>, r: LogEvent, k: nat)
    requires rows <= more && Outranked(rows, r, k)
    ensures Outranked(more, r, k)
  {
    SubsetIsSmaller(NewerThan(rows, r), NewerThan(more, r));
  }

  lemma {:induction false} NewestSize(rows: set<LogEvent>, k: nat)
    requires DistinctIds(rows)
    ensures |Newest(rows, k)| == Min(k, |rows|)
    decreases |rows|
  {
    if |rows| <= k {
      forall r | r in rows ensures !Outranked(rows, r, k) {
        SubsetIsSmaller(NewerThan(rows, r), rows - {r});
      }
      assert Newest(rows, k) == rows;
    } else {
      var o := OldestExists(rows);
      var rest := rows - {o};
      NewestSize(rest, k);
      assert NewerThan(rows, o) == rest;
      forall r | r in rest ensures NewerThan(rows, r) == NewerThan(rest, r) {
      }
      assert Newest(rows, k) == Newest(rest, k);
    }
  }

  /** A row outranked in a set is outranked by that set's newest alone. */
  lemma NewestOutrank(rows: set<LogEvent>, kept: set<LogEvent>, r: LogEvent, k: nat)
    requires DistinctIds(rows) && r in rows && Outranked(rows, r, k)
    requires Newest(rows, k) <= kept
    ensures Outranked(kept, r, k)
  {
    SubsetIsSmaller(NewerThan(rows, r), rows);
    NewestSize(rows, k);
    forall x | x in Newest(rows, k) ensures Older(r, x) {
      if !Older(r, x) {
        assert x == r || Older(x, r);
        assert NewerThan(rows, r) <= NewerThan(rows, x);
        SubsetIsSmaller(NewerThan(rows, r), NewerThan(rows, x));
      }
    }
    SubsetIsSmaller(Newest(rows, k), NewerThan(kept, r));
  }

  // ----- Sorting oldest first and cutting off the front -----

  ghost predicate SortedOldestFirst(s: seq<LogEvent>) {
    forall i, j :: 0 <= i < j < |s| ==> Older(s[i], s[j])
  }

  ghost function Elements(s: seq<LogEvent>): set<LogEvent> {
    set r | r in s
  }

  lemma {:induction false} ElementsSize(s: seq<LogEvent>)
    requires SortedOldestFirst(s)
    ensures |Elements(s)| == |s|
    decreases |s|
  {
    if s != [] {
      var last := s[|s| - 1];
      var front := s[..|s| - 1];
      ElementsSize(front);
      assert s == front + [last];
      assert last !in front;
      assert Elements(s) == Elements(front) + {last};
    }
  }

  lemma RankInSorted(s: seq<LogEvent>, i: nat)
    requires SortedOldestFirst(s) && i < |s|
    ensures |NewerThan(Elements(s), s[i])| == |s| - 1 - i
  {
    var tail := s[i + 1..];
    ElementsSize(tail);
    assert NewerThan(Elements(s), s[i]) == Elements(tail) by {
      forall x | x in NewerThan(Elements(s), s[i]) ensures x in tail {
        var j :| 0 <= j < |s| && s[j] == x;
        assert j > i;
        assert tail[j - i - 1] == x;
      }
      forall x | x in tail ensures x in NewerThan(Elements(s), s[i]) {
        var j :| 0 <= j < |tail| && tail[j] == x;
        assert s[i + 1 + j] == x;
      }
    }
  }

  /** `rows.sort(...)` then `rows.slice(0, rows.length - k)`: what is cut off is what is outranked. */
  lemma FrontIsOutranked(s: seq<LogEvent>, k: nat)
    requires SortedOldestFirst(s)
    ensures forall i :: 0 <= i < |s| ==> (i < |s| - k <==> Outranked(Elements(s), s[i], k))
  {
    forall i | 0 <= i < |s| ensures i < |s| - k <==> Outranked(Elements(s), s[i], k) {
      RankInSorted(s, i);
    }
  }
}
