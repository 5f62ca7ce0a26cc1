/**
 * What a query sees of a table: `collect()` in creation order, `.order("desc")`, `.filter(...)`
 * and the `reduce` sums the dashboard computes over the collected documents.
 */
module Tables {
  import opened Base

  /** A document as a query returns it: its `_id` and its fields. */
  datatype Row<T> = Row(id: Id, doc: T)

  /** Every id of the table lies below the store's next id (ids are handed out in order). */
  predicate KeysBelow<T>(m: map<Id, T>, bound: nat)
  {
    forall id :: id in m ==> id < bound
  }

  /** `ctx.db.query(table).collect()`: the documents, oldest first. */
  function Collect<T>(m: map<Id, T>, bound: nat): seq<Row<T>>
  {
    if bound == 0 then []
    else Collect(m, bound - 1) + (if bound - 1 in m then [Row(bound - 1, m[bound - 1])] else [])
  }

  /** `ctx.db.query(table).order("desc").collect()`: the documents, newest first. */
  function CollectDesc<T>(m: map<Id, T>, bound: nat): seq<Row<T>>
  {
    if bound == 0 then []
    else (if bound - 1 in m then [Row(bound - 1, m[bound - 1])] else []) + CollectDesc(m, bound - 1)
  }

  predicate Ascending<T>(rows: seq<Row<T>>)
  {
    forall i, j :: 0 <= i < j < |rows| ==> rows[i].id < rows[j].id
  }

  predicate Descending<T>(rows: seq<Row<T>>)
  {
    forall i, j :: 0 <= i < j < |rows| ==> rows[i].id > rows[j].id
  }

  /** The first two rows of an ascending result are two different rows of it. */
  lemma FirstTwoRows<T>(rows: seq<Row<T>>)
    requires Ascending(rows) && |rows| >= 2
    ensures rows[0] in rows && rows[1] in rows && rows[0].id < rows[1].id
  {
  }

  /** An ascending result whose rows all share one id has at most one row. */
  lemma AscendingOneId<T>(rows: seq<Row<T>>)
    requires Ascending(rows)
    requires forall i, j :: 0 <= i < |rows| && 0 <= j < |rows| ==> rows[i].id == rows[j].id
    ensures |rows| <= 1
  {
    if |rows| >= 2 {
      FirstTwoRows(rows);
      assert false;
    }
  }

  /** A document of the table, read by id. */
  ghost predicate InTable<T>(m: map<Id, T>, r: Row<T>)
  {
    r.id in m && m[r.id] == r.doc
  }

  lemma {:induction false} CollectIsTable<T>(m: map<Id, T>, bound: nat)
    ensures forall r :: r in Collect(m, bound) ==> r.id < bound && InTable(m, r)
    ensures forall r: Row<T> :: r.id < bound && InTable(m, r) ==> r in Collect(m, bound)
    ensures Ascending(Collect(m, bound))
  {
    if bound > 0 {
      CollectIsTable(m, bound - 1);
      var prev := Collect(m, bound - 1);
      forall i | 0 <= i < |prev| ensures prev[i].id < bound - 1 {
        assert prev[i] in prev;
      }
    }
  }

  lemma {:induction false} CollectDescIsTable<T>(m: map<Id, T>, bound: nat)
    ensures forall r :: r in CollectDesc(m, bound) ==> r.id < bound && InTable(m, r)
    ensures forall r: Row<T> :: r.id < bound && InTable(m, r) ==> r in CollectDesc(m, bound)
    ensures Descending(CollectDesc(m, bound))
  {
    if bound > 0 {
      CollectDescIsTable(m, bound - 1);
      var rest := CollectDesc(m, bound - 1);
      forall i | 0 <= i < |rest| ensures rest[i].id < bound - 1 {
        assert rest[i] in rest;
      }
    }
  }

  /** Collecting a table whose ids are all below the bound yields each of its documents once. */
  lemma CollectExactly<T>(m: map<Id, T>, bound: nat)
    requires KeysBelow(m, bound)
    ensures forall r :: r in Collect(m, bound) ==> InTable(m, r)
    ensures forall r: Row<T> :: InTable(m, r) ==> r in Collect(m, bound)
    ensures forall r :: r in CollectDesc(m, bound) ==> InTable(m, r)
    ensures forall r: Row<T> :: InTable(m, r) ==> r in CollectDesc(m, bound)
    ensures Ascending(Collect(m, bound)) && Descending(CollectDesc(m, bound))
  {
    CollectIsTable(m, bound);
    CollectDescIsTable(m, bound);
  }

  /** `ctx.db.get(id)`: the document with that id, or nothing when there is none. */
  function Get<T>(m: map<Id, T>, id: Id): (r: Option<T>)
    ensures r.Some? <==> id in m
    ensures r.Some? ==> InTable(m, Row(id, r.value))
  {
    if id in m then Some(m[id]) else None
  }

  /** Reading a document by id finds exactly the documents that collecting the table lists. */
  lemma GetAgreesWithCollect<T>(m: map<Id, T>, bound: nat, id: Id, doc: T)
    requires KeysBelow(m, bound)
    ensures Get(m, id) == Some(doc) <==> Row(id, doc) in Collect(m, bound)
  {
    CollectExactly(m, bound);
  }

  /** `ctx.db.query(table).collect()` as a handler returns it: every document, oldest first. */
  function All<T>(m: map<Id, T>, bound: nat): (rows: seq<Row<T>>)
    ensures forall r :: r in rows ==> InTable(m, r)
    ensures Ascending(rows)
    ensures KeysBelow(m, bound) ==> |rows| == |m| && forall id :: id in m ==> Row(id, m[id]) in rows
  {
    CollectIsTable(m, bound);
    assert forall id :: id in m ==> InTable(m, Row(id, m[id]));
    CollectSize(m, bound);
    Collect(m, bound)
  }

  /** The number of collected rows is the number of ids below the bound. */
  lemma {:induction false} CollectCount<T>(m: map<Id, T>, bound: nat)
    ensures |Collect(m, bound)| == |set id | id in m && id < bound|
  {
    if bound > 0 {
      CollectCount(m, bound - 1);
      var below := set id | id in m && id < bound - 1;
      var upTo := set id | id in m && id < bound;
      if bound - 1 in m {
        assert upTo == below + {bound - 1};
      } else {
        assert upTo == below;
      }
    }
  }

  /** `users.length` after `collect()` is the size of the table. */
  lemma CollectLength<T>(m: map<Id, T>, bound: nat)
    requires KeysBelow(m, bound)
    ensures |Collect(m, bound)| == |m|
  {
    CollectCount(m, bound);
    assert (set id | id in m && id < bound) == m.Keys;
  }

  /** The same, stated for any bound: a bound above every id collects the whole table. */
  lemma CollectSize<T>(m: map<Id, T>, bound: nat)
    ensures KeysBelow(m, bound) ==> |Collect(m, bound)| == |m|
  {
    if KeysBelow(m, bound) {
      CollectLength(m, bound);
    }
  }

  /** A filter over a collected table keeps as many rows as the table has documents satisfying p. */
  lemma {:induction false} FilterCount<T>(m: map<Id, T>, bound: nat, p: T -> bool)
    ensures |Filter(Collect(m, bound), p)| == |set id | id in m && id < bound && p(m[id])|
  {
    if bound > 0 {
      FilterCount(m, bound - 1, p);
      var last := if bound - 1 in m then [Row(bound - 1, m[bound - 1])] else [];
      FilterAppend(Collect(m, bound - 1), last, p);
      var below := set id | id in m && id < bound - 1 && p(m[id]);
      var upTo := set id | id in m && id < bound && p(m[id]);
      if bound - 1 in m && p(m[bound - 1]) {
        assert upTo == below + {bound - 1};
      } else {
        assert upTo == below;
      }
    }
  }

  /** The ids of the documents of the table that satisfy p. */
  function Matching<T>(m: map<Id, T>, p: T -> bool): set<Id>
  {
    set id | id in m && p(m[id])
  }

  /** The same count over the whole table, when every id lies below the bound. */
  lemma FilterCountAll<T>(m: map<Id, T>, bound: nat, p: T -> bool)
    requires KeysBelow(m, bound)
    ensures |Filter(Collect(m, bound), p)| == |Matching(m, p)|
  {
    FilterCount(m, bound, p);
    assert (set id | id in m && id < bound && p(m[id])) == Matching(m, p);
  }

  lemma {:induction false} FilterAppend<T>(a: seq<Row<T>>, b: seq<Row<T>>, p: T -> bool)
    ensures Filter(a + b, p) == Filter(a, p) + Filter(b, p)
  {
    if a != [] {
      assert (a + b)[1..] == a[1..] + b;
      FilterAppend(a[1..], b, p);
    } else {
      assert a + b == b;
    }
  }

  /** `.filter(...)` on documents, keeping the query's order. */
  function Filter<T>(rows: seq<Row<T>>, p: T -> bool): (r: seq<Row<T>>)
    ensures |r| <= |rows|
  {
    if rows == [] then []
    else (if p(rows[0].doc) then [rows[0]] else []) + Filter(rows[1..], p)
  }

  lemma {:induction false} FilterMembers<T>(rows: seq<Row<T>>, p: T -> bool)
    ensures forall r :: r in Filter(rows, p) ==> r in rows && p(r.doc)
    ensures forall r: Row<T> :: r in rows && p(r.doc) ==> r in Filter(rows, p)
  {
    if rows != [] {
      FilterMembers(rows[1..], p);
      assert rows == [rows[0]] + rows[1..];
    }
  }

  /** Filtering keeps the order of the query. */
  lemma FilterKeepsOrder<T>(rows: seq<Row<T>>, p: T -> bool)
    ensures Descending(rows) ==> Descending(Filter(rows, p))
    ensures Ascending(rows) ==> Ascending(Filter(rows, p))
  {
    if Descending(rows) {
      FilterDescending(rows, p);
    }
    if Ascending(rows) {
      FilterAscending(rows, p);
    }
  }

  lemma {:induction false} FilterAscending<T>(rows: seq<Row<T>>, p: T -> bool)
    requires Ascending(rows)
    ensures Ascending(Filter(rows, p))
  {
    if rows != [] {
      AscendingTail(rows);
      FilterAscending(rows[1..], p);
      FilterMembers(rows[1..], p);
      ConsAscending(rows[0], Filter(rows[1..], p));
    }
  }

  lemma {:induction false} FilterDescending<T>(rows: seq<Row<T>>, p: T -> bool)
    requires Descending(rows)
    ensures Descending(Filter(rows, p))
  {
    if rows != [] {
      DescendingTail(rows);
      FilterDescending(rows[1..], p);
      FilterMembers(rows[1..], p);
      ConsDescending(rows[0], Filter(rows[1..], p));
    }
  }

  /** Past its first row, an ascending sequence stays ascending and lies above that row. */
  lemma AscendingTail<T>(rows: seq<Row<T>>)
    requires Ascending(rows) && rows != []
    ensures Ascending(rows[1..])
    ensures forall r :: r in rows[1..] ==> rows[0].id < r.id
  {
    forall r | r in rows[1..] ensures rows[0].id < r.id {
      var j :| 0 <= j < |rows[1..]| && rows[1..][j] == r;
      assert rows[j + 1] == r;
    }
  }

  lemma DescendingTail<T>(rows: seq<Row<T>>)
    requires Descending(rows) && rows != []
    ensures Descending(rows[1..])
    ensures forall r :: r in rows[1..] ==> rows[0].id > r.id
  {
    forall r | r in rows[1..] ensures rows[0].id > r.id {
      var j :| 0 <= j < |rows[1..]| && rows[1..][j] == r;
      assert rows[j + 1] == r;
    }
  }

  /** A row below every row of an ascending sequence can go in front of it. */
  lemma ConsAscending<T>(x: Row<T>, tail: seq<Row<T>>)
    requires Ascending(tail) && forall r :: r in tail ==> x.id < r.id
    ensures Ascending([x] + tail)
    ensures Ascending(tail)
  {
    var s := [x] + tail;
    forall i, j | 0 <= i < j < |s| ensures s[i].id < s[j].id {
      assert s[j] == tail[j - 1] && tail[j - 1] in tail;
      if i > 0 {
        assert s[i] == tail[i - 1];
      }
    }
  }

  lemma ConsDescending<T>(x: Row<T>, tail: seq<Row<T>>)
    requires Descending(tail) && forall r :: r in tail ==> x.id > r.id
    ensures Descending([x] + tail)
    ensures Descending(tail)
  {
    var s := [x] + tail;
    forall i, j | 0 <= i < j < |s| ensures s[i].id > s[j].id {
      assert s[j] == tail[j - 1] && tail[j - 1] in tail;
      if i > 0 {
        assert s[i] == tail[i - 1];
      }
    }
  }

  /** A filter over a collected table: the documents of the table that satisfy p, in order. */
  lemma QueryExactly<T>(m: map<Id, T>, bound: nat, p: T -> bool)
    requires KeysBelow(m, bound)
    ensures forall r :: r in Filter(CollectDesc(m, bound), p) ==> InTable(m, r) && p(r.doc)
    ensures forall r: Row<T> :: InTable(m, r) && p(r.doc) ==> r in Filter(CollectDesc(m, bound), p)
    ensures Descending(Filter(CollectDesc(m, bound), p))
    ensures forall r :: r in Filter(Collect(m, bound), p) ==> InTable(m, r) && p(r.doc)
    ensures forall r: Row<T> :: InTable(m, r) && p(r.doc) ==> r in Filter(Collect(m, bound), p)
    ensures Ascending(Filter(Collect(m, bound), p))
  {
    CollectExactly(m, bound);
    FilterMembers(CollectDesc(m, bound), p);
    FilterKeepsOrder(CollectDesc(m, bound), p);
    FilterMembers(Collect(m, bound), p);
    FilterKeepsOrder(Collect(m, bound), p);
  }

  /** `rows.reduce((acc, r) => acc + f(r), 0)`. */
  function SumOf<T>(rows: seq<Row<T>>, f: T -> nat): nat
  {
    if rows == [] then 0 else f(rows[0].doc) + SumOf(rows[1..], f)
  }

  /**
   * A sum over a table splits into the part that satisfies p and the part that satisfies its
   * negation q: per-author totals add up to the global total.
   */
  lemma {:induction false} SumSplits<T>(rows: seq<Row<T>>, f: T -> nat, p: T -> bool, q: T -> bool)
    requires forall x :: q(x) == !p(x)
    ensures SumOf(rows, f) == SumOf(Filter(rows, p), f) + SumOf(Filter(rows, q), f)
  {
    if rows != [] {
      SumSplits(rows[1..], f, p, q);
      var yes, no := Filter(rows[1..], p), Filter(rows[1..], q);
      if p(rows[0].doc) {
        assert Filter(rows, p) == [rows[0]] + yes && Filter(rows, q) == no;
        assert ([rows[0]] + yes)[1..] == yes;
      } else {
        assert Filter(rows, p) == yes && Filter(rows, q) == [rows[0]] + no;
        assert ([rows[0]] + no)[1..] == no;
      }
    }
  }

  /** The sum over part of a table never exceeds the sum over the whole table. */
  lemma FilteredSumBounded<T>(rows: seq<Row<T>>, f: T -> nat, p: T -> bool)
    ensures SumOf(Filter(rows, p), f) <= SumOf(rows, f)
  {
    SumSplits(rows, f, p, x => !p(x));
  }

  /** The rows satisfying p and the rows satisfying its negation q add up to the whole. */
  lemma {:induction false} CountSplits<T>(rows: seq<Row<T>>, p: T -> bool, q: T -> bool)
    requires forall x :: q(x) == !p(x)
    ensures |Filter(rows, p)| + |Filter(rows, q)| == |rows|
  {
    if rows != [] {
      CountSplits(rows[1..], p, q);
    }
  }

  /** `.take(limit)`, applied only when the optional limit is truthy (present and not 0). */
  function Limit<T>(rows: seq<T>, limit: Option<nat>): (r: seq<T>)
    ensures limit.None? || limit.value == 0 ==> r == rows
    ensures limit.Some? && limit.value > 0 ==> |r| == if limit.value < |rows| then limit.value else |rows|
    ensures |r| <= |rows| && r == rows[..|r|]
  {
    if limit.Some? && 0 < limit.value < |rows| then rows[..limit.value] else rows
  }

  /**
   * `ctx.db.query(table).filter(p).order("desc")`, cut to the optional limit: documents of the
   * table that satisfy p, newest first, and without a limit all of them.
   */
  function QueryDesc<T(!new)>(m: map<Id, T>, bound: nat, p: T -> bool, limit: Option<nat>): (rows: seq<Row<T>>)
    ensures forall r :: r in rows ==> InTable(m, r) && p(r.doc)
    ensures Descending(rows)
    ensures KeysBelow(m, bound) && (limit.None? || limit.value == 0) ==>
      forall r: Row<T> :: InTable(m, r) && p(r.doc) ==> r in rows
    ensures limit.None? ==> rows == Filter(CollectDesc(m, bound), p)
    ensures limit.Some? && limit.value > 0 ==>
      var all := Filter(CollectDesc(m, bound), p);
      rows == all[..if limit.value < |all| then limit.value else |all|]
  {
    var all := Filter(CollectDesc(m, bound), p);
    CollectDescIsTable(m, bound);
    FilterMembers(CollectDesc(m, bound), p);
    FilterKeepsOrder(CollectDesc(m, bound), p);
    PrefixKeeps(all, Limit(all, limit));
    Limit(all, limit)
  }

  /**
   * The limited query as the handlers write it: `q = q.take(limit)` and then `q.collect()`.
   * `take` already returns the rows, as a promise that has no `collect`, so a truthy limit makes
   * the handler fail; a falsy one leaves the query unlimited.
   */
  function QueryDescAsWritten<T(!new)>(m: map<Id, T>, bound: nat, p: T -> bool, limit: Option<nat>)
    : (r: Result<seq<Row<T>>>)
    ensures r.Err? <==> limit.Some? && limit.value > 0
    ensures r.Err? ==> r.error == TypeError
    ensures r.Ok? ==> r.value == QueryDesc(m, bound, p, limit) && r.value == Filter(CollectDesc(m, bound), p)
  {
    if limit.Some? && limit.value > 0 then Err(TypeError) else Ok(QueryDesc(m, bound, p, None))
  }

  /**
   * Every truthy limit separates the two readings: as written the handler fails, while the
   * intended query returns at most `n` matching rows, newest first.
   */
  lemma TakeThenCollectFails<T(!new)>(m: map<Id, T>, bound: nat, p: T -> bool, n: nat)
    requires n > 0
    ensures QueryDescAsWritten(m, bound, p, Some(n)) == Err(TypeError)
    ensures |QueryDesc(m, bound, p, Some(n))| <= n
  {
  }

  /** A prefix of a query's rows keeps their order and holds only rows of the query. */
  lemma PrefixKeeps<T>(rows: seq<Row<T>>, pre: seq<Row<T>>)
    requires |pre| <= |rows| && pre == rows[..|pre|]
    ensures forall r :: r in pre ==> r in rows
    ensures Descending(rows) ==> Descending(pre)
  {
    forall r | r in pre ensures r in rows {
      var i :| 0 <= i < |pre| && pre[i] == r;
      assert rows[i] == r;
    }
    if Descending(rows) {
      forall i, j | 0 <= i < j < |pre| ensures pre[i].id > pre[j].id {
        assert pre[i] == rows[i] && pre[j] == rows[j];
      }
    }
  }

  /**
   * `ctx.db.query(table).filter(p).collect()`: documents of the table that satisfy p, oldest
   * first, and all of them.
   */
  function QueryAsc<T(!new)>(m: map<Id, T>, bound: nat, p: T -> bool): (rows: seq<Row<T>>)
    ensures forall r :: r in rows ==> InTable(m, r) && p(r.doc)
    ensures Ascending(rows)
    ensures KeysBelow(m, bound) ==> forall r: Row<T> :: InTable(m, r) && p(r.doc) ==> r in rows
  {
    CollectIsTable(m, bound);
    FilterMembers(Collect(m, bound), p);
    FilterKeepsOrder(Collect(m, bound), p);
    Filter(Collect(m, bound), p)
  }

  /**
   * `limit ? rows.slice(0, limit) : rows`: a positive limit keeps that many rows from the
   * front, a negative one drops that many from the back, 0 or none keeps all.
   */
  function SliceLimit<T>(rows: seq<T>, limit: Option<int>): (r: seq<T>)
    ensures limit.None? || limit.value == 0 ==> r == rows
    ensures limit.Some? && limit.value > 0 ==> |r| == if limit.value < |rows| then limit.value else |rows|
    ensures limit.Some? && limit.value < 0 ==> |r| == if |rows| + limit.value > 0 then |rows| + limit.value else 0
    ensures |r| <= |rows| && r == rows[..|r|]
  {
    if limit.None? || limit.value == 0 then rows
    else if limit.value > 0 then (if limit.value < |rows| then rows[..limit.value] else rows)
    else if |rows| + limit.value > 0 then rows[..|rows| + limit.value]
    else []
  }

  /** Newest first or oldest first, a collected table has the same number of rows. */
  lemma {:induction false} CollectDescLength<T>(m: map<Id, T>, bound: nat)
    requires KeysBelow(m, bound)
    ensures |CollectDesc(m, bound)| == |m|
  {
    SameLength(m, bound);
    CollectLength(m, bound);
  }

  lemma {:induction false} SameLength<T>(m: map<Id, T>, bound: nat)
    ensures |CollectDesc(m, bound)| == |Collect(m, bound)|
  {
    if bound > 0 {
      SameLength(m, bound - 1);
    }
  }
}
