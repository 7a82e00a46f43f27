/** What a limit on an eager-loading query means: it is spent on all parents together, not
    on each of them (ent/attachment_query.go, ent/media_query.go). */
module EagerLimits {
  import opened Collections
  import opened EagerLoading

  predicate OneKey(rows: seq<Row>, fk: Column, u: Value) {
    forall r :: r in rows ==> Get(r, fk) == u
  }

  predicate Lacks(rows: seq<Row>, fk: Column, u: Value) {
    forall r :: r in rows ==> Get(r, fk) != u
  }

  lemma {:induction false} SelectAll(rows: seq<Row>, fk: Column, id: Value)
    requires OneKey(rows, fk, id)
    ensures Select(rows, fk, id) == rows
  {
    if rows == [] {
    } else {
      SelectAll(rows[..|rows| - 1], fk, id);
    }
  }

  lemma {:induction false} SelectAtMost(rows: seq<Row>, fk: Column, id: Value)
    ensures |Select(rows, fk, id)| <= |rows|
  {
    if rows == [] {
    } else {
      SelectAtMost(rows[..|rows| - 1], fk, id);
    }
  }

  lemma SelectFewer(rows: seq<Row>, fk: Column, id: Value)
    requires !OneKey(rows, fk, id)
    ensures |Select(rows, fk, id)| < |rows|
  {
    var r :| r in rows && Get(r, fk) != id;
    var j :| 0 <= j < |rows| && rows[j] == r;
    var before, after := rows[..j], rows[j + 1..];
    assert rows == before + [r] + after;
    SelectConcat(before + [r], after, fk, id);
    SelectAppend(before, r, fk, id);
    SelectAtMost(before, fk, id);
    SelectAtMost(after, fk, id);
  }

  lemma {:induction false} SelectNone(rows: seq<Row>, fk: Column, id: Value)
    requires Lacks(rows, fk, id)
    ensures Select(rows, fk, id) == []
  {
    if rows == [] {
    } else {
      SelectNone(rows[..|rows| - 1], fk, id);
    }
  }

  /** The first n rows: an answer under Limit(n). */
  function FirstRows(rows: seq<Row>, n: Positive): (first: seq<Row>)
    ensures first == if |rows| <= n then rows else rows[..n]
  {
    Cut(rows, Window(0, n))
  }

  /** Every parent's list is the first n rows of its own query exactly when the answer has
      no more than n rows at all, or all of them name one parent. */
  lemma LimitPerParent(rows: seq<Row>, columns: seq<Column>, keep: Row -> bool, fk: Column, ids: set<Value>,
                       n: Positive)
    requires fk in columns && Null !in ids
    ensures var found := Neighbours(rows, columns, keep, fk, ids);
            (forall v :: v in ids ==>
               Select(FirstRows(found, n), fk, v) == FirstRows(Matching(rows, columns, keep, fk, v), n)) <==>
            |found| <= n || exists u :: u in ids && OneKey(found, fk, u)
  {
    hide Select, Neighbours, Matching, FirstRows;
    var found := Neighbours(rows, columns, keep, fk, ids);
    NeighboursKnown(rows, columns, keep, fk, ids);
    forall v | v in ids ensures Matching(rows, columns, keep, fk, v) == Select(found, fk, v) {
      SelectNeighbours(rows, columns, keep, fk, ids, v);
    }
    if |found| <= n || exists u :: u in ids && OneKey(found, fk, u) {
      forall v | v in ids ensures Select(FirstRows(found, n), fk, v) == FirstRows(Select(found, fk, v), n) {
        LimitKeeps(found, fk, n, v);
      }
    } else {
      assert found[0] in found;
      var v := LimitStarves(found, fk, n);
      assert v in ids;
    }
  }

  lemma LimitKeeps(found: seq<Row>, fk: Column, n: Positive, v: Value)
    requires |found| <= n || exists u :: OneKey(found, fk, u)
    ensures Select(FirstRows(found, n), fk, v) == FirstRows(Select(found, fk, v), n)
  {
    hide Select;
    SelectAtMost(found, fk, v);
    if |found| > n {
      var u :| OneKey(found, fk, u);
      assert OneKey(FirstRows(found, n), fk, u);
      if u == v {
        SelectAll(found, fk, v);
        SelectAll(FirstRows(found, n), fk, v);
      } else {
        assert found[0] in found;
        SelectNone(found, fk, v);
        SelectNone(FirstRows(found, n), fk, v);
      }
    }
  }

  /** Otherwise some parent gets fewer rows than its own query would give it. */
  lemma LimitStarves(found: seq<Row>, fk: Column, n: Positive) returns (v: Value)
    requires |found| > n && !OneKey(found, fk, Get(found[0], fk))
    ensures exists r :: r in found && Get(r, fk) == v
    ensures |Select(FirstRows(found, n), fk, v)| < |FirstRows(Select(found, fk, v), n)|
  {
    var first, rest, u := FirstRows(found, n), found[n..], Get(found[0], fk);
    assert found == first + rest;
    v := Get(rest[0], fk);
    assert first[0] == found[0] && first[0] in first && rest[0] in found;
    if OneKey(first, fk, u) {
      var j :| 0 <= j < |rest| && Get(rest[j], fk) != u;
      v := Get(rest[j], fk);
      assert rest[j] in found;
      StarvedOf(first, rest, fk, j);
    } else {
      StarvedOf(first, rest, fk, 0);
    }
  }

  lemma StarvedOf(first: seq<Row>, rest: seq<Row>, fk: Column, j: nat)
    requires j < |rest| && |first| > 0 && !OneKey(first, fk, Get(rest[j], fk))
    ensures |Select(first, fk, Get(rest[j], fk))| < |first|
    ensures |Select(first, fk, Get(rest[j], fk))| < |Select(first + rest, fk, Get(rest[j], fk))|
  {
    var v := Get(rest[j], fk);
    SelectFewer(first, fk, v);
    SelectOne(rest, j, fk);
    SelectConcat(first, rest, fk, v);
  }

  /** The rows after the first n: an answer under Offset(n). */
  function LaterRows(rows: seq<Row>, n: nat): (later: seq<Row>)
    ensures later == if |rows| <= n then [] else rows[n..]
  {
    Cut(rows, Window(n, 0))
  }

  /** Every parent's list is its own query's rows after the first n exactly when n is 0, or
      skips the whole answer, or all rows name one parent. */
  lemma OffsetPerParent(rows: seq<Row>, columns: seq<Column>, keep: Row -> bool, fk: Column, ids: set<Value>, n: nat)
    requires fk in columns && Null !in ids
    ensures var found := Neighbours(rows, columns, keep, fk, ids);
            (forall v :: v in ids ==>
               Select(LaterRows(found, n), fk, v) == LaterRows(Matching(rows, columns, keep, fk, v), n)) <==>
            n == 0 || n >= |found| || exists u :: u in ids && OneKey(found, fk, u)
  {
    hide Select, Neighbours, Matching, LaterRows;
    var found := Neighbours(rows, columns, keep, fk, ids);
    NeighboursKnown(rows, columns, keep, fk, ids);
    forall v | v in ids ensures Matching(rows, columns, keep, fk, v) == Select(found, fk, v) {
      SelectNeighbours(rows, columns, keep, fk, ids, v);
    }
    if n == 0 || n >= |found| || exists u :: u in ids && OneKey(found, fk, u) {
      forall v | v in ids ensures Select(LaterRows(found, n), fk, v) == LaterRows(Select(found, fk, v), n) {
        OffsetKeeps(found, fk, n, v);
      }
    } else {
      assert found[0] in found;
      var v := OffsetShifts(found, fk, n);
      assert v in ids;
    }
  }

  lemma OffsetKeeps(found: seq<Row>, fk: Column, n: nat, v: Value)
    requires n == 0 || n >= |found| || exists u :: OneKey(found, fk, u)
    ensures Select(LaterRows(found, n), fk, v) == LaterRows(Select(found, fk, v), n)
  {
    hide Select;
    SelectAtMost(found, fk, v);
    SelectNone([], fk, v);
    if 0 < n < |found| {
      var u :| OneKey(found, fk, u);
      assert OneKey(LaterRows(found, n), fk, u);
      if u == v {
        SelectAll(found, fk, v);
        SelectAll(LaterRows(found, n), fk, v);
      } else {
        assert found[0] in found;
        SelectNone(found, fk, v);
        SelectNone(LaterRows(found, n), fk, v);
      }
    }
  }

  /** Otherwise some parent keeps rows its own query would have skipped: only one parent's
      rows can fill the whole of what is skipped. */
  lemma OffsetShifts(found: seq<Row>, fk: Column, n: nat) returns (v: Value)
    requires 0 < n < |found| && !OneKey(found, fk, Get(found[0], fk))
    ensures exists r :: r in found && Get(r, fk) == v
    ensures |Select(LaterRows(found, n), fk, v)| > |LaterRows(Select(found, fk, v), n)|
  {
    hide Select;
    var first, rest, u := found[..n], found[n..], Get(found[0], fk);
    assert found == first + rest && first[0] == found[0] && first[0] in first;
    assert rest[0] in found;
    if OneKey(first, fk, u) {
      var j :| 0 <= j < |rest| && Get(rest[j], fk) != u;
      v := Get(rest[j], fk);
      assert rest[j] in found;
      ShiftedFor(first, rest, fk, j);
    } else {
      v := Get(rest[0], fk);
      ShiftedFor(first, rest, fk, 0);
    }
  }

  lemma ShiftedFor(first: seq<Row>, rest: seq<Row>, fk: Column, j: nat)
    requires j < |rest| && |first| > 0 && !OneKey(first, fk, Get(rest[j], fk))
    ensures var v := Get(rest[j], fk);
            |Select(rest, fk, v)| > |LaterRows(Select(first + rest, fk, v), |first|)|
  {
    var v := Get(rest[j], fk);
    SelectFewer(first, fk, v);
    SelectOne(rest, j, fk);
    SelectConcat(first, rest, fk, v);
  }

  const SIBLINGS: seq<Row> := [map[ID := Ref(5), "owner" := Ref(1)], map[ID := Ref(6), "owner" := Ref(2)]]

  lemma SiblingRows(keep: Row -> bool, ids: set<Value>)
    requires forall row :: keep(row)
    ensures Neighbours(SIBLINGS, [ID, "owner"], keep, "owner", ids) ==
            (if Ref(1) in ids then [SIBLINGS[0]] else []) + (if Ref(2) in ids then [SIBLINGS[1]] else [])
  {
    var columns := [ID, "owner"];
    var first := SIBLINGS[..1];
    assert first == [SIBLINGS[0]] && first[..0] == [];
    assert Loaded(SIBLINGS[0], columns) == SIBLINGS[0] && Loaded(SIBLINGS[1], columns) == SIBLINGS[1];
    assert Neighbours(first[..0], columns, keep, "owner", ids) == [];
    assert Neighbours(first, columns, keep, "owner", ids) == if Ref(1) in ids then [SIBLINGS[0]] else [];
  }

  /** One key with Limit(1) on the edge and one row for each of two parents: the second is
      left with nothing, although its own query with the same limit returns its row. */
  lemma LimitStarvesSibling(keep: Row -> bool)
    requires forall row :: keep(row)
    ensures var found := Neighbours(SIBLINGS, [ID, "owner"], keep, "owner", {Ref(1), Ref(2)});
            && found == SIBLINGS
            && Select(FirstRows(found, 1), "owner", Ref(2)) == []
            && FirstRows(Matching(SIBLINGS, [ID, "owner"], keep, "owner", Ref(2)), 1) == [SIBLINGS[1]]
  {
    hide Neighbours, Select;
    SiblingRows(keep, {Ref(1), Ref(2)});
    SiblingRows(keep, {Ref(2)});
    assert FirstRows(SIBLINGS, 1) == [SIBLINGS[0]];
    SelectNone([SIBLINGS[0]], "owner", Ref(2));
  }
}
