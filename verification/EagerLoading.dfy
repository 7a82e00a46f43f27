/** Eager loading of edges (ent/attachment_query.go, ent/attachmentjob_query.go): one
    batched query per edge, its rows handed out to the nodes through a map, instead of
    one query per node. */
module EagerLoading {
  import opened Collections

  /** A column value; an unselected column of a loaded node reads as Null. */
  datatype Value = Null | Ref(id: nat) | Text(text: string)

  type Column = string
  type Row = map<Column, Value>

  const ID: Column := "id"

  function Get(row: Row, c: Column): Value {
    if c in row then row[c] else Null
  }

  // ---- projections --------------------------------------------------------------

  function AddOnce(columns: seq<Column>, c: Column): seq<Column> {
    if c in columns then columns else columns + [c]
  }

  /** querySpec: with a Select, the id, the chosen fields, and once each the foreign key
      of every edge to load; without one, every column. */
  method QuerySpec(all: seq<Column>, fields: seq<Column>, edges: seq<Column>) returns (columns: seq<Column>)
    ensures fields == [] ==> columns == all
    ensures fields != [] ==> Elems(columns) == {ID} + Elems(fields) + Elems(edges)
    ensures Distinct(fields) && fields != [] ==> Distinct(columns)
  {
    columns := all;
    if |fields| > 0 {
      columns := [ID];
      for i := 0 to |fields|
        invariant Elems(columns) == {ID} + Elems(fields[..i])
        invariant Distinct(fields) ==> Distinct(columns)
      {
        assert fields[..i + 1] == fields[..i] + [fields[i]];
        ElemsConcat(fields[..i], [fields[i]]);
        if fields[i] != ID {
          ElemsConcat(columns, [fields[i]]);
          if Distinct(fields) {
            DistinctTake(fields, i + 1);
            DistinctParts(fields[..i], [fields[i]]);
            DistinctJoin(columns, [fields[i]]);
          }
          columns := columns + [fields[i]];
        }
      }
      assert fields[..|fields|] == fields;
      for i := 0 to |edges|
        invariant Elems(columns) == {ID} + Elems(fields) + Elems(edges[..i])
        invariant Distinct(fields) ==> Distinct(columns)
      {
        assert edges[..i + 1] == edges[..i] + [edges[i]];
        ElemsConcat(edges[..i], [edges[i]]);
        ElemsConcat(columns, [edges[i]]);
        if edges[i] !in columns { DistinctSnoc(columns, edges[i]); }
        columns := AddOnce(columns, edges[i]);
      }
      assert edges[..|edges|] == edges;
    }
  }

  lemma DistinctSnoc<T>(s: seq<T>, x: T)
    requires x !in s
    ensures Distinct(s) ==> Distinct(s + [x])
  {
  }

  /** A row as the node that scanned only these columns of it. */
  function Loaded(row: Row, columns: seq<Column>): Row {
    map c | c in row && c in columns :: row[c]
  }

  /** The query sent for an edge: the rows kept by the caller's own predicates whose
      foreign key is in the list, in the order the database returns them. */
  function Neighbours(rows: seq<Row>, columns: seq<Column>, keep: Row -> bool, fk: Column, ids: set<Value>)
    : seq<Row>
  {
    if rows == [] then []
    else
      var row := rows[|rows| - 1];
      Neighbours(rows[..|rows| - 1], columns, keep, fk, ids)
      + if keep(row) && Get(row, fk) != Null && Get(row, fk) in ids then [Loaded(row, columns)] else []
  }

  /** The row is kept, and its foreign key is there and in the list. */
  predicate Chosen(row: Row, keep: Row -> bool, fk: Column, ids: set<Value>) {
    keep(row) && fk in row && row[fk] != Null && row[fk] in ids
  }

  /** Which rows that is, by their places in the table: the chosen ones, all of them, each
      once and in table order, and of each the selected columns. */
  ghost predicate AreRows(places: seq<nat>, found: seq<Row>, rows: seq<Row>, columns: seq<Column>, keep: Row -> bool,
                          fk: Column, ids: set<Value>)
  {
    && Ascending(places) && |places| == |found|
    && (forall i :: 0 <= i < |rows| ==> (i in places <==> Chosen(rows[i], keep, fk, ids)))
    && (forall j :: 0 <= j < |places| ==> places[j] < |rows| && SelectedOf(found[j], rows[places[j]], columns))
  }

  /** Of the row exactly the selected columns, with its values. */
  ghost predicate SelectedOf(loaded: Row, row: Row, columns: seq<Column>) {
    && (forall c :: c in loaded <==> c in row && c in columns)
    && (forall c :: c in loaded ==> loaded[c] == row[c])
  }

  lemma AreRowsSkip(places: seq<nat>, found: seq<Row>, rows: seq<Row>, row: Row, columns: seq<Column>,
                    keep: Row -> bool, fk: Column, ids: set<Value>)
    requires AreRows(places, found, rows, columns, keep, fk, ids) && !Chosen(row, keep, fk, ids)
    ensures AreRows(places, found, rows + [row], columns, keep, fk, ids)
  {
    hide SelectedOf, Chosen;
    assert forall j :: 0 <= j < |places| ==> places[j] in places;
  }

  lemma AreRowsTake(places: seq<nat>, found: seq<Row>, rows: seq<Row>, row: Row, loaded: Row, columns: seq<Column>,
                    keep: Row -> bool, fk: Column, ids: set<Value>)
    requires AreRows(places, found, rows, columns, keep, fk, ids) && Chosen(row, keep, fk, ids)
    requires SelectedOf(loaded, row, columns)
    ensures AreRows(places + [|rows|], found + [loaded], rows + [row], columns, keep, fk, ids)
  {
    hide SelectedOf, Chosen;
    var places', rows' := places + [|rows|], rows + [row];
    forall i | 0 <= i < |rows'| ensures i in places' <==> Chosen(rows'[i], keep, fk, ids) {
      if i < |rows| {
        assert rows'[i] == rows[i] && (i in places' <==> i in places);
      } else {
        assert places'[|places|] == i;
      }
    }
  }

  lemma {:induction false} NeighboursAre(rows: seq<Row>, columns: seq<Column>, keep: Row -> bool, fk: Column,
                                        ids: set<Value>)
    returns (places: seq<nat>)
    ensures AreRows(places, Neighbours(rows, columns, keep, fk, ids), rows, columns, keep, fk, ids)
  {
    if rows == [] {
      places := [];
    } else {
      hide AreRows, SelectedOf;
      var n := |rows| - 1;
      places := NeighboursAre(rows[..n], columns, keep, fk, ids);
      var before := Neighbours(rows[..n], columns, keep, fk, ids);
      assert rows == rows[..n] + [rows[n]];
      if Chosen(rows[n], keep, fk, ids) {
        LoadedIs(rows[n], columns);
        AreRowsTake(places, before, rows[..n], rows[n], Loaded(rows[n], columns), columns, keep, fk, ids);
        places := places + [n];
      } else {
        assert before + [] == before;
        AreRowsSkip(places, before, rows[..n], rows[n], columns, keep, fk, ids);
      }
    }
  }

  lemma LoadedIs(row: Row, columns: seq<Column>)
    ensures SelectedOf(Loaded(row, columns), row, columns)
  {
  }

  /** A row is in the answer iff it is the loaded form of some kept row with a listed key. */
  lemma NeighboursExactly(rows: seq<Row>, columns: seq<Column>, keep: Row -> bool, fk: Column, ids: set<Value>, n: Row)
    ensures n in Neighbours(rows, columns, keep, fk, ids) <==>
            exists i :: 0 <= i < |rows| && Chosen(rows[i], keep, fk, ids) && SelectedOf(n, rows[i], columns)
  {
    hide Neighbours, Chosen;
    var found := Neighbours(rows, columns, keep, fk, ids);
    var places := NeighboursAre(rows, columns, keep, fk, ids);
    if n in found {
      var j :| 0 <= j < |found| && found[j] == n;
      assert places[j] in places;
    }
    if i :| 0 <= i < |rows| && Chosen(rows[i], keep, fk, ids) && SelectedOf(n, rows[i], columns) {
      assert i in places;
      var j :| 0 <= j < |places| && places[j] == i;
      assert found[j] == n;
    }
  }

  /** The query one node alone would send: WHERE fk = id. */
  function Matching(rows: seq<Row>, columns: seq<Column>, keep: Row -> bool, fk: Column, id: Value): seq<Row> {
    Neighbours(rows, columns, keep, fk, {id})
  }

  /** The rows of an answer that carry this foreign key. */
  function Select(rows: seq<Row>, fk: Column, id: Value): seq<Row> {
    if rows == [] then []
    else
      var row := rows[|rows| - 1];
      Select(rows[..|rows| - 1], fk, id) + if Get(row, fk) == id then [row] else []
  }

  lemma SelectAppend(rows: seq<Row>, row: Row, fk: Column, id: Value)
    ensures Select(rows + [row], fk, id) == Select(rows, fk, id) + if Get(row, fk) == id then [row] else []
  {
    assert (rows + [row])[..|rows|] == rows;
  }

  /** Picking one key out of the batched answer gives the answer to that key's own query,
      provided the foreign key column was selected. */
  lemma {:induction false} SelectNeighbours(rows: seq<Row>, columns: seq<Column>, keep: Row -> bool, fk: Column,
                                           ids: set<Value>, id: Value)
    requires fk in columns && id in ids && id != Null
    ensures Select(Neighbours(rows, columns, keep, fk, ids), fk, id) == Matching(rows, columns, keep, fk, id)
  {
    if rows == [] {
    } else {
      var init, row := rows[..|rows| - 1], rows[|rows| - 1];
      var answer := Neighbours(init, columns, keep, fk, ids);
      SelectNeighbours(init, columns, keep, fk, ids, id);
      SelectAppend(answer, Loaded(row, columns), fk, id);
      assert answer + [] == answer;
      assert Matching(init, columns, keep, fk, id) + [] == Matching(init, columns, keep, fk, id);
    }
  }

  /** Every row of the batched answer names one of the listed ids: neither error return
      of the assignment loop can be taken. */
  lemma {:induction false} NeighboursKnown(rows: seq<Row>, columns: seq<Column>, keep: Row -> bool, fk: Column,
                                          ids: set<Value>)
    requires fk in columns
    ensures forall n :: n in Neighbours(rows, columns, keep, fk, ids) ==> Get(n, fk) != Null && Get(n, fk) in ids
  {
    if rows == [] {
    } else {
      NeighboursKnown(rows[..|rows| - 1], columns, keep, fk, ids);
    }
  }

  // ---- limits and offsets on the edge query -------------------------------------------

  /** The paging the caller may put on an edge query: it skips offset rows and returns at
      most limit of the rest; a limit of 0 is none. */
  datatype Window = Window(offset: nat, limit: nat)

  const ALL_ROWS: Window := Window(0, 0)

  function Cut(rows: seq<Row>, w: Window): seq<Row> {
    var rest := rows[Min(w.offset, |rows|)..];
    if w.limit == 0 then rest else rest[..Min(w.limit, |rest|)]
  }

  /** An answer of n rows comes through whole. */
  predicate Fits(n: nat, w: Window) {
    n == 0 || (w.offset == 0 && (w.limit == 0 || n <= w.limit))
  }

  /** The answer under a limit and an offset: from the offset on, as many rows as there are
      up to the limit. */
  lemma CutIs(rows: seq<Row>, w: Window)
    ensures |Cut(rows, w)| ==
            if |rows| <= w.offset then 0
            else if w.limit == 0 || |rows| - w.offset <= w.limit then |rows| - w.offset
            else w.limit
    ensures forall j :: 0 <= j < |Cut(rows, w)| ==> Cut(rows, w)[j] == rows[w.offset + j]
  {
  }

  lemma FitsIsWhole(rows: seq<Row>, w: Window)
    ensures Fits(|rows|, w) <==> Cut(rows, w) == rows
    ensures forall n :: n in Cut(rows, w) ==> n in rows
  {
    assert |Cut(rows, w)| == |rows| ==> Fits(|rows|, w);
  }

  lemma {:induction false} SelectConcat(a: seq<Row>, b: seq<Row>, fk: Column, id: Value)
    ensures Select(a + b, fk, id) == Select(a, fk, id) + Select(b, fk, id)
  {
    if b == [] {
      assert a + b == a;
    } else {
      var init, row := b[..|b| - 1], b[|b| - 1];
      SelectConcat(a, init, fk, id);
      assert a + b == a + init + [row];
      SelectAppend(a + init, row, fk, id);
    }
  }

  lemma SelectOne(rows: seq<Row>, j: nat, fk: Column)
    requires j < |rows|
    ensures |Select(rows, fk, Get(rows[j], fk))| > 0
  {
    var id := Get(rows[j], fk);
    assert rows == rows[..j + 1] + rows[j + 1..];
    SelectConcat(rows[..j + 1], rows[j + 1..], fk, id);
    assert rows[..j + 1] == rows[..j] + [rows[j]];
    SelectAppend(rows[..j], rows[j], fk, id);
  }

  /** A row that is cut off is missing from the rows of its own key. */
  lemma CutLosesKey(rows: seq<Row>, w: Window, fk: Column) returns (j: nat)
    requires !Fits(|rows|, w)
    ensures j < |rows|
    ensures |Select(Cut(rows, w), fk, Get(rows[j], fk))| < |Select(rows, fk, Get(rows[j], fk))|
  {
    var from := Min(w.offset, |rows|);
    var cut := Cut(rows, w);
    var before, after := rows[..from], rows[from + |cut|..];
    assert rows == before + cut + after;
    j := if from > 0 then 0 else |cut|;
    var id := Get(rows[j], fk);
    SelectConcat(before + cut, after, fk, id);
    SelectConcat(before, cut, fk, id);
    if from > 0 {
      assert before[0] == rows[0];
      SelectOne(before, 0, fk);
    } else {
      assert after[0] == rows[j];
      SelectOne(after, 0, fk);
    }
  }

  // ---- one to many -----------------------------------------------------------------

  /** A parent node; its id is what the foreign keys of the other side name. */
  class Parent {
    const id: Value
    var children: seq<Row>

    constructor (id: Value)
      ensures this.id == id && children == []
    {
      this.id, children := id, [];
    }
  }

  datatype LoadError = NilForeignKey(row: Row) | UnexpectedForeignKey(fk: Value, row: Row)

  /** The same id does not occur again after position p. */
  ghost predicate LastOf(ids: seq<Value>, p: nat)
    requires p < |ids|
  {
    forall q :: p < q < |ids| ==> ids[q] != ids[p]
  }

  lemma {:induction false} LastExists(ids: seq<Value>, v: Value) returns (p: nat)
    requires v in ids
    ensures p < |ids| && ids[p] == v && LastOf(ids, p)
  {
    var n := |ids| - 1;
    if ids[n] == v {
      p := n;
    } else {
      p := LastExists(ids[..n], v);
    }
  }

  function ParentIds(nodes: seq<Parent>): seq<Value> {
    seq(|nodes|, i requires 0 <= i < |nodes| => nodes[i].id)
  }

  ghost function Children(nodes: seq<Parent>): seq<seq<Row>>
    reads nodes
  {
    seq(|nodes|, i requires 0 <= i < |nodes| reads nodes => nodes[i].children)
  }

  /** nodeids after the first n nodes: each id names the last of them that has it. */
  ghost predicate LastSlot(nodeids: map<Value, nat>, nodes: seq<Parent>, n: nat)
    requires n <= |nodes|
  {
    && (forall v :: v in nodeids ==> nodeids[v] < n && nodes[nodeids[v]].id == v)
    && (forall p :: 0 <= p < n ==> nodes[p].id in nodeids && p <= nodeids[nodes[p].id])
  }

  lemma SlotIsLast(nodeids: map<Value, nat>, nodes: seq<Parent>, p: nat)
    requires LastSlot(nodeids, nodes, |nodes|) && p < |nodes|
    ensures nodes[p].id in nodeids && (nodeids[nodes[p].id] == p <==> LastOf(ParentIds(nodes), p))
  {
    var last := nodeids[nodes[p].id];
    assert nodes[last].id == nodes[p].id;
    assert forall q :: 0 <= q < |nodes| ==> ParentIds(nodes)[q] == nodes[q].id;
  }

  method Index(nodes: seq<Parent>) returns (nodeids: map<Value, nat>)
    requires Distinct(nodes)
    modifies nodes
    ensures LastSlot(nodeids, nodes, |nodes|)
    ensures forall p :: 0 <= p < |nodes| ==> nodes[p].children == []
  {
    nodeids := map[];
    for i := 0 to |nodes|
      invariant LastSlot(nodeids, nodes, i)
      invariant forall p :: 0 <= p < i ==> nodes[p].children == []
    {
      nodeids := nodeids[nodes[i].id := i];
      nodes[i].children := [];
    }
  }

  /** The rows one batched edge query returns for these keys. */
  function Answer(rows: seq<Row>, columns: seq<Column>, keep: Row -> bool, fk: Column, ids: set<Value>, w: Window)
    : seq<Row>
  {
    Cut(Neighbours(rows, columns, keep, fk, ids), w)
  }

  lemma {:induction false} NoIds(rows: seq<Row>, columns: seq<Column>, keep: Row -> bool, fk: Column)
    ensures Neighbours(rows, columns, keep, fk, {}) == []
  {
    if rows == [] {
    } else {
      NoIds(rows[..|rows| - 1], columns, keep, fk);
    }
  }

  /** What batched loading leaves with each node: the last node of an id has the rows of
      the answer that name it, in order. */
  ghost predicate HandedOut(ids: seq<Value>, lists: seq<seq<Row>>, answer: seq<Row>, fk: Column) {
    && |lists| == |ids|
    && forall p :: 0 <= p < |ids| ==> lists[p] == if LastOf(ids, p) then Select(answer, fk, ids[p]) else []
  }

  /** loadMedia and loadAttachmentJobs of an attachment query. */
  method LoadToMany(nodes: seq<Parent>, rows: seq<Row>, all: seq<Column>, fields: seq<Column>,
                    keep: Row -> bool, fk: Column, w: Window)
    returns (err: Option<LoadError>, ghost columns: seq<Column>)
    requires Distinct(nodes) && forall p :: 0 <= p < |nodes| ==> nodes[p].id != Null
    requires fk in all
    modifies nodes
    ensures err == None
    ensures fields == [] ==> columns == all
    ensures fields != [] ==> Elems(columns) == {ID} + (Elems(fields) + {fk})
    ensures fk in columns
    ensures HandedOut(ParentIds(nodes), Children(nodes),
                      Answer(rows, columns, keep, fk, Elems(ParentIds(nodes)), w), fk)
    ensures Total(Children(nodes)) == |Answer(rows, columns, keep, fk, Elems(ParentIds(nodes)), w)|
    ensures var ids := ParentIds(nodes);
            Distinct(ids) && Fits(|Neighbours(rows, columns, keep, fk, Elems(ids))|, w) ==>
              forall p :: 0 <= p < |ids| ==> HasRows(Children(nodes)[p], rows, columns, keep, fk, ids[p])
  {
    hide Neighbours, Select, Cut, Total, HandedOut, Fits, HasRows;
    var nodeids := Index(nodes);
    var selected := if |fields| > 0 then AddOnce(fields, fk) else fields;
    var cols := QuerySpec(all, selected, []);
    columns := cols;
    ColumnsHaveKey(all, fields, fk, columns);
    var ids := ParentIds(nodes);
    var neighbours := Answer(rows, cols, keep, fk, Elems(ids), w);
    AnswerKnown(rows, cols, keep, fk, Elems(ids), w);
    forall v | v in Elems(ids) ensures v in nodeids {
      var p :| 0 <= p < |nodes| && ids[p] == v;
    }
    err := Assign(nodes, nodeids, neighbours, fk);
    SlotsAreHandedOut(nodeids, nodes, Children(nodes), neighbours, fk);
    EachRowOnce(ids, Children(nodes), neighbours, fk);
    ParentsHaveTheirRows(ids, Children(nodes), rows, cols, keep, fk, w);
  }

  lemma SlotsAreHandedOut(nodeids: map<Value, nat>, nodes: seq<Parent>, lists: seq<seq<Row>>, answer: seq<Row>,
                          fk: Column)
    requires LastSlot(nodeids, nodes, |nodes|) && |lists| == |nodes|
    requires forall p :: 0 <= p < |nodes| ==>
               lists[p] == if nodeids[nodes[p].id] == p then Select(answer, fk, nodes[p].id) else []
    ensures HandedOut(ParentIds(nodes), lists, answer, fk)
  {
    hide Select;
    forall p | 0 <= p < |nodes|
      ensures lists[p] == if LastOf(ParentIds(nodes), p) then Select(answer, fk, ParentIds(nodes)[p]) else []
    {
      SlotIsLast(nodeids, nodes, p);
    }
  }

  lemma ColumnsHaveKey(all: seq<Column>, fields: seq<Column>, fk: Column, columns: seq<Column>)
    requires fk in all && (fields == [] ==> columns == all)
    requires fields != [] ==> Elems(columns) == {ID} + Elems(AddOnce(fields, fk)) + Elems<Column>([])
    ensures fk in columns
    ensures fields != [] ==> Elems(columns) == {ID} + (Elems(fields) + {fk})
  {
    if fields != [] {
      ElemsConcat(fields, [fk]);
      assert Elems(AddOnce(fields, fk)) == Elems(fields) + {fk};
      assert fk in Elems(columns);
    }
  }

  lemma AnswerKnown(rows: seq<Row>, columns: seq<Column>, keep: Row -> bool, fk: Column, ids: set<Value>, w: Window)
    requires fk in columns
    ensures forall n :: n in Answer(rows, columns, keep, fk, ids, w) ==> Get(n, fk) != Null && Get(n, fk) in ids
  {
    NeighboursKnown(rows, columns, keep, fk, ids);
    FitsIsWhole(Neighbours(rows, columns, keep, fk, ids), w);
  }

  /** The assignment loop, with both of its error returns. */
  method Assign(nodes: seq<Parent>, nodeids: map<Value, nat>, neighbours: seq<Row>, fk: Column)
    returns (err: Option<LoadError>)
    requires Distinct(nodes) && LastSlot(nodeids, nodes, |nodes|)
    requires forall p :: 0 <= p < |nodes| ==> nodes[p].children == []
    modifies nodes
    ensures (forall n :: n in neighbours ==> Get(n, fk) != Null && Get(n, fk) in nodeids) ==> err == None
    ensures err == None ==> forall p :: 0 <= p < |nodes| ==>
              nodes[p].children ==
                if nodeids[nodes[p].id] == p then Select(neighbours, fk, nodes[p].id) else []
  {
    err := None;
    for k := 0 to |neighbours|
      invariant forall p :: 0 <= p < |nodes| ==>
                  nodes[p].children ==
                    if nodeids[nodes[p].id] == p then Select(neighbours[..k], fk, nodes[p].id) else []
    {
      var n := neighbours[k];
      if Get(n, fk) == Null {
        return Some(NilForeignKey(n));
      }
      if Get(n, fk) !in nodeids {
        return Some(UnexpectedForeignKey(Get(n, fk), n));
      }
      SelectNext(neighbours, fk, k);
      HandOver(nodes, nodeids[Get(n, fk)], n);
    }
    assert neighbours[..|neighbours|] == neighbours;
  }

  method HandOver(nodes: seq<Parent>, slot: nat, n: Row)
    requires Distinct(nodes) && slot < |nodes|
    modifies nodes
    ensures forall p :: 0 <= p < |nodes| ==>
              nodes[p].children == if p == slot then old(nodes[p].children) + [n] else old(nodes[p].children)
  {
    nodes[slot].children := nodes[slot].children + [n];
  }

  lemma SelectNext(rows: seq<Row>, fk: Column, k: nat)
    requires k < |rows|
    ensures forall id :: Select(rows[..k + 1], fk, id) ==
                         if Get(rows[k], fk) == id then Select(rows[..k], fk, id) + [rows[k]]
                         else Select(rows[..k], fk, id)
  {
    assert rows[..k + 1] == rows[..k] + [rows[k]];
    forall id ensures Select(rows[..k + 1], fk, id) ==
                      if Get(rows[k], fk) == id then Select(rows[..k], fk, id) + [rows[k]]
                      else Select(rows[..k], fk, id)
    {
      SelectAppend(rows[..k], rows[k], fk, id);
    }
  }

  function Total(lists: seq<seq<Row>>): nat {
    if lists == [] then 0 else Total(lists[..|lists| - 1]) + |lists[|lists| - 1]|
  }

  lemma {:induction false} TotalEmpty(lists: seq<seq<Row>>)
    requires forall p :: 0 <= p < |lists| ==> lists[p] == []
    ensures Total(lists) == 0
  {
    if lists == [] {
    } else {
      TotalEmpty(lists[..|lists| - 1]);
    }
  }

  lemma {:induction false} TotalUpdate(lists: seq<seq<Row>>, p: nat, list: seq<Row>)
    requires p < |lists|
    ensures Total(lists[p := list]) == Total(lists) - |lists[p]| + |list|
  {
    var n := |lists| - 1;
    if p == n {
      assert lists[p := list][..n] == lists[..n];
    } else {
      TotalUpdate(lists[..n], p, list);
      assert lists[p := list][..n] == lists[..n][p := list];
    }
  }

  /** Taking the last row of the answer back takes it from one list. */
  lemma WithoutLastRow(ids: seq<Value>, lists: seq<seq<Row>>, answer: seq<Row>, k: nat, fk: Column)
    returns (slot: nat, before: seq<seq<Row>>)
    requires HandedOut(ids, lists, answer, fk) && |answer| == k + 1 && Get(answer[k], fk) in ids
    ensures slot < |before| == |lists| && lists == before[slot := lists[slot]]
    ensures |lists[slot]| == |before[slot]| + 1
    ensures HandedOut(ids, before, answer[..k], fk)
  {
    hide Select;
    slot := LastExists(ids, Get(answer[k], fk));
    assert answer[..k + 1] == answer;
    SelectNext(answer, fk, k);
    before := lists[slot := Select(answer[..k], fk, ids[slot])];
    forall p | 0 <= p < |ids| ensures before[p] == if LastOf(ids, p) then Select(answer[..k], fk, ids[p]) else [] {
      if p != slot && LastOf(ids, p) {
        assert ids[p] != ids[slot];
      }
    }
  }

  /** Every row of the answer is handed to exactly one node, repeated ids or not: the
      lengths of the lists the nodes end with sum to the length of the answer. */
  lemma {:induction false} EachRowOnce(ids: seq<Value>, lists: seq<seq<Row>>, answer: seq<Row>, fk: Column)
    requires HandedOut(ids, lists, answer, fk)
    requires forall n :: n in answer ==> Get(n, fk) in ids
    ensures Total(lists) == |answer|
    decreases |answer|
  {
    if answer == [] {
      TotalEmpty(lists);
    } else {
      var k := |answer| - 1;
      assert answer[k] in answer;
      var slot, before := WithoutLastRow(ids, lists, answer, k, fk);
      hide HandedOut, Total;
      EachRowOnce(ids, before, answer[..k], fk);
      TotalUpdate(before, slot, lists[slot]);
    }
  }

  /** Batched loading is the nested-loop join exactly when the edge query's limit and
      offset cut no row off the batched answer and no two parents share an id that some row
      refers to; then each parent has its own query's rows, in order. */
  lemma BatchIsNestedLoop(ids: seq<Value>, lists: seq<seq<Row>>, rows: seq<Row>, columns: seq<Column>,
                          keep: Row -> bool, fk: Column, w: Window)
    requires fk in columns && forall p :: 0 <= p < |ids| ==> ids[p] != Null
    requires HandedOut(ids, lists, Answer(rows, columns, keep, fk, Elems(ids), w), fk)
    ensures (forall p :: 0 <= p < |ids| ==> lists[p] == Matching(rows, columns, keep, fk, ids[p])) <==>
            Fits(|Neighbours(rows, columns, keep, fk, Elems(ids))|, w) && RepeatsUnused(ids, rows, columns, keep, fk)
  {
    var found := Neighbours(rows, columns, keep, fk, Elems(ids));
    forall p | 0 <= p < |ids| ensures Select(found, fk, ids[p]) == Matching(rows, columns, keep, fk, ids[p]) {
      SelectNeighbours(rows, columns, keep, fk, Elems(ids), ids[p]);
    }
    if Fits(|found|, w) {
      FitsIsWhole(found, w);
      WholeIsNestedLoop(ids, lists, found, rows, columns, keep, fk);
    } else {
      var j := CutLosesKey(found, w, fk);
      NeighboursKnown(rows, columns, keep, fk, Elems(ids));
      assert found[j] in found;
      var p := LastExists(ids, Get(found[j], fk));
      assert lists[p] != Matching(rows, columns, keep, fk, ids[p]);
    }
  }

  /** No id that occurs again later has rows. */
  ghost predicate RepeatsUnused(ids: seq<Value>, rows: seq<Row>, columns: seq<Column>, keep: Row -> bool,
                                fk: Column)
  {
    forall p, q :: 0 <= p < q < |ids| && ids[p] == ids[q] ==> Matching(rows, columns, keep, fk, ids[p]) == []
  }

  lemma WholeIsNestedLoop(ids: seq<Value>, lists: seq<seq<Row>>, found: seq<Row>, rows: seq<Row>,
                          columns: seq<Column>, keep: Row -> bool, fk: Column)
    requires HandedOut(ids, lists, found, fk)
    requires forall p :: 0 <= p < |ids| ==> Select(found, fk, ids[p]) == Matching(rows, columns, keep, fk, ids[p])
    ensures (forall p :: 0 <= p < |ids| ==> lists[p] == Matching(rows, columns, keep, fk, ids[p])) <==>
            RepeatsUnused(ids, rows, columns, keep, fk)
  {
    if forall p :: 0 <= p < |ids| ==> lists[p] == Matching(rows, columns, keep, fk, ids[p]) {
      forall p, q | 0 <= p < q < |ids| && ids[p] == ids[q]
        ensures Matching(rows, columns, keep, fk, ids[p]) == []
      {
        assert !LastOf(ids, p);
        assert lists[p] == [];
      }
    }
    if RepeatsUnused(ids, rows, columns, keep, fk) {
      forall p | 0 <= p < |ids| ensures lists[p] == Matching(rows, columns, keep, fk, ids[p]) {
        if !LastOf(ids, p) {
          var q :| p < q < |ids| && ids[q] == ids[p];
        }
      }
    }
  }

  /** The list holds exactly the chosen rows of the table, all of them, in table order. */
  ghost predicate HasRows(list: seq<Row>, rows: seq<Row>, columns: seq<Column>, keep: Row -> bool, fk: Column,
                          id: Value)
  {
    exists places :: AreRows(places, list, rows, columns, keep, fk, {id})
  }

  /** So, for parents with distinct ids and an edge query that cuts nothing, each parent ends
      with all the rows of the other table that name it, in table order. */
  lemma ParentsHaveTheirRows(ids: seq<Value>, lists: seq<seq<Row>>, rows: seq<Row>, columns: seq<Column>,
                             keep: Row -> bool, fk: Column, w: Window)
    requires fk in columns && forall q :: 0 <= q < |ids| ==> ids[q] != Null
    requires HandedOut(ids, lists, Answer(rows, columns, keep, fk, Elems(ids), w), fk)
    ensures Distinct(ids) && Fits(|Neighbours(rows, columns, keep, fk, Elems(ids))|, w) ==>
              forall p :: 0 <= p < |ids| ==> HasRows(lists[p], rows, columns, keep, fk, ids[p])
  {
    hide Neighbours, Select, Fits, AreRows;
    if Distinct(ids) && Fits(|Neighbours(rows, columns, keep, fk, Elems(ids))|, w) {
      BatchIsNestedLoop(ids, lists, rows, columns, keep, fk, w);
      assert RepeatsUnused(ids, rows, columns, keep, fk);
      forall p | 0 <= p < |ids| ensures HasRows(lists[p], rows, columns, keep, fk, ids[p]) {
        var places := NeighboursAre(rows, columns, keep, fk, {ids[p]});
      }
    }
  }
}
