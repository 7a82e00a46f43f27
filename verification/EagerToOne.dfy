/** Many-to-one eager loading (ent/attachmentjob_query.go): the rows a page of jobs refers
    to are fetched with one duplicate-free id list per edge. */
module EagerToOne {
  import opened Collections
  import opened EagerLoading

  /** A loaded job: the columns that were selected, and the edges filled in so far, each
      under its foreign key column. */
  class Node {
    const row: Row
    var edges: map<Column, Row>

    constructor (row: Row)
      ensures this.row == row && edges == map[]
    {
      this.row, edges := row, map[];
    }
  }

  /** An edge to load: its foreign key column, and the query for the other side. */
  datatype Edge = Edge(fk: Column, rows: seq<Row>, columns: seq<Column>, keep: Row -> bool, window: Window)

  /** The row a key names, if the edge query's own predicates keep it. */
  function ToOne(e: Edge, key: Value): Option<Row> {
    LastRow(Matching(e.rows, e.columns, e.keep, ID, key))
  }

  function LastRow(rows: seq<Row>): Option<Row> {
    if rows == [] then None else Some(rows[|rows| - 1])
  }

  function WithEdge(edges: map<Column, Row>, fk: Column, found: Option<Row>): map<Column, Row> {
    match found
    case None => edges
    case Some(row) => edges[fk := row]
  }

  lemma {:induction false} NullMatchesNothing(rows: seq<Row>, columns: seq<Column>, keep: Row -> bool)
    ensures Matching(rows, columns, keep, ID, Null) == []
  {
    if rows == [] {
    } else {
      NullMatchesNothing(rows[..|rows| - 1], columns, keep);
    }
  }

  ghost predicate UniqueIds(rows: seq<Row>) {
    forall i, j :: 0 <= i < j < |rows| ==> Get(rows[i], ID) != Get(rows[j], ID)
  }

  /** Primary keys are unique, so the row found is the only one with that id. */
  lemma {:induction false} AtMostOneMatch(rows: seq<Row>, columns: seq<Column>, keep: Row -> bool, key: Value)
    requires UniqueIds(rows)
    ensures |Matching(rows, columns, keep, ID, key)| <= 1
    ensures |Matching(rows, columns, keep, ID, key)| == 1 ==> exists i :: 0 <= i < |rows| && Get(rows[i], ID) == key
  {
    if rows == [] {
    } else {
      var init := rows[..|rows| - 1];
      assert forall i :: 0 <= i < |init| ==> init[i] == rows[i];
      AtMostOneMatch(init, columns, keep, key);
    }
  }

  /** The positions of the nodes that carry each key. */
  ghost predicate Slots(nodeids: map<Value, seq<nat>>, nodes: seq<Node>, fk: Column, n: nat)
    requires n <= |nodes|
  {
    && (forall v :: v in nodeids ==> v != Null && |nodeids[v]| > 0 && SlotsOf(nodeids[v], nodes, fk, n, v))
    && (forall i :: 0 <= i < n && Get(nodes[i].row, fk) != Null ==> Get(nodes[i].row, fk) in nodeids)
  }

  ghost predicate SlotsOf(slots: seq<nat>, nodes: seq<Node>, fk: Column, n: nat, v: Value)
    requires n <= |nodes|
  {
    && (forall k :: 0 <= k < |slots| ==> slots[k] < n && Get(nodes[slots[k]].row, fk) == v)
    && (forall i :: 0 <= i < n && Get(nodes[i].row, fk) == v ==> i in slots)
  }

  function AddSlot(nodeids: map<Value, seq<nat>>, key: Value, i: nat): map<Value, seq<nat>> {
    nodeids[key := (if key in nodeids then nodeids[key] else []) + [i]]
  }

  lemma SlotsOfNext(slots: seq<nat>, nodes: seq<Node>, fk: Column, i: nat, v: Value)
    requires i < |nodes| && SlotsOf(slots, nodes, fk, i, v)
    ensures Get(nodes[i].row, fk) != v ==> SlotsOf(slots, nodes, fk, i + 1, v)
    ensures Get(nodes[i].row, fk) == v ==> SlotsOf(slots + [i], nodes, fk, i + 1, v)
  {
    if Get(nodes[i].row, fk) == v {
      forall j | 0 <= j < i + 1 && Get(nodes[j].row, fk) == v ensures j in slots + [i] {
        if j < i { assert j in slots; } else { assert (slots + [i])[|slots|] == j; }
      }
    }
  }

  lemma NoSlots(nodeids: map<Value, seq<nat>>, nodes: seq<Node>, fk: Column, i: nat, v: Value)
    requires i <= |nodes| && Slots(nodeids, nodes, fk, i) && v != Null && v !in nodeids
    ensures SlotsOf([], nodes, fk, i, v)
  {
  }

  lemma SlotsNext(nodeids: map<Value, seq<nat>>, nodes: seq<Node>, fk: Column, i: nat)
    requires i < |nodes| && Slots(nodeids, nodes, fk, i)
    ensures Get(nodes[i].row, fk) == Null ==> Slots(nodeids, nodes, fk, i + 1)
    ensures Get(nodes[i].row, fk) != Null ==> Slots(AddSlot(nodeids, Get(nodes[i].row, fk), i), nodes, fk, i + 1)
  {
    hide SlotsOf, Get;
    var key := Get(nodes[i].row, fk);
    forall v | v in nodeids && v != key ensures SlotsOf(nodeids[v], nodes, fk, i + 1, v) {
      SlotsOfNext(nodeids[v], nodes, fk, i, v);
    }
    if key != Null {
      if key !in nodeids { NoSlots(nodeids, nodes, fk, i, key); }
      SlotsOfNext(if key in nodeids then nodeids[key] else [], nodes, fk, i, key);
    }
  }

  /** The first loop: nodes by key, and the keys without duplicates or nulls. */
  method Keys(nodes: seq<Node>, fk: Column) returns (nodeids: map<Value, seq<nat>>, ids: seq<Value>)
    ensures Slots(nodeids, nodes, fk, |nodes|)
    ensures Distinct(ids) && Elems(ids) == nodeids.Keys
  {
    nodeids, ids := map[], [];
    for i := 0 to |nodes|
      invariant Slots(nodeids, nodes, fk, i)
      invariant Distinct(ids) && Elems(ids) == nodeids.Keys
    {
      SlotsNext(nodeids, nodes, fk, i);
      var key := Get(nodes[i].row, fk);
      if key == Null { continue; }
      if key !in nodeids {
        ElemsConcat(ids, [key]);
        assert key !in Elems(ids);
        DistinctSnoc(ids, key);
        ids := ids + [key];
      }
      nodeids := AddSlot(nodeids, key, i);
    }
  }

  /** The non-null keys of these rows. */
  function KeysIn(rows: seq<Row>, fk: Column): set<Value> {
    set i | 0 <= i < |rows| && Get(rows[i], fk) != Null :: Get(rows[i], fk)
  }

  /** What the one query for an edge returns for these keys. */
  function EdgeAnswer(e: Edge, keys: set<Value>): seq<Row> {
    Answer(e.rows, e.columns, e.keep, ID, keys, e.window)
  }

  function RowsOf(nodes: seq<Node>): seq<Row> {
    seq(|nodes|, i requires 0 <= i < |nodes| => nodes[i].row)
  }

  /** loadMedia, loadSyncEvent, loadRawOutput and loadAttachment of a job query. */
  method LoadToOne(nodes: seq<Node>, e: Edge) returns (err: Option<LoadError>, ids: seq<Value>)
    requires Distinct(nodes) && ID in e.columns
    modifies nodes
    ensures err == None
    ensures Distinct(ids) && Elems(ids) == KeysIn(RowsOf(nodes), e.fk)
    ensures forall i :: 0 <= i < |nodes| ==>
              nodes[i].edges ==
                Handed(old(nodes[i].edges), e.fk, Get(nodes[i].row, e.fk), EdgeAnswer(e, KeysIn(RowsOf(nodes), e.fk)))
  {
    err := None;
    var nodeids;
    nodeids, ids := Keys(nodes, e.fk);
    KeysAre(nodeids, nodes, e.fk);
    var neighbours := if |ids| == 0 then [] else EdgeAnswer(e, Elems(ids));
    AnswerKnown(e.rows, e.columns, e.keep, ID, Elems(ids), e.window);
    if |ids| == 0 { NoKeysNoRows(e); }
    err := AssignOne(nodes, nodeids, neighbours, e.fk);
  }

  lemma NoKeysNoRows(e: Edge)
    ensures EdgeAnswer(e, {}) == []
  {
    NoIds(e.rows, e.columns, e.keep, ID);
  }

  lemma KeysAre(nodeids: map<Value, seq<nat>>, nodes: seq<Node>, fk: Column)
    requires Slots(nodeids, nodes, fk, |nodes|)
    ensures nodeids.Keys == KeysIn(RowsOf(nodes), fk)
  {
    assert forall i :: 0 <= i < |nodes| ==> RowsOf(nodes)[i] == nodes[i].row;
    forall v | v in nodeids ensures exists i :: 0 <= i < |nodes| && Get(nodes[i].row, fk) == v && v != Null {
      assert SlotsOf(nodeids[v], nodes, fk, |nodes|, v);
      assert nodeids[v][0] < |nodes|;
    }
  }

  /** The edges of a node with this key once these rows have been handed out. */
  function Handed(before: map<Column, Row>, fk: Column, key: Value, rows: seq<Row>): map<Column, Row> {
    if key == Null then before else WithEdge(before, fk, LastRow(Select(rows, ID, key)))
  }

  lemma HandedNext(before: map<Column, Row>, fk: Column, key: Value, rows: seq<Row>, k: nat)
    requires k < |rows|
    ensures Handed(before, fk, key, rows[..k + 1]) ==
            if key != Null && Get(rows[k], ID) == key
            then Handed(before, fk, key, rows[..k])[fk := rows[k]]
            else Handed(before, fk, key, rows[..k])
  {
    SelectNext(rows, ID, k);
  }

  /** The assignment loop, with its error return. */
  method AssignOne(nodes: seq<Node>, nodeids: map<Value, seq<nat>>, neighbours: seq<Row>, fk: Column)
    returns (err: Option<LoadError>)
    requires Distinct(nodes) && Slots(nodeids, nodes, fk, |nodes|)
    modifies nodes
    ensures (forall n :: n in neighbours ==> Get(n, ID) in nodeids) ==> err == None
    ensures err == None ==> forall i :: 0 <= i < |nodes| ==>
              nodes[i].edges == Handed(old(nodes[i].edges), fk, Get(nodes[i].row, fk), neighbours)
  {
    err := None;
    for k := 0 to |neighbours|
      invariant forall i :: 0 <= i < |nodes| ==>
                  nodes[i].edges == Handed(old(nodes[i].edges), fk, Get(nodes[i].row, fk), neighbours[..k])
    {
      var n := neighbours[k];
      if Get(n, ID) !in nodeids {
        return Some(UnexpectedForeignKey(Get(n, ID), n));
      }
      assert SlotsOf(nodeids[Get(n, ID)], nodes, fk, |nodes|, Get(n, ID));
      SetEdge(nodes, nodeids[Get(n, ID)], fk, n);
      forall i | 0 <= i < |nodes|
        ensures nodes[i].edges == Handed(old(nodes[i].edges), fk, Get(nodes[i].row, fk), neighbours[..k + 1])
      {
        HandedNext(old(nodes[i].edges), fk, Get(nodes[i].row, fk), neighbours, k);
      }
    }
    assert neighbours[..|neighbours|] == neighbours;
  }

  method SetEdge(nodes: seq<Node>, slots: seq<nat>, fk: Column, n: Row)
    requires Distinct(nodes) && forall k :: 0 <= k < |slots| ==> slots[k] < |nodes|
    modifies nodes
    ensures forall i :: 0 <= i < |nodes| ==>
              nodes[i].edges == if i in slots then old(nodes[i].edges)[fk := n] else old(nodes[i].edges)
  {
    for k := 0 to |slots|
      invariant forall i :: 0 <= i < |nodes| ==>
                  nodes[i].edges == if i in slots[..k] then old(nodes[i].edges)[fk := n] else old(nodes[i].edges)
    {
      assert slots[..k + 1] == slots[..k] + [slots[k]];
      nodes[slots[k]].edges := nodes[slots[k]].edges[fk := n];
    }
    assert slots[..|slots|] == slots;
  }

  /** The edges of a job row, one lookup per edge. */
  function EdgesOf(edges: seq<Edge>, row: Row): map<Column, Row> {
    if edges == [] then map[]
    else
      var e := edges[|edges| - 1];
      WithEdge(EdgesOf(edges[..|edges| - 1], row), e.fk, ToOne(e, Get(row, e.fk)))
  }

  /** The edges of one row of a page, as handed out from the page's batched answers. */
  function EdgesGiven(edges: seq<Edge>, page: seq<Row>, row: Row): map<Column, Row> {
    if edges == [] then map[]
    else
      var e := edges[|edges| - 1];
      Handed(EdgesGiven(edges[..|edges| - 1], page, row), e.fk, Get(row, e.fk), EdgeAnswer(e, KeysIn(page, e.fk)))
  }

  function KeysOf(edges: seq<Edge>): seq<Column> {
    seq(|edges|, i requires 0 <= i < |edges| => edges[i].fk)
  }

  method Scan(rows: seq<Row>, columns: seq<Column>) returns (nodes: seq<Node>)
    ensures |nodes| == |rows| && Distinct(nodes) && fresh(nodes)
    ensures forall i :: 0 <= i < |rows| ==> nodes[i].row == Loaded(rows[i], columns) && nodes[i].edges == map[]
  {
    nodes := [];
    for i := 0 to |rows|
      invariant |nodes| == i && Distinct(nodes) && fresh(nodes)
      invariant forall j :: 0 <= j < i ==> nodes[j].row == Loaded(rows[j], columns) && nodes[j].edges == map[]
    {
      var node := new Node(Loaded(rows[i], columns));
      nodes := nodes + [node];
    }
  }

  /** The edge under fk in terms of the other table: unset when the key is null or names no
      kept row, else the selected columns of the row it names. */
  ghost predicate EdgeRight(e: Edge, row: Row, edges: map<Column, Row>) {
    if exists i :: Names(e, row, i) then
      e.fk in edges && exists i :: Names(e, row, i) && SelectedOf(edges[e.fk], e.rows[i], e.columns)
    else e.fk !in edges
  }

  /** The i-th row of the other table is kept, and its id is the row's non-null key. */
  ghost predicate Names(e: Edge, row: Row, i: int) {
    && 0 <= i < |e.rows| && e.keep(e.rows[i])
    && e.fk in row && row[e.fk] != Null && ID in e.rows[i] && e.rows[i][ID] == row[e.fk]
  }

  predicate EdgeFits(e: Edge, page: seq<Row>) {
    Fits(|Neighbours(e.rows, e.columns, e.keep, ID, KeysIn(page, e.fk))|, e.window)
  }

  /** Edges under columns of their own, over tables with unique ids, whose queries' limits and
      offsets cut nothing off. */
  ghost predicate PlainEdges(edges: seq<Edge>, page: seq<Row>) {
    Distinct(KeysOf(edges)) && AllKeyed(edges) && AllFit(edges, page)
  }

  ghost predicate AllKeyed(edges: seq<Edge>) {
    forall k :: 0 <= k < |edges| ==> ID in edges[k].columns && UniqueIds(edges[k].rows)
  }

  predicate AllFit(edges: seq<Edge>, page: seq<Row>) {
    forall k :: 0 <= k < |edges| ==> EdgeFits(edges[k], page)
  }

  /** sqlAll of a job query: scan the selected columns, then load each edge. Whatever was
      selected, every job gets the edges its full row calls for from the answers for the
      full rows, because querySpec adds the foreign keys the edges need. */
  method SqlAll(rows: seq<Row>, all: seq<Column>, fields: seq<Column>, edges: seq<Edge>)
    returns (nodes: seq<Node>, err: Option<LoadError>, ghost columns: seq<Column>)
    requires forall k :: 0 <= k < |edges| ==> edges[k].fk in all && ID in edges[k].columns
    ensures err == None
    ensures |nodes| == |rows| && fresh(nodes)
    ensures fields == [] ==> columns == all
    ensures fields != [] ==> Elems(columns) == {ID} + Elems(fields) + Elems(KeysOf(edges))
    ensures forall i :: 0 <= i < |rows| ==>
              nodes[i].row == Loaded(rows[i], columns) && nodes[i].edges == EdgesGiven(edges, rows, rows[i])
    ensures PlainEdges(edges, rows) ==> forall i, k :: 0 <= i < |rows| && 0 <= k < |edges| ==>
              EdgeRight(edges[k], rows[i], nodes[i].edges)
  {
    hide PlainEdges, EdgeRight, Loaded, Get, Handed, EdgeAnswer, EdgesGiven;
    var cols := QuerySpec(all, fields, KeysOf(edges));
    columns := cols;
    nodes := Scan(rows, cols);
    err := None;
    NoEdgesGiven(rows);
    for k := 0 to |edges|
      invariant err == None
      invariant forall i :: 0 <= i < |rows| ==> nodes[i].edges == EdgesGiven(edges[..k], rows, rows[i])
    {
      KeySelected(all, fields, edges, columns, k);
      SameKeys(RowsOf(nodes), rows, columns, edges[k].fk);
      assert forall i :: 0 <= i < |rows| ==> RowsOf(nodes)[i] == nodes[i].row;
      OneMoreGiven(edges, rows, k);
      var ids;
      err, ids := LoadToOne(nodes, edges[k]);
    }
    assert edges[..|edges|] == edges;
    EdgesRight(edges, rows);
  }

  lemma NoEdgesGiven(page: seq<Row>)
    ensures forall i :: 0 <= i < |page| ==> EdgesGiven([], page, page[i]) == map[]
  {
  }

  lemma OneMoreGiven(edges: seq<Edge>, page: seq<Row>, k: nat)
    requires k < |edges|
    ensures forall i :: 0 <= i < |page| ==>
              EdgesGiven(edges[..k + 1], page, page[i]) ==
                Handed(EdgesGiven(edges[..k], page, page[i]), edges[k].fk, Get(page[i], edges[k].fk),
                       EdgeAnswer(edges[k], KeysIn(page, edges[k].fk)))
  {
    hide EdgesGiven, Handed, EdgeAnswer, KeysIn, Get;
    assert edges[..k + 1][..k] == edges[..k];
    forall i | 0 <= i < |page|
      ensures EdgesGiven(edges[..k + 1], page, page[i]) ==
                Handed(EdgesGiven(edges[..k], page, page[i]), edges[k].fk, Get(page[i], edges[k].fk),
                       EdgeAnswer(edges[k], KeysIn(page, edges[k].fk)))
    {
      LastGiven(edges[..k + 1], page, page[i]);
    }
  }

  lemma LastGiven(edges: seq<Edge>, page: seq<Row>, row: Row)
    requires edges != []
    ensures var e := edges[|edges| - 1];
            EdgesGiven(edges, page, row) ==
            Handed(EdgesGiven(edges[..|edges| - 1], page, row), e.fk, Get(row, e.fk), EdgeAnswer(e, KeysIn(page, e.fk)))
  {
    hide Handed, EdgeAnswer, KeysIn, Get;
  }

  lemma KeySelected(all: seq<Column>, fields: seq<Column>, edges: seq<Edge>, columns: seq<Column>, k: nat)
    requires k < |edges| && edges[k].fk in all
    requires fields == [] ==> columns == all
    requires fields != [] ==> Elems(columns) == {ID} + Elems(fields) + Elems(KeysOf(edges))
    ensures edges[k].fk in columns
  {
    assert KeysOf(edges)[k] == edges[k].fk && KeysOf(edges)[k] in Elems(KeysOf(edges));
    if fields != [] { assert edges[k].fk in Elems(columns); }
  }

  lemma SameKeys(loaded: seq<Row>, rows: seq<Row>, columns: seq<Column>, fk: Column)
    requires |loaded| == |rows| && fk in columns
    requires forall i :: 0 <= i < |rows| ==> loaded[i] == Loaded(rows[i], columns)
    ensures KeysIn(loaded, fk) == KeysIn(rows, fk)
    ensures forall i :: 0 <= i < |rows| ==> Get(loaded[i], fk) == Get(rows[i], fk)
  {
    assert forall i :: 0 <= i < |rows| ==> Get(loaded[i], fk) == Get(rows[i], fk);
  }

  // ---- when every row a key names is handed out ------------------------------------------

  /** Under unique ids the batched answer of an edge holds the row every key of the page
      names exactly when its limit and offset cut nothing off. */
  lemma EdgeIsWhole(e: Edge, page: seq<Row>)
    requires ID in e.columns && UniqueIds(e.rows)
    ensures var keys := KeysIn(page, e.fk);
            (forall key :: key in keys ==> LastRow(Select(EdgeAnswer(e, keys), ID, key)) == ToOne(e, key)) <==>
            Fits(|Neighbours(e.rows, e.columns, e.keep, ID, keys)|, e.window)
  {
    hide Neighbours, Select, Cut, Fits;
    var keys := KeysIn(page, e.fk);
    var found := Neighbours(e.rows, e.columns, e.keep, ID, keys);
    forall key | key in keys ensures Select(found, ID, key) == Matching(e.rows, e.columns, e.keep, ID, key) {
      SelectNeighbours(e.rows, e.columns, e.keep, ID, keys, key);
    }
    FitsIsWhole(found, e.window);
    if !Fits(|found|, e.window) {
      var j := CutLosesKey(found, e.window, ID);
      var key := Get(found[j], ID);
      NeighboursKnown(e.rows, e.columns, e.keep, ID, keys);
      assert found[j] in found;
      AtMostOneMatch(e.rows, e.columns, e.keep, key);
      assert LastRow(Select(EdgeAnswer(e, keys), ID, key)) == None != ToOne(e, key);
    }
  }

  ghost predicate AllGiven(edges: seq<Edge>, page: seq<Row>) {
    forall i :: 0 <= i < |page| ==> EdgesGiven(edges, page, page[i]) == EdgesOf(edges, page[i])
  }

  /** The last edge writes under its own column, so it is right iff its answer is. */
  lemma LastEdge(edges: seq<Edge>, page: seq<Row>)
    requires edges != [] && Distinct(KeysOf(edges))
    ensures var init, e, keys := edges[..|edges| - 1], edges[|edges| - 1], KeysIn(page, edges[|edges| - 1].fk);
            AllGiven(edges, page) <==>
            && AllGiven(init, page)
            && forall key :: key in keys ==> LastRow(Select(EdgeAnswer(e, keys), ID, key)) == ToOne(e, key)
  {
    var n := |edges| - 1;
    var init, e := edges[..n], edges[n];
    var keys := KeysIn(page, e.fk);
    assert forall k :: 0 <= k < |edges| ==> KeysOf(edges)[k] == edges[k].fk;
    NullMatchesNothing(e.rows, e.columns, e.keep);
    forall i | 0 <= i < |page|
      ensures EdgesGiven(edges, page, page[i]) == EdgesOf(edges, page[i]) <==>
              && EdgesGiven(init, page, page[i]) == EdgesOf(init, page[i])
              && (Get(page[i], e.fk) in keys ==>
                    LastRow(Select(EdgeAnswer(e, keys), ID, Get(page[i], e.fk))) == ToOne(e, Get(page[i], e.fk)))
    {
      OtherColumns(init, page, page[i], e.fk);
      var given, named := LastRow(Select(EdgeAnswer(e, keys), ID, Get(page[i], e.fk))), ToOne(e, Get(page[i], e.fk));
      OneColumn(EdgesGiven(init, page, page[i]), EdgesOf(init, page[i]), e.fk, given, named);
    }
  }

  lemma LastEdgeFits(edges: seq<Edge>, page: seq<Row>)
    requires edges != [] && Distinct(KeysOf(edges))
    requires ID in edges[|edges| - 1].columns && UniqueIds(edges[|edges| - 1].rows)
    ensures AllGiven(edges, page) <==> AllGiven(edges[..|edges| - 1], page) && EdgeFits(edges[|edges| - 1], page)
  {
    hide AllGiven, Fits;
    EdgeIsWhole(edges[|edges| - 1], page);
    LastEdge(edges, page);
  }

  lemma AllFitSplits(edges: seq<Edge>, page: seq<Row>)
    requires edges != []
    ensures AllFit(edges, page) <==> AllFit(edges[..|edges| - 1], page) && EdgeFits(edges[|edges| - 1], page)
  {
    hide EdgeFits;
    var n := |edges| - 1;
    assert forall k :: 0 <= k < n ==> edges[..n][k] == edges[k];
  }

  lemma KeyedSplits(edges: seq<Edge>)
    requires edges != [] && Distinct(KeysOf(edges)) && AllKeyed(edges)
    ensures Distinct(KeysOf(edges[..|edges| - 1])) && AllKeyed(edges[..|edges| - 1])
    ensures ID in edges[|edges| - 1].columns && UniqueIds(edges[|edges| - 1].rows)
  {
    hide UniqueIds;
    var n := |edges| - 1;
    DistinctTake(KeysOf(edges), n);
    assert KeysOf(edges[..n]) == KeysOf(edges)[..n];
    assert forall k :: 0 <= k < n ==> edges[..n][k] == edges[k];
  }

  /** Eager loading gives every job of a page exactly the rows its keys name, edge by edge,
      if and only if no edge query's limit or offset cuts a row off its answer. */
  lemma {:induction false} EveryEdgeFound(edges: seq<Edge>, page: seq<Row>)
    requires Distinct(KeysOf(edges)) && AllKeyed(edges)
    ensures AllGiven(edges, page) <==> AllFit(edges, page)
  {
    if edges == [] {
    } else {
      hide AllGiven, AllFit, AllKeyed, KeysOf, Distinct, EdgeFits;
      KeyedSplits(edges);
      EveryEdgeFound(edges[..|edges| - 1], page);
      LastEdgeFits(edges, page);
      AllFitSplits(edges, page);
    }
  }

  lemma OneColumn(a: map<Column, Row>, b: map<Column, Row>, fk: Column, x: Option<Row>, y: Option<Row>)
    requires fk !in a && fk !in b
    ensures WithEdge(a, fk, x) == WithEdge(b, fk, y) <==> a == b && x == y
  {
    if WithEdge(a, fk, x) == WithEdge(b, fk, y) {
      assert (fk in WithEdge(a, fk, x) <==> x.Some?) && (fk in WithEdge(b, fk, y) <==> y.Some?);
      forall c ensures c in a <==> c in b {
        assert c != fk ==> (c in WithEdge(a, fk, x) <==> c in a) && (c in WithEdge(b, fk, y) <==> c in b);
      }
      forall c | c in a ensures a[c] == b[c] {
        assert WithEdge(a, fk, x)[c] == a[c] && WithEdge(b, fk, y)[c] == b[c];
      }
    }
  }

  lemma {:induction false} OtherColumns(edges: seq<Edge>, page: seq<Row>, row: Row, fk: Column)
    requires forall k :: 0 <= k < |edges| ==> edges[k].fk != fk
    ensures fk !in EdgesGiven(edges, page, row) && fk !in EdgesOf(edges, row)
  {
    if edges == [] {
    } else {
      OtherColumns(edges[..|edges| - 1], page, row, fk);
    }
  }

  lemma ChosenIsNamed(e: Edge, row: Row, i: nat)
    requires i < |e.rows|
    ensures Chosen(e.rows[i], e.keep, ID, {Get(row, e.fk)}) <==> Names(e, row, i)
  {
  }

  lemma FoundIsNamed(e: Edge, row: Row, found: seq<Row>, places: seq<nat>)
    requires AreRows(places, found, e.rows, e.columns, e.keep, ID, {Get(row, e.fk)})
    ensures found == [] ==> forall i :: !Names(e, row, i)
    ensures found != [] ==>
              exists i :: Names(e, row, i) && SelectedOf(found[|found| - 1], e.rows[i], e.columns)
  {
    hide Chosen, SelectedOf, Get;
    forall i | 0 <= i < |e.rows| ensures i in places <==> Names(e, row, i) {
      ChosenIsNamed(e, row, i);
    }
    if found != [] {
      var i := places[|found| - 1];
      assert i in places && Names(e, row, i);
    }
  }

  lemma ToOneRight(e: Edge, row: Row, edges: map<Column, Row>)
    requires e.fk !in edges
    ensures EdgeRight(e, row, WithEdge(edges, e.fk, ToOne(e, Get(row, e.fk))))
  {
    hide AreRows, Names, SelectedOf, Neighbours;
    var key := Get(row, e.fk);
    var places := NeighboursAre(e.rows, e.columns, e.keep, ID, {key});
    FoundIsNamed(e, row, Matching(e.rows, e.columns, e.keep, ID, key), places);
  }

  /** Over a whole page of plain edges every edge of every job is right, whatever the kind of
      its key. */
  lemma EdgesRight(edges: seq<Edge>, page: seq<Row>)
    requires forall j :: 0 <= j < |edges| ==> ID in edges[j].columns
    ensures PlainEdges(edges, page) ==> forall i, k :: 0 <= i < |page| && 0 <= k < |edges| ==>
              EdgeRight(edges[k], page[i], EdgesGiven(edges, page, page[i]))
  {
    if PlainEdges(edges, page) {
      EveryEdgeFound(edges, page);
      forall i, k | 0 <= i < |page| && 0 <= k < |edges|
        ensures EdgeRight(edges[k], page[i], EdgesGiven(edges, page, page[i]))
      {
        EdgeOfRight(edges, page[i], k);
      }
    }
  }

  lemma {:induction false} EdgeOfRight(edges: seq<Edge>, row: Row, k: nat)
    requires Distinct(KeysOf(edges)) && k < |edges|
    ensures EdgeRight(edges[k], row, EdgesOf(edges, row))
  {
    hide EdgeRight, WithEdge, ToOne;
    var n := |edges| - 1;
    var init, e := edges[..n], edges[n];
    assert forall j :: 0 <= j < |edges| ==> KeysOf(edges)[j] == edges[j].fk;
    if k == n {
      OtherColumns(init, [], row, e.fk);
      ToOneRight(e, row, EdgesOf(init, row));
    } else {
      assert forall j :: 0 <= j < n ==> KeysOf(init)[j] == init[j].fk == edges[j].fk;
      EdgeOfRight(init, row, k);
      assert e.fk != edges[k].fk;
      OneEdgeMore(edges[k], row, EdgesOf(init, row), e.fk, ToOne(e, Get(row, e.fk)));
    }
  }

  lemma OneEdgeMore(e: Edge, row: Row, edges: map<Column, Row>, other: Column, found: Option<Row>)
    requires EdgeRight(e, row, edges) && other != e.fk
    ensures EdgeRight(e, row, WithEdge(edges, other, found))
  {
    var more := WithEdge(edges, other, found);
    assert (e.fk in more <==> e.fk in edges) && (e.fk in edges ==> more[e.fk] == edges[e.fk]);
  }

  /** Without the AddColumnOnce step the result would depend on the Select: a job loaded
      without its foreign key column has no edge, whatever its row says. */
  lemma UnselectedKeyLosesEdge(e: Edge, row: Row, columns: seq<Column>)
    requires e.fk !in columns && ToOne(e, Get(row, e.fk)).Some?
    ensures ToOne(e, Get(Loaded(row, columns), e.fk)) == None
  {
    NullMatchesNothing(e.rows, e.columns, e.keep);
  }
}
