/** Batch lookup of GraphQL nodes (ent/gql_node.go): ids are grouped by table, each table
    is queried once, and the rows are scattered back to the positions that asked. */
module NodeLookup {
  import opened Collections

  datatype Node = Node(table: string, id: string, payload: int)

  datatype Error =
    | ResolverError(id: string, notFound: bool)
    | InvalidTable(table: string)
    | QueryFailed(table: string)
    | RowNotFound(table: string)
    | NodeNotFound(id: string)
    | Both(first: Error, second: Error)

  datatype Result<T> = Ok(value: T) | Err(error: Error)

  /** ent's IsNotFound: a *NotFoundError, bare or wrapped. */
  predicate IsNotFound(e: Error) {
    e.InvalidTable? || e.RowNotFound? || (e.ResolverError? && e.notFound)
  }

  /** The tables a client can query, and those whose query fails. */
  datatype Store = Store(tables: map<string, map<string, int>>, broken: set<string>)

  /** The table an id belongs to; or the resolver's error, which may itself be one that
      IsNotFound recognises. */
  datatype Resolved = Table(name: string) | Unresolved(notFound: bool)

  type Resolver = string -> Resolved

  /** One lookup, before it is reported: resolve the table, query it for the id. */
  function Lookup(store: Store, resolve: Resolver, id: string): Result<Node> {
    match resolve(id)
    case Unresolved(notFound) => Err(ResolverError(id, notFound))
    case Table(table) =>
      if table !in store.tables then Err(InvalidTable(table))
      else if table in store.broken then Err(QueryFailed(table))
      else if id !in store.tables[table] then Err(RowNotFound(table))
      else Ok(Node(table, id, store.tables[table][id]))
  }

  /** Noder reports a not-found error together with the node error of the id. */
  function Reported(e: Error, id: string): Error {
    if IsNotFound(e) then Both(e, NodeNotFound(id)) else e
  }

  method Noder(store: Store, resolve: Resolver, id: string) returns (r: Result<Node>)
    ensures r == match Lookup(store, resolve, id)
                 case Ok(node) => Ok(node)
                 case Err(e) => Err(Reported(e, id))
    ensures match resolve(id)
            case Unresolved(true) => r == Err(Both(ResolverError(id, true), NodeNotFound(id)))
            case Unresolved(false) => r == Err(ResolverError(id, false))
            case Table(t) =>
              if t !in store.tables then r == Err(Both(InvalidTable(t), NodeNotFound(id)))
              else if t in store.broken then r == Err(QueryFailed(t))
              else if id !in store.tables[t] then r == Err(Both(RowNotFound(t), NodeNotFound(id)))
              else r == Ok(Node(t, id, store.tables[t][id]))
  {
    match resolve(id) {
      case Unresolved(notFound) =>
        r := Err(ResolverError(id, notFound));
      case Table(table) =>
        if table !in store.tables {
          r := Err(InvalidTable(table));
        } else if table in store.broken {
          r := Err(QueryFailed(table));
        } else if id in store.tables[table] {
          r := Ok(Node(table, id, store.tables[table][id]));
        } else {
          r := Err(RowNotFound(table));
        }
    }
    if r.Err? && IsNotFound(r.error) {
      r := Err(Both(r.error, NodeNotFound(id)));
    }
  }

  /** What a position of a table query holds: the row of its id, or nothing. */
  function RowOf(rows: map<string, int>, table: string, id: string): Option<Node> {
    if id in rows then Some(Node(table, id, rows[id])) else None
  }

  /** id2idx lists exactly the positions of each id it knows. */
  ghost predicate Indexes(id2idx: map<string, seq<nat>>, ids: seq<string>) {
    forall id :: id in id2idx ==> IndexesOne(id2idx[id], ids, id)
  }

  ghost predicate IndexesOne(idxs: seq<nat>, ids: seq<string>, id: string) {
    && (forall k :: 0 <= k < |idxs| ==> idxs[k] < |ids| && ids[idxs[k]] == id)
    && (forall p :: 0 <= p < |ids| && ids[p] == id ==> p in idxs)
  }

  function AppendIndex(id2idx: map<string, seq<nat>>, id: string, i: nat): map<string, seq<nat>> {
    id2idx[id := (if id in id2idx then id2idx[id] else []) + [i]]
  }

  lemma IndexesExtend(id2idx: map<string, seq<nat>>, ids: seq<string>, id: string)
    requires Indexes(id2idx, ids)
    requires id !in id2idx ==> id !in ids
    ensures Indexes(AppendIndex(id2idx, id, |ids|), ids + [id])
  {
    var next, all := AppendIndex(id2idx, id, |ids|), ids + [id];
    forall x | x in next ensures IndexesOne(next[x], all, x) {
      if x in id2idx { assert IndexesOne(id2idx[x], ids, x); }
      var old_ := if x in id2idx then id2idx[x] else [];
      forall p | 0 <= p < |all| && all[p] == x ensures p in next[x] {
        if p < |ids| {
          assert ids[p] == x && p in old_;
        } else {
          assert next[x] == old_ + [p];
        }
      }
    }
  }

  lemma IndexesSkip(id2idx: map<string, seq<nat>>, ids: seq<string>, id: string)
    requires Indexes(id2idx, ids) && id !in id2idx
    ensures Indexes(id2idx, ids + [id])
  {
    forall x | x in id2idx ensures IndexesOne(id2idx[x], ids + [id], x) {
      assert IndexesOne(id2idx[x], ids, x);
    }
  }

  ghost predicate IndexesAll(idmap: map<string, seq<nat>>, ids: seq<string>) {
    Indexes(idmap, ids) && idmap.Keys == Elems(ids)
  }

  lemma IndexesAllExtend(idmap: map<string, seq<nat>>, ids: seq<string>, id: string)
    requires IndexesAll(idmap, ids)
    ensures IndexesAll(AppendIndex(idmap, id, |ids|), ids + [id])
  {
    IndexesExtend(idmap, ids, id);
  }

  method IndexIds(ids: seq<string>) returns (idmap: map<string, seq<nat>>)
    ensures IndexesAll(idmap, ids)
  {
    idmap := map[];
    for i := 0 to |ids|
      invariant IndexesAll(idmap, ids[..i])
    {
      IndexesAllExtend(idmap, ids[..i], ids[i]);
      assert ids[..i + 1] == ids[..i] + [ids[i]];
      idmap := AppendIndex(idmap, ids[i], i);
    }
    assert ids[..|ids|] == ids;
  }

  /** One table: every position whose id has a row gets it, duplicates included. */
  method NodersOf(store: Store, table: string, ids: seq<string>) returns (r: Result<seq<Option<Node>>>)
    ensures r == TableResult(store, table, ids)
  {
    var noders := new Option<Node>[|ids|](_ => None);
    var idmap := IndexIds(ids);
    if table !in store.tables { return Err(InvalidTable(table)); }
    if table in store.broken { return Err(QueryFailed(table)); }
    FillRows(noders, ids, idmap, table, store.tables[table]);
    r := Ok(noders[..]);
    assert r.value == TableResult(store, table, ids).value;
  }

  function TableResult(store: Store, table: string, ids: seq<string>): Result<seq<Option<Node>>> {
    if table !in store.tables then Err(InvalidTable(table))
    else if table in store.broken then Err(QueryFailed(table))
    else Ok(seq(|ids|, i requires 0 <= i < |ids| => RowOf(store.tables[table], table, ids[i])))
  }

  /** Query the rows of these ids and write each to the positions that asked for it. */
  method FillRows(noders: array<Option<Node>>, ids: seq<string>, idmap: map<string, seq<nat>>,
                  table: string, rows: map<string, int>)
    requires noders.Length == |ids| && forall p :: 0 <= p < |ids| ==> noders[p] == None
    requires IndexesAll(idmap, ids)
    modifies noders
    ensures forall p :: 0 <= p < |ids| ==> noders[p] == RowOf(rows, table, ids[p])
  {
    var matching := set id | id in rows && id in ids;
    var left := matching;
    while left != {}
      invariant left <= matching
      invariant forall p :: 0 <= p < |ids| ==>
                  noders[p] == if ids[p] in left then None else RowOf(rows, table, ids[p])
      decreases |left|
    {
      var id :| id in left;
      assert id in Elems(ids) && IndexesOne(idmap[id], ids, id);
      Assign(noders, idmap[id], RowOf(rows, table, id));
      left := left - {id};
    }
  }

  /** Write one value at the given positions. */
  method Assign<T>(a: array<T>, idxs: seq<nat>, value: T)
    requires forall k :: 0 <= k < |idxs| ==> idxs[k] < a.Length
    modifies a
    ensures forall p :: 0 <= p < a.Length ==> a[p] == if p in idxs then value else old(a[p])
  {
    for k := 0 to |idxs|
      invariant forall p :: 0 <= p < a.Length ==> a[p] == if p in idxs[..k] then value else old(a[p])
    {
      a[idxs[k]] := value;
      assert idxs[..k + 1] == idxs[..k] + [idxs[k]];
    }
    assert idxs[..|idxs|] == idxs;
  }

  /** What the batch leaves at a position whose id resolved to this table. */
  function NodeAt(store: Store, table: string, id: string): Option<Node> {
    if table in store.tables && table !in store.broken then RowOf(store.tables[table], table, id) else None
  }

  function ErrorAt(store: Store, table: string): Option<Error> {
    if table !in store.tables then Some(InvalidTable(table))
    else if table in store.broken then Some(QueryFailed(table))
    else None
  }

  /** Query one table for the ids grouped under it and scatter the answer, rows or one
      error, to every position of those ids. */
  method ResolveTable(store: Store, table: string, group: seq<string>, ids: seq<string>,
                      id2idx: map<string, seq<nat>>, noders: array<Option<Node>>, errors: array<Option<Error>>)
    requires noders.Length == errors.Length == |ids|
    requires Indexes(id2idx, ids) && forall k :: 0 <= k < |group| ==> group[k] in id2idx
    requires forall p :: 0 <= p < |ids| && ids[p] in group ==> noders[p] == None && errors[p] == None
    modifies noders, errors
    ensures forall p :: 0 <= p < |ids| ==>
              noders[p] == if ids[p] in group then NodeAt(store, table, ids[p]) else old(noders[p])
    ensures forall p :: 0 <= p < |ids| ==>
              errors[p] == if ids[p] in group then ErrorAt(store, table) else old(errors[p])
  {
    var answer := NodersOf(store, table, group);
    if answer.Err? {
      for k := 0 to |group|
        modifies errors
        invariant forall p :: 0 <= p < |ids| ==>
                    errors[p] == if ids[p] in group[..k] then Some(answer.error) else old(errors[p])
      {
        assert IndexesOne(id2idx[group[k]], ids, group[k]);
        assert group[..k + 1] == group[..k] + [group[k]];
        Assign(errors, id2idx[group[k]], Some(answer.error));
      }
    } else {
      for k := 0 to |group|
        modifies noders
        invariant forall p :: 0 <= p < |ids| ==>
                    noders[p] == if ids[p] in group[..k] then NodeAt(store, table, ids[p]) else old(noders[p])
      {
        assert IndexesOne(id2idx[group[k]], ids, group[k]);
        assert group[..k + 1] == group[..k] + [group[k]];
        Assign(noders, id2idx[group[k]], answer.value[k]);
      }
    }
    assert group[..|group|] == group;
  }

  function Group(groups: map<string, seq<string>>, table: string, id: string): map<string, seq<string>> {
    groups[table := (if table in groups then groups[table] else []) + [id]]
  }

  /** groups holds, per table, exactly the ids that resolve to it. */
  ghost predicate Grouped(groups: map<string, seq<string>>, resolve: Resolver, ids: seq<string>) {
    && (forall t :: t in groups ==> GroupOf(groups[t], resolve, ids, t))
    && (forall id :: id in ids && resolve(id).Table? ==> resolve(id).name in groups)
  }

  ghost predicate GroupOf(group: seq<string>, resolve: Resolver, ids: seq<string>, t: string) {
    Elems(group) == set id | id in ids && resolve(id) == Table(t)
  }

  function ResolveError(resolve: Resolver, id: string): Option<Error> {
    match resolve(id)
    case Unresolved(notFound) => Some(ResolverError(id, notFound))
    case Table(_) => None
  }

  /** id2idx holds the positions of exactly the ids that resolve. */
  ghost predicate Positions(id2idx: map<string, seq<nat>>, resolve: Resolver, ids: seq<string>) {
    Indexes(id2idx, ids) && id2idx.Keys == set id | id in ids && resolve(id).Table?
  }

  lemma GroupStep(groups: map<string, seq<string>>, resolve: Resolver, ids: seq<string>, id: string)
    requires Grouped(groups, resolve, ids)
    ensures resolve(id).Unresolved? ==> Grouped(groups, resolve, ids + [id])
    ensures resolve(id).Table? ==> Grouped(Group(groups, resolve(id).name, id), resolve, ids + [id])
  {
    forall t | t in groups && resolve(id) != Table(t) ensures GroupOf(groups[t], resolve, ids + [id], t) {
      assert GroupOf(groups[t], resolve, ids, t);
    }
    if resolve(id).Table? {
      var t := resolve(id).name;
      if t in groups { assert GroupOf(groups[t], resolve, ids, t); }
      var old_ := if t in groups then groups[t] else [];
      ElemsConcat(old_, [id]);
      assert Elems(old_) == set x | x in ids && resolve(x) == Table(t);
    }
  }

  lemma PositionsStep(id2idx: map<string, seq<nat>>, resolve: Resolver, ids: seq<string>, id: string)
    requires Positions(id2idx, resolve, ids)
    ensures resolve(id).Unresolved? ==> Positions(id2idx, resolve, ids + [id])
    ensures resolve(id).Table? ==> Positions(AppendIndex(id2idx, id, |ids|), resolve, ids + [id])
  {
    if resolve(id).Unresolved? { IndexesSkip(id2idx, ids, id); } else { IndexesExtend(id2idx, ids, id); }
  }

  /** Resolve every id: group the ids by table, note their positions, keep the errors. */
  method GroupIds(resolve: Resolver, ids: seq<string>, errors: array<Option<Error>>)
    returns (groups: map<string, seq<string>>, id2idx: map<string, seq<nat>>)
    requires errors.Length == |ids| && forall p :: 0 <= p < |ids| ==> errors[p] == None
    modifies errors
    ensures Grouped(groups, resolve, ids) && Positions(id2idx, resolve, ids)
    ensures forall p :: 0 <= p < |ids| ==>
              errors[p] == ResolveError(resolve, ids[p])
  {
    groups, id2idx := map[], map[];
    for i := 0 to |ids|
      invariant Grouped(groups, resolve, ids[..i]) && Positions(id2idx, resolve, ids[..i])
      invariant forall p :: 0 <= p < |ids| ==>
                  errors[p] == if p < i then ResolveError(resolve, ids[p]) else None
    {
      var id := ids[i];
      GroupStep(groups, resolve, ids[..i], id);
      PositionsStep(id2idx, resolve, ids[..i], id);
      assert ids[..i + 1] == ids[..i] + [id];
      match resolve(id) {
        case Unresolved(notFound) =>
          errors[i] := Some(ResolverError(id, notFound));
        case Table(table) =>
          groups := Group(groups, table, id);
          id2idx := AppendIndex(id2idx, id, i);
      }
    }
    assert ids[..|ids|] == ids;
  }

  /** The error the batch reports for an id that Lookup rejects: a missing row shows as
      an empty position, so it is reported as the node error alone. */
  function BatchError(e: Error, id: string): Error {
    if e.RowNotFound? then NodeNotFound(id) else Reported(e, id)
  }

  function Found(store: Store, resolve: Resolver, id: string): Option<Node> {
    match Lookup(store, resolve, id)
    case Ok(node) => Some(node)
    case Err(_) => None
  }

  datatype Failure = Failure(position: nat, error: Error)

  /** One report per failing position, in order. */
  function Failures(store: Store, resolve: Resolver, ids: seq<string>): seq<Failure> {
    if ids == [] then []
    else
      var i := |ids| - 1;
      Failures(store, resolve, ids[..i]) +
      match Lookup(store, resolve, ids[i])
      case Ok(_) => []
      case Err(e) => [Failure(i, BatchError(e, ids[i]))]
  }

  /** The position fails, and with this report. */
  ghost predicate Fails(store: Store, resolve: Resolver, ids: seq<string>, f: Failure) {
    && f.position < |ids|
    && Lookup(store, resolve, ids[f.position]).Err?
    && f.error == BatchError(Lookup(store, resolve, ids[f.position]).error, ids[f.position])
  }

  /** Failures names each position at most once, and exactly those whose own lookup
      fails, each with its error. */
  lemma {:induction false} FailuresExact(store: Store, resolve: Resolver, ids: seq<string>)
    ensures forall k, l :: 0 <= k < l < |Failures(store, resolve, ids)| ==>
              Failures(store, resolve, ids)[k].position < Failures(store, resolve, ids)[l].position
    ensures forall f :: f in Failures(store, resolve, ids) <==> Fails(store, resolve, ids, f)
  {
    if ids == [] {
    } else {
      var n := |ids| - 1;
      var init := Failures(store, resolve, ids[..n]);
      FailuresExact(store, resolve, ids[..n]);
      assert forall k :: 0 <= k < |init| ==> init[k] in init;
      forall f ensures Fails(store, resolve, ids[..n], f) <==> Fails(store, resolve, ids, f) && f.position < n {
        assert f.position < n ==> ids[..n][f.position] == ids[f.position];
      }
    }
  }

  /** Noders (ent/gql_node.go:322-381). */
  method Noders(store: Store, resolve: Resolver, ids: seq<string>)
    returns (r: Result<seq<Option<Node>>>, reported: seq<Failure>)
    ensures |ids| == 1 ==> reported == [] && r == match Lookup(store, resolve, ids[0])
                                                  case Ok(node) => Ok([Some(node)])
                                                  case Err(e) => Err(Reported(e, ids[0]))
    ensures |ids| != 1 ==> && r == Ok(seq(|ids|, i requires 0 <= i < |ids| => Found(store, resolve, ids[i])))
                           && reported == Failures(store, resolve, ids)
  {
    reported := [];
    if |ids| == 1 {
      var one := Noder(store, resolve, ids[0]);
      r := if one.Err? then Err(one.error) else Ok([Some(one.value)]);
      return;
    }
    if |ids| == 0 {
      r := Ok([]);
      assert r.value == seq(|ids|, i requires 0 <= i < |ids| => Found(store, resolve, ids[i]));
      return;
    }
    var noders := new Option<Node>[|ids|](_ => None);
    var errors := new Option<Error>[|ids|](_ => None);
    var groups, id2idx := GroupIds(resolve, ids, errors);
    ResolveGroups(store, resolve, ids, groups, id2idx, noders, errors);
    reported := Report(store, resolve, ids, noders, errors);
    r := Ok(noders[..]);
    assert r.value == seq(|ids|, i requires 0 <= i < |ids| => Found(store, resolve, ids[i]));
  }

  /** The batch in plain terms: at each position the row of its id in the table it resolves
      to, or nothing; and when nothing, why, in the report for that position. */
  lemma BatchMeans(store: Store, resolve: Resolver, ids: seq<string>, i: nat)
    requires i < |ids|
    ensures Found(store, resolve, ids[i]) ==
            match resolve(ids[i])
            case Unresolved(_) => None
            case Table(t) =>
              if t in store.tables && t !in store.broken && ids[i] in store.tables[t]
              then Some(Node(t, ids[i], store.tables[t][ids[i]])) else None
    ensures forall e :: Failure(i, e) in Failures(store, resolve, ids) <==>
              match resolve(ids[i])
              case Unresolved(true) => e == Both(ResolverError(ids[i], true), NodeNotFound(ids[i]))
              case Unresolved(false) => e == ResolverError(ids[i], false)
              case Table(t) =>
                if t !in store.tables then e == Both(InvalidTable(t), NodeNotFound(ids[i]))
                else if t in store.broken then e == QueryFailed(t)
                else ids[i] !in store.tables[t] && e == NodeNotFound(ids[i])
  {
    FailuresExact(store, resolve, ids);
    forall e ensures Failure(i, e) in Failures(store, resolve, ids) <==> Fails(store, resolve, ids, Failure(i, e)) {
    }
  }

  /** What the two arrays hold at a position once its table, if any, is resolved. */
  ghost predicate Settled(store: Store, resolve: Resolver, id: string, node: Option<Node>, error: Option<Error>) {
    match resolve(id)
    case Unresolved(_) => node == None && error == ResolveError(resolve, id)
    case Table(t) => node == NodeAt(store, t, id) && error == ErrorAt(store, t)
  }

  /** Go iterates a map in no particular order; neither does this loop. */
  method ResolveGroups(store: Store, resolve: Resolver, ids: seq<string>, groups: map<string, seq<string>>,
                       id2idx: map<string, seq<nat>>, noders: array<Option<Node>>, errors: array<Option<Error>>)
    requires noders.Length == errors.Length == |ids|
    requires Grouped(groups, resolve, ids) && Positions(id2idx, resolve, ids)
    requires forall p :: 0 <= p < |ids| ==> noders[p] == None
    requires forall p :: 0 <= p < |ids| ==>
               errors[p] == ResolveError(resolve, ids[p])
    modifies noders, errors
    ensures forall p :: 0 <= p < |ids| ==> Settled(store, resolve, ids[p], noders[p], errors[p])
  {
    var left := groups.Keys;
    while left != {}
      invariant left <= groups.Keys
      invariant forall p :: 0 <= p < |ids| ==>
                  if resolve(ids[p]).Table? && resolve(ids[p]).name in left
                  then noders[p] == None && errors[p] == None
                  else Settled(store, resolve, ids[p], noders[p], errors[p])
      decreases |left|
    {
      var table :| table in left;
      assert GroupOf(groups[table], resolve, ids, table);
      assert forall p :: 0 <= p < |ids| ==> (ids[p] in Elems(groups[table]) <==> resolve(ids[p]) == Table(table));
      assert forall k :: 0 <= k < |groups[table]| ==> groups[table][k] in Elems(groups[table]);
      ResolveTable(store, table, groups[table], ids, id2idx, noders, errors);
      left := left - {table};
    }
  }

  lemma FailuresStep(store: Store, resolve: Resolver, ids: seq<string>, i: nat)
    requires i < |ids|
    ensures Failures(store, resolve, ids[..i + 1]) ==
            match Lookup(store, resolve, ids[i])
            case Ok(_) => Failures(store, resolve, ids[..i])
            case Err(e) => Failures(store, resolve, ids[..i]) + [Failure(i, BatchError(e, ids[i]))]
  {
    assert ids[..i + 1][..i] == ids[..i];
  }

  function Completed(id: string, node: Option<Node>, error: Option<Error>): Option<Error> {
    match error
    case None => if node == None then Some(NodeNotFound(id)) else None
    case Some(e) => Some(Reported(e, id))
  }

  lemma SettledReports(store: Store, resolve: Resolver, id: string, node: Option<Node>, error: Option<Error>)
    requires Settled(store, resolve, id, node, error)
    ensures node == Found(store, resolve, id)
    ensures Completed(id, node, error) == match Lookup(store, resolve, id)
                                          case Ok(_) => None
                                          case Err(e) => Some(BatchError(e, id))
  {
  }

  /** What the final loop makes of one position: an error for every position without a node,
      a not-found error joined with the node error. */
  method Complete(id: string, node: Option<Node>, error: Option<Error>) returns (e: Option<Error>)
    ensures e == Completed(id, node, error)
  {
    e := error;
    if e == None {
      if node == None {
        e := Some(NodeNotFound(id));
      }
    } else if IsNotFound(e.value) {
      e := Some(Both(e.value, NodeNotFound(id)));
    }
  }

  /** The final loop: complete and report the errors, one per position without a node. */
  method Report(store: Store, resolve: Resolver, ids: seq<string>,
                noders: array<Option<Node>>, errors: array<Option<Error>>)
    returns (reported: seq<Failure>)
    requires noders.Length == errors.Length == |ids|
    requires forall p :: 0 <= p < |ids| ==> Settled(store, resolve, ids[p], noders[p], errors[p])
    modifies errors
    ensures reported == Failures(store, resolve, ids)
    ensures forall p :: 0 <= p < |ids| ==> noders[p] == Found(store, resolve, ids[p])
  {
    reported := [];
    assert Failures(store, resolve, ids[..0]) == [];
    hide Settled, Failures, Found, Lookup, Completed, BatchError;
    for i := 0 to |ids|
      invariant forall p :: i <= p < |ids| ==> Settled(store, resolve, ids[p], noders[p], errors[p])
      invariant forall p :: 0 <= p < i ==> noders[p] == Found(store, resolve, ids[p])
      invariant reported == Failures(store, resolve, ids[..i])
    {
      SettledReports(store, resolve, ids[i], noders[i], errors[i]);
      FailuresStep(store, resolve, ids, i);
      var e := Complete(ids[i], noders[i], errors[i]);
      errors[i] := e;
      if e.Some? { reported := reported + [Failure(i, e.value)]; }
    }
    assert ids[..|ids|] == ids;
  }

  /** A missing row is a not-found error for Noder and an empty position for the batch, so
      the batch reports the node error alone; every other error it reports as Noder does. */
  function InBatch(e: Error): Error {
    match e
    case Both(RowNotFound(_), nodeError) => nodeError
    case _ => e
  }

  /** The batch against asking one by one: the same node at every position where Noder finds
      one, no node and exactly one report where it does not, with the error Noder gives. */
  method BatchAgreesWithNoder(store: Store, resolve: Resolver, ids: seq<string>)
    returns (batch: Result<seq<Option<Node>>>, reported: seq<Failure>, singles: seq<Result<Node>>)
    ensures |singles| == |ids|
    ensures |ids| == 1 ==> reported == [] && batch == match singles[0]
                                                      case Ok(node) => Ok([Some(node)])
                                                      case Err(e) => Err(e)
    ensures |ids| != 1 ==> batch.Ok? && |batch.value| == |ids|
    ensures |ids| != 1 ==> forall i :: 0 <= i < |ids| ==>
              batch.value[i] == if singles[i].Ok? then Some(singles[i].value) else None
    ensures |ids| != 1 ==> forall i :: 0 <= i < |ids| && singles[i].Err? ==>
              Failure(i, InBatch(singles[i].error)) in reported
    ensures |ids| != 1 ==> forall k :: 0 <= k < |reported| ==>
              reported[k].position < |ids| && singles[reported[k].position].Err?
    ensures forall k, l :: 0 <= k < l < |reported| ==> reported[k].position < reported[l].position
  {
    batch, reported := Noders(store, resolve, ids);
    singles := [];
    for i := 0 to |ids|
      invariant |singles| == i && forall j :: 0 <= j < i ==> AsNoder(store, resolve, ids[j], singles[j])
    {
      var one := Noder(store, resolve, ids[i]);
      singles := singles + [one];
    }
    FailuresExact(store, resolve, ids);
    forall i | 0 <= i < |ids| && singles[i].Err? && |ids| != 1
      ensures Failure(i, InBatch(singles[i].error)) in reported
    {
      assert AsNoder(store, resolve, ids[i], singles[i]);
      assert Fails(store, resolve, ids, Failure(i, InBatch(singles[i].error)));
    }
    forall k | 0 <= k < |reported| && |ids| != 1
      ensures reported[k].position < |ids| && singles[reported[k].position].Err?
    {
      assert reported[k] in reported && Fails(store, resolve, ids, reported[k]);
      assert AsNoder(store, resolve, ids[reported[k].position], singles[reported[k].position]);
    }
  }

  ghost predicate AsNoder(store: Store, resolve: Resolver, id: string, r: Result<Node>) {
    r == match Lookup(store, resolve, id)
         case Ok(node) => Ok(node)
         case Err(e) => Err(Reported(e, id))
  }
}
