/** Bulk creation of attachment jobs (ent/attachmentjob_create.go): the builders' mutators
    call one another down the list, and the last one issues the only insert. */
module BulkCreate {
  import opened Collections

  /** The fields of a mutation that defaults and check look at. */
  datatype Fields = Fields(
    id: Option<nat>, createdAt: Option<int>, modifiedAt: Option<int>, mediaKey: Option<string>,
    syncEventId: Option<nat>, status: Option<string>, attemptCount: Option<int>)

  datatype Error =
    | Missing(field: string) | InvalidStatus(status: string) | HookError(code: int) | InsertFailed(code: int)
    | NotASlice

  /** What a hook around a mutator can do. Edit, Swap and Spoil call next exactly once:
      Edit changes the mutation it was given, Swap passes on another one, Spoil turns a
      success into an error. Refuse does not call next. */
  datatype Hook =
    | Edit(change: Fields -> Fields) | Swap(other: Fields -> Fields) | Refuse(code: int) | Spoil(code: int)

  const STATUSES: seq<string> :=
    ["pending", "in_progress", "succeeded", "failed", "retrying", "permanently_failed", "canceled"]

  function Or<T>(value: Option<T>, default: T): Option<T> {
    if value.Some? then value else Some(default)
  }

  function Defaults(f: Fields, freshId: nat, now: int): Fields {
    f.(createdAt := Or(f.createdAt, now), modifiedAt := Or(f.modifiedAt, now), status := Or(f.status, "pending"),
       attemptCount := Or(f.attemptCount, 0), id := Or(f.id, freshId))
  }

  /** check: the required fields in order, the status validator among them. */
  function Check(f: Fields): Option<Error> {
    if f.createdAt.None? then Some(Missing("created_at"))
    else if f.modifiedAt.None? then Some(Missing("modified_at"))
    else if f.mediaKey.None? then Some(Missing("media_key"))
    else if f.syncEventId.None? then Some(Missing("sync_event_id"))
    else if f.status.None? then Some(Missing("status"))
    else if f.status.value !in STATUSES then Some(InvalidStatus(f.status.value))
    else if f.attemptCount.None? then Some(Missing("attempt_count"))
    else None
  }

  /** Defaults leave a new builder short of nothing but its two foreign keys. */
  lemma DefaultsSuffice(f: Fields, freshId: nat, now: int)
    ensures Check(Defaults(f, freshId, now)) == None <==>
            f.mediaKey.Some? && f.syncEventId.Some? && (f.status.Some? ==> f.status.value in STATUSES)
    ensures Defaults(f, freshId, now).id.Some?
  {
    assert STATUSES[0] == "pending";
  }

  /** What defaults leave in each field: the given value, or failing that the default. */
  lemma DefaultsFill(f: Fields, freshId: nat, now: int)
    ensures var d := Defaults(f, freshId, now);
            && d.createdAt == (if f.createdAt.Some? then f.createdAt else Some(now))
            && d.modifiedAt == (if f.modifiedAt.Some? then f.modifiedAt else Some(now))
            && d.status == (if f.status.Some? then f.status else Some("pending"))
            && d.attemptCount == (if f.attemptCount.Some? then f.attemptCount else Some(0))
            && d.id == (if f.id.Some? then f.id else Some(freshId))
            && d.mediaKey == f.mediaKey && d.syncEventId == f.syncEventId
  {
  }

  /** check accepts exactly the mutations with all required fields and a status of the schema;
      otherwise it names a field that is missing, or the status. */
  lemma CheckIs(f: Fields)
    ensures Check(f) == None <==>
            && f.createdAt.Some? && f.modifiedAt.Some? && f.mediaKey.Some? && f.syncEventId.Some?
            && f.attemptCount.Some? && f.status.Some? && KnownStatus(f.status.value)
    ensures match Check(f)
            case None => true
            case Some(Missing(field)) =>
              || (field == "created_at" && f.createdAt.None?) || (field == "modified_at" && f.modifiedAt.None?)
              || (field == "media_key" && f.mediaKey.None?) || (field == "sync_event_id" && f.syncEventId.None?)
              || (field == "status" && f.status.None?) || (field == "attempt_count" && f.attemptCount.None?)
            case Some(InvalidStatus(status)) => f.status == Some(status) && !KnownStatus(status)
            case _ => false
  {
    assert STATUSES[0] == "pending" && STATUSES[1] == "in_progress" && STATUSES[2] == "succeeded"
           && STATUSES[3] == "failed" && STATUSES[4] == "retrying" && STATUSES[5] == "permanently_failed"
           && STATUSES[6] == "canceled";
  }

  predicate KnownStatus(s: string) {
    || s == "pending" || s == "in_progress" || s == "succeeded" || s == "failed" || s == "retrying"
    || s == "permanently_failed" || s == "canceled"
  }

  /** A builder as the chain meets it: its mutation after defaults, and its hooks. */
  datatype Plan = Plan(mutation: Fields, hooks: seq<Hook>)

  // ---- one builder's hooks ------------------------------------------------------------

  /** The mutation its hooks hand to a builder's mutator. */
  function Passed(hooks: seq<Hook>, f: Fields): Fields
    decreases |hooks|
  {
    if hooks == [] then f
    else match hooks[0]
      case Edit(change) => Passed(hooks[1..], change(f))
      case Swap(other) => Passed(hooks[1..], other(f))
      case _ => Passed(hooks[1..], f)
  }

  /** The mutation the builder itself still points to then: only edits made before any
      swap reach it. */
  function Held(hooks: seq<Hook>, f: Fields): Fields
    decreases |hooks|
  {
    if hooks == [] then f
    else match hooks[0]
      case Edit(change) => Held(hooks[1..], change(f))
      case Swap(_) => f
      case _ => Held(hooks[1..], f)
  }

  function Refusal(hooks: seq<Hook>): Option<Error>
    decreases |hooks|
  {
    if hooks == [] then None
    else if hooks[0].Refuse? then Some(HookError(hooks[0].code))
    else Refusal(hooks[1..])
  }

  /** The error a success turns into on its way out: the innermost spoiler's. */
  function SpoilError(hooks: seq<Hook>): Option<Error>
    decreases |hooks|
  {
    if hooks == [] then None
    else if SpoilError(hooks[1..]).Some? then SpoilError(hooks[1..])
    else if hooks[0].Spoil? then Some(HookError(hooks[0].code))
    else None
  }

  /** Why this builder stops the chain before the insert, if it does. */
  function Stop(p: Plan): Option<Error> {
    if Refusal(p.hooks).Some? then Refusal(p.hooks) else Check(Held(p.hooks, p.mutation))
  }

  // ---- the chain --------------------------------------------------------------------

  /** The first builder that stops the chain decides its error. */
  function FirstStop(plans: seq<Plan>): Option<Error>
    decreases |plans|
  {
    if plans == [] then None
    else if Stop(plans[0]).Some? then Stop(plans[0])
    else FirstStop(plans[1..])
  }

  /** Spoilers of later builders are met first on the way out. */
  function LastSpoil(plans: seq<Plan>): Option<Error>
    decreases |plans|
  {
    if plans == [] then None
    else if LastSpoil(plans[1..]).Some? then LastSpoil(plans[1..])
    else SpoilError(plans[0].hooks)
  }

  function Specs(plans: seq<Plan>): seq<Fields> {
    seq(|plans|, i requires 0 <= i < |plans| => Passed(plans[i].hooks, plans[i].mutation))
  }

  /** What the database answers to a batch of rows: None if it takes them. */
  type Answer = seq<Fields> -> Option<Error>

  /** The error of the chain, given what the database answers to the insert. */
  function ChainError(plans: seq<Plan>, answer: Answer): Option<Error> {
    if FirstStop(plans).Some? then FirstStop(plans)
    else if answer(Specs(plans)).Some? then answer(Specs(plans))
    else LastSpoil(plans)
  }

  /** The insert is issued and succeeds. */
  predicate Reaches(plans: seq<Plan>, answer: Answer) {
    FirstStop(plans).None? && answer(Specs(plans)).None?
  }

  class Driver {
    /** The batches inserted so far, and the database's answer to any batch. */
    var batches: seq<seq<Fields>>
    const answer: Answer

    constructor (answer: Answer)
      ensures this.answer == answer && batches == []
    {
      this.answer, batches := answer, [];
    }

    method BatchCreate(specs: seq<Fields>) returns (err: Option<Error>)
      modifies this
      ensures err == answer(specs)
      ensures batches == if err.None? then old(batches) + [specs] else old(batches)
    {
      err := answer(specs);
      if err.None? { batches := batches + [specs]; }
    }
  }

  /** What a bulk save can change: per builder the mutation it points to, whether that
      one is marked done, and the spec built for it; and the batches inserted. */
  datatype State = State(mutations: seq<Fields>, done: seq<bool>, specs: seq<Fields>, batches: seq<seq<Fields>>)

  function PlansFrom(mutations: seq<Fields>, hooks: seq<seq<Hook>>, from: nat): seq<Plan>
    requires |mutations| == |hooks| && from <= |hooks|
  {
    seq(|hooks| - from, k requires 0 <= k < |hooks| - from => Plan(mutations[from + k], hooks[from + k]))
  }

  lemma PlansFromTail(mutations: seq<Fields>, hooks: seq<seq<Hook>>, from: nat)
    requires |mutations| == |hooks| && from < |hooks|
    ensures PlansFrom(mutations, hooks, from) ==
            [Plan(mutations[from], hooks[from])] + PlansFrom(mutations, hooks, from + 1)
    ensures PlansFrom(mutations, hooks, from)[1..] == PlansFrom(mutations, hooks, from + 1)
  {
  }

  /** Builder i's mutator, with these hooks still to run, stops the chain with this error. */
  function StopAt(rest: seq<Hook>, held: Fields, plans: seq<Plan>): Option<Error> {
    if Refusal(rest).Some? then Refusal(rest)
    else if Check(held).Some? then Check(held)
    else FirstStop(plans)
  }

  /** createSpec gives a node without an id the zero uuid, and the id goes back into the
      mutation. */
  function WithId(f: Fields): Fields {
    f.(id := Or(f.id, 0))
  }

  /** A mutation whose own call returned without error is done and knows the row's id; one
      that got an error from a later builder is left as it was passed. */
  ghost predicate Marked(clean: bool, done: bool, spec: Fields, done': bool, mutation': Fields) {
    done' == (done || clean) && mutation' == if clean then WithId(spec) else spec
  }

  /** The effect of builder i's mutator from a hook on: all of the later builders' specs
      and its own in one batch, or nothing. */
  ghost predicate Ran(i: nat, hooks: seq<seq<Hook>>, rest: seq<Hook>, held: Fields, passed: Fields,
                      s: State, s': State, answer: Answer, err: Option<Error>)
    requires |s.mutations| == |s.done| == |s.specs| == |hooks| && i < |hooks|
  {
    var later := PlansFrom(s.mutations, hooks, i + 1);
    var stop := StopAt(rest, held, later);
    var batch := s.specs[..i] + [passed] + Specs(later);
    && |s'.mutations| == |s'.done| == |s'.specs| == |hooks|
    && s'.specs[..i] == s.specs[..i] && s'.mutations[..i] == s.mutations[..i]
    && if stop.None? && answer(batch).None? then
         && err == (if LastSpoil(later).Some? then LastSpoil(later) else SpoilError(rest))
         && s'.batches == s.batches + [batch] && s'.specs == batch
         && s'.done[..i] == s.done[..i]
         && (forall j :: i <= j < |hooks| ==>
               Marked(LastSpoil(PlansFrom(s.mutations, hooks, j + 1)).None?, s.done[j], s'.specs[j],
                      s'.done[j], s'.mutations[j]))
       else
         err == (if stop.Some? then stop else answer(batch)) && s'.batches == s.batches && s'.done == s.done
  }

  class Bulk {
    const driver: Driver
    /** Set by MapCreateBulk when it was not given a slice. */
    const err: Option<Error>
    const hooks: seq<seq<Hook>>
    var mutations: seq<Fields>
    var done: seq<bool>
    var specs: seq<Fields>

    constructor (driver: Driver, err: Option<Error>, mutations: seq<Fields>, hooks: seq<seq<Hook>>)
      requires |mutations| == |hooks|
      ensures this.err == err && this.driver == driver && this.mutations == mutations && this.hooks == hooks && Valid()
      ensures forall i :: 0 <= i < |hooks| ==> !done[i]
    {
      this.driver, this.err, this.mutations, this.hooks, this.specs := driver, err, mutations, hooks, mutations;
      this.done := seq(|hooks|, _ => false);
    }

    ghost predicate Valid()
      reads this
    {
      |mutations| == |done| == |specs| == |hooks|
    }

    ghost function Now(): State
      reads this, driver
    {
      State(mutations, done, specs, driver.batches)
    }

    method Done(i: nat, f: Fields)
      requires Valid() && i < |hooks|
      modifies this`mutations, this`done
      ensures mutations == old(mutations)[i := WithId(f)] && done == old(done)[i := true]
    {
      mutations := mutations[i := f.(id := Or(f.id, 0))];
      done := done[i := true];
    }

    /** Builder i's mutator from its h-th hook on, given mutation f; own says whether f is
        still the mutation the builder points to. */
    method Mutate(i: nat, h: nat, f: Fields, own: bool) returns (err: Option<Error>)
      requires Valid() && i < |hooks| && h <= |hooks[i]|
      requires own ==> mutations[i] == f
      modifies this, driver
      ensures Valid()
      ensures Ran(i, hooks, hooks[i][h..], if own then Held(hooks[i][h..], f) else old(mutations[i]),
                  Passed(hooks[i][h..], f), old(Now()), Now(), driver.answer, err)
      decreases |hooks| - i, |hooks[i]| - h + 1
    {
      ghost var rest, s, held := hooks[i][h..], Now(), mutations[i];
      if h == |hooks[i]| {
        err := Save(i, f);
        return;
      }
      assert rest[1..] == hooks[i][h + 1..] && rest[0] == hooks[i][h];
      match hooks[i][h] {
        case Edit(change) =>
          var g := change(f);
          if own { mutations := mutations[i := g]; }
          ghost var s1 := Now();
          err := Mutate(i, h + 1, g, own);
          RanFrom(i, hooks, rest[1..], if own then Held(rest[1..], g) else held, Passed(rest[1..], g), s, s1, Now(),
                  driver.answer, err);
          RanOuter(i, hooks, rest, if own then Held(rest, f) else held, Passed(rest, f), s, Now(), driver.answer, err);
        case Swap(other) =>
          err := Mutate(i, h + 1, other(f), false);
          RanOuter(i, hooks, rest, if own then Held(rest, f) else held, Passed(rest, f), s, Now(), driver.answer, err);
        case Refuse(code) =>
          err := Some(HookError(code));
        case Spoil(code) =>
          err := Mutate(i, h + 1, f, own);
          RanSpoiled(i, hooks, rest, if own then Held(rest, f) else held, Passed(rest, f), s, Now(), driver.answer,
                     err);
          if err.None? { err := Some(HookError(code)); }
      }
    }

    /** The mutator proper: check the mutation the builder points to, then take the one
        that was passed, build its spec, go on to the next builder or insert. */
    method Save(i: nat, f: Fields) returns (err: Option<Error>)
      requires Valid() && i < |hooks|
      modifies this, driver
      ensures Valid()
      ensures Ran(i, hooks, [], old(mutations[i]), f, old(Now()), Now(), driver.answer, err)
      decreases |hooks| - i, 0
    {
      ghost var s := Now();
      err := Check(mutations[i]);
      if err.Some? { return; }
      mutations := mutations[i := f];
      specs := specs[i := f];
      ghost var s1 := Now();
      if i < |hooks| - 1 {
        err := Mutate(i + 1, 0, mutations[i + 1], true);
        ghost var s2, inner := Now(), err;
        if err.None? { Done(i, f); }
        SavedThenNext(i, hooks, f, s, s1, s2, Now(), driver.answer, inner);
      } else {
        err := driver.BatchCreate(specs);
        if err.None? { Done(i, f); }
        assert PlansFrom(s.mutations, hooks, i + 1) == [];
        assert specs == s.specs[..i] + [f] + Specs([]);
      }
    }
  }

  /** An edit by builder i's own hooks changes nothing the effect is measured against. */
  lemma RanFrom(i: nat, hooks: seq<seq<Hook>>, rest: seq<Hook>, held: Fields, passed: Fields,
                s: State, s1: State, s': State, answer: Answer, err: Option<Error>)
    requires |s.mutations| == |s.done| == |s.specs| == |hooks| && i < |hooks|
    requires |s1.mutations| == |hooks| && s == s1.(mutations := s.mutations)
    requires s1.mutations == s.mutations[i := s1.mutations[i]]
    requires Ran(i, hooks, rest, held, passed, s1, s', answer, err)
    ensures Ran(i, hooks, rest, held, passed, s, s', answer, err)
  {
    PlansSame(s.mutations, s1.mutations, hooks, i);
  }

  lemma RanOuter(i: nat, hooks: seq<seq<Hook>>, rest: seq<Hook>, held: Fields, passed: Fields,
                 s: State, s': State, answer: Answer, err: Option<Error>)
    requires |s.mutations| == |s.done| == |s.specs| == |hooks| && i < |hooks|
    requires rest != [] && (rest[0].Edit? || rest[0].Swap?)
    requires Ran(i, hooks, rest[1..], held, passed, s, s', answer, err)
    ensures Ran(i, hooks, rest, held, passed, s, s', answer, err)
  {
  }

  lemma RanSpoiled(i: nat, hooks: seq<seq<Hook>>, rest: seq<Hook>, held: Fields, passed: Fields,
                   s: State, s': State, answer: Answer, err: Option<Error>)
    requires |s.mutations| == |s.done| == |s.specs| == |hooks| && i < |hooks|
    requires rest != [] && rest[0].Spoil?
    requires Ran(i, hooks, rest[1..], held, passed, s, s', answer, err)
    ensures Ran(i, hooks, rest, held, passed, s, s', answer,
                if err.None? then Some(HookError(rest[0].code)) else err)
  {
  }

  lemma ChainOfTail(mutations: seq<Fields>, hooks: seq<seq<Hook>>, i: nat)
    requires |mutations| == |hooks| && i < |hooks|
    ensures var plans, next := PlansFrom(mutations, hooks, i), PlansFrom(mutations, hooks, i + 1);
            && FirstStop(plans) == StopAt(hooks[i], Held(hooks[i], mutations[i]), next)
            && LastSpoil(plans) == (if LastSpoil(next).Some? then LastSpoil(next) else SpoilError(hooks[i]))
            && Specs(plans) == [Passed(hooks[i], mutations[i])] + Specs(next)
  {
    PlansFromTail(mutations, hooks, i);
    var plans, next := PlansFrom(mutations, hooks, i), PlansFrom(mutations, hooks, i + 1);
    assert plans[0] == Plan(mutations[i], hooks[i]);
    assert |Specs(plans)| == |plans| == 1 + |next|;
    forall k | 0 <= k < |plans|
      ensures Specs(plans)[k] == ([Passed(hooks[i], mutations[i])] + Specs(next))[k]
    {
      if k > 0 { assert plans[k] == next[k - 1]; }
    }
  }

  lemma SavedThenNext(i: nat, hooks: seq<seq<Hook>>, f: Fields, s: State, s1: State, s2: State, s': State,
                      answer: Answer, err: Option<Error>)
    requires |s.mutations| == |s.done| == |s.specs| == |hooks| && i + 1 < |hooks|
    requires Check(s.mutations[i]) == None
    requires s1 == s.(mutations := s.mutations[i := f], specs := s.specs[i := f])
    requires Ran(i + 1, hooks, hooks[i + 1], Held(hooks[i + 1], s1.mutations[i + 1]),
                 Passed(hooks[i + 1], s1.mutations[i + 1]), s1, s2, answer, err)
    requires s' == if err.None? then s2.(done := s2.done[i := true], mutations := s2.mutations[i := WithId(f)]) else s2
    ensures Ran(i, hooks, [], s.mutations[i], f, s, s', answer, err)
  {
    var m := s.mutations[i + 1];
    PlansSame(s.mutations, s1.mutations, hooks, i);
    ChainOfTail(s.mutations, hooks, i + 1);
    var later, next := PlansFrom(s.mutations, hooks, i + 1), PlansFrom(s.mutations, hooks, i + 2);
    assert s1.specs[..i + 1] == s.specs[..i] + [f];
    assert s2.specs[..i] == s2.specs[..i + 1][..i] == s.specs[..i];
    assert s2.mutations[..i] == s2.mutations[..i + 1][..i] == s.mutations[..i];
    assert s2.mutations[i] == s2.mutations[..i + 1][i] == f;
    if StopAt([], s.mutations[i], later).None? {
      assert s.specs[..i] + [f] + Specs(later) == s1.specs[..i + 1] + [Passed(hooks[i + 1], m)] + Specs(next);
      assert s2.done[..i] == s2.done[..i + 1][..i] == s.done[..i];
      assert s2.done[i] == s2.done[..i + 1][i] == s.done[i];
    }
  }

  /** Later builders are not affected by what happens to the mutation of builder i. */
  lemma PlansSame(a: seq<Fields>, b: seq<Fields>, hooks: seq<seq<Hook>>, i: nat)
    requires |a| == |b| == |hooks| && i < |hooks|
    requires forall j :: i < j < |hooks| ==> a[j] == b[j]
    ensures forall j :: i < j <= |hooks| ==> PlansFrom(a, hooks, j) == PlansFrom(b, hooks, j)
  {
  }

  function Prepared(mutations: seq<Fields>, hooks: seq<seq<Hook>>, freshIds: seq<nat>, now: int): seq<Plan>
    requires |mutations| == |hooks| == |freshIds|
  {
    seq(|hooks|, i requires 0 <= i < |hooks| => Plan(Defaults(mutations[i], freshIds[i], now), hooks[i]))
  }

  /** The outcome of a bulk save: exactly one batch, all specs in builder order, or none;
      and a builder's mutation is done iff the batch went in and no later builder's hook
      turned the success into an error. */
  ghost predicate Saved(plans: seq<Plan>, answer: Answer, s: State, s': State, err: Option<Error>)
    requires |plans| == |s.done| == |s'.done| == |s'.mutations| > 0
  {
    && err == ChainError(plans, answer)
    && s'.batches == s.batches + (if Reaches(plans, answer) then [Specs(plans)] else [])
    && (err == None ==> s'.specs == Specs(plans))
    && forall i :: 0 <= i < |plans| ==>
         if Reaches(plans, answer)
         then Marked(LastSpoil(plans[i + 1..]).None?, s.done[i], Specs(plans)[i], s'.done[i], s'.mutations[i])
         else s'.done[i] == s.done[i]
  }

  lemma ChainIsSaved(hooks: seq<seq<Hook>>, s: State, s': State, answer: Answer, err: Option<Error>)
    requires |s.mutations| == |s.done| == |s.specs| == |hooks| > 0
    requires Ran(0, hooks, hooks[0], Held(hooks[0], s.mutations[0]), Passed(hooks[0], s.mutations[0]),
                 s, s', answer, err)
    ensures Saved(PlansFrom(s.mutations, hooks, 0), answer, s, s', err)
  {
    var plans := PlansFrom(s.mutations, hooks, 0);
    ChainOfTail(s.mutations, hooks, 0);
    var later := PlansFrom(s.mutations, hooks, 1);
    assert s.specs[..0] + [Passed(hooks[0], s.mutations[0])] + Specs(later) == Specs(plans);
    if Reaches(plans, answer) {
      forall i | 0 <= i < |plans|
        ensures Marked(LastSpoil(plans[i + 1..]).None?, s.done[i], Specs(plans)[i], s'.done[i], s'.mutations[i])
      {
        PlansDrop(s.mutations, hooks, i + 1);
      }
    }
  }

  lemma PlansDrop(mutations: seq<Fields>, hooks: seq<seq<Hook>>, j: nat)
    requires |mutations| == |hooks| && j <= |hooks|
    ensures PlansFrom(mutations, hooks, j) == PlansFrom(mutations, hooks, 0)[j..]
  {
  }

  method ApplyDefaults(bulk: Bulk, freshIds: seq<nat>, now: int)
    requires bulk.Valid() && |freshIds| == |bulk.hooks|
    modifies bulk`mutations
    ensures bulk.Valid()
    ensures PlansFrom(bulk.mutations, bulk.hooks, 0) == Prepared(old(bulk.mutations), bulk.hooks, freshIds, now)
  {
    ghost var before := bulk.mutations;
    for i := 0 to |bulk.hooks|
      invariant |bulk.mutations| == |bulk.hooks|
      invariant forall j :: 0 <= j < |bulk.hooks| ==>
                  bulk.mutations[j] == if j < i then Defaults(before[j], freshIds[j], now) else before[j]
    {
      bulk.mutations := bulk.mutations[i := Defaults(bulk.mutations[i], freshIds[i], now)];
    }
  }

  function Nodes(specs: seq<Fields>): seq<Fields> {
    seq(|specs|, i requires 0 <= i < |specs| => WithId(specs[i]))
  }

  /** CreateBulk(...).Save: defaults for every builder, then the chain from the first. */
  method SaveBulk(bulk: Bulk, freshIds: seq<nat>, now: int) returns (err: Option<Error>, nodes: seq<Fields>)
    requires bulk.Valid() && |freshIds| == |bulk.hooks|
    modifies bulk, bulk.driver
    ensures bulk.Valid()
    ensures bulk.err.Some? ==> err == bulk.err && nodes == [] && bulk.Now() == old(bulk.Now())
    ensures bulk.err.None? && |bulk.hooks| == 0 ==>
              err == None && nodes == [] && bulk.driver.batches == old(bulk.driver.batches)
    ensures bulk.err.None? && |bulk.hooks| > 0 ==>
              Saved(Prepared(old(bulk.mutations), bulk.hooks, freshIds, now), bulk.driver.answer,
                    old(bulk.Now()), bulk.Now(), err)
    ensures err == None ==> nodes == Nodes(Specs(Prepared(old(bulk.mutations), bulk.hooks, freshIds, now)))
  {
    err, nodes := bulk.err, [];
    if err.Some? { return; }
    ApplyDefaults(bulk, freshIds, now);
    if |bulk.hooks| == 0 { return; }
    ghost var s := bulk.Now();
    assert bulk.hooks[0][0..] == bulk.hooks[0];
    err := bulk.Mutate(0, 0, bulk.mutations[0], true);
    ChainIsSaved(bulk.hooks, s, bulk.Now(), bulk.driver.answer, err);
    nodes := Nodes(bulk.specs);
  }

  // ---- what it means --------------------------------------------------------------------

  /** The chain is stopped iff some builder stops it, and then by the first that does. */
  lemma {:induction false} FirstStopIsFirst(plans: seq<Plan>)
    ensures FirstStop(plans).None? <==> forall i :: 0 <= i < |plans| ==> Stop(plans[i]).None?
    ensures FirstStop(plans).Some? ==>
              exists i :: 0 <= i < |plans| && FirstStop(plans) == Stop(plans[i])
                          && forall j :: 0 <= j < i ==> Stop(plans[j]).None?
  {
    if plans == [] {
    } else {
      FirstStopIsFirst(plans[1..]);
      assert forall i :: 1 <= i < |plans| ==> plans[i] == plans[1..][i - 1];
      if Stop(plans[0]).None? && FirstStop(plans).Some? {
        var i :| 0 <= i < |plans[1..]| && FirstStop(plans[1..]) == Stop(plans[1..][i])
                 && forall j :: 0 <= j < i ==> Stop(plans[1..][j]).None?;
        assert FirstStop(plans) == Stop(plans[i + 1]);
      }
    }
  }

  lemma {:induction false} SwapFree(hooks: seq<Hook>, f: Fields)
    requires forall h :: h in hooks ==> !h.Swap?
    ensures Held(hooks, f) == Passed(hooks, f)
    decreases |hooks|
  {
    if hooks == [] {
    } else {
      assert hooks[0] in hooks;
      SwapFree(hooks[1..], if hooks[0].Edit? then hooks[0].change(f) else f);
    }
  }

  /** Without hooks, the batch a bulk save issues, row by row and field by field: what builder i
      was given, and the default for what it was not. */
  lemma BatchIsFilled(mutations: seq<Fields>, hooks: seq<seq<Hook>>, freshIds: seq<nat>, now: int, i: nat)
    requires |mutations| == |hooks| == |freshIds| && i < |hooks|
    requires forall j :: 0 <= j < |hooks| ==> hooks[j] == []
    ensures |Specs(Prepared(mutations, hooks, freshIds, now))| == |mutations|
    ensures var given, row := mutations[i], Specs(Prepared(mutations, hooks, freshIds, now))[i];
            && row.createdAt == (if given.createdAt.Some? then given.createdAt else Some(now))
            && row.modifiedAt == (if given.modifiedAt.Some? then given.modifiedAt else Some(now))
            && row.status == (if given.status.Some? then given.status else Some("pending"))
            && row.attemptCount == (if given.attemptCount.Some? then given.attemptCount else Some(0))
            && row.id == (if given.id.Some? then given.id else Some(freshIds[i]))
            && row.mediaKey == given.mediaKey && row.syncEventId == given.syncEventId
  {
    DefaultsFill(mutations[i], freshIds[i], now);
  }

  /** The rows of the enqueue: for builders given a media key and an event and nothing else,
      the batch passes check and holds, in order, one pending job per key with no attempts. */
  lemma EnqueuedRows(keys: seq<string>, event: nat, freshIds: seq<nat>, now: int)
    requires |keys| == |freshIds|
    ensures var given := seq(|keys|, i requires 0 <= i < |keys| =>
                               Fields(None, None, None, Some(keys[i]), Some(event), None, None));
            var plans := Prepared(given, seq(|keys|, _ => []), freshIds, now);
            && FirstStop(plans).None?
            && Specs(plans) == seq(|keys|, i requires 0 <= i < |keys| =>
                 Fields(Some(freshIds[i]), Some(now), Some(now), Some(keys[i]), Some(event), Some("pending"), Some(0)))
            && Nodes(Specs(plans)) == Specs(plans)
  {
    var given := seq(|keys|, i requires 0 <= i < |keys| =>
                       Fields(None, None, None, Some(keys[i]), Some(event), None, None));
    var plans := Prepared(given, seq(|keys|, _ => []), freshIds, now);
    forall i | 0 <= i < |keys|
      ensures plans[i].mutation ==
              Fields(Some(freshIds[i]), Some(now), Some(now), Some(keys[i]), Some(event), Some("pending"), Some(0))
      ensures Stop(plans[i]).None?
    {
      DefaultsFill(given[i], freshIds[i], now);
      CheckIs(plans[i].mutation);
    }
    FirstStopIsFirst(plans);
  }

  /** With hooks that edit in place, only checked rows are inserted: spec i is builder i's
      mutation as its hooks left it, and it passed check. */
  lemma InsertedRowsAreChecked(plans: seq<Plan>, answer: Answer)
    requires Reaches(plans, answer)
    requires forall i, h :: 0 <= i < |plans| && h in plans[i].hooks ==> !h.Swap?
    ensures forall i :: 0 <= i < |plans| ==> Check(Specs(plans)[i]) == None
  {
    FirstStopIsFirst(plans);
    forall i | 0 <= i < |plans| ensures Check(Specs(plans)[i]) == None {
      SwapFree(plans[i].hooks, plans[i].mutation);
      assert Stop(plans[i]).None?;
    }
  }

  lemma {:induction false} SwapSplits(pre: seq<Hook>, other: Fields -> Fields, post: seq<Hook>, f: Fields)
    ensures Passed(pre + [Swap(other)] + post, f) == Passed(post, other(Passed(pre, f)))
    ensures Held(pre + [Swap(other)] + post, f) == Held(pre, f)
    ensures Refusal(pre + [Swap(other)] + post) == if Refusal(pre).Some? then Refusal(pre) else Refusal(post)
    ensures SpoilError(pre + [Swap(other)] + post) ==
            if SpoilError(post).Some? then SpoilError(post) else SpoilError(pre)
    decreases |pre|
  {
    var hooks := pre + [Swap(other)] + post;
    if pre == [] {
      assert hooks[1..] == post;
    } else {
      assert hooks[1..] == pre[1..] + [Swap(other)] + post && hooks[0] == pre[0];
      var g := if pre[0].Edit? then pre[0].change(f) else if pre[0].Swap? then pre[0].other(f) else f;
      SwapSplits(pre[1..], other, post, g);
      if pre[0].Swap? { SwapSplits(pre[1..], other, post, f); }
    }
  }

  lemma {:induction false} SameStops(a: seq<Plan>, b: seq<Plan>)
    requires |a| == |b|
    requires forall i :: 0 <= i < |a| ==> Stop(a[i]) == Stop(b[i]) && SpoilError(a[i].hooks) == SpoilError(b[i].hooks)
    ensures FirstStop(a) == FirstStop(b) && LastSpoil(a) == LastSpoil(b)
    decreases |a|
  {
    if a == [] {
    } else {
      SameStops(a[1..], b[1..]);
    }
  }

  /** A hook that passes on another mutation escapes the check, wherever it stands among the
      hooks of whichever builder: whether the insert is issued does not depend on what it
      passes on, and what is issued is that, once the later hooks have had it. So the outcome
      is the database's answer to rows the builders never checked. */
  lemma SwapEscapesCheck(plans: seq<Plan>, i: nat, pre: seq<Hook>, other: Fields -> Fields, post: seq<Hook>,
                         another: Fields -> Fields, answer: Answer)
    requires i < |plans| && plans[i].hooks == pre + [Swap(other)] + post
    ensures Specs(plans)[i] == Passed(post, other(Passed(pre, plans[i].mutation)))
    ensures var plans' := plans[i := plans[i].(hooks := pre + [Swap(another)] + post)];
            var rows := Specs(plans)[i := Passed(post, another(Passed(pre, plans[i].mutation)))];
            && FirstStop(plans') == FirstStop(plans) && Specs(plans') == rows
            && (Reaches(plans', answer) <==> FirstStop(plans).None? && answer(rows).None?)
            && ChainError(plans', answer) ==
                 if FirstStop(plans).Some? then FirstStop(plans)
                 else if answer(rows).Some? then answer(rows)
                 else LastSpoil(plans)
  {
    var f := plans[i].mutation;
    var plans' := plans[i := plans[i].(hooks := pre + [Swap(another)] + post)];
    SwapSplits(pre, other, post, f);
    SwapSplits(pre, another, post, f);
    SameStops(plans, plans');
    assert Specs(plans') == Specs(plans)[i := Passed(post, another(Passed(pre, f)))];
  }

  predicate SameKind(a: Hook, b: Hook) {
    (a.Edit? <==> b.Edit?) && (a.Swap? <==> b.Swap?) && (a.Refuse? <==> b.Refuse?)
  }

  /** The same hooks with other payloads. */
  predicate SameKinds(a: seq<Hook>, b: seq<Hook>) {
    |a| == |b| && forall k :: 0 <= k < |a| ==> SameKind(a[k], b[k])
  }

  function Identity(): Fields -> Fields {
    f => f
  }

  function Always(g: Fields): Fields -> Fields {
    _ => g
  }

  /** Edits that change nothing, and swaps that all pass on g. */
  function Blanked(hooks: seq<Hook>, g: Fields): (b: seq<Hook>)
    ensures SameKinds(hooks, b)
    decreases |hooks|
  {
    if hooks == [] then []
    else
      [match hooks[0]
       case Edit(_) => Edit(Identity())
       case Swap(_) => Swap(Always(g))
       case h => h] + Blanked(hooks[1..], g)
  }

  lemma {:induction false} BlankedPasses(hooks: seq<Hook>, f: Fields, g: Fields)
    ensures Held(Blanked(hooks, g), f) == f
    ensures (exists k :: 0 <= k < |hooks| && hooks[k].Swap?) ==> Passed(Blanked(hooks, g), f) == g
    ensures Passed(Blanked(hooks, g), g) == g
    decreases |hooks|
  {
    if hooks == [] {
    } else {
      var b := Blanked(hooks, g);
      assert b[1..] == Blanked(hooks[1..], g);
      BlankedPasses(hooks[1..], f, g);
      if k :| 0 <= k < |hooks| && hooks[k].Swap? {
        assert k > 0 ==> hooks[1..][k - 1].Swap?;
      }
    }
  }

  /** Exactly when a builder's check says anything about its row: the mutation checked is
      the one inserted, whatever its hooks do, iff none of them swaps. */
  lemma CheckedIsInserted(hooks: seq<Hook>, f: Fields)
    ensures (forall h :: SameKinds(hooks, h) ==> Held(h, f) == Passed(h, f)) <==>
            (forall k :: 0 <= k < |hooks| ==> !hooks[k].Swap?)
  {
    if k :| 0 <= k < |hooks| && hooks[k].Swap? {
      var g := f.(status := if f.status.None? then Some("") else None);
      BlankedPasses(hooks, f, g);
      assert SameKinds(hooks, Blanked(hooks, g));
    } else {
      forall h | SameKinds(hooks, h) ensures Held(h, f) == Passed(h, f) {
        SwapFree(h, f);
      }
    }
  }

  /** The columns that are NOT NULL and have no default. */
  predicate HasRequired(row: Fields) {
    row.id.Some? && row.createdAt.Some? && row.modifiedAt.Some? && row.mediaKey.Some? && row.syncEventId.Some?
  }

  ghost predicate RefusesNulls(answer: Answer) {
    forall rows :: answer(rows).None? ==> forall r :: r in rows ==> HasRequired(r)
  }

  /** All that can escape to a row actually inserted, since the database refuses nulls: a
      status outside the list, or a status or attempt count left to the column default. */
  lemma OnlyStatusEscapes(plans: seq<Plan>, answer: Answer, i: nat)
    requires RefusesNulls(answer) && Reaches(plans, answer) && i < |plans|
    ensures var row := Specs(plans)[i];
            || Check(row) in {None, Some(Missing("status")), Some(Missing("attempt_count"))}
            || (row.status.Some? && Check(row) == Some(InvalidStatus(row.status.value)))
  {
    assert Specs(plans)[i] in Specs(plans);
    assert HasRequired(Specs(plans)[i]);
  }

  function OneSwap(swap: Fields -> Fields, freshId: nat, now: int): seq<Plan> {
    Prepared([Fields(None, None, None, Some("photo"), Some(3), None, None)], [[Swap(swap)]], [freshId], now)
  }

  lemma OneSwapPasses(swap: Fields -> Fields, freshId: nat, now: int)
    ensures FirstStop(OneSwap(swap, freshId, now)).None?
    ensures Specs(OneSwap(swap, freshId, now)) ==
            [swap(Defaults(Fields(None, None, None, Some("photo"), Some(3), None, None), freshId, now))]
  {
    var given := Fields(None, None, None, Some("photo"), Some(3), None, None);
    var plans := OneSwap(swap, freshId, now);
    DefaultsSuffice(given, freshId, now);
    assert [] + [Swap(swap)] + [] == plans[0].hooks;
    SwapSplits([], swap, [], Defaults(given, freshId, now));
    FirstStopIsFirst(plans);
  }

  /** One builder with both foreign keys given, whose one hook passes on a mutation with an
      unknown status: a database that only minds nulls takes the row, and check, which alone
      would have refused it, did not look at it. */
  lemma UncheckedRowInserted(freshId: nat, now: int, spoil: Fields -> Fields, answer: Answer)
    requires forall f :: spoil(f) == f.(status := Some("bogus"))
    requires forall rows :: (forall r :: r in rows ==> HasRequired(r)) ==> answer(rows).None?
    ensures Reaches(OneSwap(spoil, freshId, now), answer)
    ensures Check(Specs(OneSwap(spoil, freshId, now))[0]) == Some(InvalidStatus("bogus"))
  {
    OneSwapPasses(spoil, freshId, now);
    assert forall r :: r in Specs(OneSwap(spoil, freshId, now)) ==> HasRequired(r);
  }

  /** Where the hook drops the media key instead, the insert is issued all the same and the
      database is what refuses it. */
  lemma NullRowRefused(freshId: nat, now: int, drop: Fields -> Fields, answer: Answer)
    requires forall f :: drop(f) == f.(mediaKey := None)
    requires RefusesNulls(answer)
    ensures FirstStop(OneSwap(drop, freshId, now)).None?
    ensures !Reaches(OneSwap(drop, freshId, now), answer)
  {
    OneSwapPasses(drop, freshId, now);
    var rows := Specs(OneSwap(drop, freshId, now));
    assert rows[0] in rows && !HasRequired(rows[0]);
  }

  /** Without hooks: one batch, row i from builder i, iff every builder passes check and
      the database accepts; the error is the first failing builder's. */
  lemma {:induction false} NoHooks(plans: seq<Plan>, answer: Answer)
    requires forall i :: 0 <= i < |plans| ==> plans[i].hooks == []
    ensures Reaches(plans, answer) <==>
            (forall i :: 0 <= i < |plans| ==> Check(plans[i].mutation) == None) && answer(Specs(plans)) == None
    ensures forall i :: 0 <= i < |plans| ==> Specs(plans)[i] == plans[i].mutation
    ensures LastSpoil(plans) == None
    ensures ChainError(plans, answer) == None <==> Reaches(plans, answer)
  {
    FirstStopIsFirst(plans);
    assert forall i :: 0 <= i < |plans| ==> Stop(plans[i]) == Check(plans[i].mutation);
    NoSpoilers(plans);
  }

  lemma {:induction false} NoSpoilers(plans: seq<Plan>)
    requires forall i :: 0 <= i < |plans| ==> plans[i].hooks == []
    ensures LastSpoil(plans) == None
  {
    if plans == [] {
    } else {
      NoSpoilers(plans[1..]);
    }
  }
}
