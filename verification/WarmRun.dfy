/** RunE of the `warm` command, and the argument that what its statements leave behind is
    Progress wherever it stops and Complete when it returns nil, and that its statements
    are the steps of the protocol. */
module WarmRun {
  import opened Collections
  import opened Tables
  import opened Paging
  import opened WarmSpec
  import opened Database
  import opened Warm
  import opened WarmProtocol

  method RunWarm(db: Database, cfg: Config) returns (ok: bool, created: nat, ghost run: Run)
    modifies db
    ensures Progress(old(db.Snapshot()), cfg, db.Snapshot())
    ensures ok ==> Complete(old(db.Snapshot()), cfg, db.Snapshot())
    ensures ok ==> created == |NewIds(old(db.jobs), db.jobs)|
    ensures !ok ==> db.budget == 0 || db.source.None?
    ensures LeadsTo(run, db.warmChunk, Sys(old(db.Snapshot()), Idle), db.Snapshot())
    ensures ok ==> run.s.phase == Idle
  {
    hide Steps;
    ghost var t := db.Snapshot();
    ghost var target, missing := Target(t, cfg), Missing(t, cfg);
    created := 0;
    run := Begun(t, cfg, db.warmChunk);
    NothingDone(t, cfg, target, missing, t.media);
    ok := db.RepairLinks();
    if !ok { return; }
    NothingDone(t, cfg, target, missing, db.media);
    RepairMakesQueryExact(t, cfg, db.media);
    run := LinksRepaired(run, db.warmChunk, t, cfg, db.media);
    var listingKeys;
    ok, listingKeys := db.ListingKeys(Statuses(cfg));
    if !ok { return; }
    run := ListingsFound(run, db.warmChunk, Sys(t, Idle), db.Snapshot(), cfg, listingKeys);
    if |listingKeys| == 0 {
      EmptyTarget(t, cfg, db.media);
      return;
    }
    var mediaKeys;
    ok, mediaKeys, run := SelectUnattached(db, cfg, listingKeys, Sys(t, Idle), run);
    if !ok { return; }
    if |mediaKeys| == 0 {
      EmptyTarget(t, cfg, db.media);
      return;
    }
    assert mediaKeys[0] in Elems(mediaKeys);
    ok, created, run := WarmSelected(db, cfg, mediaKeys, t, target, missing, run);
  }

  lemma Begun(t: Tables, cfg: Config, n: Positive) returns (run: Run)
    ensures Leads(run, n, Sys(t, Idle), Sys(t, Repairing(cfg)))
  {
    LeadsOn(Start(Sys(t, Idle)), n, Sys(t, Idle), Sys(t, Idle), Sys(t, Repairing(cfg)));
    run := Then(Start(Sys(t, Idle)), Sys(t, Repairing(cfg)));
  }

  lemma LinksRepaired(run: Run, n: Positive, t: Tables, cfg: Config, media: map<string, Media>) returns (run': Run)
    requires Leads(run, n, Sys(t, Idle), Sys(t, Repairing(cfg))) && Repaired(t.media, t.jobs, media)
    ensures Leads(run', n, Sys(t, Idle), Sys(t.(media := media), Listing(cfg)))
  {
    LeadsOn(run, n, Sys(t, Idle), Sys(t, Repairing(cfg)), Sys(t.(media := media), Listing(cfg)));
    run' := Then(run, Sys(t.(media := media), Listing(cfg)));
  }

  lemma ListingsFound(run: Run, n: Positive, start: Sys, t: Tables, cfg: Config, keys: seq<string>)
    returns (run': Run)
    requires Leads(run, n, start, Sys(t, Listing(cfg)))
    requires Distinct(keys) && Elems(keys) == MatchingListings(t.listings, Statuses(cfg))
    ensures Leads(run', n, start, Sys(t, if |keys| == 0 then Idle else Selecting(cfg, keys, [])))
  {
    var to := Sys(t, if |keys| == 0 then Idle else Selecting(cfg, keys, []));
    LeadsOn(run, n, start, Sys(t, Listing(cfg)), to);
    run' := Then(run, to);
  }

  /** RunE from the selected media on (cmd/warm.go:129-174). */
  method WarmSelected(db: Database, cfg: Config, mediaKeys: seq<string>,
                      ghost t: Tables, ghost target: set<string>, ghost missing: set<string>, ghost run: Run)
    returns (ok: bool, created: nat, ghost run': Run)
    requires db.Snapshot() == t.(media := db.media) && Repaired(t.media, t.jobs, db.media)
    requires Distinct(mediaKeys) && Elems(mediaKeys) == target != {}
    requires missing == UnblockedOf(target, t.jobs)
    requires Leads(run, db.warmChunk, Sys(t, Idle), Sys(db.Snapshot(), Checking(cfg, mediaKeys, 0, {})))
    modifies db`jobs, db`events, db`budget, db`clock
    ensures ProgressFor(t, cfg, target, missing, db.Snapshot())
    ensures ok ==> CompleteFor(t, cfg, target, missing, db.Snapshot())
    ensures ok ==> created == |NewIds(t.jobs, db.jobs)|
    ensures !ok ==> db.budget == 0 || db.source.None?
    ensures LeadsTo(run', db.warmChunk, Sys(t, Idle), db.Snapshot()) && (ok ==> run'.s.phase == Idle)
  {
    hide Steps;
    created := 0;
    NothingDone(t, cfg, target, missing, db.media);
    var pending;
    ok, pending, run' := ExistingJobKeys(db, cfg, mediaKeys, Sys(t, Idle), run);
    if !ok { return; }
    var todo := Unblocked(mediaKeys, pending);
    TodoIsMissing(db.jobs, mediaKeys, pending, todo, missing);
    if cfg.limit > 0 && |todo| > cfg.limit {
      DistinctTake(todo, cfg.limit);
      todo := todo[..cfg.limit];
    }
    if cfg.dryRun {
      DryRunDone(t, cfg, target, missing, db.media);
      return;
    }
    ok, created, run' := EnqueueAndCancel(db, cfg, mediaKeys, todo, t, target, missing, run');
  }

  /** Where a run stands once it knows what to enqueue. */
  function BeforeEnqueuing(exclusive: bool, keep: set<string>, todo: seq<string>): Phase {
    if |todo| == 0 then AfterEnqueuing(exclusive, keep) else Opening(exclusive, keep, todo)
  }

  method EnqueueAndCancel(db: Database, cfg: Config, mediaKeys: seq<string>, todo: seq<string>,
                          ghost t: Tables, ghost target: set<string>, ghost missing: set<string>, ghost run: Run)
    returns (ok: bool, created: nat, ghost run': Run)
    requires db.Snapshot() == t.(media := db.media) && Repaired(t.media, t.jobs, db.media)
    requires Elems(mediaKeys) == target != {} && missing <= target && !cfg.dryRun
    requires Distinct(todo) && Elems(todo) <= missing
    requires |todo| == Quota(cfg.limit, |missing|)
    requires Leads(run, db.warmChunk, Sys(t, Idle),
                   Sys(db.Snapshot(), BeforeEnqueuing(cfg.exclusive, Elems(mediaKeys), todo)))
    modifies db`jobs, db`events, db`budget, db`clock
    ensures ProgressFor(t, cfg, target, missing, db.Snapshot())
    ensures ok ==> CompleteFor(t, cfg, target, missing, db.Snapshot())
    ensures ok ==> created == |NewIds(t.jobs, db.jobs)|
    ensures !ok ==> db.budget == 0 || db.source.None?
    ensures LeadsTo(run', db.warmChunk, Sys(t, Idle), db.Snapshot()) && (ok ==> run'.s.phase == Idle)
  {
    hide Steps;
    ok, created, run' := EnqueueTodo(db, cfg.exclusive, Elems(mediaKeys), todo, missing, Sys(t, Idle), run);
    if ok {
      ok, run' := CancelRest(db, cfg.exclusive, mediaKeys, t.jobs, missing, created, Sys(t, Idle), run');
    } else {
      NotCanceledIsProgress(t.jobs, target, missing, cfg.exclusive, db.events, created, db.jobs);
    }
  }

  method CancelRest(db: Database, exclusive: bool, mediaKeys: seq<string>,
                    ghost before: Jobs, ghost missing: set<string>, ghost created: nat,
                    ghost start: Sys, ghost run: Run)
    returns (ok: bool, ghost run': Run)
    requires AfterEnqueue(before, missing, created, db.events, db.jobs) && missing <= Elems(mediaKeys)
    requires Leads(run, db.warmChunk, start, Sys(db.Snapshot(), AfterEnqueuing(exclusive, Elems(mediaKeys))))
    modifies db`jobs, db`budget, db`clock
    ensures JobsProgress(before, Elems(mediaKeys), missing, exclusive, db.events, db.jobs)
    ensures |NewIds(before, db.jobs)| == created
    ensures ok && exclusive ==> OthersCanceled(before, Elems(mediaKeys), db.jobs)
    ensures !ok ==> db.budget == 0
    ensures LeadsTo(run', db.warmChunk, start, db.Snapshot()) && (ok ==> run'.s.phase == Idle)
  {
    hide Steps;
    ghost var enqueued, target := db.jobs, Elems(mediaKeys);
    ghost var report, visited, cursor;
    ok, report, visited, cursor, run' := WarmCancelOthers(db, exclusive, mediaKeys, start, run);
    CancelKeepsProgress(before, target, missing, exclusive, db.events, created, enqueued, cursor, db.jobs);
    if ok && exclusive {
      KeysetCancelsOthers(before, target, enqueued, db.jobs);
    }
  }

  /** The enqueue block of RunE: no event and no insert when there is nothing to add. */
  method EnqueueTodo(db: Database, ghost exclusive: bool, ghost keep: set<string>, todo: seq<string>,
                     ghost missing: set<string>, ghost start: Sys, ghost run: Run)
    returns (ok: bool, created: nat, ghost run': Run)
    requires Distinct(todo) && Elems(todo) <= missing
    requires Leads(run, db.warmChunk, start, Sys(db.Snapshot(), BeforeEnqueuing(exclusive, keep, todo)))
    modifies db`jobs, db`events, db`budget, db`clock
    ensures AfterEnqueue(old(db.jobs), missing, created, db.events, db.jobs)
    ensures EventsProgress(old(db.events), missing != {}, db.events)
    ensures ok ==> created == |todo| && (created == 0 ==> db.events == old(db.events))
    ensures !ok ==> db.budget == 0 || db.source.None?
    ensures LeadsTo(run', db.warmChunk, start, db.Snapshot())
    ensures ok ==> run'.s.phase == AfterEnqueuing(exclusive, keep)
  {
    hide Steps;
    ok, created, run' := true, 0, run;
    if |todo| == 0 { return; }
    assert todo[0] in Elems(todo);
    var eventId;
    ok, eventId, run' := WarmSyncEvent(db, exclusive, keep, todo, start, run);
    if !ok { return; }
    ok, created, run' := WarmEnqueue(db, todo, eventId, exclusive, keep, start, run');
    InsertedIsAfterEnqueue(old(db.jobs), missing, todo, created, eventId, db.events, db.jobs);
  }

  /** The state once `created` of the todo keys are in: old rows untouched, new rows
      pending for distinct missing keys. */
  ghost predicate AfterEnqueue(before: Jobs, missing: set<string>, created: nat, events: map<Id, Event>, jobs: Jobs) {
    && before.Keys <= jobs.Keys
    && (forall id :: id in before ==> jobs[id] == before[id])
    && (forall id :: id in NewIds(before, jobs) ==> NewJobGood(id, jobs[id], missing, events))
    && |NewKeys(before, jobs)| == |NewIds(before, jobs)| == created
  }

  lemma NothingDone(t: Tables, cfg: Config, target: set<string>, missing: set<string>, media: map<string, Media>)
    requires media == t.media || Repaired(t.media, t.jobs, media)
    ensures ProgressFor(t, cfg, target, missing, t.(media := media))
  {
  }

  lemma EmptyTarget(t: Tables, cfg: Config, media: map<string, Media>)
    requires Repaired(t.media, t.jobs, media) && Target(t, cfg) == {}
    ensures Complete(t, cfg, t.(media := media))
  {
    assert Missing(t, cfg) == {};
    NothingDone(t, cfg, {}, {}, media);
  }

  lemma DryRunDone(t: Tables, cfg: Config, target: set<string>, missing: set<string>, media: map<string, Media>)
    requires Repaired(t.media, t.jobs, media) && target != {} && cfg.dryRun
    ensures CompleteFor(t, cfg, target, missing, t.(media := media))
  {
    NothingDone(t, cfg, target, missing, media);
  }

  lemma TodoIsMissing(jobs: Jobs, mediaKeys: seq<string>, pending: set<string>, todo: seq<string>, missing: set<string>)
    requires pending == set k | k in mediaKeys && Blocked(jobs, k)
    requires missing == UnblockedOf(Elems(mediaKeys), jobs)
    requires todo == FilterOut(mediaKeys, pending) && Distinct(mediaKeys)
    ensures Elems(todo) == missing && Distinct(todo) && |todo| == |missing|
    ensures missing <= Elems(mediaKeys)
  {
    FilterOutKeeps(mediaKeys, pending);
    DistinctCardinality(todo);
  }

  lemma InsertedIsAfterEnqueue(before: Jobs, missing: set<string>, todo: seq<string>, created: nat,
                               eventId: Id, events: map<Id, Event>, jobs: Jobs)
    requires Distinct(todo) && Elems(todo) <= missing && created <= |todo|
    requires Inserted(before, todo[..created], eventId, jobs)
    requires eventId in events && RunningBackfill(events[eventId])
    ensures AfterEnqueue(before, missing, created, events, jobs)
  {
    DistinctTake(todo, created);
    DistinctCardinality(todo[..created]);
    forall id | id in NewIds(before, jobs) ensures NewJobGood(id, jobs[id], missing, events) {
      assert jobs[id].mediaKey in NewKeys(before, jobs);
    }
  }

  lemma NotCanceledIsProgress(before: Jobs, target: set<string>, missing: set<string>, exclusive: bool,
                              events: map<Id, Event>, created: nat, jobs: Jobs)
    requires AfterEnqueue(before, missing, created, events, jobs) && missing <= target
    ensures JobsProgress(before, target, missing, exclusive, events, jobs)
    ensures |NewIds(before, jobs)| == created
  {
    assert CanceledUpTo(jobs, target, NIL, jobs);
    CancelKeepsProgress(before, target, missing, exclusive, events, created, jobs, NIL, jobs);
  }

  lemma KeysetCancelsOthers(before: Jobs, target: set<string>, enqueued: Jobs, after: Jobs)
    requires before.Keys <= enqueued.Keys && forall id :: id in before ==> enqueued[id] == before[id]
    requires KeysetCancel(enqueued, target, after)
    ensures OthersCanceled(before, target, after)
  {
  }

  /** Canceling after the enqueue leaves every row Progress allows: the rows just
      inserted are for targets, and targets are kept. */
  lemma CancelKeepsProgress(before: Jobs, target: set<string>, missing: set<string>, exclusive: bool,
                            events: map<Id, Event>, created: nat, enqueued: Jobs, cursor: Id, after: Jobs)
    requires AfterEnqueue(before, missing, created, events, enqueued) && missing <= target
    requires CanceledUpTo(enqueued, target, cursor, after)
    requires after == enqueued || exclusive
    ensures JobsProgress(before, target, missing, exclusive, events, after)
    ensures |NewIds(before, after)| == created
  {
    assert NewIds(before, after) == NewIds(before, enqueued);
    forall id | id in NewIds(before, enqueued) ensures after[id] == enqueued[id] {
      assert NewJobGood(id, enqueued[id], missing, events);
    }
    assert NewKeys(before, after) == NewKeys(before, enqueued);
  }
}
