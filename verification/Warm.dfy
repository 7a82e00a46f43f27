/** The `warm` command (cmd/warm.go): repair links, select, subtract what is already
    queued, enqueue, and with --exclusive cancel the rest. Every statement may fail;
    the error ends the run where it stands. */
module Warm {
  import opened Collections
  import opened Tables
  import opened Paging
  import opened WarmSpec
  import opened Database
  import opened WarmProtocol

  datatype CancelReport = CancelReport(total: nat, canceled: nat, scans: nat, lines: nat)

  /** Bulk-insert jobs for todo, a chunk per statement. */
  method WarmEnqueue(db: Database, todo: seq<string>, eventId: Id,
                     ghost exclusive: bool, ghost keep: set<string>, ghost start: Sys, ghost run: Run)
    returns (ok: bool, created: nat, ghost run': Run)
    requires Leads(run, db.warmChunk, start, Sys(db.Snapshot(), Enqueuing(exclusive, keep, todo, eventId)))
    modifies db`jobs, db`budget, db`clock
    ensures created <= |todo|
    ensures Inserted(old(db.jobs), todo[..created], eventId, db.jobs)
    ensures ok ==> created == |todo|
    ensures !ok ==> db.budget == 0
    ensures Leads(run', db.warmChunk, start,
                  Sys(db.Snapshot(), if ok then AfterEnqueuing(exclusive, keep)
                                     else Enqueuing(exclusive, keep, todo[created..], eventId)))
  {
    hide Steps;
    created, ok, run' := 0, true, run;
    ghost var t, last := db.Snapshot(), Enqueuing(exclusive, keep, todo, eventId);
    while created < |todo|
      invariant ok && created <= |todo|
      invariant var at := EnqueueLoop(t, todo, created, last, db.warmChunk, start, run', db.jobs); at
    {
      var chunk := Chunk(todo, created, db.warmChunk);
      ghost var before := db.jobs;
      ok := db.InsertJobs(chunk, eventId);
      if !ok { return; }
      run' := ChunkEnqueued(t, todo, created, last, db.warmChunk, start, run', before, db.jobs);
      created := created + |chunk|;
    }
    run' := AllEnqueued(t, todo, last, db.warmChunk, start, run', db.jobs);
  }

  /** The first `created` keys are inserted, and the run is about to insert the rest. */
  ghost predicate EnqueueLoop(t: Tables, todo: seq<string>, created: nat, p: Phase, n: Positive,
                              start: Sys, run: Run, jobs: Jobs)
  {
    && created <= |todo| && p.Enqueuing?
    && Inserted(t.jobs, todo[..created], p.eventId, jobs)
    && Leads(run, n, start, Sys(t.(jobs := jobs), Enqueuing(p.exclusive, p.keep, todo[created..], p.eventId)))
  }

  lemma ChunkEnqueued(t: Tables, todo: seq<string>, created: nat, p: Phase, n: Positive,
                      start: Sys, run: Run, jobs: Jobs, jobs': Jobs)
    returns (run': Run)
    requires created < |todo| && EnqueueLoop(t, todo, created, p, n, start, run, jobs)
    requires Inserted(jobs, Chunk(todo, created, n), p.eventId, jobs')
    ensures created + |Chunk(todo, created, n)| <= |todo|
    ensures EnqueueLoop(t, todo, created + |Chunk(todo, created, n)|, p, n, start, run', jobs')
    ensures |Chunk(todo, created, n)| > 0
  {
    var chunk := Chunk(todo, created, n);
    InsertedJoin(t.jobs, todo[..created], p.eventId, jobs, chunk, jobs');
    ChunkExtends(todo, created, n);
    ChunkOfRest(todo, created, n);
    var s := Sys(t.(jobs := jobs), Enqueuing(p.exclusive, p.keep, todo[created..], p.eventId));
    var s' := Sys(t.(jobs := jobs'), Enqueuing(p.exclusive, p.keep, todo[created + |chunk|..], p.eventId));
    assert EnqueueStep(s.t, s.phase, s'.t, s'.phase, n);
    LeadsOn(run, n, start, s, s');
    run' := Then(run, s');
  }

  lemma AllEnqueued(t: Tables, todo: seq<string>, p: Phase, n: Positive, start: Sys, run: Run, jobs: Jobs)
    returns (run': Run)
    requires EnqueueLoop(t, todo, |todo|, p, n, start, run, jobs)
    ensures Leads(run', n, start, Sys(t.(jobs := jobs), AfterEnqueuing(p.exclusive, p.keep)))
  {
    var s := Sys(t.(jobs := jobs), Enqueuing(p.exclusive, p.keep, todo[|todo|..], p.eventId));
    var s' := Sys(t.(jobs := jobs), AfterEnqueuing(p.exclusive, p.keep));
    LeadsOn(run, n, start, s, s');
    run' := Then(run, s');
  }

  /** Chunked querying finds what one query would, each row once. */
  method SelectUnattached(db: Database, cfg: Config, listingKeys: seq<string>, ghost start: Sys, ghost run: Run)
    returns (ok: bool, mediaKeys: seq<string>, ghost run': Run)
    requires Leads(run, db.warmChunk, start, Sys(db.Snapshot(), Selecting(cfg, listingKeys, [])))
    modifies db`budget, db`clock
    ensures ok ==> Elems(mediaKeys) == Unattached(db.media, Elems(listingKeys))
    ensures ok && Distinct(listingKeys) ==> Distinct(mediaKeys)
    ensures !ok ==> db.budget == 0
    ensures LeadsTo(run', db.warmChunk, start, db.Snapshot())
    ensures ok ==> run'.s.phase == if |mediaKeys| == 0 then Idle else Checking(cfg, mediaKeys, 0, {})
  {
    hide Steps;
    ok, mediaKeys, run' := true, [], run;
    ghost var t := db.Snapshot();
    var from := 0;
    while from < |listingKeys|
      invariant ok && SelectLoop(t, cfg, listingKeys, from, mediaKeys, db.warmChunk, start, run')
    {
      var chunk := Chunk(listingKeys, from, db.warmChunk);
      var keys;
      ok, keys := db.UnattachedKeys(chunk);
      if !ok { return; }
      run' := ChunkSelected(t, cfg, listingKeys, from, mediaKeys, db.warmChunk, start, run', keys);
      mediaKeys := mediaKeys + keys;
      from := from + |chunk|;
    }
    run' := AllSelected(t, cfg, listingKeys, mediaKeys, db.warmChunk, start, run');
  }

  /** The listings before `from` have been queried. */
  ghost predicate SelectLoop(t: Tables, cfg: Config, listingKeys: seq<string>, from: nat, found: seq<string>,
                             n: Positive, start: Sys, run: Run)
  {
    && from <= |listingKeys|
    && Elems(found) == Unattached(t.media, Elems(listingKeys[..from]))
    && (Distinct(listingKeys) ==> Distinct(found))
    && Leads(run, n, start, Sys(t, Selecting(cfg, listingKeys[from..], found)))
  }

  lemma ChunkSelected(t: Tables, cfg: Config, listingKeys: seq<string>, from: nat, found: seq<string>,
                      n: Positive, start: Sys, run: Run, keys: seq<string>)
    returns (run': Run)
    requires from < |listingKeys| && SelectLoop(t, cfg, listingKeys, from, found, n, start, run)
    requires Distinct(keys) && Elems(keys) == Unattached(t.media, Elems(Chunk(listingKeys, from, n)))
    ensures SelectLoop(t, cfg, listingKeys, from + |Chunk(listingKeys, from, n)|, found + keys, n, start, run')
    ensures |Chunk(listingKeys, from, n)| > 0
  {
    var chunk := Chunk(listingKeys, from, n);
    ChunkExtends(listingKeys, from, n);
    ChunkOfRest(listingKeys, from, n);
    SelectionExtends(t.media, listingKeys[..from], chunk, found, keys);
    if Distinct(listingKeys) { DistinctTake(listingKeys, from + |chunk|); }
    var s := Sys(t, Selecting(cfg, listingKeys[from..], found));
    var s' := Sys(t, Selecting(cfg, listingKeys[from + |chunk|..], found + keys));
    assert SelectStep(t, s.phase, s'.phase, n);
    LeadsOn(run, n, start, s, s');
    run' := Then(run, s');
  }

  lemma AllSelected(t: Tables, cfg: Config, listingKeys: seq<string>, found: seq<string>,
                    n: Positive, start: Sys, run: Run)
    returns (run': Run)
    requires SelectLoop(t, cfg, listingKeys, |listingKeys|, found, n, start, run)
    ensures Elems(found) == Unattached(t.media, Elems(listingKeys))
    ensures Leads(run', n, start, Sys(t, if |found| == 0 then Idle else Checking(cfg, found, 0, {})))
  {
    assert listingKeys[..|listingKeys|] == listingKeys;
    var s := Sys(t, Selecting(cfg, listingKeys[|listingKeys|..], found));
    var s' := Sys(t, if |found| == 0 then Idle else Checking(cfg, found, 0, {}));
    assert SelectStep(t, s.phase, s'.phase, n);
    LeadsOn(run, n, start, s, s');
    run' := Then(run, s');
  }

  /** A media row has one record key, so disjoint listing chunks select disjoint media. */
  lemma SelectionExtends(media: map<string, Media>, done: seq<string>, chunk: seq<string>,
                         found: seq<string>, keys: seq<string>)
    requires Elems(found) == Unattached(media, Elems(done))
    requires Distinct(keys) && Elems(keys) == Unattached(media, Elems(chunk))
    ensures Elems(found + keys) == Unattached(media, Elems(done + chunk))
    ensures Distinct(found) && Distinct(done + chunk) ==> Distinct(found + keys)
  {
    ElemsConcat(found, keys);
    ElemsConcat(done, chunk);
    if Distinct(found) && Distinct(done + chunk) {
      DistinctParts(done, chunk);
      DistinctJoin(found, keys);
    }
  }

  method ExistingJobKeys(db: Database, cfg: Config, mediaKeys: seq<string>, ghost start: Sys, ghost run: Run)
    returns (ok: bool, out: set<string>, ghost run': Run)
    requires Leads(run, db.warmChunk, start, Sys(db.Snapshot(), Checking(cfg, mediaKeys, 0, {})))
    modifies db`budget, db`clock
    ensures ok ==> out == set k | k in mediaKeys && Blocked(db.jobs, k)
    ensures !ok ==> db.budget == 0
    ensures LeadsTo(run', db.warmChunk, start, db.Snapshot())
    ensures ok ==> run'.s.phase == AfterChecking(cfg, mediaKeys, out)
  {
    hide Steps;
    ok, out, run' := true, {}, run;
    ghost var t := db.Snapshot();
    var from := 0;
    while from < |mediaKeys|
      invariant ok && CheckLoop(t, cfg, mediaKeys, from, out, db.warmChunk, start, run')
    {
      var chunk := Chunk(mediaKeys, from, db.warmChunk);
      var rows;
      ok, rows := db.BlockingJobs(chunk);
      if !ok { return; }
      run' := ChunkChecked(t, cfg, mediaKeys, from, out, db.warmChunk, start, run', Elems(rows));
      out := out + Elems(rows);
      from := from + |chunk|;
    }
    run' := AllChecked(t, cfg, mediaKeys, out, db.warmChunk, start, run');
  }

  /** The keys before `from` have been checked. */
  ghost predicate CheckLoop(t: Tables, cfg: Config, keys: seq<string>, from: nat, out: set<string>,
                            n: Positive, start: Sys, run: Run)
  {
    && from <= |keys|
    && out == (set k | k in keys[..from] && Blocked(t.jobs, k))
    && Leads(run, n, start, Sys(t, Checking(cfg, keys, from, out)))
  }

  lemma ChunkChecked(t: Tables, cfg: Config, keys: seq<string>, from: nat, out: set<string>,
                     n: Positive, start: Sys, run: Run, rows: set<string>)
    returns (run': Run)
    requires from < |keys| && CheckLoop(t, cfg, keys, from, out, n, start, run)
    requires rows == set k | k in Chunk(keys, from, n) && Blocked(t.jobs, k)
    ensures CheckLoop(t, cfg, keys, from + |Chunk(keys, from, n)|, out + rows, n, start, run')
    ensures |Chunk(keys, from, n)| > 0
  {
    var chunk := Chunk(keys, from, n);
    ChunkExtends(keys, from, n);
    BlockedSoFar(t.jobs, keys, from, chunk, out, rows);
    var s, s' := Sys(t, Checking(cfg, keys, from, out)), Sys(t, Checking(cfg, keys, from + |chunk|, out + rows));
    assert CheckStep(t, s.phase, s'.phase, n);
    LeadsOn(run, n, start, s, s');
    run' := Then(run, s');
  }

  lemma AllChecked(t: Tables, cfg: Config, keys: seq<string>, out: set<string>, n: Positive, start: Sys, run: Run)
    returns (run': Run)
    requires CheckLoop(t, cfg, keys, |keys|, out, n, start, run)
    ensures out == set k | k in keys && Blocked(t.jobs, k)
    ensures Leads(run', n, start, Sys(t, AfterChecking(cfg, keys, out)))
  {
    assert keys[..|keys|] == keys;
    var s, s' := Sys(t, Checking(cfg, keys, |keys|, out)), Sys(t, AfterChecking(cfg, keys, out));
    assert CheckStep(t, s.phase, s'.phase, n);
    LeadsOn(run, n, start, s, s');
    run' := Then(run, s');
  }

  /** The keys blocked in a longer prefix, both as a union and as the protocol's step. */
  lemma BlockedSoFar(jobs: Jobs, keys: seq<string>, from: nat, chunk: seq<string>, out: set<string>, rows: set<string>)
    requires from + |chunk| <= |keys| && keys[..from] + chunk == keys[..from + |chunk|]
    requires out == set k | k in keys[..from] && Blocked(jobs, k)
    requires rows == set k | k in chunk && Blocked(jobs, k)
    ensures out + rows == set k | k in keys[..from + |chunk|] && Blocked(jobs, k)
    ensures out + rows == set k | k in Elems(keys) && (k in out || (k in chunk && Blocked(jobs, k)))
  {
    forall k | k in keys[..from] + chunk ensures k in keys {
      assert k in keys[..from + |chunk|];
    }
  }

  method WarmSyncEvent(db: Database, ghost exclusive: bool, ghost keep: set<string>, ghost todo: seq<string>,
                       ghost start: Sys, ghost run: Run)
    returns (ok: bool, id: Id, ghost run': Run)
    requires Leads(run, db.warmChunk, start, Sys(db.Snapshot(), Opening(exclusive, keep, todo)))
    modifies db`events, db`budget, db`clock
    ensures ok ==> EventReady(old(db.events), id, db.events)
    ensures !ok ==> db.events == old(db.events) && (db.budget == 0 || db.source.None?)
    ensures Leads(run', db.warmChunk, start,
                  Sys(db.Snapshot(), if ok then Enqueuing(exclusive, keep, todo, id)
                                     else Opening(exclusive, keep, todo)))
  {
    hide Steps;
    id, run' := NIL, run;
    ghost var before := Sys(db.Snapshot(), Opening(exclusive, keep, todo));
    var existing;
    ok, existing := db.FirstRunningBackfill();
    if !ok { return; }
    if existing.Some? {
      id := existing.value;
    } else {
      var src;
      ok, src := db.FirstSource();
      if !ok { return; }
      if src.None? {
        ok := false;
        return;
      }
      ok, id := db.CreateEvent(WARM_EVENT);
      if !ok { return; }
    }
    ghost var after := Sys(db.Snapshot(), Enqueuing(exclusive, keep, todo, id));
    LeadsOn(run', db.warmChunk, start, before, after);
    run' := Then(run', after);
  }

  /** The keys of mediaKeys that are not blocked, in order. */
  method Unblocked(mediaKeys: seq<string>, pending: set<string>) returns (todo: seq<string>)
    ensures todo == FilterOut(mediaKeys, pending)
    ensures exists places :: KeptAt(places, todo, mediaKeys, pending)
  {
    todo := [];
    for i := 0 to |mediaKeys|
      invariant todo == FilterOut(mediaKeys[..i], pending)
    {
      assert mediaKeys[..i + 1][..i] == mediaKeys[..i];
      if mediaKeys[i] !in pending {
        todo := todo + [mediaKeys[i]];
      }
    }
    assert mediaKeys[..|mediaKeys|] == mediaKeys;
    ghost var places := FilterOutPlaces(mediaKeys, pending);
  }

  /** The rows up to the cursor are dealt with, each seen once; those above it are as
      they were. */
  ghost predicate RowsDone(before: Jobs, keep: set<string>, cursor: Id, visited: seq<Id>, after: Jobs) {
    && CanceledUpTo(before, keep, cursor, after)
    && Ascending(visited) && (forall x :: x in Elems(visited) ==> x <= cursor)
    && Elems(visited) + CancelableAbove(before, cursor) == CancelableAbove(before, NIL)
  }

  /** The report agrees with the table: canceled rows left the filter, scans are full
      pages while more rows are left, a line per 20 chunks' worth. */
  ghost predicate CountsRight(r: CancelReport, n: Positive, seen: nat, more: bool, after: Jobs) {
    && |CancelableIds(after)| + r.canceled == r.total
    && PagesFilled(seen, r.scans, n, more)
    && r.lines == r.canceled / (20 * n)
  }

  /** What the loop of WarmCancelOthers keeps. */
  ghost predicate CancelLoop(before: Jobs, keep: set<string>, n: Positive, cursor: Id, visited: seq<Id>,
                             r: CancelReport, jobs: Jobs)
  {
    && RowsDone(before, keep, cursor, visited, jobs)
    && CountsRight(r, n, |visited|, CancelableAbove(before, cursor) != {}, jobs)
    && r.total == |CancelableIds(before)|
  }

  /** The outcome of an exclusive cancel: each waiting row above uuid.Nil visited
      once, the one-shot effect on them, and a report that accounts for every row. */
  ghost predicate CancelDone(before: Jobs, keep: set<string>, n: Positive, visited: seq<Id>,
                             r: CancelReport, after: Jobs)
  {
    && KeysetCancel(before, keep, after)
    && Ascending(visited) && Elems(visited) == WaitingInReach(before)
    && r.total == |WaitingIds(before)|
    && r.total - r.canceled == |WaitingIds(after)|
    && r.scans == CeilDiv(|WaitingInReach(before)|, n) + 1
    && r.lines == r.canceled / (20 * n)
  }

  /** Cancel one scanned page and log every 20 chunks' worth. */
  method CancelPage(db: Database, page: seq<Id>, keep: set<string>, r: CancelReport)
    returns (ok: bool, r': CancelReport)
    requires Ascending(page) && Elems(page) <= CancelableIds(db.jobs) && |page| <= db.warmChunk
    requires r.lines == r.canceled / (20 * db.warmChunk)
    modifies db`jobs, db`budget, db`clock
    ensures ok ==> exists now :: db.jobs == MarkCanceled(old(db.jobs), Doomed(old(db.jobs), page, keep), now)
    ensures ok ==> r'.lines == r'.canceled / (20 * db.warmChunk)
    ensures ok ==> r' == r.(canceled := r'.canceled, lines := r'.lines)
    ensures ok ==> |CancelableIds(db.jobs)| + r'.canceled == |CancelableIds(old(db.jobs))| + r.canceled
    ensures !ok ==> db.jobs == old(db.jobs) && db.budget == 0
  {
    ok, r' := true, r;
    var ids := Doomed(db.jobs, page, keep);
    assert ids <= Elems(page);
    if ids == {} {
      assert db.jobs == MarkCanceled(db.jobs, ids, db.clock);
      return;
    }
    var n;
    ok, n := db.CancelIds(ids);
    if !ok { return; }
    MarkCanceledShrinks(old(db.jobs), ids, db.clock);
    AscendingIsDistinct(page);
    SubsetCardinality(ids, Elems(page));
    assert (set id | id in ids && id in old(db.jobs)) == ids;
    var canceled := r.canceled + n;
    var line := if canceled % (db.warmChunk * 20) < |ids| then 1 else 0;
    CrossesMultiple(r.canceled, n, 20 * db.warmChunk);
    r' := r.(canceled := canceled, lines := r.lines + line);
  }

  method WarmCancelOthers(db: Database, exclusive: bool, keep: seq<string>, ghost start: Sys, ghost run: Run)
    returns (ok: bool, report: CancelReport, ghost visited: seq<Id>, ghost reached: Id, ghost run': Run)
    requires Leads(run, db.warmChunk, start, Sys(db.Snapshot(), AfterEnqueuing(exclusive, Elems(keep))))
    modifies db`jobs, db`budget, db`clock
    ensures !exclusive ==> ok && db.jobs == old(db.jobs)
    ensures CanceledUpTo(old(db.jobs), Elems(keep), reached, db.jobs)
    ensures exclusive && ok ==>
              CancelDone(old(db.jobs), Elems(keep), db.warmChunk, visited, report, db.jobs)
    ensures !ok ==> exclusive && db.budget == 0
    ensures LeadsTo(run', db.warmChunk, start, db.Snapshot()) && (ok ==> run'.s.phase == Idle)
  {
    hide Steps, CancelLoop, CancelDone, CanceledUpTo;
    ok, report, visited, reached, run' := true, CancelReport(0, 0, 0, 0), [], NIL, run;
    NothingCanceled(db.jobs, Elems(keep));
    if !exclusive { return; }
    ghost var before := db.jobs;
    var total;
    ok, total := db.CountCancelable();
    if !ok { return; }
    report := report.(total := total);
    CancelLoopStarts(before, Elems(keep), db.warmChunk, total);
    var keepSet := Elems(keep);
    var cursor: Id := NIL;
    var more := true;
    while more
      invariant ok
      invariant var at := more ==> CancelLoop(before, keepSet, db.warmChunk, cursor, visited, report, db.jobs); at
      invariant var done := !more ==> CancelDone(before, keepSet, db.warmChunk, visited, report, db.jobs); done
      invariant Leads(run', db.warmChunk, start, Sys(db.Snapshot(), if more then Scanning(keepSet, cursor) else Idle))
      invariant reached == cursor && CanceledUpTo(before, keepSet, cursor, db.jobs)
      decreases more, |CancelableAbove(before, cursor)|
    {
      ok, more, cursor, report, visited, run' :=
        CancelNextPage(db, keepSet, cursor, report, visited, before, start, run');
      reached := cursor;
      if !ok { return; }
    }
  }

  lemma NothingCanceled(jobs: Jobs, keep: set<string>)
    ensures CanceledUpTo(jobs, keep, NIL, jobs)
  {
  }

  lemma CancelLoopStarts(jobs: Jobs, keep: set<string>, n: Positive, total: nat)
    requires total == |CancelableIds(jobs)|
    ensures CancelLoop(jobs, keep, n, NIL, [], CancelReport(total, 0, 0, 0), jobs)
  {
  }

  /** One turn of the loop: scan the next page, and cancel what of it is not kept. */
  method CancelNextPage(db: Database, keep: set<string>, cursor: Id, report: CancelReport, ghost visited: seq<Id>,
                        ghost before: Jobs, ghost start: Sys, ghost run: Run)
    returns (ok: bool, more: bool, cursor': Id, report': CancelReport, ghost visited': seq<Id>, ghost run': Run)
    requires CancelLoop(before, keep, db.warmChunk, cursor, visited, report, db.jobs)
    requires Leads(run, db.warmChunk, start, Sys(db.Snapshot(), Scanning(keep, cursor)))
    modifies db`jobs, db`budget, db`clock
    ensures CanceledUpTo(before, keep, cursor', db.jobs)
    ensures LeadsTo(run', db.warmChunk, start, db.Snapshot())
    ensures !ok ==> db.budget == 0
    ensures var at := CancelLoop(before, keep, db.warmChunk, cursor', visited', report', db.jobs); ok && more ==> at
    ensures ok && more ==> |CancelableAbove(before, cursor')| < |CancelableAbove(before, cursor)|
    ensures var done := CancelDone(before, keep, db.warmChunk, visited', report', db.jobs); ok && !more ==> done
    ensures ok ==> run'.s.phase == if more then Scanning(keep, cursor') else Idle
  {
    hide Steps;
    more, cursor', report', visited', run' := true, cursor, report, visited, run;
    ghost var scanning := Sys(db.Snapshot(), Scanning(keep, cursor));
    var batch;
    ok, batch := db.ScanCancelable(cursor);
    if !ok { return; }
    AboveCursorUntouched(before, keep, cursor, db.jobs);
    if |batch| == 0 {
      PageFull(batch, CancelableAbove(db.jobs, cursor), db.warmChunk);
      report' := report.(scans := report.scans + 1);
      ExhaustedIsDone(before, keep, db.warmChunk, cursor, visited, report', db.jobs);
      run' := ScanEmpty(run, db.warmChunk, start, scanning, batch);
      more := false;
      return;
    }
    ok, report', visited', run' := CancelScanned(db, keep, cursor, batch, report, visited, before, start, run);
    if ok { cursor' := batch[|batch| - 1]; }
  }

  /** A scanned page: cancel, and pass the cursor on to its last row. */
  method CancelScanned(db: Database, keep: set<string>, ghost cursor: Id, batch: seq<Id>, report: CancelReport,
                       ghost visited: seq<Id>, ghost before: Jobs, ghost start: Sys, ghost run: Run)
    returns (ok: bool, report': CancelReport, ghost visited': seq<Id>, ghost run': Run)
    requires CancelLoop(before, keep, db.warmChunk, cursor, visited, report, db.jobs)
    requires Leads(run, db.warmChunk, start, Sys(db.Snapshot(), Scanning(keep, cursor)))
    requires IsPage(batch, CancelableAbove(db.jobs, cursor), db.warmChunk) && |batch| > 0
    modifies db`jobs, db`budget, db`clock
    ensures !ok ==> db.jobs == old(db.jobs) && db.budget == 0
    ensures LeadsTo(run', db.warmChunk, start, db.Snapshot())
    ensures var at := CancelLoop(before, keep, db.warmChunk, batch[|batch| - 1], visited', report', db.jobs); ok ==> at
    ensures ok ==> |CancelableAbove(before, batch[|batch| - 1])| < |CancelableAbove(before, cursor)|
    ensures ok ==> run'.s.phase == Scanning(keep, batch[|batch| - 1])
  {
    hide Steps;
    visited', run' := visited + batch, run;
    ghost var scanning, mid := Sys(db.Snapshot(), Scanning(keep, cursor)), db.jobs;
    ghost var updating;
    run', updating := ScanPage(run, db.warmChunk, start, scanning, batch);
    BatchCancelable(mid, cursor, batch, db.warmChunk);
    ok, report' := CancelPage(db, batch, keep, report);
    if !ok { return; }
    report' := report'.(scans := report'.scans + 1);
    ghost var now :| db.jobs == MarkCanceled(mid, Doomed(mid, batch, keep), now);
    CancelLoopNext(before, keep, db.warmChunk, cursor, visited, report, mid, batch, now, report');
    ghost var scanned := Sys(db.Snapshot(), Scanning(keep, batch[|batch| - 1]));
    run' := PageUpdated(run', db.warmChunk, start, updating, scanned, now);
  }

  lemma BatchCancelable(jobs: Jobs, cursor: Id, batch: seq<Id>, n: Positive)
    requires IsPage(batch, CancelableAbove(jobs, cursor), n)
    ensures Ascending(batch) && Elems(batch) <= CancelableIds(jobs) && |batch| <= n
  {
  }

  lemma CancelLoopNext(before: Jobs, keep: set<string>, n: Positive, cursor: Id, visited: seq<Id>, r: CancelReport,
                       mid: Jobs, batch: seq<Id>, now: int, r': CancelReport)
    requires CancelLoop(before, keep, n, cursor, visited, r, mid)
    requires IsPage(batch, CancelableAbove(mid, cursor), n) && |batch| > 0
    requires r'.lines == r'.canceled / (20 * n) && r'.total == r.total && r'.scans == r.scans + 1
    requires |CancelableIds(MarkCanceled(mid, Doomed(mid, batch, keep), now))| + r'.canceled ==
             |CancelableIds(mid)| + r.canceled
    ensures CancelLoop(before, keep, n, batch[|batch| - 1], visited + batch, r',
                       MarkCanceled(mid, Doomed(mid, batch, keep), now))
    ensures |CancelableAbove(before, batch[|batch| - 1])| < |CancelableAbove(before, cursor)|
  {
    AboveCursorUntouched(before, keep, cursor, mid);
    CountsNext(before, n, cursor, visited, mid, batch, r);
    RowsNext(before, keep, n, cursor, visited, mid, batch, now);
  }

  lemma ScanEmpty(run: Run, n: Positive, start: Sys, s: Sys, page: seq<Id>) returns (run': Run)
    requires Leads(run, n, start, s) && s.phase.Scanning?
    requires IsPage(page, CancelableAbove(s.t.jobs, s.phase.cursor), n) && |page| == 0
    ensures Leads(run', n, start, Sys(s.t, Idle))
  {
    assert ScanStep(s.t, s.phase, Idle, n);
    LeadsOn(run, n, start, s, Sys(s.t, Idle));
    run' := Then(run, Sys(s.t, Idle));
  }

  lemma ScanPage(run: Run, n: Positive, start: Sys, s: Sys, page: seq<Id>) returns (run': Run, s': Sys)
    requires Leads(run, n, start, s) && s.phase.Scanning?
    requires IsPage(page, CancelableAbove(s.t.jobs, s.phase.cursor), n) && |page| > 0
    ensures Leads(run', n, start, s')
    ensures s' == Sys(s.t, Updating(s.phase.keep, page[|page| - 1], Doomed(s.t.jobs, page, s.phase.keep), s.t.jobs))
  {
    s' := Sys(s.t, Updating(s.phase.keep, page[|page| - 1], Doomed(s.t.jobs, page, s.phase.keep), s.t.jobs));
    assert ScanStep(s.t, s.phase, s'.phase, n);
    LeadsOn(run, n, start, s, s');
    run' := Then(run, s');
  }

  lemma PageUpdated(run: Run, n: Positive, start: Sys, s: Sys, s': Sys, now: int) returns (run': Run)
    requires Leads(run, n, start, s) && s.phase.Updating?
    requires s' == Sys(s.t.(jobs := MarkCanceled(s.t.jobs, s.phase.ids, now)), Scanning(s.phase.keep, s.phase.cursor))
    ensures Leads(run', n, start, s')
  {
    assert UpdateStep(s.t, s.phase, s'.t, s'.phase);
    LeadsOn(run, n, start, s, s');
    run' := Then(run, s');
  }

  lemma ExhaustedIsDone(before: Jobs, keep: set<string>, n: Positive, cursor: Id, visited: seq<Id>,
                        r: CancelReport, after: Jobs)
    requires RowsDone(before, keep, cursor, visited, after)
    requires r.scans > 0 && CountsRight(r.(scans := r.scans - 1), n, |visited|, false, after)
    requires r.total == |CancelableIds(before)| && CancelableAbove(before, cursor) == {}
    ensures CancelDone(before, keep, n, visited, r, after)
  {
    hide PagesFilled, CeilDiv;
    CancelableIsWaiting(before);
    CancelableIsWaiting(after);
    PagesFilledAll(|visited|, r.scans - 1, n);
    AscendingIsDistinct(visited);
    forall id | id in before && id != NIL && Cancelable(before[id].status) && before[id].mediaKey !in keep
      ensures CanceledFrom(before[id], after[id])
    {
      assert id !in CancelableAbove(before, cursor);
    }
  }

  lemma RowsNext(before: Jobs, keep: set<string>, n: Positive, cursor: Id, visited: seq<Id>,
                 mid: Jobs, page: seq<Id>, now: int)
    requires RowsDone(before, keep, cursor, visited, mid)
    requires IsPage(page, CancelableAbove(mid, cursor), n) && |page| > 0
    ensures RowsDone(before, keep, page[|page| - 1], visited + page,
                     MarkCanceled(mid, Doomed(mid, page, keep), now))
    ensures |CancelableAbove(before, page[|page| - 1])| < |CancelableAbove(before, cursor)|
  {
    var last := page[|page| - 1];
    PageAdvances(before, keep, cursor, mid, page, n, now);
    assert last in Elems(page);
    VisitedNext(before, keep, n, cursor, visited, mid, page);
    assert |CancelableAbove(before, cursor)| == |Elems(page)| + |CancelableAbove(before, last)|;
  }

  lemma VisitedNext(before: Jobs, keep: set<string>, n: Positive, cursor: Id, visited: seq<Id>,
                    mid: Jobs, page: seq<Id>)
    requires RowsDone(before, keep, cursor, visited, mid)
    requires IsPage(page, CancelableAbove(mid, cursor), n) && |page| > 0
    requires CancelableAbove(before, cursor) == Elems(page) + CancelableAbove(before, page[|page| - 1])
    ensures Ascending(visited + page)
    ensures forall x :: x in Elems(visited + page) ==> x <= page[|page| - 1]
    ensures Elems(visited + page) + CancelableAbove(before, page[|page| - 1]) == CancelableAbove(before, NIL)
  {
    var last := page[|page| - 1];
    ElemsConcat(visited, page);
    assert Ascending(visited + page) by { AscendingJoin(visited, page); }
    forall x | x in Elems(visited + page) ensures x <= last {
      PageIsPrefix(page, CancelableAbove(mid, cursor), n);
      assert last in Elems(page);
    }
  }

  lemma CountsNext(before: Jobs, n: Positive, cursor: Id, visited: seq<Id>, mid: Jobs, page: seq<Id>, r: CancelReport)
    requires CancelableAbove(mid, cursor) == CancelableAbove(before, cursor)
    requires IsPage(page, CancelableAbove(mid, cursor), n) && |page| > 0
    requires PagesFilled(|visited|, r.scans, n, CancelableAbove(before, cursor) != {})
    ensures PagesFilled(|visited + page|, r.scans + 1, n, CancelableAbove(before, page[|page| - 1]) != {})
  {
    var last := page[|page| - 1];
    assert page[0] in Elems(page);
    PageFull(page, CancelableAbove(mid, cursor), n);
    assert last in Elems(page);
    PageIsPrefix(page, CancelableAbove(mid, cursor), n);
    if Elems(page) == CancelableAbove(before, cursor) && CancelableAbove(before, last) != {} {
      var id :| id in CancelableAbove(before, last);
      assert id in CancelableAbove(before, cursor) && id in page;
    }
    PagesFilledNext(|visited|, r.scans, n, |page|, CancelableAbove(before, last) != {});
  }
}
