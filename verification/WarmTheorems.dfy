/** What follows for the operator from Progress and Complete: stopped runs can be
    repeated, repeated runs settle, limited runs converge, and exactly which jobs
    --exclusive and a later run touch. */
module WarmTheorems {
  import opened Collections
  import opened Tables
  import opened WarmSpec

  // ---- what a run leaves stable ------------------------------------------------

  /** A run neither adds nor removes downloaded jobs. */
  lemma LinkableStable(t: Tables, cfg: Config, target: set<string>, missing: set<string>, t': Tables, k: string)
    requires ProgressFor(t, cfg, target, missing, t')
    ensures Linkable(t'.jobs, k) <==> Linkable(t.jobs, k)
  {
    if Linkable(t.jobs, k) {
      var id :| id in t.jobs && Downloaded(t.jobs[id], k);
      assert OldJobKept(id, t.jobs[id], target, cfg.exclusive && !cfg.dryRun && target != {}, t'.jobs[id]);
      assert Downloaded(t'.jobs[id], k);
    }
    if Linkable(t'.jobs, k) {
      var id :| id in t'.jobs && Downloaded(t'.jobs[id], k);
      assert id in NewIds(t.jobs, t'.jobs) <==> id !in t.jobs;
      assert id in t.jobs && Downloaded(t.jobs[id], k);
    }
  }

  /** The targets of a run are the targets of every rerun, however far it got. */
  lemma TargetStable(t: Tables, cfg: Config, t': Tables)
    requires Progress(t, cfg, t')
    ensures Target(t', cfg) == Target(t, cfg)
  {
    forall k ensures k in Target(t', cfg) <==> k in Target(t, cfg) {
      LinkableStable(t, cfg, Target(t, cfg), Missing(t, cfg), t', k);
      if t'.media != t.media && k in t.media {
        assert RepairedRow(k, t.media[k], t.jobs, t'.media[k]);
      }
    }
  }

  /** A target is blocked afterwards iff it was before or the run queued it. */
  lemma BlockedAfter(before: Jobs, target: set<string>, missing: set<string>, cancels: bool,
                     events: map<Id, Event>, after: Jobs, k: string)
    requires JobsProgress(before, target, missing, cancels, events, after) && k in target
    ensures Blocked(after, k) <==> Blocked(before, k) || k in NewKeys(before, after)
  {
    if Blocked(before, k) {
      var id :| id in before && before[id].mediaKey == k && Blocking(before[id].status);
      assert OldJobKept(id, before[id], target, cancels, after[id]);
      assert id in after && after[id].mediaKey == k && Blocking(after[id].status);
    }
    if k in NewKeys(before, after) {
      var id :| id in NewIds(before, after) && after[id].mediaKey == k;
      assert NewJobGood(id, after[id], missing, events);
      assert id in after && after[id].mediaKey == k && Blocking(after[id].status);
    }
    if Blocked(after, k) {
      var id :| id in after && after[id].mediaKey == k && Blocking(after[id].status);
      if id in before {
        assert OldJobKept(id, before[id], target, cancels, after[id]);
        assert id in before && before[id].mediaKey == k && Blocking(before[id].status);
      } else {
        assert id in NewIds(before, after);
      }
    }
  }

  lemma NewKeysMissing(before: Jobs, target: set<string>, missing: set<string>, cancels: bool,
                       events: map<Id, Event>, after: Jobs)
    requires JobsProgress(before, target, missing, cancels, events, after)
    ensures NewKeys(before, after) <= missing && |NewKeys(before, after)| == |NewIds(before, after)|
  {
    forall k | k in NewKeys(before, after) ensures k in missing {
      var id :| id in NewIds(before, after) && after[id].mediaKey == k;
      assert NewJobGood(id, after[id], missing, events);
    }
  }

  lemma UnblockedShrinks(before: Jobs, target: set<string>, cancels: bool, events: map<Id, Event>, after: Jobs)
    requires JobsProgress(before, target, UnblockedOf(target, before), cancels, events, after)
    ensures UnblockedOf(target, after) == UnblockedOf(target, before) - NewKeys(before, after)
    ensures |UnblockedOf(target, after)| == |UnblockedOf(target, before)| - |NewIds(before, after)|
  {
    hide JobsProgress, NewKeys, NewIds, Blocked;
    var missing := UnblockedOf(target, before);
    forall k | k in target ensures Blocked(after, k) <==> Blocked(before, k) || k in NewKeys(before, after) {
      BlockedAfter(before, target, missing, cancels, events, after, k);
    }
    NewKeysMissing(before, target, missing, cancels, events, after);
    assert UnblockedOf(target, after) == missing - NewKeys(before, after);
    DifferenceCardinality(missing, NewKeys(before, after));
  }

  /** What is still missing after a run is what was missing less what it queued. */
  lemma MissingShrinks(t: Tables, cfg: Config, t': Tables)
    requires Progress(t, cfg, t')
    ensures Missing(t', cfg) == Missing(t, cfg) - NewKeys(t.jobs, t'.jobs)
    ensures |Missing(t', cfg)| == |Missing(t, cfg)| - |NewIds(t.jobs, t'.jobs)|
  {
    var target := Target(t, cfg);
    TargetStable(t, cfg, t');
    UnblockedShrinks(t.jobs, target, cfg.exclusive && !cfg.dryRun && target != {}, t'.events, t'.jobs);
  }

  // ---- stopping and running again ------------------------------------------------

  lemma JobsCompose(a: Jobs, target: set<string>, missing: set<string>, missing': set<string>, cancels: bool,
                    e1: map<Id, Event>, b: Jobs, e2: map<Id, Event>, c: Jobs)
    requires JobsProgress(a, target, missing, cancels, e1, b)
    requires JobsProgress(b, target, missing', cancels, e2, c)
    requires missing <= target && missing' == missing - NewKeys(a, b)
    requires forall e :: e in e1 ==> e in e2 && e2[e] == e1[e]
    ensures JobsProgress(a, target, missing, cancels, e2, c)
    ensures |NewIds(a, c)| == |NewIds(a, b)| + |NewIds(b, c)|
  {
    NewIdsJoin(a, b, c);
    forall id | id in b ensures c[id].mediaKey == b[id].mediaKey {
      assert OldJobKept(id, b[id], target, cancels, c[id]);
    }
    NewKeysJoin(a, b, c);
    NewKeysMissing(b, target, missing', cancels, e2, c);
    assert NewKeys(a, b) !! NewKeys(b, c);
    forall id | id in a ensures OldJobKept(id, a[id], target, cancels, c[id]) {
      assert OldJobKept(id, a[id], target, cancels, b[id]);
      assert OldJobKept(id, b[id], target, cancels, c[id]);
    }
    forall id | id in NewIds(a, c) ensures NewJobGood(id, c[id], missing, e2) {
      if id in b {
        assert id in NewIds(a, b) && NewJobGood(id, b[id], missing, e1);
        assert OldJobKept(id, b[id], target, cancels, c[id]);
      } else {
        assert id in NewIds(b, c);
      }
    }
  }

  lemma EventsCompose(a: map<Id, Event>, b: map<Id, Event>, c: map<Id, Event>, first: bool, second: bool)
    requires EventsProgress(a, first, b) && EventsProgress(b, second, c) && (second ==> first)
    ensures EventsProgress(a, first, c)
    ensures forall e :: e in b ==> e in c && c[e] == b[e]
  {
    if b != a && c != b {
      var e: Id :| e !in a && b == a[e := WARM_EVENT];
      assert e in b && RunningBackfill(b[e]);
    }
  }

  lemma MediaCompose(media: map<string, Media>, jobs: Jobs, m1: map<string, Media>, jobs': Jobs, m2: map<string, Media>)
    requires m1 == media || Repaired(media, jobs, m1)
    requires m2 == m1 || Repaired(m1, jobs', m2)
    requires forall k :: Linkable(jobs', k) <==> Linkable(jobs, k)
    requires forall id :: id in jobs ==> id in jobs' && (jobs[id].status.Succeeded? ==> jobs'[id] == jobs[id])
    requires forall id :: id in jobs' && jobs'[id].status.Succeeded? ==> id in jobs && jobs'[id] == jobs[id]
    ensures m2 == media || Repaired(media, jobs, m2)
    ensures Repaired(m1, jobs', m2) ==> Repaired(media, jobs, m2)
  {
    if m2 != media {
      forall k | k in media ensures RepairedRow(k, media[k], jobs, m2[k]) {
        assert m1 != media ==> RepairedRow(k, media[k], jobs, m1[k]);
        assert m2 != m1 ==> RepairedRow(k, m1[k], jobs', m2[k]);
      }
    }
  }

  /** Whatever a stopped run left, a second run continues it: the two together have done
      no more than one run may do. */
  lemma ProgressComposes(t: Tables, cfg: Config, m: Tables, f: Tables)
    requires Progress(t, cfg, m) && Progress(m, cfg, f)
    ensures Progress(t, cfg, f)
    ensures |NewIds(t.jobs, f.jobs)| == |NewIds(t.jobs, m.jobs)| + |NewIds(m.jobs, f.jobs)|
    ensures Repaired(m.media, m.jobs, f.media) ==> Repaired(t.media, t.jobs, f.media)
  {
    var target, missing, missing' := Target(t, cfg), Missing(t, cfg), Missing(m, cfg);
    var cancels := cfg.exclusive && !cfg.dryRun && target != {};
    TargetStable(t, cfg, m);
    MissingShrinks(t, cfg, m);
    EventsCompose(t.events, m.events, f.events, !cfg.dryRun && missing != {}, !cfg.dryRun && missing' != {});
    JobsCompose(t.jobs, target, missing, missing', cancels, m.events, m.jobs, f.events, f.jobs);
    SucceededStable(t.jobs, target, missing, cancels, m.events, m.jobs);
    forall k ensures Linkable(m.jobs, k) <==> Linkable(t.jobs, k) {
      LinkableStable(t, cfg, target, missing, m, k);
    }
    MediaCompose(t.media, t.jobs, m.media, m.jobs, f.media);
  }

  lemma SucceededStable(before: Jobs, target: set<string>, missing: set<string>, cancels: bool,
                        events: map<Id, Event>, after: Jobs)
    requires JobsProgress(before, target, missing, cancels, events, after)
    ensures forall id :: id in before ==> id in after && (before[id].status.Succeeded? ==> after[id] == before[id])
    ensures forall id :: id in after && after[id].status.Succeeded? ==> id in before && after[id] == before[id]
  {
    forall id | id in after && after[id].status.Succeeded? ensures id in before && after[id] == before[id] {
      assert id in NewIds(before, after) <==> id !in before;
    }
  }

  lemma OthersCanceledCompose(a: Jobs, target: set<string>, missing: set<string>, cancels: bool,
                              events: map<Id, Event>, b: Jobs, c: Jobs)
    requires JobsProgress(a, target, missing, cancels, events, b)
    requires b.Keys <= c.Keys && OthersCanceled(b, target, c)
    requires forall id :: id in b && b[id].status.Canceled? ==> c[id] == b[id]
    ensures OthersCanceled(a, target, c)
  {
    forall id | id in a && id != NIL && Cancelable(a[id].status) && a[id].mediaKey !in target
      ensures CanceledFrom(a[id], c[id])
    {
      assert OldJobKept(id, a[id], target, cancels, b[id]);
    }
  }

  lemma CanceledStay(before: Jobs, target: set<string>, missing: set<string>, cancels: bool,
                     events: map<Id, Event>, after: Jobs)
    requires JobsProgress(before, target, missing, cancels, events, after)
    ensures forall id :: id in before && before[id].status.Canceled? ==> after[id] == before[id]
  {
    forall id | id in before && before[id].status.Canceled? ensures after[id] == before[id] {
      assert OldJobKept(id, before[id], target, cancels, after[id]);
    }
  }

  lemma CompleteCompose(t: Tables, cfg: Config, target: set<string>, missing: set<string>,
                        m: Tables, missing': set<string>, f: Tables)
    requires cfg.limit <= 0
    requires ProgressFor(t, cfg, target, missing, m) && CompleteFor(m, cfg, target, missing', f)
    requires ProgressFor(t, cfg, target, missing, f) && Repaired(t.media, t.jobs, f.media)
    requires |missing'| == |missing| - |NewIds(t.jobs, m.jobs)|
    requires |NewIds(t.jobs, f.jobs)| == |NewIds(t.jobs, m.jobs)| + |NewIds(m.jobs, f.jobs)|
    ensures CompleteFor(t, cfg, target, missing, f)
  {
    if cfg.exclusive && !cfg.dryRun && target != {} {
      CanceledStay(m.jobs, target, missing', true, f.events, f.jobs);
      OthersCanceledCompose(t.jobs, target, missing, true, m.events, m.jobs, f.jobs);
    }
  }

  /** Crash and rerun: an unlimited run stopped before any of its statements, any number
      of times, and then run to the end has done exactly what one complete run does. */
  lemma RerunCompletes(t: Tables, cfg: Config, m: Tables, f: Tables)
    requires cfg.limit <= 0
    requires Progress(t, cfg, m) && Complete(m, cfg, f)
    ensures Complete(t, cfg, f)
  {
    TargetStable(t, cfg, m);
    MissingShrinks(t, cfg, m);
    ProgressComposes(t, cfg, m, f);
    CompleteCompose(t, cfg, Target(t, cfg), Missing(t, cfg), m, Missing(m, cfg), f);
  }

  /** A sequence of runs with one configuration, each stopped anywhere. */
  ghost predicate StoppedRuns(ts: seq<Tables>, cfg: Config) {
    |ts| > 0 && forall i :: 0 <= i < |ts| - 1 ==> Progress(ts[i], cfg, ts[i + 1])
  }

  lemma ProgressReflexive(t: Tables, cfg: Config)
    ensures Progress(t, cfg, t)
  {
    assert NewKeys(t.jobs, t.jobs) == {};
  }

  lemma {:induction false} StoppedRunsProgress(ts: seq<Tables>, cfg: Config, k: nat)
    requires StoppedRuns(ts, cfg) && k < |ts|
    ensures Progress(ts[0], cfg, ts[k])
  {
    if k == 0 {
      ProgressReflexive(ts[0], cfg);
    } else {
      StoppedRunsProgress(ts, cfg, k - 1);
      assert Progress(ts[k - 1], cfg, ts[k - 1 + 1]);
      ProgressComposes(ts[0], cfg, ts[k - 1], ts[k]);
    }
  }

  /** Any number of stopped runs followed by one that returns nil is one complete run. */
  lemma CrashesThenRerun(ts: seq<Tables>, cfg: Config, f: Tables)
    requires cfg.limit <= 0 && StoppedRuns(ts, cfg)
    requires Complete(ts[|ts| - 1], cfg, f)
    ensures Complete(ts[0], cfg, f)
  {
    StoppedRunsProgress(ts, cfg, |ts| - 1);
    RerunCompletes(ts[0], cfg, ts[|ts| - 1], f);
  }

  // ---- settling ------------------------------------------------------------------

  function Rows(jobs: Jobs, k: string, s: JobStatus): set<Id> {
    set id | id in jobs && jobs[id].mediaKey == k && jobs[id].status == s
  }

  /** The queue up to ids and times: how many jobs each key has in each status. */
  ghost predicate SameQueue(a: Jobs, b: Jobs) {
    forall k, s :: |Rows(a, k, s)| == |Rows(b, k, s)|
  }

  function KeysOf(ids: set<Id>, jobs: Jobs): set<string> {
    set id | id in ids && id in jobs :: jobs[id].mediaKey
  }

  lemma {:induction false} KeysOfBound(ids: set<Id>, jobs: Jobs)
    requires ids <= jobs.Keys
    ensures |KeysOf(ids, jobs)| <= |ids|
    decreases |ids|
  {
    if ids == {} {
      assert KeysOf(ids, jobs) == {};
    } else {
      var y :| y in ids;
      KeysOfBound(ids - {y}, jobs);
      assert KeysOf(ids, jobs) == KeysOf(ids - {y}, jobs) + {jobs[y].mediaKey};
    }
  }

  lemma SharedKeyShrinks(ids: set<Id>, jobs: Jobs, x: Id, y: Id)
    requires ids <= jobs.Keys && x in ids && y in ids && x != y && jobs[x].mediaKey == jobs[y].mediaKey
    ensures |KeysOf(ids, jobs)| < |ids|
  {
    KeysOfBound(ids - {y}, jobs);
    assert x in ids - {y};
    assert KeysOf(ids - {y}, jobs) == KeysOf(ids, jobs);
  }

  function NewRows(before: Jobs, after: Jobs, k: string): set<Id> {
    set id | id in NewIds(before, after) && after[id].mediaKey == k
  }

  /** As many new keys as new rows: a key with a new row has exactly one. */
  lemma OneNewRow(before: Jobs, after: Jobs, k: string)
    requires |NewKeys(before, after)| == |NewIds(before, after)|
    ensures |NewRows(before, after, k)| == if k in NewKeys(before, after) then 1 else 0
  {
    var ids := NewIds(before, after);
    assert KeysOf(ids, after) == NewKeys(before, after);
    if k in NewKeys(before, after) {
      var x :| x in ids && after[x].mediaKey == k;
      forall y | y in ids && y != x ensures after[y].mediaKey != k {
        if after[y].mediaKey == k { SharedKeyShrinks(ids, after, x, y); }
      }
      assert NewRows(before, after, k) == {x};
    } else {
      forall id | id in ids ensures after[id].mediaKey != k {
        assert after[id].mediaKey in NewKeys(before, after);
      }
      assert NewRows(before, after, k) == {};
    }
  }

  function OldRows(before: Jobs, after: Jobs, k: string, s: JobStatus): set<Id> {
    set id | id in before && id in after && after[id].mediaKey == k && after[id].status == s
  }

  lemma RowsSplit(before: Jobs, target: set<string>, missing: set<string>, cancels: bool,
                  events: map<Id, Event>, after: Jobs, k: string, s: JobStatus)
    requires JobsProgress(before, target, missing, cancels, events, after)
    requires NewKeys(before, after) == missing
    ensures |Rows(after, k, s)| == |OldRows(before, after, k, s)| + (if s.Pending? && k in missing then 1 else 0)
  {
    OneNewRow(before, after, k);
    forall id | id in NewIds(before, after) ensures after[id].status.Pending? {
      assert NewJobGood(id, after[id], missing, events);
    }
    RowsOldAndNew(before, after, k, s);
  }

  lemma RowsOldAndNew(before: Jobs, after: Jobs, k: string, s: JobStatus)
    requires before.Keys <= after.Keys && forall id :: id in NewIds(before, after) ==> after[id].status.Pending?
    ensures |Rows(after, k, s)| ==
            |OldRows(before, after, k, s)| + (if s.Pending? then |NewRows(before, after, k)| else 0)
  {
    if s.Pending? {
      assert Rows(after, k, s) == OldRows(before, after, k, s) + NewRows(before, after, k);
      assert OldRows(before, after, k, s) !! NewRows(before, after, k);
    } else {
      forall id | id in Rows(after, k, s) ensures id in before {
        assert id in before || id in NewIds(before, after);
      }
      assert Rows(after, k, s) == OldRows(before, after, k, s);
    }
  }

  /** A row that was there ends in the same status whichever complete run it was. */
  lemma OldRowDetermined(t: Tables, cfg: Config, target: set<string>, missing: set<string>, f: Tables, id: Id)
    requires CompleteFor(t, cfg, target, missing, f) && id in t.jobs
    ensures f.jobs[id].mediaKey == t.jobs[id].mediaKey
    ensures f.jobs[id].status ==
              if cfg.exclusive && !cfg.dryRun && target != {} && id != NIL
                 && Cancelable(t.jobs[id].status) && t.jobs[id].mediaKey !in target
              then Canceled else t.jobs[id].status
  {
    assert OldJobKept(id, t.jobs[id], target, cfg.exclusive && !cfg.dryRun && target != {}, f.jobs[id]);
  }

  lemma AllMissingQueued(t: Tables, cfg: Config, target: set<string>, missing: set<string>, f: Tables)
    requires CompleteFor(t, cfg, target, missing, f) && cfg.limit <= 0 && !cfg.dryRun
    ensures NewKeys(t.jobs, f.jobs) == missing
  {
    NewKeysMissing(t.jobs, target, missing, cfg.exclusive && !cfg.dryRun && target != {}, f.events, f.jobs);
    SubsetCardinality(NewKeys(t.jobs, f.jobs), missing);
  }

  /** Complete unlimited runs from the same tables end with the same queue, whatever row
      orders, ids, times and chunk sizes each of them saw. */
  lemma OutcomesAgree(t: Tables, cfg: Config, f: Tables, g: Tables)
    requires cfg.limit <= 0 && Complete(t, cfg, f) && Complete(t, cfg, g)
    ensures SameQueue(f.jobs, g.jobs)
  {
    if !cfg.dryRun {
      QueuesAgree(t, cfg, Target(t, cfg), Missing(t, cfg), f, g);
    }
  }

  lemma QueuesAgree(t: Tables, cfg: Config, target: set<string>, missing: set<string>, f: Tables, g: Tables)
    requires cfg.limit <= 0 && !cfg.dryRun
    requires CompleteFor(t, cfg, target, missing, f) && CompleteFor(t, cfg, target, missing, g)
    ensures SameQueue(f.jobs, g.jobs)
  {
    var cancels := cfg.exclusive && target != {};
    AllMissingQueued(t, cfg, target, missing, f);
    AllMissingQueued(t, cfg, target, missing, g);
    forall k, s ensures |Rows(f.jobs, k, s)| == |Rows(g.jobs, k, s)| {
      RowsSplit(t.jobs, target, missing, cancels, f.events, f.jobs, k, s);
      RowsSplit(t.jobs, target, missing, cancels, g.events, g.jobs, k, s);
      forall id | id in t.jobs ensures id in OldRows(t.jobs, f.jobs, k, s) <==> id in OldRows(t.jobs, g.jobs, k, s) {
        OldRowDetermined(t, cfg, target, missing, f, id);
        OldRowDetermined(t, cfg, target, missing, g, id);
      }
      assert OldRows(t.jobs, f.jobs, k, s) == OldRows(t.jobs, g.jobs, k, s);
    }
  }

  /** Crash and rerun against the uninterrupted run: the same multiset of (media_key,
      status), and no key enqueued twice. */
  lemma CrashIsInvisible(ts: seq<Tables>, cfg: Config, f: Tables, g: Tables)
    requires cfg.limit <= 0 && StoppedRuns(ts, cfg)
    requires Complete(ts[|ts| - 1], cfg, f) && Complete(ts[0], cfg, g)
    ensures SameQueue(f.jobs, g.jobs)
    ensures forall k :: |NewRows(ts[0].jobs, f.jobs, k)| <= 1
  {
    CrashesThenRerun(ts, cfg, f);
    OutcomesAgree(ts[0], cfg, f, g);
    forall k ensures |NewRows(ts[0].jobs, f.jobs, k)| <= 1 {
      OneNewRow(ts[0].jobs, f.jobs, k);
    }
  }

  /** Running `warm` again straight after an unlimited run changes no row of any table. */
  lemma RerunIsNoOp(t: Tables, cfg: Config, f: Tables, g: Tables)
    requires cfg.limit <= 0 && Complete(t, cfg, f) && Complete(f, cfg, g)
    ensures g == f
  {
    var target := Target(t, cfg);
    TargetStable(t, cfg, f);
    MissingShrinks(t, cfg, f);
    forall k ensures Linkable(f.jobs, k) <==> Linkable(t.jobs, k) {
      LinkableStable(t, cfg, target, Missing(t, cfg), f, k);
    }
    SecondRepairIdle(t, f, g);
    NothingNew(f, cfg, target, Missing(f, cfg), g);
    JobsSettled(t, cfg, target, Missing(t, cfg), f, Missing(f, cfg), g);
  }

  /** Everything cancelable outside the targets went the first time. */
  lemma JobsSettled(t: Tables, cfg: Config, target: set<string>, missing: set<string>, f: Tables,
                    missing': set<string>, g: Tables)
    requires CompleteFor(t, cfg, target, missing, f) && missing <= target
    requires ProgressFor(f, cfg, target, missing', g) && g.jobs.Keys == f.jobs.Keys
    ensures g.jobs == f.jobs
  {
    forall id | id in f.jobs ensures g.jobs[id] == f.jobs[id] {
      assert OldJobKept(id, f.jobs[id], target, cfg.exclusive && !cfg.dryRun && target != {}, g.jobs[id]);
      if id in t.jobs {
        OldRowDetermined(t, cfg, target, missing, f, id);
      } else {
        assert id in NewIds(t.jobs, f.jobs);
        assert NewJobGood(id, f.jobs[id], missing, f.events);
      }
    }
  }

  lemma SecondRepairIdle(t: Tables, f: Tables, g: Tables)
    requires Repaired(t.media, t.jobs, f.media) && Repaired(f.media, f.jobs, g.media)
    requires forall k :: Linkable(f.jobs, k) <==> Linkable(t.jobs, k)
    ensures g.media == f.media
  {
    forall k | k in t.media ensures g.media[k] == f.media[k] {
      assert RepairedRow(k, t.media[k], t.jobs, f.media[k]) && RepairedRow(k, f.media[k], f.jobs, g.media[k]);
    }
  }

  lemma NothingNew(f: Tables, cfg: Config, target: set<string>, missing: set<string>, g: Tables)
    requires CompleteFor(f, cfg, target, missing, g) && (missing == {} || cfg.dryRun)
    ensures g.jobs.Keys == f.jobs.Keys && g.events == f.events
  {
    assert NewIds(f.jobs, g.jobs) == {};
    forall id | id in g.jobs ensures id in f.jobs {
      assert id in f.jobs || id in NewIds(f.jobs, g.jobs);
    }
  }
}
