/** Which media end up queued and which jobs --exclusive cancels: each as an exact
    condition on the tables before the run. */
module WarmCoverage {
  import opened Collections
  import opened Tables
  import opened WarmSpec
  import opened WarmTheorems

  predicate ActiveStatus(s: JobStatus) {
    s.Pending? || s.Retrying? || s.InProgress?
  }

  predicate Active(jobs: Jobs, k: string) {
    exists id :: id in jobs && jobs[id].mediaKey == k && ActiveStatus(jobs[id].status)
  }

  predicate HasSucceeded(jobs: Jobs, k: string) {
    exists id :: id in jobs && jobs[id].mediaKey == k && jobs[id].status.Succeeded?
  }

  /** A key whose only blocking jobs succeeded. For an unattached key without a
      downloaded job that means: succeeded, but with no attachment recorded. */
  predicate Stuck(jobs: Jobs, k: string) {
    HasSucceeded(jobs, k) && !Active(jobs, k)
  }

  /** Every succeeded job says where its binary is. */
  predicate SucceededCarryAttachment(jobs: Jobs) {
    forall id :: id in jobs && jobs[id].status.Succeeded? ==> jobs[id].attachmentId.Some?
  }

  lemma BlockedIsActiveOrSucceeded(jobs: Jobs, k: string)
    ensures Blocked(jobs, k) <==> Active(jobs, k) || HasSucceeded(jobs, k)
  {
    if Blocked(jobs, k) {
      var id :| id in jobs && jobs[id].mediaKey == k && Blocking(jobs[id].status);
      assert ActiveStatus(jobs[id].status) || jobs[id].status.Succeeded?;
    }
    if Active(jobs, k) {
      var id :| id in jobs && jobs[id].mediaKey == k && ActiveStatus(jobs[id].status);
      assert Blocking(jobs[id].status);
    }
  }

  lemma ActiveAfter(before: Jobs, target: set<string>, missing: set<string>, cancels: bool,
                    events: map<Id, Event>, after: Jobs, k: string)
    requires JobsProgress(before, target, missing, cancels, events, after) && k in target
    ensures Active(after, k) <==> Active(before, k) || k in NewKeys(before, after)
  {
    if Active(before, k) {
      var id :| id in before && before[id].mediaKey == k && ActiveStatus(before[id].status);
      assert OldJobKept(id, before[id], target, cancels, after[id]);
      assert id in after && after[id].mediaKey == k && ActiveStatus(after[id].status);
    }
    if k in NewKeys(before, after) {
      var id :| id in NewIds(before, after) && after[id].mediaKey == k;
      assert NewJobGood(id, after[id], missing, events);
      assert id in after && after[id].mediaKey == k && ActiveStatus(after[id].status);
    }
    if Active(after, k) {
      var id :| id in after && after[id].mediaKey == k && ActiveStatus(after[id].status);
      if id in before {
        assert OldJobKept(id, before[id], target, cancels, after[id]);
        assert id in before && before[id].mediaKey == k && ActiveStatus(before[id].status);
      } else {
        assert id in NewIds(before, after);
      }
    }
  }

  /** After an unlimited run a target has a live job unless it was stuck. */
  lemma TargetCovered(t: Tables, cfg: Config, f: Tables, k: string)
    requires Complete(t, cfg, f) && cfg.limit <= 0 && !cfg.dryRun && k in Target(t, cfg)
    ensures Active(f.jobs, k) <==> !Stuck(t.jobs, k)
  {
    var target, missing := Target(t, cfg), Missing(t, cfg);
    AllMissingQueued(t, cfg, target, missing, f);
    ActiveAfter(t.jobs, target, missing, cfg.exclusive && !cfg.dryRun && target != {}, f.events, f.jobs, k);
    BlockedIsActiveOrSucceeded(t.jobs, k);
  }

  /** Whole-run coverage: every selected media without an attachment has a pending,
      retrying or in_progress job, exactly when none of them was stuck. */
  lemma CoverageExact(t: Tables, cfg: Config, f: Tables)
    requires Complete(t, cfg, f) && cfg.limit <= 0 && !cfg.dryRun
    ensures (forall k :: k in Target(t, cfg) ==> Active(f.jobs, k)) <==>
            (forall k :: k in Target(t, cfg) ==> !Stuck(t.jobs, k))
    ensures SucceededCarryAttachment(t.jobs) ==> forall k :: k in Target(t, cfg) ==> Active(f.jobs, k)
  {
    forall k | k in Target(t, cfg) ensures Active(f.jobs, k) <==> !Stuck(t.jobs, k) {
      TargetCovered(t, cfg, f, k);
    }
    if SucceededCarryAttachment(t.jobs) {
      forall k | k in Target(t, cfg) ensures !HasSucceeded(t.jobs, k) {
        assert !Linkable(t.jobs, k);
        forall id | id in t.jobs && t.jobs[id].mediaKey == k ensures !t.jobs[id].status.Succeeded? {
          assert !Downloaded(t.jobs[id], k);
        }
      }
    }
  }

  /** A job is canceled by an exclusive run iff it was pending or retrying for a media
      that is not a target, and there was any target at all. */
  lemma CanceledExactly(t: Tables, cfg: Config, f: Tables, id: Id)
    requires Complete(t, cfg, f) && cfg.exclusive && !cfg.dryRun
    requires id in t.jobs && !t.jobs[id].status.Canceled?
    ensures f.jobs[id].status.Canceled? <==>
            && id != NIL && (t.jobs[id].status.Pending? || t.jobs[id].status.Retrying?)
            && t.jobs[id].mediaKey !in Target(t, cfg) && Target(t, cfg) != {}
    ensures f.jobs[id].status.Canceled? ==> CanceledFrom(t.jobs[id], f.jobs[id])
    ensures !f.jobs[id].status.Canceled? ==> f.jobs[id] == t.jobs[id]
  {
    OldRowDetermined(t, cfg, Target(t, cfg), Missing(t, cfg), f, id);
    assert OldJobKept(id, t.jobs[id], Target(t, cfg), Target(t, cfg) != {}, f.jobs[id]);
  }

  /** Jobs still queued for media outside the selection. */
  function Strays(jobs: Jobs, target: set<string>): set<Id> {
    set id | id in jobs && (jobs[id].status.Pending? || jobs[id].status.Retrying?) && jobs[id].mediaKey !in target
  }

  lemma StraysLeft(t: Tables, cfg: Config, target: set<string>, missing: set<string>, f: Tables)
    requires CompleteFor(t, cfg, target, missing, f) && cfg.exclusive && !cfg.dryRun && missing <= target
    ensures Strays(f.jobs, target) == set id | id in Strays(t.jobs, target) && (target == {} || id == NIL)
  {
    forall id | id in t.jobs
      ensures id in Strays(f.jobs, target) <==> id in Strays(t.jobs, target) && (target == {} || id == NIL)
    {
      OldRowDetermined(t, cfg, target, missing, f, id);
    }
    forall id | id in f.jobs && id !in t.jobs ensures id !in Strays(f.jobs, target) {
      assert id in NewIds(t.jobs, f.jobs);
    }
  }

  /** "--exclusive leaves only the selected media in the queue" holds exactly when the
      selection was not empty or the queue was: with an empty selection the run returns
      before the cancel. (The cursor cannot reach a job at uuid.Nil; no generated id is.) */
  lemma ExclusiveExact(t: Tables, cfg: Config, f: Tables)
    requires Complete(t, cfg, f) && cfg.exclusive && !cfg.dryRun
    ensures Strays(f.jobs, Target(t, cfg)) == {} <==>
            (Target(t, cfg) != {} && NIL !in Strays(t.jobs, Target(t, cfg))) || Strays(t.jobs, {}) == {}
  {
    StraysLeft(t, cfg, Target(t, cfg), Missing(t, cfg), f);
    ExclusiveExactFor(t.jobs, Target(t, cfg), f.jobs);
  }

  lemma ExclusiveExactFor(before: Jobs, target: set<string>, after: Jobs)
    requires Strays(after, target) == set id | id in Strays(before, target) && (target == {} || id == NIL)
    ensures Strays(after, target) == {} <==>
            (target != {} && NIL !in Strays(before, target)) || Strays(before, {}) == {}
  {
    if target == {} {
      assert Strays(after, target) == Strays(before, {});
    } else if NIL in Strays(before, target) {
      assert NIL in Strays(after, target) && NIL in Strays(before, {});
    }
  }

  /** Media of a property listing with a status, and that is one of those given with
      --status, or Active or ActiveUnderContract when none was. */
  predicate OnMarket(t: Tables, cfg: Config, k: string) {
    && k in t.media && t.media[k].owner.PropertyMedia? && t.media[k].recordKey in t.listings
    && match t.listings[t.media[k].recordKey]
       case None => false
       case Some(s) => if cfg.statuses == [] then s == "Active" || s == "ActiveUnderContract" else s in cfg.statuses
  }

  /** A run is about exactly the media on the market that have no attachment and no
      succeeded job to take one from. */
  lemma SelectedExactly(t: Tables, cfg: Config, k: string)
    ensures k in Target(t, cfg) <==>
            && OnMarket(t, cfg, k) && t.media[k].attachmentId.None?
            && !exists id :: id in t.jobs && t.jobs[id].mediaKey == k && t.jobs[id].status.Succeeded?
                             && t.jobs[id].attachmentId.Some?
  {
    assert DEFAULT_STATUSES[0] == "Active" && DEFAULT_STATUSES[1] == "ActiveUnderContract";
    assert forall s :: s in DEFAULT_STATUSES <==> s == "Active" || s == "ActiveUnderContract";
    LinkableExactly(t.jobs, k);
  }

  lemma LinkableExactly(jobs: Jobs, k: string)
    ensures Linkable(jobs, k) <==>
            exists id :: id in jobs && jobs[id].mediaKey == k && jobs[id].status.Succeeded?
                         && jobs[id].attachmentId.Some?
  {
    forall id | id in jobs
      ensures Downloaded(jobs[id], k) <==>
              jobs[id].mediaKey == k && jobs[id].status.Succeeded? && jobs[id].attachmentId.Some?
    {
    }
  }

  /** What a complete unlimited run queues, in terms of the tables before it: one new
      pending job for every selected media that has no pending, retrying, in_progress or
      succeeded job, under a running media backfill; and no other job. */
  lemma QueuedExactly(t: Tables, cfg: Config, f: Tables, k: string)
    requires Complete(t, cfg, f) && cfg.limit <= 0 && !cfg.dryRun
    ensures |NewRows(t.jobs, f.jobs, k)| ==
            if k in Target(t, cfg) && !Active(t.jobs, k) && !HasSucceeded(t.jobs, k) then 1 else 0
    ensures forall id :: id in NewRows(t.jobs, f.jobs, k) ==>
              && f.jobs[id].status.Pending? && f.jobs[id].attachmentId.None? && f.jobs[id].eventId in f.events
              && var e := f.events[f.jobs[id].eventId];
                 e.resource == "media" && e.runType == "backfill" && e.status == "running"
  {
    var target, missing := Target(t, cfg), Missing(t, cfg);
    AllMissingQueued(t, cfg, target, missing, f);
    OneNewRow(t.jobs, f.jobs, k);
    BlockedIsActiveOrSucceeded(t.jobs, k);
    forall id | id in NewRows(t.jobs, f.jobs, k) ensures NewJobGood(id, f.jobs[id], missing, f.events) {
      assert id in NewIds(t.jobs, f.jobs);
    }
  }

  /** --exclusive is described as canceling jobs outside the selected statuses. A pending
      job of a listing inside them is canceled too, exactly when its media already has an
      attachment or the link repair found it one. */
  lemma OnMarketCanceledExactly(t: Tables, cfg: Config, f: Tables, id: Id)
    requires Complete(t, cfg, f) && cfg.exclusive && !cfg.dryRun && Target(t, cfg) != {}
    requires id in t.jobs && (t.jobs[id].status.Pending? || t.jobs[id].status.Retrying?)
    requires OnMarket(t, cfg, t.jobs[id].mediaKey)
    ensures f.jobs[id].status.Canceled? <==>
            id != NIL && (t.media[t.jobs[id].mediaKey].attachmentId.Some? || Linkable(t.jobs, t.jobs[id].mediaKey))
  {
    CanceledExactly(t, cfg, f, id);
    SelectedExactly(t, cfg, t.jobs[id].mediaKey);
    LinkableExactly(t.jobs, t.jobs[id].mediaKey);
  }

  /** "Canceling is recoverable": a key with no blocking job is queued by the next
      unlimited run exactly when it is a target then. */
  lemma RequeuedExactly(t: Tables, cfg: Config, f: Tables, k: string)
    requires Complete(t, cfg, f) && cfg.limit <= 0 && !cfg.dryRun
    requires !Active(t.jobs, k) && !HasSucceeded(t.jobs, k)
    ensures k in NewKeys(t.jobs, f.jobs) <==> OnMarket(t, cfg, k) && t.media[k].attachmentId.None?
  {
    AllMissingQueued(t, cfg, Target(t, cfg), Missing(t, cfg), f);
    BlockedIsActiveOrSucceeded(t.jobs, k);
    SelectedExactly(t, cfg, k);
  }

  lemma AttachedNeverQueued(t: Tables, cfg: Config, t': Tables, k: string)
    requires Progress(t, cfg, t') && k in t.media && t.media[k].attachmentId.Some?
    ensures k !in NewKeys(t.jobs, t'.jobs)
    ensures k in t'.media && t'.media[k] == t.media[k]
  {
    NewKeysMissing(t.jobs, Target(t, cfg), Missing(t, cfg),
                   cfg.exclusive && !cfg.dryRun && Target(t, cfg) != {}, t'.events, t'.jobs);
    if t'.media != t.media { assert RepairedRow(k, t.media[k], t.jobs, t'.media[k]); }
  }

  /** Runs one after another, each stopped anywhere and each with its own flags. */
  ghost predicate LaterRuns(ts: seq<Tables>, cfgs: seq<Config>) {
    |ts| == |cfgs| + 1 && forall i :: 0 <= i < |cfgs| ==> Progress(ts[i], cfgs[i], ts[i + 1])
  }

  lemma AttachedStaysFree(t: Tables, cfg: Config, t': Tables, k: string)
    requires Progress(t, cfg, t') && k in t.media && t.media[k].attachmentId.Some? && !Blocked(t.jobs, k)
    ensures !Blocked(t'.jobs, k)
  {
    var target := Target(t, cfg);
    AttachedNeverQueued(t, cfg, t', k);
    forall id | id in t'.jobs && t'.jobs[id].mediaKey == k ensures !Blocking(t'.jobs[id].status) {
      NewRowKey(t.jobs, t'.jobs, id);
      assert OldJobKept(id, t.jobs[id], target, cfg.exclusive && !cfg.dryRun && target != {}, t'.jobs[id]);
      assert t.jobs[id].mediaKey == k;
    }
  }

  /** A media that has an attachment and no blocking job gets no job from any later run,
      however many there are and whatever their flags. */
  lemma {:induction false} AttachedNeverQueuedLater(ts: seq<Tables>, cfgs: seq<Config>, k: string, i: nat)
    requires LaterRuns(ts, cfgs) && i < |ts|
    requires k in ts[0].media && ts[0].media[k].attachmentId.Some? && !Blocked(ts[0].jobs, k)
    ensures k in ts[i].media && ts[i].media[k] == ts[0].media[k] && !Blocked(ts[i].jobs, k)
    ensures i < |cfgs| ==> k !in NewKeys(ts[i].jobs, ts[i + 1].jobs)
  {
    if i == 0 {
    } else {
      AttachedNeverQueuedLater(ts, cfgs, k, i - 1);
      assert Progress(ts[i - 1], cfgs[i - 1], ts[i - 1 + 1]);
      AttachedNeverQueued(ts[i - 1], cfgs[i - 1], ts[i], k);
      AttachedStaysFree(ts[i - 1], cfgs[i - 1], ts[i], k);
    }
    if i < |cfgs| { AttachedNeverQueued(ts[i], cfgs[i], ts[i + 1], k); }
  }

  /** "--dry-run writes nothing" holds of the queue and its events; the media table is left
      alone exactly when the link repair, which comes first, has nothing to link. */
  lemma DryRunWritesLinks(t: Tables, cfg: Config, f: Tables)
    requires Complete(t, cfg, f) && cfg.dryRun
    ensures f.jobs == t.jobs && f.events == t.events
    ensures f.media == t.media <==>
            forall k :: k in t.media && t.media[k].attachmentId.None? ==> !Linkable(t.jobs, k)
  {
    forall k | k in t.media
      ensures f.media[k] == t.media[k] <==> t.media[k].attachmentId.Some? || !Linkable(t.jobs, k)
    {
      assert RepairedRow(k, t.media[k], t.jobs, f.media[k]);
    }
    if forall k :: k in t.media && t.media[k].attachmentId.None? ==> !Linkable(t.jobs, k) {
      assert f.media == t.media;
    }
  }

  /** Events a run leaves: the old ones as they were, ended ones included; and at most a new
      running media backfill, opened only if none was running. */
  lemma EventsExactly(t: Tables, cfg: Config, t': Tables, e: Id)
    requires Progress(t, cfg, t') && e in t'.events
    ensures e in t.events ==> t'.events[e] == t.events[e]
    ensures e !in t.events ==>
              && t'.events[e] == Event("media", "backfill", "running", "warm")
              && t'.events.Keys == t.events.Keys + {e}
              && !exists o :: o in t.events && t.events[o].resource == "media" && t.events[o].runType == "backfill"
                              && t.events[o].status == "running"
  {
    if o :| o in t.events && t.events[o].resource == "media" && t.events[o].runType == "backfill"
            && t.events[o].status == "running" {
      assert RunningBackfill(t.events[o]);
    }
  }

  // ---- how a key gets stuck ----------------------------------------------------------

  /** Deleting an attachment row: both foreign keys to it are ON DELETE SET NULL. */
  function DeleteAttachment(t: Tables, a: Id): Tables {
    t.(media := map k | k in t.media ::
                  if t.media[k].attachmentId == Some(a) then t.media[k].(attachmentId := None) else t.media[k],
       jobs := map id | id in t.jobs ::
                 if t.jobs[id].attachmentId == Some(a) then t.jobs[id].(attachmentId := None) else t.jobs[id])
  }

  lemma DeletionKeepsStatuses(t: Tables, a: Id, k: string)
    ensures Active(DeleteAttachment(t, a).jobs, k) <==> Active(t.jobs, k)
    ensures HasSucceeded(DeleteAttachment(t, a).jobs, k) <==> HasSucceeded(t.jobs, k)
  {
    var jobs := DeleteAttachment(t, a).jobs;
    assert forall id :: id in jobs <==> id in t.jobs;
    assert forall id :: id in jobs ==> jobs[id].mediaKey == t.jobs[id].mediaKey && jobs[id].status == t.jobs[id].status;
    if Active(t.jobs, k) {
      var id :| id in t.jobs && t.jobs[id].mediaKey == k && ActiveStatus(t.jobs[id].status);
      assert id in jobs;
    }
    if HasSucceeded(t.jobs, k) {
      var id :| id in t.jobs && t.jobs[id].mediaKey == k && t.jobs[id].status.Succeeded?;
      assert id in jobs;
    }
  }

  /** Every download of this media is this attachment. */
  predicate OnlyDownload(jobs: Jobs, k: string, a: Id) {
    forall id :: id in jobs && Downloaded(jobs[id], k) ==> jobs[id].attachmentId == Some(a)
  }

  lemma DeletionUnlinks(t: Tables, a: Id, k: string)
    ensures Linkable(DeleteAttachment(t, a).jobs, k) <==> !OnlyDownload(t.jobs, k, a)
  {
    if id :| id in t.jobs && Downloaded(t.jobs[id], k) && t.jobs[id].attachmentId != Some(a) {
      assert id in DeleteAttachment(t, a).jobs && Downloaded(DeleteAttachment(t, a).jobs[id], k);
    }
  }

  /** Deleting the attachment of a downloaded media on the market leaves it without a
      binary after the next unlimited run, unless another succeeded job still has an
      attachment for it; and then the run gives it a live job iff it already had one. */
  lemma DeletionSticks(t: Tables, a: Id, cfg: Config, f: Tables, k: string)
    requires OnMarket(t, cfg, k) && t.media[k].attachmentId == Some(a) && HasSucceeded(t.jobs, k)
    requires Complete(DeleteAttachment(t, a), cfg, f) && cfg.limit <= 0 && !cfg.dryRun
    ensures f.media[k].attachmentId.None? <==> OnlyDownload(t.jobs, k, a)
    ensures OnlyDownload(t.jobs, k, a) ==> (Active(f.jobs, k) <==> Active(t.jobs, k))
  {
    var d := DeleteAttachment(t, a);
    assert RepairedRow(k, d.media[k], d.jobs, f.media[k]);
    DeletionUnlinks(t, a, k);
    if f.media[k].attachmentId.None? {
      TargetCovered(d, cfg, f, k);
      DeletionKeepsStatuses(t, a, k);
    }
  }

  // ---- limited runs ----------------------------------------------------------------

  /** A sequence of runs with one configuration, each returning nil. */
  ghost predicate CompleteRuns(ts: seq<Tables>, cfg: Config) {
    |ts| > 0 && forall i :: 0 <= i < |ts| - 1 ==> Complete(ts[i], cfg, ts[i + 1])
  }

  lemma QuotaUsed(t: Tables, cfg: Config, f: Tables)
    requires Complete(t, cfg, f) && cfg.limit > 0 && !cfg.dryRun
    ensures Progress(t, cfg, f)
    ensures |NewIds(t.jobs, f.jobs)| == Min(cfg.limit, |Missing(t, cfg)|)
  {
  }

  lemma LimitedStep(t: Tables, cfg: Config, m: Tables, f: Tables, k: nat)
    requires cfg.limit > 0 && !cfg.dryRun
    requires Progress(t, cfg, m) && |NewIds(t.jobs, m.jobs)| == Min(k * cfg.limit, |Missing(t, cfg)|)
    requires Progress(m, cfg, f) && |NewIds(m.jobs, f.jobs)| == Min(cfg.limit, |Missing(m, cfg)|)
    ensures Progress(t, cfg, f)
    ensures |NewIds(t.jobs, f.jobs)| == Min((k + 1) * cfg.limit, |Missing(t, cfg)|)
  {
    MissingShrinks(t, cfg, m);
    ProgressComposes(t, cfg, m, f);
    MinStep(k, cfg.limit, |Missing(t, cfg)|);
  }

  lemma MinStep(k: nat, l: Positive, n: nat)
    ensures var a := Min(k * l, n); a + Min(l, n - a) == Min((k + 1) * l, n)
  {
    assert (k + 1) * l == k * l + l;
  }

  /** The first k runs with --limit L queue exactly min(k * L, n) of the n missing keys. */
  lemma {:induction false} LimitedRunsCount(ts: seq<Tables>, cfg: Config, k: nat)
    requires CompleteRuns(ts, cfg) && cfg.limit > 0 && !cfg.dryRun && k < |ts|
    ensures Progress(ts[0], cfg, ts[k])
    ensures |NewIds(ts[0].jobs, ts[k].jobs)| == Min(k * cfg.limit, |Missing(ts[0], cfg)|)
  {
    if k == 0 {
      ProgressReflexive(ts[0], cfg);
    } else {
      LimitedRunsCount(ts, cfg, k - 1);
      assert Complete(ts[k - 1], cfg, ts[k - 1 + 1]);
      QuotaUsed(ts[k - 1], cfg, ts[k]);
      LimitedStep(ts[0], cfg, ts[k - 1], ts[k], k - 1);
    }
  }

  /** So the missing keys are all queued after exactly ceil(n / L) runs. */
  lemma LimitedRunsConverge(ts: seq<Tables>, cfg: Config, k: nat)
    requires CompleteRuns(ts, cfg) && cfg.limit > 0 && !cfg.dryRun && k < |ts|
    ensures Missing(ts[k], cfg) == {} <==> k >= CeilDiv(|Missing(ts[0], cfg)|, cfg.limit)
  {
    LimitedRunsCount(ts, cfg, k);
    MissingShrinks(ts[0], cfg, ts[k]);
    CeilDivCovers(|Missing(ts[0], cfg)|, cfg.limit, k);
  }

  lemma CeilDivCovers(n: nat, l: Positive, k: nat)
    ensures k * l >= n <==> k >= CeilDiv(n, l)
  {
    var q := CeilDiv(n, l);
    CeilDivBounds(n, l);
    if k >= q { MulMonotone(q, k, l); } else { MulMonotone(k, q - 1, l); }
  }

  lemma CeilDivBounds(n: nat, l: Positive)
    ensures CeilDiv(n, l) * l >= n
    ensures CeilDiv(n, l) > 0 ==> (CeilDiv(n, l) - 1) * l < n
  {
    var q := (n + l - 1) / l;
    assert n + l - 1 == q * l + (n + l - 1) % l;
    assert (q - 1) * l == q * l - l;
  }
}
