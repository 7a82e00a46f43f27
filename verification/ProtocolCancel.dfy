/** The cancel loop while workers claim, finish and reap jobs between its statements. */
module ProtocolCancel {
  import opened Collections
  import opened Tables
  import opened Paging
  import opened WarmProtocol
  import opened ProtocolSafety

  predicate Waiting(j: Job) {
    j.status.Pending? || j.status.Retrying?
  }

  // ---- which rows a run writes -----------------------------------------------------

  /** A run writes an existing row only to cancel it, only in the update of a page, and
      only if the scan found it pending or retrying for a key it does not keep. */
  lemma WarmWritesOnlyDoomed(b: seq<Sys>, who: seq<Actor>, n: Positive, i: nat, id: Id)
    requires History(b, who, n) && b[0].phase.Idle? && i < |who| && who[i].WarmCommand?
    requires id in b[i].t.jobs
    ensures id in b[i + 1].t.jobs
    ensures b[i + 1].t.jobs[id] != b[i].t.jobs[id] ==>
              && b[i].phase.Updating? && id in b[i].phase.ids && id in b[i].phase.seen
              && Waiting(b[i].phase.seen[id]) && b[i].t.jobs[id].mediaKey !in b[i].phase.keep
              && CanceledFrom(b[i].t.jobs[id], b[i + 1].t.jobs[id])
  {
    PhaseInvAlways(b, who, n, i);
    assert Next(who[i], b[i], b[i + 1], n);
    WarmWrites(b[i], b[i + 1], n, id);
  }

  lemma WarmWrites(s: Sys, s': Sys, n: Positive, id: Id)
    requires WarmStep(s, s', n) && PhaseInv(s) && id in s.t.jobs
    ensures id in s'.t.jobs
    ensures s'.t.jobs[id] != s.t.jobs[id] ==>
              && s.phase.Updating? && id in s.phase.ids && id in s.phase.seen
              && Waiting(s.phase.seen[id]) && s.t.jobs[id].mediaKey !in s.phase.keep
              && CanceledFrom(s.t.jobs[id], s'.t.jobs[id])
  {
    match s.phase
    case Updating(_, _, _, _) =>
    case _ =>
  }

  // ---- live workers' jobs ------------------------------------------------------------

  lemma EnteredByScan(who: Actor, s: Sys, s': Sys, n: Positive)
    requires Next(who, s, s', n) && s'.phase.Updating? && !who.Worker?
    ensures who.WarmCommand? && s.phase.Scanning? && s'.t.jobs == s'.phase.seen
  {
    match s.phase
    case Selecting(_, _, _) =>
    case Checking(_, _, _, _) =>
    case _ =>
  }

  /** The step took a pending or retrying job into work. */
  predicate TookJob(s: Sys, s': Sys, id: Id) {
    && id in s.t.jobs && Waiting(s.t.jobs[id])
    && id in s'.t.jobs && s'.t.jobs[id].status.InProgress?
  }

  /** States j to i lie between one scan and its update. */
  ghost predicate SamePage(b: seq<Sys>, j: nat, i: nat)
    requires j <= i < |b|
  {
    forall k :: j <= k <= i ==> b[k].phase.Updating?
  }

  /** Since the scan whose update is due in state i, some worker took the job. */
  ghost predicate ClaimedSinceScan(b: seq<Sys>, who: seq<Actor>, i: nat, id: Id)
    requires |b| == |who| + 1 && i < |b|
  {
    exists j :: 0 <= j < i && who[j].Worker? && SamePage(b, j, i) && TookJob(b[j], b[j + 1], id)
  }

  /** The job is not canceled, and if it is no longer pending or retrying a worker took it
      since the scan. */
  ghost predicate LiveIsClaimed(b: seq<Sys>, who: seq<Actor>, i: nat, id: Id)
    requires |b| == |who| + 1 && i < |b|
  {
    && id in b[i].t.jobs && !b[i].t.jobs[id].status.Canceled?
    && (Waiting(b[i].t.jobs[id]) || ClaimedSinceScan(b, who, i, id))
  }

  lemma WorkerClaims(b: seq<Sys>, who: seq<Actor>, i: nat, id: Id)
    requires |b| == |who| + 1 && 0 < i < |b| && who[i - 1].Worker? && WorkerStep(b[i - 1], b[i])
    requires b[i].phase.Updating? && LiveIsClaimed(b, who, i - 1, id)
    ensures LiveIsClaimed(b, who, i, id)
  {
    assert WorkerMove(b[i - 1].t.jobs[id], b[i].t.jobs[id]);
    if Waiting(b[i].t.jobs[id]) {
    } else if TookJob(b[i - 1], b[i], id) {
      assert SamePage(b, i - 1, i) && TookJob(b[i - 1], b[i - 1 + 1], id);
    } else {
      var j: nat :| j < i - 1 && who[j].Worker? && SamePage(b, j, i - 1) && TookJob(b[j], b[j + 1], id);
      assert SamePage(b, j, i);
    }
  }

  lemma {:induction false} ListedIsClaimed(b: seq<Sys>, who: seq<Actor>, n: Positive, i: nat, id: Id)
    requires History(b, who, n) && b[0].phase.Idle? && i < |b| && b[i].phase.Updating? && id in b[i].phase.ids
    ensures LiveIsClaimed(b, who, i, id)
  {
    hide LiveIsClaimed;
    if i == 0 {
      assert false;
    } else {
      assert Next(who[i - 1], b[i - 1], b[i - 1 + 1], n);
      if who[i - 1].Worker? {
        ListedIsClaimed(b, who, n, i - 1, id);
        WorkerClaims(b, who, i, id);
      } else {
        EnteredByScan(who[i - 1], b[i - 1], b[i], n);
        PhaseInvAlways(b, who, n, i);
        ScannedIsLive(b, who, i, id);
      }
    }
  }

  lemma ScannedIsLive(b: seq<Sys>, who: seq<Actor>, i: nat, id: Id)
    requires |b| == |who| + 1 && i < |b| && PhaseInv(b[i])
    requires b[i].phase.Updating? && id in b[i].phase.ids && b[i].t.jobs == b[i].phase.seen
    ensures LiveIsClaimed(b, who, i, id)
  {
  }

  /** Exactly when a run writes a job that is not pending or retrying at that moment: in
      the update of a page that lists it, when a worker took it since that page's scan. */
  lemma LiveJobHitExactly(b: seq<Sys>, who: seq<Actor>, n: Positive, i: nat, id: Id)
    requires History(b, who, n) && b[0].phase.Idle?
    requires i < |who| && who[i].WarmCommand? && id in b[i].t.jobs
    requires !b[i].t.jobs[id].status.Pending? && !b[i].t.jobs[id].status.Retrying?
    ensures id in b[i + 1].t.jobs
    ensures b[i + 1].t.jobs[id] != b[i].t.jobs[id] <==>
            b[i].phase.Updating? && id in b[i].phase.ids && ClaimedSinceScan(b, who, i, id)
  {
    WarmWritesOnlyDoomed(b, who, n, i, id);
    if b[i].phase.Updating? && id in b[i].phase.ids {
      ListedIsClaimed(b, who, n, i, id);
      assert Next(who[i], b[i], b[i + 1], n);
      assert UpdateStep(b[i].t, b[i].phase, b[i + 1].t, b[i + 1].phase);
    }
  }

  /** No worker acts between the scan and the update of a page. */
  ghost predicate AtomicPages(b: seq<Sys>, who: seq<Actor>)
    requires |b| == |who| + 1
  {
    forall i :: 0 <= i < |who| && who[i].Worker? ==> !b[i].phase.Updating?
  }

  /** In particular, when pages are atomic no job is touched that is in_progress, succeeded or
      anything but pending or retrying. */
  lemma LiveJobsUntouched(b: seq<Sys>, who: seq<Actor>, n: Positive, i: nat, id: Id)
    requires History(b, who, n) && b[0].phase.Idle? && AtomicPages(b, who)
    requires i < |who| && who[i].WarmCommand? && id in b[i].t.jobs
    requires !b[i].t.jobs[id].status.Pending? && !b[i].t.jobs[id].status.Retrying?
    ensures id in b[i + 1].t.jobs && b[i + 1].t.jobs[id] == b[i].t.jobs[id]
  {
    LiveJobHitExactly(b, who, n, i, id);
  }

  /** Every state between a scan and its update can go on that way for any listed job: it
      is claimed, canceled under its worker, and then no worker move brings it back. */
  lemma ClaimInBetweenIsLost(s: Sys, id: Id, n: Positive) returns (claimed: Sys, updated: Sys)
    requires s.phase.Updating? && id in s.phase.ids && id in s.t.jobs && Waiting(s.t.jobs[id])
    ensures WorkerStep(s, claimed) && claimed.t.jobs[id].status.InProgress?
    ensures WarmStep(claimed, updated, n) && updated.t.jobs[id].status.Canceled?
    ensures forall later :: WorkerStep(updated, later) ==> later.t.jobs[id].status.Canceled?
  {
    claimed := Sys(s.t.(jobs := s.t.jobs[id := s.t.jobs[id].(status := InProgress)]), s.phase);
    updated := Sys(claimed.t.(jobs := MarkCanceled(claimed.t.jobs, s.phase.ids, 0)),
                   Scanning(s.phase.keep, s.phase.cursor));
    assert UpdateStep(claimed.t, claimed.phase, updated.t, updated.phase);
    forall later | WorkerStep(updated, later) ensures later.t.jobs[id].status.Canceled? {
      assert WorkerMove(updated.t.jobs[id], later.t.jobs[id]);
    }
  }

  // ---- every page is reached, every loop ends ---------------------------------------

  /** A cancel loop from its first scan to the scan that finds nothing. */
  ghost predicate CancelRun(b: seq<Sys>, who: seq<Actor>, n: Positive, keep: set<string>) {
    && History(b, who, n)
    && b[0].phase == Scanning(keep, NIL)
    && (forall i :: 0 <= i < |who| ==> !who[i].Crash?)
    && (forall i :: 0 <= i < |who| ==> !b[i].phase.Idle?)
  }

  ghost predicate Looping(p: Phase, keep: set<string>) {
    (p.Scanning? || p.Updating?) && p.keep == keep
  }

  lemma LoopStep(who: Actor, s: Sys, s': Sys, n: Positive, keep: set<string>)
    requires Next(who, s, s', n) && !who.Crash? && Looping(s.phase, keep)
    ensures s'.phase.Idle? || Looping(s'.phase, keep)
  {
  }

  lemma {:induction false} LoopingAlways(b: seq<Sys>, who: seq<Actor>, n: Positive, keep: set<string>, i: nat)
    requires CancelRun(b, who, n, keep) && i < |b|
    ensures b[i].phase.Idle? || Looping(b[i].phase, keep)
  {
    if i == 0 {
    } else {
      LoopingAlways(b, who, n, keep, i - 1);
      assert Next(who[i - 1], b[i - 1], b[i - 1 + 1], n);
      LoopStep(who[i - 1], b[i - 1], b[i], n, keep);
    }
  }

  /** A job the cursor has passed is canceled, or is about to be. */
  ghost predicate PassedIsDoomed(s: Sys, id: Id) {
    && id in s.t.jobs
    && match s.phase
       case Scanning(_, cursor) => id <= cursor ==> s.t.jobs[id].status.Canceled?
       case Updating(_, cursor, ids, _) => id <= cursor ==> s.t.jobs[id].status.Canceled? || id in ids
       case Idle => s.t.jobs[id].status.Canceled?
       case _ => true
  }

  /** The job is pending or retrying in every state where the loop is about to scan and
      the cursor has not passed it. */
  ghost predicate WaitsForCursor(s: Sys, id: Id) {
    s.phase.Scanning? && s.phase.cursor < id && id in s.t.jobs ==> Waiting(s.t.jobs[id])
  }

  lemma ScanReaches(s: Sys, s': Sys, n: Positive, keep: set<string>, id: Id)
    requires WarmStep(s, s', n) && s.phase.Scanning? && s.phase.keep == keep
    requires PassedIsDoomed(s, id) && WaitsForCursor(s, id) && s.t.jobs[id].mediaKey !in keep
    ensures PassedIsDoomed(s', id)
  {
    var cursor := s.phase.cursor;
    var page: seq<Id> :| && IsPage(page, CancelableAbove(s.t.jobs, cursor), n)
                && s'.phase == if |page| == 0 then Idle
                   else Updating(keep, page[|page| - 1], Doomed(s.t.jobs, page, keep), s.t.jobs);
    PageFull(page, CancelableAbove(s.t.jobs, cursor), n);
    if |page| == 0 {
      assert id !in Elems(page);
      assert id !in CancelableAbove(s.t.jobs, cursor);
    } else {
      PageIsPrefix(page, CancelableAbove(s.t.jobs, cursor), n);
      assert id > cursor ==> id in CancelableAbove(s.t.jobs, cursor);
    }
  }

  lemma DoomedStep(who: Actor, s: Sys, s': Sys, n: Positive, keep: set<string>, id: Id)
    requires Next(who, s, s', n) && !who.Crash? && Looping(s.phase, keep)
    requires PassedIsDoomed(s, id) && WaitsForCursor(s, id) && s.t.jobs[id].mediaKey !in keep
    ensures PassedIsDoomed(s', id) && s'.t.jobs[id].mediaKey == s.t.jobs[id].mediaKey
  {
    if who.Worker? {
      assert WorkerMove(s.t.jobs[id], s'.t.jobs[id]);
    } else if s.phase.Scanning? {
      ScanReaches(s, s', n, keep, id);
    }
  }

  lemma {:induction false} DoomedAlways(b: seq<Sys>, who: seq<Actor>, n: Positive, keep: set<string>, id: Id, i: nat)
    requires CancelRun(b, who, n, keep) && i < |b|
    requires id in b[0].t.jobs && id != NIL && b[0].t.jobs[id].mediaKey !in keep
    requires forall j :: 0 <= j < |b| ==> WaitsForCursor(b[j], id)
    ensures PassedIsDoomed(b[i], id) && b[i].t.jobs[id].mediaKey == b[0].t.jobs[id].mediaKey
  {
    if i == 0 {
    } else {
      DoomedAlways(b, who, n, keep, id, i - 1);
      LoopingAlways(b, who, n, keep, i - 1);
      assert Next(who[i - 1], b[i - 1], b[i - 1 + 1], n);
      DoomedStep(who[i - 1], b[i - 1], b[i], n, keep, id);
    }
  }

  /** Neither skipped nor lost: every job outside keep that stays pending or retrying
      until the cursor passes it is canceled when the loop ends, whatever workers do to
      the other jobs meanwhile. */
  lemma WaitingJobsAreCanceled(b: seq<Sys>, who: seq<Actor>, n: Positive, keep: set<string>, id: Id)
    requires CancelRun(b, who, n, keep) && b[|who|].phase.Idle?
    requires id in b[0].t.jobs && id != NIL && b[0].t.jobs[id].mediaKey !in keep
    requires forall j :: 0 <= j < |b| ==> WaitsForCursor(b[j], id)
    ensures id in b[|who|].t.jobs && b[|who|].t.jobs[id].status.Canceled?
  {
    DoomedAlways(b, who, n, keep, id, |who|);
  }

  function IdsAbove(jobs: Jobs, cursor: Id): set<Id> {
    set id | id in jobs && id > cursor
  }

  function WarmSteps(who: seq<Actor>): nat {
    if who == [] then 0
    else WarmSteps(who[..|who| - 1]) + if who[|who| - 1].WarmCommand? then 1 else 0
  }

  /** Statements the loop can still issue: workers cannot raise it. */
  ghost function Remaining(s: Sys): nat {
    match s.phase
    case Scanning(_, cursor) => 2 * |IdsAbove(s.t.jobs, cursor)| + 1
    case Updating(_, cursor, _, _) => 2 * |IdsAbove(s.t.jobs, cursor)| + 2
    case _ => 0
  }

  lemma ScanShrinks(s: Sys, s': Sys, n: Positive)
    requires WarmStep(s, s', n) && s.phase.Scanning?
    ensures Remaining(s') < Remaining(s)
  {
    var cursor := s.phase.cursor;
    var page: seq<Id> :| && IsPage(page, CancelableAbove(s.t.jobs, cursor), n)
                && s'.phase == if |page| == 0 then Idle
                   else Updating(s.phase.keep, page[|page| - 1], Doomed(s.t.jobs, page, s.phase.keep), s.t.jobs);
    if |page| > 0 {
      var last := page[|page| - 1];
      assert last in Elems(page);
      assert last in IdsAbove(s.t.jobs, cursor) && last !in IdsAbove(s.t.jobs, last);
      SubsetCardinality(IdsAbove(s.t.jobs, last), IdsAbove(s.t.jobs, cursor));
    }
  }

  lemma RemainingFalls(who: Actor, s: Sys, s': Sys, n: Positive, keep: set<string>)
    requires Next(who, s, s', n) && !who.Crash? && Looping(s.phase, keep)
    ensures Remaining(s') + (if who.WarmCommand? then 1 else 0) <= Remaining(s)
  {
    if who.Worker? {
      assert s.phase.Scanning? || s.phase.Updating?;
      assert IdsAbove(s'.t.jobs, s.phase.cursor) == IdsAbove(s.t.jobs, s.phase.cursor);
    } else if s.phase.Scanning? {
      ScanShrinks(s, s', n);
    } else {
      assert IdsAbove(s'.t.jobs, s.phase.cursor) == IdsAbove(s.t.jobs, s.phase.cursor);
    }
  }

  lemma {:induction false} RemainingBound(b: seq<Sys>, who: seq<Actor>, n: Positive, keep: set<string>, i: nat)
    requires CancelRun(b, who, n, keep) && i < |b|
    ensures WarmSteps(who[..i]) + Remaining(b[i]) <= Remaining(b[0])
  {
    if i == 0 {
    } else {
      RemainingBound(b, who, n, keep, i - 1);
      LoopingAlways(b, who, n, keep, i - 1);
      assert Next(who[i - 1], b[i - 1], b[i - 1 + 1], n);
      RemainingFalls(who[i - 1], b[i - 1], b[i], n, keep);
      assert who[..i][..i - 1] == who[..i - 1];
    }
  }

  /** The loop ends: however workers interleave, it issues at most two statements per
      job in the table and one more. */
  lemma CancelLoopEnds(b: seq<Sys>, who: seq<Actor>, n: Positive, keep: set<string>)
    requires CancelRun(b, who, n, keep)
    ensures WarmSteps(who) <= 2 * |b[0].t.jobs| + 1
  {
    RemainingBound(b, who, n, keep, |who|);
    assert who[..|who|] == who;
    SubsetCardinality(IdsAbove(b[0].t.jobs, NIL), b[0].t.jobs.Keys);
  }
}
