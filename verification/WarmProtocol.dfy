/** `warm` as a protocol: one step per statement, with attachment workers moving jobs
    between any two of them and a run free to die after any of them. The steps are those
    of the methods in Warm and WarmRun; the scan and the update of a cancel page are two
    statements, so they are two steps here. */
module WarmProtocol {
  import opened Collections
  import opened Tables
  import opened Paging
  import opened WarmSpec

  /** Where a run is, with the local variables it still needs. */
  datatype Phase =
    | Idle
    | Repairing(cfg: Config)
    | Listing(cfg: Config)
    | Selecting(cfg: Config, left: seq<string>, found: seq<string>)
    | Checking(cfg: Config, keys: seq<string>, next: nat, pending: set<string>)
    | Opening(exclusive: bool, keep: set<string>, todo: seq<string>)
    | Enqueuing(exclusive: bool, keep: set<string>, todo: seq<string>, eventId: Id)
    | Scanning(keep: set<string>, cursor: Id)
    | Updating(keep: set<string>, cursor: Id, ids: set<Id>, seen: Jobs)

  datatype Sys = Sys(t: Tables, phase: Phase)

  datatype Actor = WarmCommand | Worker | Crash

  // ---- the worker --------------------------------------------------------------

  /** Claim, reap, fail, give up and succeed; canceled and permanently failed jobs are
      never picked up again, and success always records the attachment. */
  predicate LegalMove(s: JobStatus, s': JobStatus) {
    || ((s.Pending? || s.Retrying?) && s'.InProgress?)
    || (s.InProgress? && (s'.Pending? || s'.Retrying? || s'.PermanentlyFailed? || s'.Succeeded?))
  }

  ghost predicate WorkerMove(j: Job, j': Job) {
    || j' == j
    || (LegalMove(j.status, j'.status) && j'.mediaKey == j.mediaKey && j'.eventId == j.eventId
        && if j'.status.Succeeded? then j'.attachmentId.Some? else j'.attachmentId == j.attachmentId)
  }

  ghost predicate WorkerLink(m: Media, m': Media) {
    m' == m || (m'.attachmentId.Some? && m' == m.(attachmentId := m'.attachmentId, modifiedAt := m'.modifiedAt))
  }

  ghost predicate WorkerStep(s: Sys, s': Sys) {
    && s'.phase == s.phase
    && s'.t == s.t.(jobs := s'.t.jobs, media := s'.t.media)
    && s'.t.jobs.Keys == s.t.jobs.Keys && s'.t.media.Keys == s.t.media.Keys
    && (forall id :: id in s.t.jobs ==> WorkerMove(s.t.jobs[id], s'.t.jobs[id]))
    && (forall k :: k in s.t.media ==> WorkerLink(s.t.media[k], s'.t.media[k]))
  }

  // ---- the statements of a run ---------------------------------------------------

  function AfterEnqueuing(exclusive: bool, keep: set<string>): Phase {
    if exclusive then Scanning(keep, NIL) else Idle
  }

  function AfterChecking(cfg: Config, keys: seq<string>, pending: set<string>): Phase {
    var all := FilterOut(keys, pending);
    var todo := if 0 < cfg.limit < |all| then all[..cfg.limit] else all;
    if cfg.dryRun then Idle
    else if |todo| == 0 then AfterEnqueuing(cfg.exclusive, Elems(keys))
    else Opening(cfg.exclusive, Elems(keys), todo)
  }

  ghost predicate SelectStep(t: Tables, p: Phase, p': Phase, n: Positive)
    requires p.Selecting?
  {
    if |p.left| == 0 then
      p' == if |p.found| == 0 then Idle else Checking(p.cfg, p.found, 0, {})
    else
      var chunk := Chunk(p.left, 0, n);
      && p'.Selecting? && p'.cfg == p.cfg && p'.left == p.left[|chunk|..]
      && exists keys :: Distinct(keys) && Elems(keys) == Unattached(t.media, Elems(chunk)) && p'.found == p.found + keys
  }

  ghost predicate CheckStep(t: Tables, p: Phase, p': Phase, n: Positive)
    requires p.Checking?
  {
    if p.next >= |p.keys| then
      p' == AfterChecking(p.cfg, p.keys, p.pending)
    else
      var chunk := Chunk(p.keys, p.next, n);
      p' == Checking(p.cfg, p.keys, p.next + |chunk|,
                     set k | k in Elems(p.keys) && (k in p.pending || (k in chunk && Blocked(t.jobs, k))))
  }

  ghost predicate EnqueueStep(t: Tables, p: Phase, t': Tables, p': Phase, n: Positive)
    requires p.Enqueuing?
  {
    if |p.todo| == 0 then
      t' == t && p' == AfterEnqueuing(p.exclusive, p.keep)
    else
      var chunk := Chunk(p.todo, 0, n);
      && t' == t.(jobs := t'.jobs) && Inserted(t.jobs, chunk, p.eventId, t'.jobs)
      && p' == Enqueuing(p.exclusive, p.keep, p.todo[|chunk|..], p.eventId)
  }

  ghost predicate ScanStep(t: Tables, p: Phase, p': Phase, n: Positive)
    requires p.Scanning?
  {
    exists page: seq<Id> ::
      && IsPage(page, CancelableAbove(t.jobs, p.cursor), n)
      && p' == if |page| == 0 then Idle
               else Updating(p.keep, page[|page| - 1], Doomed(t.jobs, page, p.keep), t.jobs)
  }

  ghost predicate UpdateStep(t: Tables, p: Phase, t': Tables, p': Phase)
    requires p.Updating?
  {
    && p' == Scanning(p.keep, p.cursor)
    && exists now :: t' == t.(jobs := MarkCanceled(t.jobs, p.ids, now))
  }

  ghost predicate WarmStep(s: Sys, s': Sys, n: Positive) {
    match s.phase
    case Idle => s'.t == s.t && s'.phase.Repairing?
    case Repairing(cfg) =>
      s'.t == s.t.(media := s'.t.media) && Repaired(s.t.media, s.t.jobs, s'.t.media) && s'.phase == Listing(cfg)
    case Listing(cfg) =>
      s'.t == s.t && exists keys ::
        && Distinct(keys) && Elems(keys) == MatchingListings(s.t.listings, Statuses(cfg))
        && s'.phase == if |keys| == 0 then Idle else Selecting(cfg, keys, [])
    case Selecting(_, _, _) => s'.t == s.t && SelectStep(s.t, s.phase, s'.phase, n)
    case Checking(_, _, _, _) => s'.t == s.t && CheckStep(s.t, s.phase, s'.phase, n)
    case Opening(exclusive, keep, todo) =>
      && s'.phase.Enqueuing? && s'.phase == Enqueuing(exclusive, keep, todo, s'.phase.eventId)
      && s'.t == s.t.(events := s'.t.events) && EventReady(s.t.events, s'.phase.eventId, s'.t.events)
    case Enqueuing(_, _, _, _) => EnqueueStep(s.t, s.phase, s'.t, s'.phase, n)
    case Scanning(_, _) => s'.t == s.t && ScanStep(s.t, s.phase, s'.phase, n)
    case Updating(_, _, _, _) => UpdateStep(s.t, s.phase, s'.t, s'.phase)
  }

  ghost predicate Next(who: Actor, s: Sys, s': Sys, n: Positive) {
    match who
    case WarmCommand => WarmStep(s, s', n)
    case Worker => WorkerStep(s, s')
    case Crash => s' == Sys(s.t, Idle)
  }

  /** A history: any number of warm runs one after another, stopped or finished, with
      workers in between. */
  ghost predicate History(b: seq<Sys>, who: seq<Actor>, n: Positive) {
    && |b| == |who| + 1
    && forall i :: 0 <= i < |who| ==> Next(who[i], b[i], b[i + 1], n)
  }

  // ---- the statements of one run, in order --------------------------------------

  /** The states one run goes through, the latest outermost. */
  datatype Run = Start(s: Sys) | Then(before: Run, s: Sys)

  ghost predicate Steps(run: Run, n: Positive) {
    match run
    case Start(_) => true
    case Then(before, s) => Steps(before, n) && WarmStep(before.s, s, n)
  }

  function First(run: Run): Sys {
    match run
    case Start(s) => s
    case Then(before, _) => First(before)
  }

  /** A run of statements from one state to another. */
  ghost predicate Leads(run: Run, n: Positive, from: Sys, to: Sys) {
    Steps(run, n) && First(run) == from && run.s == to
  }

  /** As Leads, wherever in the run it stopped. */
  ghost predicate LeadsTo(run: Run, n: Positive, from: Sys, t: Tables) {
    Steps(run, n) && First(run) == from && run.s.t == t
  }

  lemma LeadsOn(run: Run, n: Positive, from: Sys, mid: Sys, to: Sys)
    requires Leads(run, n, from, mid) && WarmStep(mid, to, n)
    ensures Leads(Then(run, to), n, from, to)
  {
  }

  function States(run: Run): seq<Sys> {
    match run
    case Start(s) => [s]
    case Then(before, s) => States(before) + [s]
  }

  /** A run is a history in which nobody else acts. */
  lemma {:induction false} RunIsHistory(run: Run, n: Positive)
    requires Steps(run, n)
    ensures |States(run)| > 0 && States(run)[0] == First(run) && States(run)[|States(run)| - 1] == run.s
    ensures History(States(run), seq(|States(run)| - 1, _ => WarmCommand), n)
  {
    if run.Start? {
    } else {
      RunIsHistory(run.before, n);
      var b, init := States(run), States(run.before);
      forall i | 0 <= i < |b| - 1 ensures WarmStep(b[i], b[i + 1], n) {
        if i < |init| - 1 {
          assert Next(seq(|init| - 1, _ => WarmCommand)[i], init[i], init[i + 1], n);
        }
      }
    }
  }
}
