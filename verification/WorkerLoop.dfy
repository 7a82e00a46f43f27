/** The bounded drain loop of the attachment worker (cmd/worker.go), over an arbitrary
    stream of batch results and errors and an arbitrary moment of cancellation. */
module WorkerLoop {

  datatype RunResult = RunResult(worked: bool, succeeded: nat, retrying: nat, permanentlyFailed: nat, lostCAS: nat)

  datatype Cycle = Ran(result: RunResult) | Errored(code: int)

  datatype Outcome = Canceled | OnceComplete | OnceErrored(code: int) | MaxJobsReached

  /** What the k-th call of Run would return. */
  type Stream = nat -> Cycle

  /** What the exit line reports. */
  datatype Totals = Totals(succeeded: nat, permanentlyFailed: nat, retrying: nat, lostCAS: nat)

  /** Per kind of outcome, the sum over the first n cycles; errored cycles add nothing. */
  function Sums(cycles: Stream, n: nat): Totals {
    if n == 0 then Totals(0, 0, 0, 0)
    else
      var t := Sums(cycles, n - 1);
      match cycles(n - 1)
      case Errored(_) => t
      case Ran(r) => Totals(t.succeeded + r.succeeded, t.permanentlyFailed + r.permanentlyFailed,
                            t.retrying + r.retrying, t.lostCAS + r.lostCAS)
  }

  /** A cycle that keeps the worker busy as the idle tracker sees it: errors count. */
  predicate Busy(c: Cycle) {
    c.Errored? || c.result.worked
  }

  /** How many of the first n cycles begin a stretch of empty polls. */
  function IdleStretches(cycles: Stream, n: nat): nat {
    if n == 0 then 0
    else IdleStretches(cycles, n - 1) + if !Busy(cycles(n - 1)) && (n == 1 || Busy(cycles(n - 2))) then 1 else 0
  }

  /** sync/idle_tracker.go: true exactly on the step from busy to empty. */
  class IdleTracker {
    var busy: bool

    constructor ()
      ensures busy
    {
      busy := true;
    }

    method Record(worked: bool) returns (emit: bool)
      modifies this
      ensures busy == worked && emit == (old(busy) && !worked)
    {
      if worked {
        busy := true;
        return false;
      }
      if busy {
        busy := false;
        return true;
      }
      return false;
    }
  }

  lemma {:induction false} SumsGrow(cycles: Stream, m: nat, n: nat)
    requires m <= n
    ensures Sums(cycles, m).succeeded <= Sums(cycles, n).succeeded
    ensures Sums(cycles, m).permanentlyFailed <= Sums(cycles, n).permanentlyFailed
  {
    if m == n {
    } else {
      SumsGrow(cycles, m, n - 1);
    }
  }

  /** Where the loop stops without --once: at the cycle that brings succeeded and permanently
      failed jobs together to the bound, or if none of the first doneAt does, when the context
      is found done. */
  ghost predicate StopsAt(cycles: Stream, doneAt: nat, maxJobs: int, outcome: Outcome, calls: nat) {
    if maxJobs > 0 && Sums(cycles, doneAt).succeeded + Sums(cycles, doneAt).permanentlyFailed >= maxJobs
    then
      && outcome == MaxJobsReached && 0 < calls <= doneAt && cycles(calls - 1).Ran?
      && Sums(cycles, calls).succeeded + Sums(cycles, calls).permanentlyFailed >= maxJobs
      && Sums(cycles, calls - 1).succeeded + Sums(cycles, calls - 1).permanentlyFailed < maxJobs
    else outcome == Canceled && calls == doneAt
  }

  /** runWorkerLoop. doneAt is the number of cycles after which the context is found
      done at the top of the loop. */
  method RunWorkerLoop(cycles: Stream, doneAt: nat, maxJobs: int, once: bool)
    returns (outcome: Outcome, calls: nat, idleLogs: nat, totals: Totals)
    ensures !once || doneAt == 0 ==> StopsAt(cycles, doneAt, maxJobs, outcome, calls)
    ensures once && doneAt > 0 ==>
              calls == 1 && outcome == match cycles(0) case Ran(_) => OnceComplete case Errored(e) => OnceErrored(e)
    ensures idleLogs == IdleStretches(cycles, calls)
    ensures totals == Sums(cycles, calls)
  {
    var idle := new IdleTracker();
    calls, idleLogs, totals := 0, 0, Totals(0, 0, 0, 0);
    while true
      invariant calls <= doneAt && (once ==> calls == 0)
      invariant totals == Sums(cycles, calls)
      invariant maxJobs > 0 ==> totals.succeeded + totals.permanentlyFailed < maxJobs
      invariant idle.busy == (calls == 0 || Busy(cycles(calls - 1)))
      invariant idleLogs == IdleStretches(cycles, calls)
      decreases doneAt - calls
    {
      if calls == doneAt {
        return Canceled, calls, idleLogs, totals;
      }
      var cycle := cycles(calls);
      calls := calls + 1;
      SumsGrow(cycles, calls, doneAt);
      match cycle {
        case Errored(e) =>
          var _ := idle.Record(true);
          if once {
            return OnceErrored(e), calls, idleLogs, totals;
          }
        case Ran(result) =>
          totals := totals.(succeeded := totals.succeeded + result.succeeded);
          totals := totals.(retrying := totals.retrying + result.retrying);
          totals := totals.(permanentlyFailed := totals.permanentlyFailed + result.permanentlyFailed);
          totals := totals.(lostCAS := totals.lostCAS + result.lostCAS);
          var emit := idle.Record(result.worked);
          if emit { idleLogs := idleLogs + 1; }
          if once {
            return OnceComplete, calls, idleLogs, totals;
          }
          if maxJobs > 0 && totals.succeeded + totals.permanentlyFailed >= maxJobs {
            return MaxJobsReached, calls, idleLogs, totals;
          }
      }
    }
  }

  /** The bound is passed at one cycle only, the first to reach it, and by less than the
      succeeded and permanently failed jobs of that cycle. */
  lemma StopIsFirstAndTight(cycles: Stream, doneAt: nat, maxJobs: int, calls: nat, other: nat)
    requires StopsAt(cycles, doneAt, maxJobs, MaxJobsReached, calls)
    ensures Sums(cycles, other).succeeded + Sums(cycles, other).permanentlyFailed >= maxJobs <==> other >= calls
    ensures var last := cycles(calls - 1).result;
            Sums(cycles, calls).succeeded + Sums(cycles, calls).permanentlyFailed - maxJobs <
            last.succeeded + last.permanentlyFailed
  {
    if other >= calls { SumsGrow(cycles, calls, other); } else { SumsGrow(cycles, other, calls - 1); }
  }

  /** Two cycles that finish as many jobs, for good or for bad; an errored one finishes none. */
  predicate FinishAlike(a: Cycle, b: Cycle) {
    match (a, b)
    case (Ran(r), Ran(q)) => r.succeeded == q.succeeded && r.permanentlyFailed == q.permanentlyFailed
    case (Ran(r), Errored(_)) => r.succeeded == 0 && r.permanentlyFailed == 0
    case (Errored(_), Ran(q)) => q.succeeded == 0 && q.permanentlyFailed == 0
    case (Errored(_), Errored(_)) => true
  }

  lemma {:induction false} SumsAgree(a: Stream, b: Stream, n: nat)
    requires forall k: nat :: k < n ==> FinishAlike(a(k), b(k))
    ensures Sums(a, n).succeeded == Sums(b, n).succeeded
    ensures Sums(a, n).permanentlyFailed == Sums(b, n).permanentlyFailed
  {
    if n == 0 {
    } else {
      SumsAgree(a, b, n - 1);
    }
  }

  /** Retrying transitions, lost claims and errors do not move the bound: over two streams
      whose cycles succeed and permanently fail as many jobs the loop stops after the same
      cycle and for the same reason. */
  lemma OnlyTerminalCounts(a: Stream, b: Stream, doneAt: nat, maxJobs: int,
                           outcomeA: Outcome, callsA: nat, outcomeB: Outcome, callsB: nat)
    requires forall k: nat :: k < doneAt ==> FinishAlike(a(k), b(k))
    requires StopsAt(a, doneAt, maxJobs, outcomeA, callsA)
    requires StopsAt(b, doneAt, maxJobs, outcomeB, callsB)
    ensures outcomeA == outcomeB && callsA == callsB
  {
    SumsAgree(a, b, doneAt);
    if outcomeA == MaxJobsReached {
      SumsAgree(a, b, callsB);
      StopIsFirstAndTight(a, doneAt, maxJobs, callsA, callsB);
      SumsAgree(a, b, callsA);
      StopIsFirstAndTight(b, doneAt, maxJobs, callsB, callsA);
    }
  }

  /** A stream that only retries, loses claims and errs is never stopped by the bound. */
  lemma {:induction false} UnfinishedNeverStops(cycles: Stream, doneAt: nat, maxJobs: int, outcome: Outcome, calls: nat)
    requires forall k: nat :: k < doneAt && cycles(k).Ran? ==>
               cycles(k).result.succeeded == 0 && cycles(k).result.permanentlyFailed == 0
    requires StopsAt(cycles, doneAt, maxJobs, outcome, calls)
    ensures outcome == Canceled && calls == doneAt
  {
    var idle: Stream := _ => Errored(0);
    SumsAgree(cycles, idle, doneAt);
    NothingSummed(idle, doneAt);
  }

  lemma {:induction false} NothingSummed(cycles: Stream, n: nat)
    requires forall k: nat :: cycles(k).Errored?
    ensures Sums(cycles, n) == Totals(0, 0, 0, 0)
  {
    if n == 0 {
    } else {
      NothingSummed(cycles, n - 1);
    }
  }

  lemma OnceMore(n: nat, x: nat)
    ensures (n + 1) * x == n * x + x
  {
  }

  /** Where every cycle is the same, the totals are its counts as many times over. */
  lemma {:induction false} SteadySums(cycles: Stream, r: RunResult, n: nat)
    requires forall k: nat :: cycles(k) == Ran(r)
    ensures Sums(cycles, n) ==
            Totals(n * r.succeeded, n * r.permanentlyFailed, n * r.retrying, n * r.lostCAS)
  {
    if n == 0 {
    } else {
      SteadySums(cycles, r, n - 1);
      OnceMore(n - 1, r.succeeded);
      OnceMore(n - 1, r.permanentlyFailed);
      OnceMore(n - 1, r.retrying);
      OnceMore(n - 1, r.lostCAS);
    }
  }

  /** An idle line is written once per stretch of empty polls: at its first, and not again
      before a cycle that worked or erred. */
  lemma {:induction false} IdleLoggedOncePerStretch(cycles: Stream, m: nat, n: nat)
    requires m < n && forall k: nat :: m <= k < n ==> cycles(k).Ran? && !cycles(k).result.worked
    ensures IdleStretches(cycles, n) ==
            IdleStretches(cycles, m) +
            (if m == 0 || cycles(m - 1).Errored? || cycles(m - 1).result.worked then 1 else 0)
  {
    if n == m + 1 {
    } else {
      IdleLoggedOncePerStretch(cycles, m, n - 1);
    }
  }
}
