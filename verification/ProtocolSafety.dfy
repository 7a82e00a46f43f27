/** What every history of the warm protocol keeps. */
module ProtocolSafety {
  import opened Collections
  import opened Tables
  import opened Paging
  import opened WarmSpec
  import opened WarmTheorems
  import opened WarmCoverage
  import opened WarmProtocol

  ghost predicate NoneBlocked(jobs: Jobs, keys: seq<string>) {
    forall k :: k in Elems(keys) ==> !Blocked(jobs, k)
  }

  /** What the local variables of a run have to do with the tables, whatever workers
      did since they were read. */
  ghost predicate PhaseInv(s: Sys) {
    match s.phase
    case Selecting(_, left, found) =>
      && Distinct(left) && Distinct(found)
      && forall k :: k in Elems(found) ==> k in s.t.media && s.t.media[k].recordKey !in Elems(left)
    case Checking(_, keys, next, pending) =>
      Distinct(keys) && next <= |keys| && NoneBlocked(s.t.jobs, FilterOut(keys[..next], pending))
    case Opening(_, _, todo) => Distinct(todo) && NoneBlocked(s.t.jobs, todo)
    case Enqueuing(_, _, todo, _) => Distinct(todo) && NoneBlocked(s.t.jobs, todo)
    case Updating(keep, _, ids, seen) =>
      forall id :: id in ids ==>
        && id in s.t.jobs && id in seen && s.t.jobs[id].mediaKey == seen[id].mediaKey
        && Cancelable(seen[id].status) && seen[id].mediaKey !in keep
    case _ => true
  }

  /** Workers free keys; they never block one. */
  lemma WorkerBlocksNothing(s: Sys, s': Sys, keys: seq<string>)
    requires WorkerStep(s, s') && NoneBlocked(s.t.jobs, keys)
    ensures NoneBlocked(s'.t.jobs, keys)
  {
    forall k | k in Elems(keys) ensures !Blocked(s'.t.jobs, k) {
      forall id | id in s.t.jobs && s.t.jobs[id].mediaKey == k ensures !Blocking(s'.t.jobs[id].status) {
        assert WorkerMove(s.t.jobs[id], s'.t.jobs[id]);
      }
      assert forall id :: id in s.t.jobs ==> WorkerMove(s.t.jobs[id], s'.t.jobs[id]);
    }
  }

  lemma WorkerKeepsPhase(s: Sys, s': Sys)
    requires WorkerStep(s, s') && PhaseInv(s)
    ensures PhaseInv(s')
  {
    match s.phase
    case Selecting(_, left, found) =>
      forall k | k in Elems(found) ensures k in s'.t.media && s'.t.media[k].recordKey !in Elems(left) {
        assert WorkerLink(s.t.media[k], s'.t.media[k]);
      }
    case Checking(_, keys, next, pending) => WorkerBlocksNothing(s, s', FilterOut(keys[..next], pending));
    case Opening(_, _, todo) => WorkerBlocksNothing(s, s', todo);
    case Enqueuing(_, _, todo, _) => WorkerBlocksNothing(s, s', todo);
    case Updating(_, _, ids, seen) =>
      forall id | id in ids ensures s'.t.jobs[id].mediaKey == seen[id].mediaKey {
        assert WorkerMove(s.t.jobs[id], s'.t.jobs[id]);
      }
    case _ =>
  }

  lemma SelectKeepsPhase(s: Sys, s': Sys, n: Positive)
    requires s.phase.Selecting? && s'.t == s.t && SelectStep(s.t, s.phase, s'.phase, n) && PhaseInv(s)
    ensures PhaseInv(s')
  {
    var left, found := s.phase.left, s.phase.found;
    if |left| > 0 {
      var chunk := Chunk(left, 0, n);
      var rest := left[|chunk|..];
      assert left == chunk + rest;
      DistinctParts(chunk, rest);
      ElemsConcat(chunk, rest);
      var keys :| Distinct(keys) && Elems(keys) == Unattached(s.t.media, Elems(chunk))
                  && s'.phase.found == found + keys;
      ElemsConcat(found, keys);
      DistinctJoin(found, keys);
    } else if |found| > 0 {
      assert found[..0] == [];
    }
  }

  lemma CheckKeepsPhase(s: Sys, s': Sys, n: Positive)
    requires s.phase.Checking? && s'.t == s.t && CheckStep(s.t, s.phase, s'.phase, n) && PhaseInv(s)
    ensures PhaseInv(s')
  {
    var keys, next, pending := s.phase.keys, s.phase.next, s.phase.pending;
    if next < |keys| {
      var chunk := Chunk(keys, next, n);
      ChunkExtends(keys, next, n);
      ElemsConcat(keys[..next], chunk);
      FilterOutKeeps(keys[..next], pending);
      FilterOutKeeps(s'.phase.keys[..s'.phase.next], s'.phase.pending);
    } else {
      assert keys[..next] == keys;
      FilterOutKeeps(keys, pending);
      if 0 < s.phase.cfg.limit < |FilterOut(keys, pending)| {
        DistinctTake(FilterOut(keys, pending), s.phase.cfg.limit);
      }
    }
  }

  /** The chunk just inserted does not block what is left: the keys are distinct. */
  lemma EnqueueKeepsPhase(s: Sys, s': Sys, n: Positive)
    requires s.phase.Enqueuing? && EnqueueStep(s.t, s.phase, s'.t, s'.phase, n) && PhaseInv(s)
    ensures PhaseInv(s')
  {
    var todo := s.phase.todo;
    if |todo| > 0 {
      var chunk := Chunk(todo, 0, n);
      var rest := todo[|chunk|..];
      assert todo == chunk + rest;
      DistinctParts(chunk, rest);
      ElemsConcat(chunk, rest);
      forall id | id in s'.t.jobs && Blocking(s'.t.jobs[id].status) ensures s'.t.jobs[id].mediaKey !in Elems(rest) {
        if id in s.t.jobs {
          assert Blocked(s.t.jobs, s.t.jobs[id].mediaKey);
        } else {
          assert id in NewIds(s.t.jobs, s'.t.jobs);
          assert s'.t.jobs[id].mediaKey in NewKeys(s.t.jobs, s'.t.jobs);
        }
      }
    }
  }

  lemma ScanKeepsPhase(s: Sys, s': Sys, n: Positive)
    requires s.phase.Scanning? && s'.t == s.t && ScanStep(s.t, s.phase, s'.phase, n)
    ensures PhaseInv(s')
  {
    var page: seq<Id> :| && IsPage(page, CancelableAbove(s.t.jobs, s.phase.cursor), n)
                && s'.phase == if |page| == 0 then Idle
                   else Updating(s.phase.keep, page[|page| - 1], Doomed(s.t.jobs, page, s.phase.keep), s.t.jobs);
    forall id | id in page ensures id in CancelableAbove(s.t.jobs, s.phase.cursor) {
      assert id in Elems(page);
    }
  }

  lemma WarmKeepsPhase(s: Sys, s': Sys, n: Positive)
    requires WarmStep(s, s', n) && PhaseInv(s)
    ensures PhaseInv(s')
  {
    match s.phase
    case Selecting(_, _, _) => SelectKeepsPhase(s, s', n);
    case Checking(_, _, _, _) => CheckKeepsPhase(s, s', n);
    case Enqueuing(_, _, _, _) => EnqueueKeepsPhase(s, s', n);
    case Scanning(_, _) => ScanKeepsPhase(s, s', n);
    case _ =>
  }

  /** In every state of every history the local variables of a run still mean what they
      meant when they were read. */
  lemma {:induction false} PhaseInvAlways(b: seq<Sys>, who: seq<Actor>, n: Positive, i: nat)
    requires History(b, who, n) && b[0].phase.Idle? && i < |b|
    ensures PhaseInv(b[i])
  {
    if i == 0 {
    } else {
      PhaseInvAlways(b, who, n, i - 1);
      assert Next(who[i - 1], b[i - 1], b[i - 1 + 1], n);
      match who[i - 1]
      case WarmCommand => WarmKeepsPhase(b[i - 1], b[i], n);
      case Worker => WorkerKeepsPhase(b[i - 1], b[i]);
      case Crash =>
    }
  }

  // ---- at most one blocking job per media ------------------------------------------

  /** Somebody is to work on the job, works on it, or has done it. */
  predicate SpokenFor(j: Job) {
    j.status.Pending? || j.status.Retrying? || j.status.InProgress? || j.status.Succeeded?
  }

  ghost predicate BothBlock(jobs: Jobs, x: Id, y: Id) {
    && x in jobs && y in jobs && jobs[x].mediaKey == jobs[y].mediaKey
    && SpokenFor(jobs[x]) && SpokenFor(jobs[y])
  }

  /** A statement of a run never makes two jobs block one key. */
  lemma WarmStepAddsNoPair(s: Sys, s': Sys, n: Positive, x: Id, y: Id)
    requires WarmStep(s, s', n) && PhaseInv(s) && x != y
    requires BothBlock(s'.t.jobs, x, y)
    ensures BothBlock(s.t.jobs, x, y)
  {
    match s.phase
    case Enqueuing(_, _, todo, _) =>
      if |todo| > 0 { EnqueueAddsNoPair(s, s', n, x, y); }
    case _ =>
  }

  lemma EnqueueAddsNoPair(s: Sys, s': Sys, n: Positive, x: Id, y: Id)
    requires s.phase.Enqueuing? && |s.phase.todo| > 0
    requires EnqueueStep(s.t, s.phase, s'.t, s'.phase, n) && PhaseInv(s) && x != y
    requires BothBlock(s'.t.jobs, x, y)
    ensures BothBlock(s.t.jobs, x, y)
  {
    var before, after := s.t.jobs, s'.t.jobs;
    var chunk := Chunk(s.phase.todo, 0, n);
    assert s.phase.todo == chunk + s.phase.todo[|chunk|..];
    DistinctParts(chunk, s.phase.todo[|chunk|..]);
    DistinctCardinality(chunk);
    NewRowHasFreeKey(before, s.phase.todo, chunk, s.phase.eventId, after, x);
    NewRowHasFreeKey(before, s.phase.todo, chunk, s.phase.eventId, after, y);
    if x !in before && y !in before {
      assert KeysOf(NewIds(before, after), after) == NewKeys(before, after);
      SharedKeyShrinks(NewIds(before, after), after, x, y);
    }
  }

  lemma NewRowHasFreeKey(before: Jobs, todo: seq<string>, chunk: seq<string>, eventId: Id, after: Jobs, x: Id)
    requires Inserted(before, chunk, eventId, after) && NoneBlocked(before, todo) && x in after
    requires chunk <= todo
    ensures x !in before ==> x in NewIds(before, after) && !Blocked(before, after[x].mediaKey)
    ensures x in before ==> after[x] == before[x]
  {
    if x !in before {
      assert x in NewIds(before, after);
      assert after[x].mediaKey in NewKeys(before, after);
      assert after[x].mediaKey in Elems(todo);
    }
  }

  lemma WorkerAddsNoPair(s: Sys, s': Sys, x: Id, y: Id)
    requires WorkerStep(s, s') && BothBlock(s'.t.jobs, x, y)
    ensures BothBlock(s.t.jobs, x, y)
  {
    assert WorkerMove(s.t.jobs[x], s'.t.jobs[x]) && WorkerMove(s.t.jobs[y], s'.t.jobs[y]);
  }

  /** In any history of serialised runs, crashes and worker moves, two jobs block one
      media only if the same two did at the start. */
  lemma {:induction false} NoNewDuplicates(b: seq<Sys>, who: seq<Actor>, n: Positive, i: nat, x: Id, y: Id)
    requires History(b, who, n) && b[0].phase.Idle? && i < |b| && x != y
    requires BothBlock(b[i].t.jobs, x, y)
    ensures BothBlock(b[0].t.jobs, x, y)
  {
    if i == 0 {
    } else {
      assert Next(who[i - 1], b[i - 1], b[i - 1 + 1], n);
      match who[i - 1] {
        case WarmCommand =>
          PhaseInvAlways(b, who, n, i - 1);
          WarmStepAddsNoPair(b[i - 1], b[i], n, x, y);
        case Worker => WorkerAddsNoPair(b[i - 1], b[i], x, y);
        case Crash =>
      }
      NoNewDuplicates(b, who, n, i - 1, x, y);
    }
  }

  ghost predicate OneBlockingJob(jobs: Jobs) {
    forall x, y :: BothBlock(jobs, x, y) ==> x == y
  }

  /** "At most one blocking job per media key" is an invariant of every history. */
  lemma OneBlockingJobAlways(b: seq<Sys>, who: seq<Actor>, n: Positive, i: nat)
    requires History(b, who, n) && b[0].phase.Idle? && i < |b| && OneBlockingJob(b[0].t.jobs)
    ensures OneBlockingJob(b[i].t.jobs)
  {
    forall x, y | BothBlock(b[i].t.jobs, x, y) ensures x == y {
      if x != y { NoNewDuplicates(b, who, n, i, x, y); }
    }
  }

  /** So too over the statements of a single run, wherever it stopped: the state RunWarm
      leaves is the last of such a run. */
  lemma RunKeepsOneBlockingJob(run: Run, n: Positive)
    requires Steps(run, n) && First(run).phase.Idle? && OneBlockingJob(First(run).t.jobs)
    ensures OneBlockingJob(run.s.t.jobs)
  {
    RunIsHistory(run, n);
    OneBlockingJobAlways(States(run), seq(|States(run)| - 1, _ => WarmCommand), n, |States(run)| - 1);
  }

  // ---- what succeeded and canceled jobs keep -----------------------------------------

  lemma CarryStep(who: Actor, s: Sys, s': Sys, n: Positive)
    requires Next(who, s, s', n) && SucceededCarryAttachment(s.t.jobs)
    ensures SucceededCarryAttachment(s'.t.jobs)
  {
    forall id | id in s'.t.jobs && s'.t.jobs[id].status.Succeeded? ensures s'.t.jobs[id].attachmentId.Some? {
      if who.Worker? {
        assert WorkerMove(s.t.jobs[id], s'.t.jobs[id]);
      } else if s.phase.Enqueuing? && id !in s.t.jobs {
        assert id in NewIds(s.t.jobs, s'.t.jobs);
      }
    }
  }

  /** Every succeeded job keeps saying where its binary is, in every history: neither a run
      nor a worker makes a key stuck. */
  lemma {:induction false} SucceededCarryAlways(b: seq<Sys>, who: seq<Actor>, n: Positive, i: nat)
    requires History(b, who, n) && i < |b| && SucceededCarryAttachment(b[0].t.jobs)
    ensures SucceededCarryAttachment(b[i].t.jobs)
  {
    hide Next;
    if i == 0 {
    } else {
      SucceededCarryAlways(b, who, n, i - 1);
      assert Next(who[i - 1], b[i - 1], b[i - 1 + 1], n);
      CarryStep(who[i - 1], b[i - 1], b[i], n);
    }
  }

  lemma CanceledStep(who: Actor, s: Sys, s': Sys, n: Positive, id: Id)
    requires Next(who, s, s', n) && id in s.t.jobs && s.t.jobs[id].status.Canceled?
    ensures id in s'.t.jobs && s'.t.jobs[id].status.Canceled?
  {
    if who.Worker? { assert WorkerMove(s.t.jobs[id], s'.t.jobs[id]); }
  }

  /** A canceled job is canceled for the rest of every history. */
  lemma {:induction false} CanceledForever(b: seq<Sys>, who: seq<Actor>, n: Positive, i: nat, k: nat, id: Id)
    requires History(b, who, n) && i <= k < |b| && id in b[i].t.jobs && b[i].t.jobs[id].status.Canceled?
    ensures id in b[k].t.jobs && b[k].t.jobs[id].status.Canceled?
  {
    hide Next;
    if i == k {
    } else {
      CanceledForever(b, who, n, i, k - 1, id);
      assert Next(who[k - 1], b[k - 1], b[k - 1 + 1], n);
      CanceledStep(who[k - 1], b[k - 1], b[k], n, id);
    }
  }
}
