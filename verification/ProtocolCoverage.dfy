/** Coverage while workers act: what a run has seen to for every key it selected, by the
    time it is through. */
module ProtocolCoverage {
  import opened Collections
  import opened Tables
  import opened WarmProtocol
  import opened ProtocolSafety

  /** From the state where the selection is known to the one where the run is through,
      without a crash; workers may act at any point. */
  ghost predicate CoveringRun(b: seq<Sys>, who: seq<Actor>, n: Positive, cfg: Config, keys: seq<string>) {
    && History(b, who, n)
    && b[0].phase == Checking(cfg, keys, 0, {})
    && (forall i :: 0 <= i < |who| ==> !who[i].Crash?)
    && (forall i :: 0 <= i < |who| ==> !b[i].phase.Idle?)
  }

  ghost predicate HasSpokenFor(jobs: Jobs, k: string) {
    exists id :: id in jobs && jobs[id].mediaKey == k && SpokenFor(jobs[id])
  }

  lemma BlockedIsSpokenFor(jobs: Jobs, k: string)
    ensures Blocked(jobs, k) <==> HasSpokenFor(jobs, k)
  {
    forall id | id in jobs ensures Blocking(jobs[id].status) <==> SpokenFor(jobs[id]) {
    }
    if Blocked(jobs, k) {
      var id :| id in jobs && jobs[id].mediaKey == k && Blocking(jobs[id].status);
      assert SpokenFor(jobs[id]);
    }
    if HasSpokenFor(jobs, k) {
      var id :| id in jobs && jobs[id].mediaKey == k && SpokenFor(jobs[id]);
      assert Blocking(jobs[id].status);
    }
  }

  /** The key had a pending, retrying, in_progress or succeeded job in one of the states up
      to the i-th. */
  ghost predicate Served(b: seq<Sys>, i: nat, k: string)
    requires i < |b|
  {
    exists j :: 0 <= j <= i && HasSpokenFor(b[j].t.jobs, k)
  }

  /** Which keys a run has not seen to yet. */
  function Unseen(p: Phase): set<string> {
    match p
    case Checking(_, keys, _, pending) => set k | k in keys && k !in pending
    case Opening(_, _, todo) => Elems(todo)
    case Enqueuing(_, _, todo, _) => Elems(todo)
    case _ => {}
  }

  ghost predicate SeenTo(b: seq<Sys>, i: nat, keys: seq<string>)
    requires i < |b|
  {
    forall k :: k in Elems(keys) && k !in Unseen(b[i].phase) ==> Served(b, i, k)
  }

  /** A run that has its selection is on its way through these phases. */
  predicate OnTheWay(p: Phase, cfg: Config, keys: seq<string>) {
    match p
    case Checking(c, ks, _, _) => c == cfg && ks == keys
    case Opening(_, _, _) => true
    case Enqueuing(_, _, _, _) => true
    case Scanning(_, _) => true
    case Updating(_, _, _, _) => true
    case Idle => true
    case _ => false
  }

  lemma CheckSees(s: Sys, s': Sys, n: Positive, cfg: Config, keys: seq<string>, k: string)
    requires s.phase.Checking? && s'.t == s.t && CheckStep(s.t, s.phase, s'.phase, n)
    requires OnTheWay(s.phase, cfg, keys) && cfg.limit <= 0 && !cfg.dryRun
    ensures OnTheWay(s'.phase, cfg, keys)
    ensures k in Elems(keys) && k in Unseen(s.phase) && k !in Unseen(s'.phase) ==> Blocked(s.t.jobs, k)
  {
    if s.phase.next >= |keys| {
      FilterOutKeeps(keys, s.phase.pending);
    }
  }

  lemma EnqueueSees(s: Sys, s': Sys, n: Positive, k: string)
    requires s.phase.Enqueuing? && EnqueueStep(s.t, s.phase, s'.t, s'.phase, n)
    ensures k in Unseen(s.phase) && k !in Unseen(s'.phase) ==> Blocked(s'.t.jobs, k)
  {
    var todo := s.phase.todo;
    if |todo| > 0 {
      var chunk := Chunk(todo, 0, n);
      assert todo == chunk + todo[|chunk|..];
      ElemsConcat(chunk, todo[|chunk|..]);
      if k in Elems(chunk) {
        assert k in NewKeys(s.t.jobs, s'.t.jobs);
        var id :| id in NewIds(s.t.jobs, s'.t.jobs) && s'.t.jobs[id].mediaKey == k;
        assert id in s'.t.jobs && Blocking(s'.t.jobs[id].status);
      }
    }
  }

  /** A step leaves no key unserved that it no longer means to see to. */
  lemma StepSees(who: Actor, s: Sys, s': Sys, n: Positive, cfg: Config, keys: seq<string>, k: string)
    requires Next(who, s, s', n) && !who.Crash? && !s.phase.Idle?
    requires OnTheWay(s.phase, cfg, keys) && cfg.limit <= 0 && !cfg.dryRun
    ensures OnTheWay(s'.phase, cfg, keys)
    ensures k in Elems(keys) && k in Unseen(s.phase) && k !in Unseen(s'.phase) ==>
              Blocked(s.t.jobs, k) || Blocked(s'.t.jobs, k)
  {
    if who.WarmCommand? {
      match s.phase
      case Checking(_, _, _, _) => CheckSees(s, s', n, cfg, keys, k);
      case Enqueuing(_, _, _, _) => EnqueueSees(s, s', n, k);
      case _ =>
    }
  }

  lemma {:induction false} SeenToAlways(b: seq<Sys>, who: seq<Actor>, n: Positive, cfg: Config, keys: seq<string>,
                                       i: nat)
    requires CoveringRun(b, who, n, cfg, keys) && cfg.limit <= 0 && !cfg.dryRun && i < |b|
    ensures OnTheWay(b[i].phase, cfg, keys) && SeenTo(b, i, keys)
  {
    hide Next;
    if i == 0 {
    } else {
      SeenToAlways(b, who, n, cfg, keys, i - 1);
      assert Next(who[i - 1], b[i - 1], b[i - 1 + 1], n);
      StepSees(who[i - 1], b[i - 1], b[i], n, cfg, keys, "");
      forall k | k in Elems(keys) && k !in Unseen(b[i].phase) ensures Served(b, i, k) {
        StepSees(who[i - 1], b[i - 1], b[i], n, cfg, keys, k);
        BlockedIsSpokenFor(b[i - 1].t.jobs, k);
        BlockedIsSpokenFor(b[i].t.jobs, k);
        if k !in Unseen(b[i - 1].phase) {
          var j :| 0 <= j <= i - 1 && HasSpokenFor(b[j].t.jobs, k);
        }
      }
    }
  }

  /** Coverage beside live workers: once an unlimited run that was not stopped is through,
      every media it selected has had a pending, retrying, in_progress or succeeded job in
      some state since the run began to check, whatever workers did meanwhile. */
  lemma EverySelectedServed(b: seq<Sys>, who: seq<Actor>, n: Positive, cfg: Config, keys: seq<string>, k: string)
    requires CoveringRun(b, who, n, cfg, keys) && cfg.limit <= 0 && !cfg.dryRun
    requires b[|who|].phase.Idle? && k in keys
    ensures Served(b, |who|, k)
  {
    SeenToAlways(b, who, n, cfg, keys, |who|);
    assert k in Elems(keys);
  }
}
