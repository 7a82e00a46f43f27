/** Concrete tables and histories on which what is said about `warm` fails. */
module WarmExamples {
  import opened Collections
  import opened Tables
  import opened Paging
  import opened WarmSpec
  import opened WarmCoverage
  import opened WarmProtocol
  import opened ProtocolCancel

  const PLAIN: Config := Config([], 0, false, false)
  const EXCLUSIVE: Config := Config([], 0, false, true)
  const ACTIVE: map<string, Option<string>> := map["listing" := Some("Active")]
  const RUNNING: map<Id, Event> := map[3 := WARM_EVENT]

  lemma ActiveMatches(cfg: Config)
    requires cfg.statuses == []
    ensures MatchingListings(ACTIVE, Statuses(cfg)) == {"listing"}
  {
    assert DEFAULT_STATUSES[0] == "Active" && "Active" in Statuses(cfg);
  }

  // ---- an empty selection ------------------------------------------------------------

  /** One pending job for the media of a closed listing, and nothing on the market. */
  const CLOSED: Tables := Tables(
    map["listing" := Some("Closed")], map["photo" := Media(PropertyMedia, "listing", None, 0)],
    map[1 := Job("photo", Pending, None, 3, 0)], RUNNING, Some("mls"))

  lemma ClosedHasNoTarget()
    ensures Target(CLOSED, EXCLUSIVE) == {}
  {
    assert "Closed" !in DEFAULT_STATUSES;
    assert MatchingListings(CLOSED.listings, Statuses(EXCLUSIVE)) == {};
  }

  /** A run that finds nothing to link, enqueue or cancel may leave all tables alone. */
  lemma IdleRun(t: Tables, cfg: Config)
    requires forall k :: k in t.media && t.media[k].attachmentId.None? ==> !Linkable(t.jobs, k)
    requires Missing(t, cfg) == {} && (cfg.exclusive ==> Target(t, cfg) == {})
    ensures Complete(t, cfg, t)
  {
    assert NewIds(t.jobs, t.jobs) == {} && NewKeys(t.jobs, t.jobs) == {};
  }

  /** An exclusive run finds nothing to select and leaves the stray job pending. */
  lemma ClosedKeepsStray(f: Tables)
    requires Complete(CLOSED, EXCLUSIVE, f)
    ensures 1 in Strays(f.jobs, Target(CLOSED, EXCLUSIVE))
  {
    ClosedHasNoTarget();
    StraysLeft(CLOSED, EXCLUSIVE, Target(CLOSED, EXCLUSIVE), Missing(CLOSED, EXCLUSIVE), f);
    assert 1 in Strays(CLOSED.jobs, {});
  }

  /** There is such a run. */
  lemma ClosedRun()
    ensures Complete(CLOSED, EXCLUSIVE, CLOSED)
  {
    ClosedHasNoTarget();
    assert forall id :: id in CLOSED.jobs ==> !CLOSED.jobs[id].status.Succeeded?;
    assert Missing(CLOSED, EXCLUSIVE) == {};
    IdleRun(CLOSED, EXCLUSIVE);
  }

  // ---- a canceled refresh --------------------------------------------------------------

  /** An Active listing with one photo to fetch and one stored photo whose refresh is
      pending as job 1. */
  const REFRESH: Tables := Tables(
    ACTIVE,
    map["stored" := Media(PropertyMedia, "listing", Some(7), 0),
        "wanted" := Media(PropertyMedia, "listing", None, 0)],
    map[1 := Job("stored", Pending, None, 3, 0)], RUNNING, Some("mls"))

  /** What an exclusive run makes of it: the refresh canceled, the other photo queued. */
  const REFRESHED: Tables := REFRESH.(
    jobs := map[1 := Job("stored", Canceled, None, 3, 1), 2 := Job("wanted", Pending, None, 3, 1)])

  lemma RefreshTarget()
    ensures OnMarket(REFRESH, EXCLUSIVE, "stored")
    ensures Target(REFRESH, EXCLUSIVE) == {"wanted"} == Missing(REFRESH, EXCLUSIVE)
  {
    ActiveMatches(EXCLUSIVE);
    assert !Linkable(REFRESH.jobs, "wanted") && !Blocked(REFRESH.jobs, "wanted");
  }

  lemma RefreshRun()
    ensures Complete(REFRESH, EXCLUSIVE, REFRESHED)
  {
    RefreshTarget();
    var two: Id := 2;
    assert two !in REFRESH.jobs;
    assert two in NewIds(REFRESH.jobs, REFRESHED.jobs);
    forall id | id in NewIds(REFRESH.jobs, REFRESHED.jobs) ensures id == two {
      assert id in REFRESHED.jobs && id !in REFRESH.jobs;
    }
    assert NewIds(REFRESH.jobs, REFRESHED.jobs) == {two};
    assert NewKeys(REFRESH.jobs, REFRESHED.jobs) == {"wanted"};
    assert NewJobGood(two, REFRESHED.jobs[two], {"wanted"}, RUNNING);
    assert forall k :: !Linkable(REFRESH.jobs, k);
  }

  /** So canceling is not always recoverable: the exclusive run cancels a job of an Active
      listing, and no later run, however many there are and whatever their flags, queues
      that media again. */
  lemma RefreshIsLost(f: Tables, ts: seq<Tables>, cfgs: seq<Config>, i: nat)
    requires Complete(REFRESH, EXCLUSIVE, f)
    requires LaterRuns(ts, cfgs) && ts[0] == f && i < |ts|
    ensures REFRESH.jobs[1].status.Pending? && OnMarket(REFRESH, EXCLUSIVE, "stored")
    ensures f.jobs[1].status.Canceled?
    ensures !Blocked(ts[i].jobs, "stored")
    ensures i < |cfgs| ==> "stored" !in NewKeys(ts[i].jobs, ts[i + 1].jobs)
  {
    RefreshTarget();
    OnMarketCanceledExactly(REFRESH, EXCLUSIVE, f, 1);
    AttachedNeverQueued(REFRESH, EXCLUSIVE, f, "stored");
    forall id | id in f.jobs && f.jobs[id].mediaKey == "stored" ensures id == 1 {
      NewRowKey(REFRESH.jobs, f.jobs, id);
    }
    AttachedNeverQueuedLater(ts, cfgs, "stored", i);
  }

  // ---- a stuck key ---------------------------------------------------------------------

  /** A downloaded photo of an Active listing. */
  const STORED: Tables := Tables(
    ACTIVE, map["photo" := Media(PropertyMedia, "listing", Some(7), 0)],
    map[1 := Job("photo", Succeeded, Some(7), 3, 0)], RUNNING, Some("mls"))

  /** The same once the attachment row has been deleted. */
  const DELETED: Tables := STORED.(
    media := map["photo" := Media(PropertyMedia, "listing", None, 0)],
    jobs := map[1 := Job("photo", Succeeded, None, 3, 0)])

  lemma DeletedIs()
    ensures DeleteAttachment(STORED, 7) == DELETED
  {
    assert DeleteAttachment(STORED, 7).jobs == DELETED.jobs;
    assert DeleteAttachment(STORED, 7).media == DELETED.media;
  }

  lemma DeletedTarget()
    ensures Target(DELETED, PLAIN) == {"photo"} && Missing(DELETED, PLAIN) == {} && !Linkable(DELETED.jobs, "photo")
    ensures Stuck(DELETED.jobs, "photo")
  {
    ActiveMatches(PLAIN);
    assert DELETED.jobs[1].mediaKey == "photo" && DELETED.jobs[1].status.Succeeded?;
    assert HasSucceeded(DELETED.jobs, "photo") && Blocked(DELETED.jobs, "photo");
  }

  /** Once the attachment row is deleted, an unlimited run selects the photo, gives it no
      live job and leaves it without an attachment. */
  lemma DeletedPhotoIsStuck(f: Tables)
    requires Complete(DeleteAttachment(STORED, 7), PLAIN, f)
    ensures "photo" in Target(DeleteAttachment(STORED, 7), PLAIN)
    ensures !Active(f.jobs, "photo") && f.media["photo"].attachmentId.None?
  {
    DeletedIs();
    DeletedTarget();
    TargetCovered(DELETED, PLAIN, f, "photo");
    assert RepairedRow("photo", DELETED.media["photo"], DELETED.jobs, f.media["photo"]);
  }

  /** There is such a run. */
  lemma DeletedRun()
    ensures Complete(DeleteAttachment(STORED, 7), PLAIN, DELETED)
  {
    DeletedIs();
    DeletedTarget();
    IdleRun(DELETED, PLAIN);
  }

  // ---- a claim between a scan and its update -------------------------------------------

  /** A photo to fetch whose job 1 is already queued, and job 2 for a media outside. */
  const GAP: Tables := Tables(
    ACTIVE,
    map["wanted" := Media(PropertyMedia, "listing", None, 0), "off" := Media(PropertyMedia, "closed", None, 0)],
    map[1 := Job("wanted", Pending, None, 3, 0), 2 := Job("off", Pending, None, 3, 0)], RUNNING, Some("mls"))

  const IN_GAP: Sys := Sys(GAP, Updating({"wanted"}, 2, {2}, GAP.jobs))

  lemma GapStep(run: Run, from: Phase, to: Phase) returns (run': Run)
    requires Leads(run, WARM_CHUNK, Sys(GAP, Idle), Sys(GAP, from))
    requires WarmStep(Sys(GAP, from), Sys(GAP, to), WARM_CHUNK)
    ensures Leads(run', WARM_CHUNK, Sys(GAP, Idle), Sys(GAP, to))
  {
    LeadsOn(run, WARM_CHUNK, Sys(GAP, Idle), Sys(GAP, from), Sys(GAP, to));
    run' := Then(run, Sys(GAP, to));
  }

  lemma GapSelects()
    ensures WarmStep(Sys(GAP, Repairing(EXCLUSIVE)), Sys(GAP, Listing(EXCLUSIVE)), WARM_CHUNK)
    ensures WarmStep(Sys(GAP, Listing(EXCLUSIVE)), Sys(GAP, Selecting(EXCLUSIVE, ["listing"], [])), WARM_CHUNK)
  {
    assert forall k :: !Linkable(GAP.jobs, k);
    ActiveMatches(EXCLUSIVE);
    var keys := ["listing"];
    assert Elems(keys) == {"listing"} && Distinct(keys);
  }

  lemma GapFinds()
    ensures WarmStep(Sys(GAP, Selecting(EXCLUSIVE, ["listing"], [])),
                     Sys(GAP, Selecting(EXCLUSIVE, [], ["wanted"])), WARM_CHUNK)
  {
    var keys := ["listing"];
    var found := ["wanted"];
    assert Chunk(keys, 0, WARM_CHUNK) == keys && keys[1..] == [];
    assert Elems(found) == {"wanted"} == Unattached(GAP.media, Elems(keys)) && Distinct(found);
    assert [] + found == found;
  }

  lemma GapChecks()
    ensures WarmStep(Sys(GAP, Checking(EXCLUSIVE, ["wanted"], 0, {})),
                     Sys(GAP, Checking(EXCLUSIVE, ["wanted"], 1, {"wanted"})), WARM_CHUNK)
    ensures WarmStep(Sys(GAP, Checking(EXCLUSIVE, ["wanted"], 1, {"wanted"})),
                     Sys(GAP, Scanning({"wanted"}, NIL)), WARM_CHUNK)
  {
    var keys := ["wanted"];
    assert Elems(keys) == {"wanted"} && Chunk(keys, 0, WARM_CHUNK) == keys;
    assert 1 in GAP.jobs && GAP.jobs[1].mediaKey == "wanted" && Blocked(GAP.jobs, "wanted");
    assert (set k | k in Elems(keys) && (k in {} || (k in keys && Blocked(GAP.jobs, k)))) == {"wanted"};
    assert FilterOut(keys, {"wanted"}) == FilterOut(keys[..0], {"wanted"}) == [];
  }

  lemma GapScans()
    ensures WarmStep(Sys(GAP, Scanning({"wanted"}, NIL)), IN_GAP, WARM_CHUNK)
  {
    var page: seq<Id> := [1, 2];
    assert CancelableAbove(GAP.jobs, NIL) == {1, 2} == Elems(page);
    assert Doomed(GAP.jobs, page, {"wanted"}) == {2};
    assert IsPage(page, CancelableAbove(GAP.jobs, NIL), WARM_CHUNK);
    assert ScanStep(GAP, Scanning({"wanted"}, NIL), IN_GAP.phase, WARM_CHUNK);
  }

  /** An exclusive run from Idle gets between a scan and its update with job 2 listed. */
  lemma GapReached() returns (run: Run)
    ensures Leads(run, WARM_CHUNK, Sys(GAP, Idle), IN_GAP)
  {
    hide Steps;
    GapSelects();
    GapFinds();
    GapChecks();
    GapScans();
    run := GapStep(GapStart(), Idle, Repairing(EXCLUSIVE));
    run := GapStep(run, Repairing(EXCLUSIVE), Listing(EXCLUSIVE));
    run := GapStep(run, Listing(EXCLUSIVE), Selecting(EXCLUSIVE, ["listing"], []));
    run := GapStep(run, Selecting(EXCLUSIVE, ["listing"], []), Selecting(EXCLUSIVE, [], ["wanted"]));
    run := GapStep(run, Selecting(EXCLUSIVE, [], ["wanted"]), Checking(EXCLUSIVE, ["wanted"], 0, {}));
    run := GapStep(run, Checking(EXCLUSIVE, ["wanted"], 0, {}), Checking(EXCLUSIVE, ["wanted"], 1, {"wanted"}));
    run := GapStep(run, Checking(EXCLUSIVE, ["wanted"], 1, {"wanted"}), Scanning({"wanted"}, NIL));
    run := GapStep(run, Scanning({"wanted"}, NIL), IN_GAP.phase);
  }

  function GapStart(): (run: Run)
    ensures Leads(run, WARM_CHUNK, Sys(GAP, Idle), Sys(GAP, Idle))
  {
    Start(Sys(GAP, Idle))
  }

  lemma HistoryGoesOn(b: seq<Sys>, who: seq<Actor>, n: Positive, actor: Actor, s: Sys)
    requires History(b, who, n) && Next(actor, b[|who|], s, n)
    ensures History(b + [s], who + [actor], n)
  {
    var b', who' := b + [s], who + [actor];
    forall i | 0 <= i < |who'| ensures Next(who'[i], b'[i], b'[i + 1], n) {
      if i < |who| { assert Next(who[i], b[i], b[i + 1], n); }
    }
  }

  /** A history from Idle in which a run cancels a job that is in_progress: the one it
      listed and a worker claimed before the update. */
  lemma ClaimedJobIsCanceled() returns (b: seq<Sys>, who: seq<Actor>)
    ensures History(b, who, WARM_CHUNK) && |who| > 0 && b[0] == Sys(GAP, Idle)
    ensures who[|who| - 1].WarmCommand?
    ensures 2 in b[|who| - 1].t.jobs && b[|who| - 1].t.jobs[2].status.InProgress?
    ensures 2 in b[|who|].t.jobs && b[|who|].t.jobs[2].status.Canceled?
  {
    var run := GapReached();
    var n := WARM_CHUNK;
    RunIsHistory(run, n);
    b, who := States(run), seq(|States(run)| - 1, _ => WarmCommand);
    assert b[|who|] == IN_GAP;
    var claimed, updated := ClaimInBetweenIsLost(IN_GAP, 2, n);
    HistoryGoesOn(b, who, n, Worker, claimed);
    b, who := b + [claimed], who + [Worker];
    HistoryGoesOn(b, who, n, WarmCommand, updated);
    b, who := b + [updated], who + [WarmCommand];
  }
}
