/** What a run of `warm` promises about the tables, as a relation between the tables
    before and after: Progress for a run stopped anywhere, Complete for one that
    returned without error. */
module WarmSpec {
  import opened Collections
  import opened Tables

  /** Link repair: a null link takes the attachment of some downloaded job of its key,
      iff there is one; nothing else moves. */
  ghost predicate Repaired(media: map<string, Media>, jobs: Jobs, media': map<string, Media>) {
    && media'.Keys == media.Keys
    && forall k :: k in media ==> RepairedRow(k, media[k], jobs, media'[k])
  }

  ghost predicate RepairedRow(k: string, m: Media, jobs: Jobs, m': Media) {
    if m.attachmentId.None? && Linkable(jobs, k)
    then
      && m' == m.(attachmentId := m'.attachmentId, modifiedAt := m'.modifiedAt)
      && exists id :: id in jobs && Downloaded(jobs[id], k) && jobs[id].attachmentId == m'.attachmentId
    else m' == m
  }

  /** The media a run is about: of a matching listing, unattached, and not repairable
      from a job that already succeeded. */
  ghost function Target(t: Tables, cfg: Config): set<string> {
    set k | k in Unattached(t.media, MatchingListings(t.listings, Statuses(cfg)))
            && !Linkable(t.jobs, k)
  }

  ghost function Missing(t: Tables, cfg: Config): set<string> {
    UnblockedOf(Target(t, cfg), t.jobs)
  }

  ghost function UnblockedOf(keys: set<string>, jobs: Jobs): set<string> {
    set k | k in keys && !Blocked(jobs, k)
  }

  function Quota(limit: int, n: nat): nat {
    if 0 < limit < n then limit else n
  }

  /** A row that was there before is as it was, or was canceled because --exclusive was
      given and its media is not a target. */
  ghost predicate OldJobKept(id: Id, j: Job, target: set<string>, cancels: bool, j': Job) {
    || j' == j
    || (cancels && id != NIL && Cancelable(j.status) && j.mediaKey !in target && CanceledFrom(j, j'))
  }

  /** A row the run inserted: pending, for a missing key, under a running backfill. */
  ghost predicate NewJobGood(id: Id, j: Job, missing: set<string>, events: map<Id, Event>) {
    && id != NIL && j.mediaKey in missing && PendingFor(j, j.eventId)
    && j.eventId in events && RunningBackfill(events[j.eventId])
  }

  ghost predicate JobsProgress(before: Jobs, target: set<string>, missing: set<string>, cancels: bool,
                               events: map<Id, Event>, after: Jobs)
  {
    && before.Keys <= after.Keys
    && (forall id :: id in before ==> OldJobKept(id, before[id], target, cancels, after[id]))
    && (forall id :: id in NewIds(before, after) ==> NewJobGood(id, after[id], missing, events))
    && |NewKeys(before, after)| == |NewIds(before, after)|
  }

  predicate BackfillOpen(events: map<Id, Event>) {
    exists e :: e in events && RunningBackfill(events[e])
  }

  ghost predicate EventOpened(before: map<Id, Event>, after: map<Id, Event>) {
    exists e: Id :: e !in before && after == before[e := WARM_EVENT]
  }

  /** At most one event is opened, only when none was running and there is something
      to enqueue. */
  ghost predicate EventsProgress(before: map<Id, Event>, mayOpen: bool, after: map<Id, Event>) {
    after == before || (mayOpen && !BackfillOpen(before) && EventOpened(before, after))
  }

  /** Everything a run may have done when it stops, wherever it stops. */
  ghost predicate ProgressFor(t: Tables, cfg: Config, target: set<string>, missing: set<string>, t': Tables) {
    && t'.listings == t.listings && t'.source == t.source
    && (t'.media == t.media || Repaired(t.media, t.jobs, t'.media))
    && JobsProgress(t.jobs, target, missing, cfg.exclusive && !cfg.dryRun && target != {}, t'.events, t'.jobs)
    && EventsProgress(t.events, !cfg.dryRun && missing != {}, t'.events)
    && (cfg.dryRun ==> t'.jobs == t.jobs)
  }

  ghost predicate Progress(t: Tables, cfg: Config, t': Tables) {
    ProgressFor(t, cfg, Target(t, cfg), Missing(t, cfg), t')
  }

  ghost predicate OthersCanceled(before: Jobs, target: set<string>, after: Jobs)
    requires before.Keys <= after.Keys
  {
    forall id :: id in before && id != NIL && Cancelable(before[id].status) && before[id].mediaKey !in target ==>
      CanceledFrom(before[id], after[id])
  }

  /** Everything a run that returned nil has done. */
  ghost predicate CompleteFor(t: Tables, cfg: Config, target: set<string>, missing: set<string>, t': Tables) {
    && ProgressFor(t, cfg, target, missing, t')
    && Repaired(t.media, t.jobs, t'.media)
    && |NewIds(t.jobs, t'.jobs)| == (if cfg.dryRun then 0 else Quota(cfg.limit, |missing|))
    && (NewIds(t.jobs, t'.jobs) == {} ==> t'.events == t.events)
    && (cfg.exclusive && !cfg.dryRun && target != {} ==> OthersCanceled(t.jobs, target, t'.jobs))
  }

  ghost predicate Complete(t: Tables, cfg: Config, t': Tables) {
    CompleteFor(t, cfg, Target(t, cfg), Missing(t, cfg), t')
  }

  /** A null link stays null only where nothing was downloaded, so after the repair the
      plain "attachment_id IS NULL" query finds exactly the targets. */
  lemma RepairMakesQueryExact(t: Tables, cfg: Config, media': map<string, Media>)
    requires Repaired(t.media, t.jobs, media')
    ensures Unattached(media', MatchingListings(t.listings, Statuses(cfg))) == Target(t, cfg)
  {
    var ls := MatchingListings(t.listings, Statuses(cfg));
    forall k | k in t.media ensures k in Unattached(media', ls) <==> k in Target(t, cfg) {
      assert RepairedRow(k, t.media[k], t.jobs, media'[k]);
    }
  }

  /** A non-null link is never overwritten; a null one is filled iff some succeeded job of
      its own key has an attachment, and then with such a job's. */
  lemma RepairFillsExactlyTheLinkable(media: map<string, Media>, jobs: Jobs, media': map<string, Media>, k: string)
    requires Repaired(media, jobs, media') && k in media
    ensures media[k].attachmentId.Some? ==> media'[k] == media[k]
    ensures media'[k].attachmentId.Some? <==>
            || media[k].attachmentId.Some?
            || exists id :: id in jobs && jobs[id].mediaKey == k && jobs[id].status.Succeeded?
                            && jobs[id].attachmentId.Some?
    ensures media'[k] != media[k] ==>
              && media'[k].owner == media[k].owner && media'[k].recordKey == media[k].recordKey
              && exists id :: id in jobs && jobs[id].mediaKey == k && jobs[id].status.Succeeded?
                              && jobs[id].attachmentId.Some? && jobs[id].attachmentId == media'[k].attachmentId
  {
    assert RepairedRow(k, media[k], jobs, media'[k]);
    assert Linkable(jobs, k) <==> exists id :: id in jobs && jobs[id].mediaKey == k && jobs[id].status.Succeeded?
                                               && jobs[id].attachmentId.Some? by {
      forall id | id in jobs
        ensures Downloaded(jobs[id], k) <==>
                jobs[id].mediaKey == k && jobs[id].status.Succeeded? && jobs[id].attachmentId.Some?
      {
      }
    }
  }

  /** Repairing twice changes nothing more, whichever jobs the first repair chose. */
  lemma RepairIsIdempotent(media: map<string, Media>, jobs: Jobs, m1: map<string, Media>, m2: map<string, Media>)
    requires Repaired(media, jobs, m1) && Repaired(m1, jobs, m2)
    ensures m2 == m1
  {
    forall k | k in media ensures m2[k] == m1[k] {
      assert RepairedRow(k, media[k], jobs, m1[k]) && RepairedRow(k, m1[k], jobs, m2[k]);
    }
  }

  /** The running backfill event, opened if there was none. */
  ghost predicate EventReady(before: map<Id, Event>, id: Id, after: map<Id, Event>) {
    && id in after && RunningBackfill(after[id])
    && if BackfillOpen(before)
       then after == before
       else id !in before && after == before[id := WARM_EVENT]
  }

  /** The table after inserting one pending row per key under new ids. */
  ghost predicate Inserted(before: Jobs, keys: seq<string>, eventId: Id, after: Jobs) {
    && Extends(before, after)
    && (forall id :: id in NewIds(before, after) ==> id != NIL && PendingFor(after[id], eventId))
    && NewKeys(before, after) == Elems(keys)
    && |NewIds(before, after)| == |keys|
  }

  lemma InsertedOne(before: Jobs, id: Id, key: string, eventId: Id, after: Jobs)
    requires id != NIL && id !in before
    requires exists now :: after == before[id := Job(key, Pending, None, eventId, now)]
    ensures Inserted(before, [key], eventId, after)
  {
    assert NewIds(before, after) == {id};
    assert NewKeys(before, after) == {key} == Elems([key]);
  }

  ghost predicate Extends(before: Jobs, after: Jobs) {
    before.Keys <= after.Keys && forall id :: id in before ==> after[id] == before[id]
  }

  lemma InsertedJoin(a: Jobs, keys: seq<string>, eventId: Id, b: Jobs, keys': seq<string>, c: Jobs)
    requires Inserted(a, keys, eventId, b) && Inserted(b, keys', eventId, c)
    ensures Inserted(a, keys + keys', eventId, c)
  {
    NewIdsJoin(a, b, c);
    NewKeysJoin(a, b, c);
    ElemsConcat(keys, keys');
  }
}
