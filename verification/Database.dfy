/** The database session `warm` runs against: the tables it touches, and one method per
    SQL statement it issues, each atomic. */
module Database {
  import opened Collections
  import opened Tables
  import opened WarmSpec

  class Database {
    const warmChunk: Positive
    var listings: map<string, Option<string>>
    var media: map<string, Media>
    var jobs: Jobs
    var events: map<Id, Event>
    var source: Option<string>
    var clock: int
    /** How many more statements succeed; then every one fails, so that a run can be
        stopped before any of its statements. */
    var budget: nat

    constructor (chunk: Positive, t: Tables, budget: nat)
      ensures warmChunk == chunk && Snapshot() == t && this.budget == budget
    {
      warmChunk := chunk;
      listings, media, jobs, events, source := t.listings, t.media, t.jobs, t.events, t.source;
      clock, this.budget := 0, budget;
    }

    ghost function Snapshot(): Tables
      reads this
    {
      Tables(listings, media, jobs, events, source)
    }

    method Statement() returns (ok: bool)
      modifies this`budget, this`clock
      ensures ok == (old(budget) > 0)
      ensures budget == if ok then old(budget) - 1 else 0
    {
      ok := budget > 0;
      if ok { budget := budget - 1; }
      clock := clock + 1;
    }

    /** UPDATE media SET attachment_id FROM attachment_job: when several jobs match one
        media row, the row takes one of them, unspecified which. */
    method RepairLinks() returns (ok: bool)
      modifies this`media, this`budget, this`clock
      ensures ok ==> Repaired(old(media), jobs, media)
      ensures !ok ==> media == old(media)
      ensures ok == (old(budget) > 0) && budget <= old(budget)
    {
      ok := Statement();
      if !ok { return; }
      var left, updated := media.Keys, media;
      while left != {}
        invariant left <= media.Keys == updated.Keys
        invariant forall k :: k in media ==>
                    if k in left then updated[k] == media[k]
                    else RepairedRow(k, media[k], jobs, updated[k])
        decreases left
      {
        var k :| k in left;
        var found := set id | id in jobs && Downloaded(jobs[id], k);
        if media[k].attachmentId.None? && found != {} {
          var id :| id in found;
          updated := updated[k := media[k].(attachmentId := jobs[id].attachmentId, modifiedAt := clock)];
        }
        assert found != {} <==> Linkable(jobs, k) by {
          if Linkable(jobs, k) {
            var id :| id in jobs && Downloaded(jobs[id], k);
            assert id in found;
          }
        }
        left := left - {k};
      }
      media := updated;
    }

    method ListingKeys(statuses: seq<string>) returns (ok: bool, keys: seq<string>)
      modifies this`budget, this`clock
      ensures ok ==> Distinct(keys) && Elems(keys) == MatchingListings(listings, statuses)
      ensures ok == (old(budget) > 0) && budget <= old(budget)
    {
      ok := Statement();
      keys := [];
      if ok { keys := Enumerate(MatchingListings(listings, statuses)); }
    }

    method UnattachedKeys(listingKeys: seq<string>) returns (ok: bool, keys: seq<string>)
      modifies this`budget, this`clock
      ensures ok ==> Distinct(keys) && Elems(keys) == Unattached(media, Elems(listingKeys))
      ensures ok == (old(budget) > 0) && budget <= old(budget)
    {
      ok := Statement();
      keys := [];
      if ok { keys := Enumerate(Unattached(media, Elems(listingKeys))); }
    }

    /** SELECT media_key of the blocking jobs of these keys: one row per job. */
    method BlockingJobs(keys: seq<string>) returns (ok: bool, rows: seq<string>)
      modifies this`budget, this`clock
      ensures ok ==> Elems(rows) == set k | k in keys && Blocked(jobs, k)
      ensures ok == (old(budget) > 0) && budget <= old(budget)
    {
      ok := Statement();
      rows := [];
      if !ok { return; }
      var matching := set id | id in jobs && jobs[id].mediaKey in keys && Blocking(jobs[id].status);
      var ids: seq<Id> := Enumerate<Id>(matching);
      var table := jobs;
      forall i | 0 <= i < |ids| ensures ids[i] in table {
        assert ids[i] in Elems(ids) && ids[i] in matching;
      }
      rows := seq(|ids|, i requires 0 <= i < |ids| && ids[i] in table => table[ids[i]].mediaKey);
      forall k | k in keys && Blocked(jobs, k) ensures k in rows {
        var id :| id in jobs && jobs[id].mediaKey == k && Blocking(jobs[id].status);
        assert id in Elems(ids);
        var i :| 0 <= i < |ids| && ids[i] == id;
        assert rows[i] == k;
      }
      forall k | k in rows ensures k in keys && Blocked(jobs, k) {
        var i :| 0 <= i < |rows| && rows[i] == k;
        assert ids[i] in Elems(ids);
      }
    }

    method FirstRunningBackfill() returns (ok: bool, found: Option<Id>)
      modifies this`budget, this`clock
      ensures ok && found.Some? ==> found.value in events && RunningBackfill(events[found.value])
      ensures ok && found.None? ==> forall e :: e in events ==> !RunningBackfill(events[e])
      ensures ok == (old(budget) > 0) && budget <= old(budget)
    {
      ok := Statement();
      found := None;
      var open := set e | e in events && RunningBackfill(events[e]);
      if ok && open != {} {
        var e :| e in open;
        found := Some(e);
      }
      assert forall e :: e in events && RunningBackfill(events[e]) ==> e in open;
    }

    method FirstSource() returns (ok: bool, found: Option<string>)
      modifies this`budget, this`clock
      ensures ok ==> found == source
      ensures ok == (old(budget) > 0) && budget <= old(budget)
    {
      ok := Statement();
      found := source;
    }

    method CreateEvent(e: Event) returns (ok: bool, id: Id)
      modifies this`events, this`budget, this`clock
      ensures ok ==> id != NIL && id !in old(events) && events == old(events)[id := e]
      ensures !ok ==> events == old(events)
      ensures ok == (old(budget) > 0) && budget <= old(budget)
    {
      ok := Statement();
      id := NIL;
      if ok {
        id := FreshId(events.Keys);
        events := events[id := e];
      }
    }

    /** A bulk insert of pending jobs, one per key, under ids no row has. */
    method InsertJobs(keys: seq<string>, eventId: Id) returns (ok: bool)
      modifies this`jobs, this`budget, this`clock
      ensures ok ==> Inserted(old(jobs), keys, eventId, jobs)
      ensures !ok ==> jobs == old(jobs)
      ensures ok == (old(budget) > 0) && budget <= old(budget)
    {
      ok := Statement();
      if !ok { return; }
      var i := 0;
      while i < |keys|
        modifies this`jobs
        invariant 0 <= i <= |keys|
        invariant Inserted(old(jobs), keys[..i], eventId, jobs)
      {
        ghost var before := jobs;
        var id := FreshId(jobs.Keys);
        jobs := jobs[id := Job(keys[i], Pending, None, eventId, clock)];
        InsertedOne(before, id, keys[i], eventId, jobs);
        InsertedJoin(old(jobs), keys[..i], eventId, before, [keys[i]], jobs);
        assert keys[..i + 1] == keys[..i] + [keys[i]];
        i := i + 1;
      }
      assert keys[..i] == keys;
    }

    method CountCancelable() returns (ok: bool, n: nat)
      modifies this`budget, this`clock
      ensures ok ==> n == |CancelableIds(jobs)|
      ensures ok == (old(budget) > 0) && budget <= old(budget)
    {
      ok := Statement();
      n := |CancelableIds(jobs)|;
    }

    method ScanCancelable(cursor: Id) returns (ok: bool, page: seq<Id>)
      modifies this`budget, this`clock
      ensures ok ==> IsPage(page, CancelableAbove(jobs, cursor), warmChunk)
      ensures ok == (old(budget) > 0) && budget <= old(budget)
    {
      ok := Statement();
      page := FirstIds(CancelableAbove(jobs, cursor), warmChunk);
      FirstIdsIsPage(CancelableAbove(jobs, cursor), warmChunk);
    }

    method CancelIds(ids: set<Id>) returns (ok: bool, n: nat)
      modifies this`jobs, this`budget, this`clock
      ensures ok ==> jobs == MarkCanceled(old(jobs), ids, clock) && n == |set id | id in ids && id in old(jobs)|
      ensures !ok ==> jobs == old(jobs)
      ensures ok == (old(budget) > 0) && budget <= old(budget)
    {
      ok := Statement();
      n := |set id | id in ids && id in jobs|;
      if ok { jobs := MarkCanceled(jobs, ids, clock); }
    }
  }
}
