/** The rows `warm` reads and writes, and the conditions its queries select them by.
    A uuid is a natural number: only its order matters, and 0 is uuid.Nil. */
module Tables {
  import opened Collections

  type Id = nat
  const NIL: Id := 0

  datatype JobStatus =
    | Pending | InProgress | Succeeded | Failed | Retrying | PermanentlyFailed | Canceled

  datatype Job = Job(
    mediaKey: string, status: JobStatus, attachmentId: Option<Id>, eventId: Id, modifiedAt: int)

  datatype Owner = PropertyMedia | MemberMedia | OfficeMedia

  datatype Media = Media(
    owner: Owner, recordKey: string, attachmentId: Option<Id>, modifiedAt: int)

  datatype Event = Event(resource: string, runType: string, status: string, version: string)

  type Jobs = map<Id, Job>

  /** listings maps a listing key to its StandardStatus, which may be null. */
  datatype Tables = Tables(
    listings: map<string, Option<string>>, media: map<string, Media>, jobs: Jobs,
    events: map<Id, Event>, source: Option<string>)

  datatype Config = Config(statuses: seq<string>, limit: int, dryRun: bool, exclusive: bool)

  const DEFAULT_STATUSES: seq<string> := ["Active", "ActiveUnderContract"]
  const WARM_CHUNK: Positive := 1000

  function Statuses(cfg: Config): seq<string> {
    if |cfg.statuses| == 0 then DEFAULT_STATUSES else cfg.statuses
  }

  predicate Cancelable(s: JobStatus) {
    s.Pending? || s.Retrying?
  }

  predicate Blocking(s: JobStatus) {
    s.Pending? || s.Retrying? || s.InProgress? || s.Succeeded?
  }

  predicate RunningBackfill(e: Event) {
    e.resource == "media" && e.runType == "backfill" && e.status == "running"
  }

  const WARM_EVENT: Event := Event("media", "backfill", "running", "warm")

  function MatchingListings(listings: map<string, Option<string>>, statuses: seq<string>): set<string> {
    set k | k in listings && listings[k].Some? && listings[k].value in statuses
  }

  /** Media of the given property listings with no attachment yet. */
  function Unattached(media: map<string, Media>, listingKeys: set<string>): set<string> {
    set k | k in media && media[k].owner.PropertyMedia? && media[k].recordKey in listingKeys
            && media[k].attachmentId.None?
  }

  function CancelableIds(jobs: Jobs): set<Id> {
    set id | id in jobs && Cancelable(jobs[id].status)
  }

  function CancelableAbove(jobs: Jobs, cursor: Id): set<Id> {
    set id | id in jobs && Cancelable(jobs[id].status) && id > cursor
  }

  predicate Blocked(jobs: Jobs, k: string) {
    exists id :: id in jobs && jobs[id].mediaKey == k && Blocking(jobs[id].status)
  }

  /** A job the link repair can take an attachment from. */
  predicate Downloaded(j: Job, k: string) {
    j.mediaKey == k && j.status.Succeeded? && j.attachmentId.Some?
  }

  predicate Linkable(jobs: Jobs, k: string) {
    exists id :: id in jobs && Downloaded(jobs[id], k)
  }

  /** UPDATE attachment_job SET status = 'canceled' WHERE id IN (ids): the filter is
      the id list alone. */
  function MarkCanceled(jobs: Jobs, ids: set<Id>, now: int): Jobs {
    map id | id in jobs ::
      if id in ids then jobs[id].(status := Canceled, modifiedAt := now) else jobs[id]
  }

  /** The job after some statement canceled it: only status and modified_at differ. */
  ghost predicate CanceledFrom(before: Job, after: Job) {
    after == before.(status := Canceled, modifiedAt := after.modifiedAt)
  }

  function NewIds(before: Jobs, after: Jobs): set<Id> {
    set id | id in after && id !in before
  }

  function NewKeys(before: Jobs, after: Jobs): set<string> {
    set id | id in NewIds(before, after) :: after[id].mediaKey
  }

  ghost predicate PendingFor(j: Job, eventId: Id) {
    j == Job(j.mediaKey, Pending, None, eventId, j.modifiedAt)
  }

  lemma NewRowKey(before: Jobs, after: Jobs, id: Id)
    ensures id in after ==> id in before || after[id].mediaKey in NewKeys(before, after)
  {
    assert id in after && id !in before ==> id in NewIds(before, after);
  }

  lemma NewIdsJoin(a: Jobs, b: Jobs, c: Jobs)
    requires a.Keys <= b.Keys <= c.Keys
    ensures NewIds(a, c) == NewIds(a, b) + NewIds(b, c)
    ensures |NewIds(a, c)| == |NewIds(a, b)| + |NewIds(b, c)|
  {
    assert NewIds(a, c) == NewIds(a, b) + NewIds(b, c);
    assert NewIds(a, b) !! NewIds(b, c);
  }

  lemma NewKeysJoin(a: Jobs, b: Jobs, c: Jobs)
    requires a.Keys <= b.Keys <= c.Keys && forall id :: id in b ==> c[id].mediaKey == b[id].mediaKey
    ensures NewKeys(a, c) == NewKeys(a, b) + NewKeys(b, c)
  {
    forall k | k in NewKeys(a, b) + NewKeys(b, c) ensures k in NewKeys(a, c) {
      if k in NewKeys(a, b) {
        var id :| id in NewIds(a, b) && b[id].mediaKey == k;
        assert id in NewIds(a, c) && c[id].mediaKey == k;
      } else {
        var id :| id in NewIds(b, c) && c[id].mediaKey == k;
        assert id in NewIds(a, c);
      }
    }
    forall k | k in NewKeys(a, c) ensures k in NewKeys(a, b) + NewKeys(b, c) {
      var id :| id in NewIds(a, c) && c[id].mediaKey == k;
      if id in b { assert id in NewIds(a, b) && b[id].mediaKey == k; } else { assert id in NewIds(b, c); }
    }
  }
}
