/** Keyset paging over a table the loop itself is changing: what one page does, and
    what all pages up to a cursor amount to. */
module Paging {
  import opened Collections
  import opened Tables

  /** The rows of a page whose media is not kept. */
  function Doomed(jobs: Jobs, page: seq<Id>, keep: set<string>): set<Id> {
    set id | id in page && id in jobs && jobs[id].mediaKey !in keep
  }

  /** Every cancelable job with NIL < id <= cursor and a key outside keep has been
      canceled; every other row is as it was. */
  ghost predicate CanceledUpTo(before: Jobs, keep: set<string>, cursor: Id, after: Jobs) {
    && after.Keys == before.Keys
    && forall id :: id in before ==>
         if NIL < id <= cursor && Cancelable(before[id].status) && before[id].mediaKey !in keep
         then CanceledFrom(before[id], after[id])
         else after[id] == before[id]
  }

  /** The jobs nobody works on and nobody has finished with: pending and retrying. */
  ghost function WaitingIds(jobs: Jobs): set<Id> {
    set id | id in jobs && (jobs[id].status.Pending? || jobs[id].status.Retrying?)
  }

  /** Of those, the ones the cursor can reach. */
  ghost function WaitingInReach(jobs: Jobs): set<Id> {
    set id | id in jobs && id != NIL && (jobs[id].status.Pending? || jobs[id].status.Retrying?)
  }

  /** What the count and the scans of the loop select by is exactly that. */
  lemma CancelableIsWaiting(jobs: Jobs)
    ensures CancelableIds(jobs) == WaitingIds(jobs)
    ensures CancelableAbove(jobs, NIL) == WaitingInReach(jobs)
    ensures forall id :: id in jobs ==>
              (Cancelable(jobs[id].status) <==> jobs[id].status.Pending? || jobs[id].status.Retrying?)
  {
  }

  /** The single statement the paging loop stands in for:
      SET canceled WHERE status IN (pending, retrying) AND media_key NOT IN keep. */
  ghost predicate OneShotCancel(before: Jobs, keep: set<string>, after: Jobs) {
    && after.Keys == before.Keys
    && forall id :: id in before ==>
         if id in WaitingIds(before) && before[id].mediaKey !in keep
         then CanceledFrom(before[id], after[id])
         else after[id] == before[id]
  }

  /** What the whole loop does: all ids above uuid.Nil. */
  ghost predicate KeysetCancel(before: Jobs, keep: set<string>, after: Jobs) {
    && after.Keys == before.Keys
    && forall id :: id in before ==>
         if id != NIL && id in WaitingIds(before) && before[id].mediaKey !in keep
         then CanceledFrom(before[id], after[id])
         else after[id] == before[id]
  }

  /** Rows the cursor has not passed are still there to be found: canceling below the
      cursor neither hides nor adds a row above it. */
  lemma AboveCursorUntouched(before: Jobs, keep: set<string>, cursor: Id, after: Jobs)
    requires CanceledUpTo(before, keep, cursor, after)
    ensures CancelableAbove(after, cursor) == CancelableAbove(before, cursor)
  {
  }

  /** One page moves the cursor to its last row and extends the canceled prefix to it,
      although the page was read from the already changed table. */
  lemma PageAdvances(before: Jobs, keep: set<string>, cursor: Id, mid: Jobs, page: seq<Id>, n: nat, now: int)
    requires CanceledUpTo(before, keep, cursor, mid)
    requires IsPage(page, CancelableAbove(mid, cursor), n) && |page| > 0
    ensures CanceledUpTo(before, keep, page[|page| - 1], MarkCanceled(mid, Doomed(mid, page, keep), now))
    ensures page[|page| - 1] > cursor
    ensures CancelableAbove(before, cursor) == Elems(page) + CancelableAbove(before, page[|page| - 1])
    ensures Elems(page) !! CancelableAbove(before, page[|page| - 1])
  {
    AboveCursorUntouched(before, keep, cursor, mid);
    var last := page[|page| - 1];
    assert last in Elems(page);
    PageIsPrefix(page, CancelableAbove(mid, cursor), n);
    var after := MarkCanceled(mid, Doomed(mid, page, keep), now);
    forall id | id in before
      ensures if NIL < id <= last && Cancelable(before[id].status) && before[id].mediaKey !in keep
              then CanceledFrom(before[id], after[id])
              else after[id] == before[id]
    {
      assert id > cursor ==> mid[id] == before[id];
      assert id in page ==> id in Elems(page);
      assert id in CancelableAbove(mid, cursor) <==> id > cursor && Cancelable(before[id].status);
    }
  }

  /** A page holds exactly the rows up to its last one. */
  lemma PageIsPrefix(page: seq<Id>, s: set<Id>, n: nat)
    requires IsPage(page, s, n) && |page| > 0
    ensures forall id :: id in s ==> (id in page <==> id <= page[|page| - 1])
  {
    var last := page[|page| - 1];
    assert last in Elems(page);
    forall id | id in s ensures id in page <==> id <= last {
      if id in page {
        var i :| 0 <= i < |page| && page[i] == id;
      } else {
        assert id in s - Elems(page);
      }
    }
  }

  /** A page is full unless it takes everything that was left. */
  lemma PageFull(page: seq<Id>, s: set<Id>, n: nat)
    requires IsPage(page, s, n)
    ensures |page| == n || Elems(page) == s
  {
    AscendingIsDistinct(page);
    if |page| < n { SubsetCardinality(Elems(page), s); }
  }

  /** Canceling ids that are all cancelable takes exactly that many out of the filter. */
  lemma MarkCanceledShrinks(jobs: Jobs, ids: set<Id>, now: int)
    requires ids <= CancelableIds(jobs)
    ensures |CancelableIds(MarkCanceled(jobs, ids, now))| == |CancelableIds(jobs)| - |ids|
  {
    assert CancelableIds(MarkCanceled(jobs, ids, now)) == CancelableIds(jobs) - ids;
  }

  /** The paging loop equals the one statement exactly when no job it should cancel sits
      at uuid.Nil, the cursor's starting point. */
  lemma KeysetRefinesOneShot(before: Jobs, keep: set<string>, after: Jobs)
    requires KeysetCancel(before, keep, after)
    ensures OneShotCancel(before, keep, after) <==>
            !(NIL in WaitingIds(before) && before[NIL].mediaKey !in keep)
  {
  }

  /** pages scans have returned v rows; while more are left every page was full. */
  ghost predicate PagesFilled(v: nat, pages: nat, n: Positive, more: bool) {
    && v <= pages * n
    && (pages > 0 ==> (pages - 1) * n < v)
    && (more ==> v == pages * n)
  }

  lemma PagesFilledNext(v: nat, pages: nat, n: Positive, got: nat, more: bool)
    requires PagesFilled(v, pages, n, true) && 0 < got <= n
    requires more ==> got == n
    ensures PagesFilled(v + got, pages + 1, n, more)
  {
    assert (pages + 1) * n == pages * n + n;
  }

  lemma PagesFilledAll(v: nat, pages: nat, n: Positive)
    requires PagesFilled(v, pages, n, false)
    ensures pages == CeilDiv(v, n)
  {
    CeilDivIs(v, n, pages);
  }

  lemma AscendingJoin(a: seq<Id>, b: seq<Id>)
    requires Ascending(a) && Ascending(b) && Below(Elems(a), Elems(b))
    ensures Ascending(a + b)
  {
    forall i, j | 0 <= i < j < |a + b| ensures (a + b)[i] < (a + b)[j] {
      if j < |a| {
        assert (a + b)[i] == a[i] && (a + b)[j] == a[j];
      } else if i >= |a| {
        assert (a + b)[i] == b[i - |a|] && (a + b)[j] == b[j - |a|];
      } else {
        assert a[i] in Elems(a) && b[j - |a|] in Elems(b);
      }
    }
  }
}
