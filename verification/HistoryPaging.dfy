/** app.py `handle_chat_history`: cursor paging over a user's records, newest first. */
module HistoryPaging {
  import opened Text
  import opened Ordering

  datatype HistoryRecord = HistoryRecord(id: string, userId: string, createdAt: int)

  datatype Page = Page(items: seq<HistoryRecord>, nextCursor: Option<string>, pageSize: nat)

  predicate NewerFirst(a: HistoryRecord, b: HistoryRecord) { a.createdAt >= b.createdAt }

  function OfUser(userId: string): HistoryRecord -> bool {
    (r: HistoryRecord) => r.userId == userId
  }

  function UserHistory(all: seq<HistoryRecord>, userId: string): seq<HistoryRecord> {
    SortBy(NewerFirst, Filter(OfUser(userId), all))
  }

  function BoundedSize(requested: int): nat {
    if requested < 1 then 1 else if requested > 100 then 100 else requested
  }

  /** No cursor and an unreadable cursor mean the start; a negative one is lifted to 0. */
  function CursorToIndex(cursor: Option<string>): nat {
    match cursor
    case None => 0
    case Some(s) =>
      match ParseInt(s)
      case None => 0
      case Some(i) => if i < 0 then 0 else i
  }

  /** Python's `s[start : start + size]`. */
  function Slice<T>(s: seq<T>, start: nat, size: nat): seq<T> {
    if start >= |s| then [] else if start + size >= |s| then s[start..] else s[start..start + size]
  }

  function PageOf(all: seq<HistoryRecord>, userId: string, cursor: Option<string>, requested: int): Page {
    var size := BoundedSize(requested);
    var records := UserHistory(all, userId);
    var start := CursorToIndex(cursor);
    var items := Slice(records, start, size);
    var next := start + |items|;
    Page(items, if next < |records| then Some(ToDecimal(next)) else None, size)
  }

  /** A page holds the records of the user from the cursor on, `pageSize` of them or all that remain; the size is
      the one asked for between 1 and 100; the next cursor is the index after the page, if the history goes on. */
  lemma PageMeans(all: seq<HistoryRecord>, userId: string, cursor: Option<string>, requested: int)
    ensures var page, records, start := PageOf(all, userId, cursor, requested), UserHistory(all, userId),
                                        CursorToIndex(cursor);
            && page.pageSize == (if requested < 1 then 1 else if requested > 100 then 100 else requested)
            && |page.items| == (if start >= |records| then 0
                                else if start + page.pageSize >= |records| then |records| - start else page.pageSize)
            && (forall i :: 0 <= i < |page.items| ==> page.items[i] == records[start + i])
            && page.nextCursor == if start + |page.items| < |records| then Some(ToDecimal(start + |page.items|))
                                  else None
  {
  }

  /** No cursor, a negative one and one that is no number mean the start; a number is the index it says. */
  lemma CursorMeans(n: nat, s: string)
    ensures CursorToIndex(None) == 0 && CursorToIndex(Some(ToDecimal(n))) == n
    ensures CursorToIndex(Some("-" + ToDecimal(n))) == 0
    ensures ParseInt(s) == None ==> CursorToIndex(Some(s)) == 0
  {
    DecimalRoundTrip(n);
    SignedNumerals(n, s);
  }

  /** Follow the cursors from `cursor` to the end, asking for size `sizes(k)` on the k-th request. */
  function Follow(all: seq<HistoryRecord>, userId: string, cursor: Option<string>, sizes: nat -> int,
                  k: nat): seq<HistoryRecord>
    decreases |UserHistory(all, userId)| - CursorToIndex(cursor)
  {
    var page := PageOf(all, userId, cursor, sizes(k));
    NextCursorAdvances(all, userId, cursor, sizes(k));
    if page.nextCursor == None then page.items
    else page.items + Follow(all, userId, page.nextCursor, sizes, k + 1)
  }

  /** A next cursor points strictly past the page it came with and still inside the history. */
  lemma NextCursorAdvances(all: seq<HistoryRecord>, userId: string, cursor: Option<string>, requested: int)
    ensures var page := PageOf(all, userId, cursor, requested);
            page.nextCursor.Some? ==>
              CursorToIndex(page.nextCursor) == CursorToIndex(cursor) + |page.items|
              && 1 <= |page.items| <= page.pageSize <= 100
              && CursorToIndex(page.nextCursor) < |UserHistory(all, userId)|
  {
    var page := PageOf(all, userId, cursor, requested);
    DecimalRoundTrip(CursorToIndex(cursor) + |page.items|);
  }

  lemma SliceJoins(records: seq<HistoryRecord>, from: nat, count: nat)
    requires from + count <= |records|
    ensures records[from..from + count] + records[from + count..] == records[from..]
    ensures from + count == |records| ==> records[from..from + count] == records[from..]
  {
  }

  lemma {:induction false} FollowFrom(all: seq<HistoryRecord>, userId: string, cursor: Option<string>,
                                      sizes: nat -> int, k: nat)
    requires CursorToIndex(cursor) <= |UserHistory(all, userId)|
    ensures Follow(all, userId, cursor, sizes, k) == UserHistory(all, userId)[CursorToIndex(cursor)..]
    decreases |UserHistory(all, userId)| - CursorToIndex(cursor)
  {
    var records, page := UserHistory(all, userId), PageOf(all, userId, cursor, sizes(k));
    NextCursorAdvances(all, userId, cursor, sizes(k));
    SliceJoins(records, CursorToIndex(cursor), |page.items|);
    if page.nextCursor.Some? {
      FollowFrom(all, userId, page.nextCursor, sizes, k + 1);
    }
  }

  /** From no cursor until no cursor, whatever the page sizes: every record of the user, each as often as the
      history holds it, newest first, records of the same instant in the order they were made. */
  lemma PagingIsComplete(all: seq<HistoryRecord>, userId: string, sizes: nat -> int)
    ensures var pages := Follow(all, userId, None, sizes, 0);
            && (forall r: HistoryRecord :: multiset(pages)[r] == if r.userId == userId then multiset(all)[r] else 0)
            && (forall i, j :: 0 <= i < j < |pages| ==> pages[i].createdAt >= pages[j].createdAt)
            && forall t: int :: Filter(MadeAt(t), pages) == Filter(MadeAt(t), Filter(OfUser(userId), all))
  {
    var mine := Filter(OfUser(userId), all);
    FollowFrom(all, userId, None, sizes, 0);
    SortPermutes(NewerFirst, mine);
    SortSorts(NewerFirst, mine);
    forall i, j | 0 <= i < j < |SortBy(NewerFirst, mine)|
      ensures NewerFirst(SortBy(NewerFirst, mine)[i], SortBy(NewerFirst, mine)[j])
    {
    }
    forall r: HistoryRecord ensures multiset(mine)[r] == if r.userId == userId then multiset(all)[r] else 0 {
      FilterMultiplicity(OfUser(userId), all, r);
    }
    forall t: int ensures Filter(MadeAt(t), SortBy(NewerFirst, mine)) == Filter(MadeAt(t), mine) {
      SortIsStable(NewerFirst, MadeAt(t), mine);
    }
  }

  function MadeAt(t: int): HistoryRecord -> bool {
    (r: HistoryRecord) => r.createdAt == t
  }
}
