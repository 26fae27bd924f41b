/**
 * The delta-sync transaction log of routes/sync.js: what a push appends to
 * `sync_transactions` and what a pull reads back from it.
 *
 * The table is the sequence of its rows in the order they were inserted.
 * A push accepts a candidate only when no stored row has its id (the
 * existence check is not scoped by dealer); a pull filters by dealer,
 * origin device and cursor, orders by transaction_time and keeps at most
 * PAGE_LIMIT rows. Rows with equal transaction_time keep insertion order,
 * one of the orders the query allows.
 */
module TxnLog {
  import opened Common
  import opened Store

  /** `LIMIT 1000` of the pull query. */
  const PAGE_LIMIT := 1000

  /** The id a device gives a transaction (a truthy string). */
  type TxnId = s: string | s != "" witness "t"

  /** One element of the `transactions` array of a push request. */
  datatype Candidate = Candidate(
    id: TxnId,
    actionType: string,
    itemSku: Option<string>,
    itemName: Option<string>,
    quantityChange: Option<int>,
    oldValue: Option<string>,
    newValue: Option<string>,
    metadata: Option<string>,  // JSON text of txn.metadata; None for any falsy txn.metadata (0, false, "", null)
    transactionTime: Option<int>)

  // ---------------------------------------------------------------------------
  // Push
  // ---------------------------------------------------------------------------

  /** The row the INSERT writes for candidate `c` of device `deviceId` of dealer `dealerId` at `now`. */
  function RowOf(c: Candidate, dealerId: string, deviceId: string, now: int): (r: StoredTxn)
    ensures r.id == c.id && r.dealerId == dealerId && r.deviceId == deviceId && r.actionType == c.actionType
    ensures r.itemSku == OrNull(c.itemSku) && r.itemName == OrNull(c.itemName)
    ensures r.oldValue == OrNull(c.oldValue) && r.newValue == OrNull(c.newValue) && r.metadata == OrNull(c.metadata)
    ensures c.quantityChange.None? ==> r.quantityChange == 0
    ensures c.quantityChange.Some? ==> r.quantityChange == c.quantityChange.value
    ensures r.transactionTime == (if TruthyNum(c.transactionTime) then c.transactionTime.value else now)
    ensures r.syncedAt == now
  {
    StoredTxn(c.id, dealerId, deviceId, c.actionType,
              OrNull(c.itemSku), OrNull(c.itemName),
              if TruthyNum(c.quantityChange) then c.quantityChange.value else 0,
              OrNull(c.oldValue), OrNull(c.newValue), OrNull(c.metadata),
              if TruthyNum(c.transactionTime) then c.transactionTime.value else now,
              now)
  }

  /** One iteration of the push loop: skip a stored id, otherwise append the row. */
  function Accept(log: seq<StoredTxn>, c: Candidate, dealerId: string, deviceId: string, now: int): seq<StoredTxn> {
    if c.id in Ids(log) then log else log + [RowOf(c, dealerId, deviceId, now)]
  }

  /** The table after the push loop has run over `batch` in order. */
  function ApplyBatch(log: seq<StoredTxn>, batch: seq<Candidate>, dealerId: string, deviceId: string, now: int)
    : (r: seq<StoredTxn>)
    ensures log <= r
    ensures |r| <= |log| + |batch|
    decreases |batch|
  {
    if batch == [] then log
    else ApplyBatch(Accept(log, batch[0], dealerId, deviceId, now), batch[1..], dealerId, deviceId, now)
  }

  /** The ids a batch carries. */
  function BatchIds(batch: seq<Candidate>): set<string> {
    set c | c in batch :: c.id
  }

  /** The ids of a batch that the table does not hold yet: the ones a push inserts. */
  function NewIds(log: seq<StoredTxn>, batch: seq<Candidate>): set<string> {
    BatchIds(batch) - Ids(log)
  }

  /** The position of the first candidate of `batch` with id `id`. */
  function FirstIndex(batch: seq<Candidate>, id: string): (k: nat)
    requires id in BatchIds(batch)
    ensures k < |batch| && batch[k].id == id
    ensures forall j :: 0 <= j < k ==> batch[j].id != id
  {
    if batch[0].id == id then 0
    else
      assert id in BatchIds(batch[1..]) by {
        var c :| c in batch && c.id == id;
        var j :| 0 <= j < |batch| && batch[j] == c;
        assert batch[1..][j - 1] == c;
      }
      1 + FirstIndex(batch[1..], id)
  }

  lemma IdsAppend(log: seq<StoredTxn>, r: StoredTxn)
    ensures Ids(log + [r]) == Ids(log) + {r.id}
  {
    forall id | id in Ids(log + [r]) ensures id in Ids(log) + {r.id} {
      var x :| x in log + [r] && x.id == id;
    }
    forall id | id in Ids(log) ensures id in Ids(log + [r]) {
      var x :| x in log && x.id == id;
      assert x in log + [r];
    }
    assert r in log + [r];
  }

  lemma BatchIdsCons(batch: seq<Candidate>)
    requires batch != []
    ensures BatchIds(batch) == {batch[0].id} + BatchIds(batch[1..])
  {
    assert batch == [batch[0]] + batch[1..];
    forall id | id in BatchIds(batch[1..]) ensures id in BatchIds(batch) {
      var c :| c in batch[1..] && c.id == id;
      assert c in batch;
    }
  }

  /** After a push the table holds exactly the ids it held before and the ids of the batch. */
  lemma {:induction false} ApplyBatchIds(
    log: seq<StoredTxn>, batch: seq<Candidate>, dealerId: string, deviceId: string, now: int)
    ensures Ids(ApplyBatch(log, batch, dealerId, deviceId, now)) == Ids(log) + BatchIds(batch)
    decreases |batch|
  {
    if batch != [] {
      var c := batch[0];
      ApplyBatchIds(Accept(log, c, dealerId, deviceId, now), batch[1..], dealerId, deviceId, now);
      BatchIdsCons(batch);
      if c.id !in Ids(log) {
        IdsAppend(log, RowOf(c, dealerId, deviceId, now));
      }
    }
  }

  /**
   * Each row a push appends has an id the table lacked and is the row of
   * the FIRST candidate carrying that id, stamped with the authorised
   * dealer, the requesting device and the push time. Later candidates with
   * the same id, and candidates whose id is stored under any dealer, add
   * nothing.
   */
  lemma {:induction false} ApplyBatchNewRows(
    log: seq<StoredTxn>, batch: seq<Candidate>, dealerId: string, deviceId: string, now: int)
    ensures forall i :: |log| <= i < |ApplyBatch(log, batch, dealerId, deviceId, now)| ==>
      var r := ApplyBatch(log, batch, dealerId, deviceId, now);
        && r[i].id !in Ids(log)
        && r[i].id in BatchIds(batch)
        && r[i] == RowOf(batch[FirstIndex(batch, r[i].id)], dealerId, deviceId, now)
    decreases |batch|
  {
    if batch != [] {
      var c, rest := batch[0], batch[1..];
      var log1 := Accept(log, c, dealerId, deviceId, now);
      var r := ApplyBatch(log1, rest, dealerId, deviceId, now);
      ApplyBatchNewRows(log1, rest, dealerId, deviceId, now);
      BatchIdsCons(batch);
      if c.id !in Ids(log) {
        IdsAppend(log, RowOf(c, dealerId, deviceId, now));
      }
      forall i | |log| <= i < |r|
        ensures r[i].id !in Ids(log) && r[i].id in BatchIds(batch)
        ensures r[i] == RowOf(batch[FirstIndex(batch, r[i].id)], dealerId, deviceId, now)
      {
        if i < |log1| {
          assert log1 == log + [RowOf(c, dealerId, deviceId, now)] && i == |log|;
          assert r[i] == log1[i];
        } else {
          assert r[i].id !in Ids(log1) && r[i].id in BatchIds(rest);
          assert c.id in Ids(log1);
          assert FirstIndex(batch, r[i].id) == 1 + FirstIndex(rest, r[i].id);
        }
      }
    }
  }

  /** The number of rows a push appends is the number of distinct ids of the batch the table lacked. */
  lemma {:induction false} ApplyBatchCount(
    log: seq<StoredTxn>, batch: seq<Candidate>, dealerId: string, deviceId: string, now: int)
    ensures |ApplyBatch(log, batch, dealerId, deviceId, now)| == |log| + |NewIds(log, batch)|
    decreases |batch|
  {
    if batch != [] {
      var log1 := Accept(log, batch[0], dealerId, deviceId, now);
      ApplyBatchCount(log1, batch[1..], dealerId, deviceId, now);
      AcceptCount(log, batch, dealerId, deviceId, now);
    }
  }

  /** One step of the push loop: the row count grows exactly when the set of ids still to insert shrinks. */
  lemma AcceptCount(log: seq<StoredTxn>, batch: seq<Candidate>, dealerId: string, deviceId: string, now: int)
    requires batch != []
    ensures var log1 := Accept(log, batch[0], dealerId, deviceId, now);
      |log1| + |NewIds(log1, batch[1..])| == |log| + |NewIds(log, batch)|
  {
    var c, rest := batch[0], batch[1..];
    var log1 := Accept(log, c, dealerId, deviceId, now);
    BatchIdsCons(batch);
    var later := NewIds(log1, rest);
    if c.id in Ids(log) {
      assert NewIds(log, batch) == later;
    } else {
      IdsAppend(log, RowOf(c, dealerId, deviceId, now));
      assert c.id !in later;
      assert NewIds(log, batch) == later + {c.id};
    }
  }

  /** A push keeps the ids of the table unique. */
  lemma {:induction false} ApplyBatchDistinct(
    log: seq<StoredTxn>, batch: seq<Candidate>, dealerId: string, deviceId: string, now: int)
    requires DistinctIds(log)
    ensures DistinctIds(ApplyBatch(log, batch, dealerId, deviceId, now))
    decreases |batch|
  {
    if batch != [] {
      var c := batch[0];
      var log1 := Accept(log, c, dealerId, deviceId, now);
      if c.id !in Ids(log) {
        forall i | 0 <= i < |log| ensures log[i].id != c.id {
          assert log[i] in log;
        }
      }
      ApplyBatchDistinct(log1, batch[1..], dealerId, deviceId, now);
    }
  }

  /** A batch whose ids are all stored leaves the table unchanged, whoever pushes it and when. */
  lemma {:induction false} StoredBatchIsNoop(
    log: seq<StoredTxn>, batch: seq<Candidate>, dealerId: string, deviceId: string, now: int)
    requires BatchIds(batch) <= Ids(log)
    ensures ApplyBatch(log, batch, dealerId, deviceId, now) == log
    ensures NewIds(log, batch) == {}
    decreases |batch|
  {
    if batch != [] {
      BatchIdsCons(batch);
      StoredBatchIsNoop(log, batch[1..], dealerId, deviceId, now);
    }
  }

  /**
   * Retrying a push is free: pushing the same batch again, from any device
   * of any dealer at any time, appends nothing and counts every candidate
   * as skipped.
   */
  lemma RepushIsNoop(
    log: seq<StoredTxn>, batch: seq<Candidate>, dealerId: string, deviceId: string, now: int,
    dealerId': string, deviceId': string, now': int)
    ensures var once := ApplyBatch(log, batch, dealerId, deviceId, now);
      && ApplyBatch(once, batch, dealerId', deviceId', now') == once
      && NewIds(once, batch) == {}
  {
    ApplyBatchIds(log, batch, dealerId, deviceId, now);
    StoredBatchIsNoop(ApplyBatch(log, batch, dealerId, deviceId, now), batch, dealerId', deviceId', now');
  }

  /** Tenant isolation of the push: every row a push adds belongs to the authorised dealer and the requesting device. */
  lemma PushScopedToRequester(
    log: seq<StoredTxn>, batch: seq<Candidate>, dealerId: string, deviceId: string, now: int)
    ensures var r := ApplyBatch(log, batch, dealerId, deviceId, now);
      forall i :: |log| <= i < |r| ==> r[i].dealerId == dealerId && r[i].deviceId == deviceId && r[i].syncedAt == now
  {
    ApplyBatchNewRows(log, batch, dealerId, deviceId, now);
  }

  // ---------------------------------------------------------------------------
  // Pull
  // ---------------------------------------------------------------------------

  /** The WHERE clause of the pull query; a falsy `since` adds no cursor condition. */
  predicate Visible(r: StoredTxn, dealerId: string, deviceId: string, since: Option<int>) {
    && r.dealerId == dealerId
    && r.deviceId != deviceId
    && (TruthyNum(since) ==> r.syncedAt > since.value)
  }

  /** The rows the WHERE clause keeps, in table order. */
  function Select(log: seq<StoredTxn>, dealerId: string, deviceId: string, since: Option<int>): (r: seq<StoredTxn>)
    ensures forall x :: x in r <==> x in log && Visible(x, dealerId, deviceId, since)
    ensures multiset(r) <= multiset(log)
    ensures |r| <= |log|
  {
    if log == [] then []
    else
      var tail := Select(log[1..], dealerId, deviceId, since);
      assert forall x :: x in log <==> x == log[0] || x in log[1..] by {
        assert log == [log[0]] + log[1..];
      }
      assert log == [log[0]] + log[1..];
      if Visible(log[0], dealerId, deviceId, since) then [log[0]] + tail else tail
  }

  predicate SortedByTime(s: seq<StoredTxn>) {
    forall i, j :: 0 <= i < j < |s| ==> s[i].transactionTime <= s[j].transactionTime
  }

  /** Inserts `x` before the first row of `s` that is not earlier than it. */
  function InsertByTime(x: StoredTxn, s: seq<StoredTxn>): (r: seq<StoredTxn>)
    ensures multiset(r) == multiset(s) + multiset{x}
  {
    if s == [] || x.transactionTime <= s[0].transactionTime then [x] + s
    else
      assert s == [s[0]] + s[1..];
      [s[0]] + InsertByTime(x, s[1..])
  }

  /** Inserting into a sorted sequence keeps it sorted. */
  lemma {:induction false} InsertByTimeSorted(x: StoredTxn, s: seq<StoredTxn>)
    requires SortedByTime(s)
    ensures SortedByTime(InsertByTime(x, s))
    decreases |s|
  {
    if s != [] && x.transactionTime > s[0].transactionTime {
      var tail := InsertByTime(x, s[1..]);
      InsertByTimeSorted(x, s[1..]);
      forall j | 0 <= j < |tail|
        ensures s[0].transactionTime <= tail[j].transactionTime
      {
        assert tail[j] in multiset(s[1..]) + multiset{x};
        if tail[j] != x {
          var k :| 0 <= k < |s[1..]| && s[1..][k] == tail[j];
          assert s[k + 1] == tail[j];
        }
      }
    }
  }

  /** `ORDER BY transaction_time ASC`, an insertion sort that keeps table order among equal times. */
  function SortByTime(s: seq<StoredTxn>): (r: seq<StoredTxn>)
    ensures multiset(r) == multiset(s)
    ensures |r| == |s|
  {
    if s == [] then []
    else
      assert s == [s[0]] + s[1..];
      InsertByTime(s[0], SortByTime(s[1..]))
  }

  /** The sort orders its result by transaction time. */
  lemma {:induction false} SortByTimeSorted(s: seq<StoredTxn>)
    ensures SortedByTime(SortByTime(s))
    decreases |s|
  {
    if s != [] {
      SortByTimeSorted(s[1..]);
      InsertByTimeSorted(s[0], SortByTime(s[1..]));
    }
  }

  /** The rows a pull returns: the selected rows ordered by transaction time, at most PAGE_LIMIT of them. */
  function PullPage(log: seq<StoredTxn>, dealerId: string, deviceId: string, since: Option<int>): (page: seq<StoredTxn>)
    ensures |page| == Min(|Select(log, dealerId, deviceId, since)|, PAGE_LIMIT)
    ensures SortedByTime(page)
    ensures forall x :: x in page ==> x in log && Visible(x, dealerId, deviceId, since)
    ensures multiset(page) <= multiset(log)
  {
    var sorted := SortByTime(Select(log, dealerId, deviceId, since));
    SortByTimeSorted(Select(log, dealerId, deviceId, since));
    var page := if |sorted| <= PAGE_LIMIT then sorted else sorted[..PAGE_LIMIT];
    PrefixSubMultiset(sorted, Min(|sorted|, PAGE_LIMIT));
    assert forall x :: x in page ==> x in multiset(sorted);
    page
  }

  /** A pull returns each stored transaction at most once: the ids on a page are distinct. */
  lemma PageIdsDistinct(log: seq<StoredTxn>, dealerId: string, deviceId: string, since: Option<int>)
    requires DistinctIds(log)
    ensures DistinctIds(PullPage(log, dealerId, deviceId, since))
  {
    SubMultisetDistinct(PullPage(log, dealerId, deviceId, since), log);
  }

  /** Rows drawn from a table with distinct ids, each at most as often as the table holds it, have distinct ids. */
  lemma SubMultisetDistinct(rows: seq<StoredTxn>, log: seq<StoredTxn>)
    requires DistinctIds(log) && multiset(rows) <= multiset(log)
    ensures DistinctIds(rows)
  {
    forall i, j | 0 <= i < j < |rows| ensures rows[i].id != rows[j].id {
      if rows[i].id == rows[j].id {
        TwiceIn(rows, i, j);
        assert rows[i] in multiset(log) && rows[j] in multiset(log);
        var a :| 0 <= a < |log| && log[a] == rows[i];
        var b :| 0 <= b < |log| && log[b] == rows[j];
        assert a == b;
        OnceInDistinct(log, a);
      }
    }
  }

  /** A row found at two positions occurs at least twice. */
  lemma TwiceIn(rows: seq<StoredTxn>, i: nat, j: nat)
    requires i < j < |rows|
    ensures rows[i] == rows[j] ==> multiset(rows)[rows[i]] >= 2
  {
    assert rows == rows[..i] + [rows[i]] + rows[i + 1..j] + [rows[j]] + rows[j + 1..];
  }

  /** In a table with distinct ids every row occurs once. */
  lemma {:induction false} OnceInDistinct(log: seq<StoredTxn>, a: nat)
    requires DistinctIds(log) && a < |log|
    ensures multiset(log)[log[a]] == 1
    decreases |log|
  {
    var x := log[a];
    assert log == log[..|log| - 1] + [log[|log| - 1]];
    if a == |log| - 1 {
      assert x !in log[..|log| - 1];
    } else {
      OnceInDistinct(log[..|log| - 1], a);
      assert log[|log| - 1].id != x.id;
    }
  }

  /** A prefix holds no row more often than the whole sequence. */
  lemma PrefixSubMultiset(s: seq<StoredTxn>, n: nat)
    requires n <= |s|
    ensures multiset(s[..n]) <= multiset(s)
  {
    assert s == s[..n] + s[n..];
  }

  /** A page shorter than the limit holds every row of the dealer's other devices past the cursor. */
  lemma ShortPageIsComplete(log: seq<StoredTxn>, dealerId: string, deviceId: string, since: Option<int>)
    requires |PullPage(log, dealerId, deviceId, since)| < PAGE_LIMIT
    ensures forall x :: x in log && Visible(x, dealerId, deviceId, since) ==> x in PullPage(log, dealerId, deviceId, since)
  {
    var selected := Select(log, dealerId, deviceId, since);
    var sorted := SortByTime(selected);
    forall x | x in log && Visible(x, dealerId, deviceId, since)
      ensures x in PullPage(log, dealerId, deviceId, since)
    {
      assert x in multiset(selected);
      assert x in sorted;
    }
  }

  /**
   * When the page is full, the rows it leaves out are never earlier (by
   * transaction time) than any row it returns.
   */
  lemma FullPageKeepsEarliest(
    log: seq<StoredTxn>, dealerId: string, deviceId: string, since: Option<int>, x: StoredTxn)
    requires x in log && Visible(x, dealerId, deviceId, since)
    requires x !in PullPage(log, dealerId, deviceId, since)
    ensures forall y :: y in PullPage(log, dealerId, deviceId, since) ==> y.transactionTime <= x.transactionTime
  {
    var selected := Select(log, dealerId, deviceId, since);
    var sorted := SortByTime(selected);
    var page := PullPage(log, dealerId, deviceId, since);
    SortByTimeSorted(selected);
    assert x in multiset(selected);
    assert x in sorted;
    var j :| 0 <= j < |sorted| && sorted[j] == x;
    assert |sorted| > PAGE_LIMIT && page == sorted[..PAGE_LIMIT];
    assert forall k :: 0 <= k < |page| ==> page[k] != x;
    assert j >= PAGE_LIMIT;
    forall y | y in page ensures y.transactionTime <= x.transactionTime {
      var i :| 0 <= i < |page| && page[i] == y;
      assert sorted[i] == y;
    }
  }

  /** A set of rows all found in `s` has no more elements than `s` has positions. */
  lemma {:induction false} ElementsBound(rows: set<StoredTxn>, s: seq<StoredTxn>)
    requires forall y :: y in rows ==> y in s
    ensures |rows| <= |s|
    decreases |s|
  {
    if s == [] {
      assert rows == {};
    } else {
      assert s == [s[0]] + s[1..];
      ElementsBound(rows - {s[0]}, s[1..]);
    }
  }

  /**
   * A row is crowded off the page by PAGE_LIMIT visible rows with an earlier
   * transaction_time, however old its synced_at is.
   */
  lemma CrowdedOut(
    log: seq<StoredTxn>, dealerId: string, deviceId: string, since: Option<int>,
    x: StoredTxn, earlier: set<StoredTxn>)
    requires forall y :: y in earlier ==>
      y in log && Visible(y, dealerId, deviceId, since) && y.transactionTime < x.transactionTime
    requires |earlier| >= PAGE_LIMIT
    ensures x !in PullPage(log, dealerId, deviceId, since)
  {
    var selected := Select(log, dealerId, deviceId, since);
    var sorted := SortByTime(selected);
    var page := PullPage(log, dealerId, deviceId, since);
    SortByTimeSorted(selected);
    assert page == sorted[..|page|];
    if x in page {
      var i :| 0 <= i < |page| && page[i] == x;
      forall y | y in earlier ensures y in sorted[..i] {
        assert y in multiset(selected);
        EarlierComesFirst(sorted, i, y);
      }
      ElementsBound(earlier, sorted[..i]);
    }
  }

  /** In a sequence sorted by time, a row dated before position i sits before it. */
  lemma EarlierComesFirst(sorted: seq<StoredTxn>, i: nat, y: StoredTxn)
    requires SortedByTime(sorted) && i < |sorted|
    requires y in sorted && y.transactionTime < sorted[i].transactionTime
    ensures y in sorted[..i]
  {
    var j :| 0 <= j < |sorted| && sorted[j] == y;
    assert sorted[..i][j] == y;
  }

  /**
   * The cursor hazard of ordering a capped page by transaction_time while
   * paging by synced_at: a visible row crowded off a full page by
   * PAGE_LIMIT earlier-dated rows is missing from that page, and a device
   * that resumes from the synced_at of any row on the page that is not
   * older than the missed row's never receives it, whatever the table
   * holds by then.
   */
  lemma ResumedPullSkipsOlderStamps(
    log: seq<StoredTxn>, dealerId: string, deviceId: string, since: Option<int>,
    x: StoredTxn, earlier: set<StoredTxn>)
    requires x in log && Visible(x, dealerId, deviceId, since)
    requires forall y :: y in earlier ==>
      y in log && Visible(y, dealerId, deviceId, since) && y.transactionTime < x.transactionTime
    requires |earlier| >= PAGE_LIMIT
    ensures x !in PullPage(log, dealerId, deviceId, since)
    ensures |PullPage(log, dealerId, deviceId, since)| == PAGE_LIMIT
    ensures forall y, later :: y in PullPage(log, dealerId, deviceId, since) && y.syncedAt != 0 && x.syncedAt <= y.syncedAt ==>
      x !in PullPage(later, dealerId, deviceId, Some(y.syncedAt))
  {
    CrowdedOut(log, dealerId, deviceId, since, x, earlier);
    ElementsBound(earlier, Select(log, dealerId, deviceId, since));
  }

  /** What a pull returns for a row: every selected column except dealer_id (metadata parsed back verbatim). */
  datatype PulledTxn = PulledTxn(
    id: string,
    deviceId: string,
    actionType: string,
    itemSku: Option<string>,
    itemName: Option<string>,
    quantityChange: int,
    oldValue: Option<string>,
    newValue: Option<string>,
    metadata: Option<string>,
    transactionTime: int,
    syncedAt: int)

  function View(r: StoredTxn): PulledTxn {
    PulledTxn(r.id, r.deviceId, r.actionType, r.itemSku, r.itemName, r.quantityChange,
              r.oldValue, r.newValue, r.metadata, r.transactionTime, r.syncedAt)
  }

  function Views(rows: seq<StoredTxn>): (r: seq<PulledTxn>)
    ensures |r| == |rows| && forall i :: 0 <= i < |rows| ==> r[i] == View(rows[i])
  {
    seq(|rows|, i requires 0 <= i < |rows| => View(rows[i]))
  }

  /**
   * Push then pull: a transaction pushed by one device into any table that
   * lacks its id is appended as its row, with everything the device sent
   * (falsy optional fields as NULL), the pushing device's identifier and
   * the push time as its synced_at. Another device of the dealer pulling
   * with a cursor before the push receives it whenever the page is not
   * full; the pushing device never receives it, and neither does a pull
   * whose cursor is at or past the push time.
   */
  lemma PushThenPullRoundTrip(
    log: seq<StoredTxn>, c: Candidate, dealerId: string, pusher: string, puller: string, now: int,
    since: Option<int>, cursor: int, anySince: Option<int>)
    requires c.id !in Ids(log)
    ensures ApplyBatch(log, [c], dealerId, pusher, now) == log + [RowOf(c, dealerId, pusher, now)]
    ensures var after := ApplyBatch(log, [c], dealerId, pusher, now);
      pusher != puller && (!TruthyNum(since) || since.value < now)
      && |PullPage(after, dealerId, puller, since)| < PAGE_LIMIT
      ==> RowOf(c, dealerId, pusher, now) in PullPage(after, dealerId, puller, since)
    ensures var after := ApplyBatch(log, [c], dealerId, pusher, now);
      RowOf(c, dealerId, pusher, now) !in PullPage(after, dealerId, pusher, anySince)
    ensures var after := ApplyBatch(log, [c], dealerId, pusher, now);
      cursor != 0 && now <= cursor ==> RowOf(c, dealerId, pusher, now) !in PullPage(after, dealerId, puller, Some(cursor))
  {
    var row := RowOf(c, dealerId, pusher, now);
    PushOneAppends(log, c, dealerId, pusher, now);
    var after := log + [row];
    if pusher != puller && (!TruthyNum(since) || since.value < now) && |PullPage(after, dealerId, puller, since)| < PAGE_LIMIT {
      assert row in after && Visible(row, dealerId, puller, since);
      ShortPageIsComplete(after, dealerId, puller, since);
    }
  }

  /** A push of one candidate with a new id appends exactly its row. */
  lemma PushOneAppends(log: seq<StoredTxn>, c: Candidate, dealerId: string, deviceId: string, now: int)
    requires c.id !in Ids(log)
    ensures ApplyBatch(log, [c], dealerId, deviceId, now) == log + [RowOf(c, dealerId, deviceId, now)]
  {
    var row := RowOf(c, dealerId, deviceId, now);
    assert Accept(log, c, dealerId, deviceId, now) == log + [row];
    assert [c][1..] == [];
  }
}
