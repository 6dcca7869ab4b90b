/**
 * The stored rows of the alert service and the defaults the store applies when
 * it inserts them. Column nullability is carried by the types: the required
 * text columns are plain strings, the nullable ones are `Option`s. Server-side
 * timestamps are supplied by the caller as integers.
 */
module Models {
  import opened Wrappers
  import opened Schemas

  /** The status a new alert row gets from its column default. */
  const Pending := "pending"
  /** The status whose update stamps the resolution time. */
  const Resolved := "resolved"

  /** A row of the `alerts` table. */
  datatype AlertRow = AlertRow(
    id: nat,
    customer: string,
    platform: string,
    sentiment: string,
    urgency: string,
    message: string,
    timestamp: int,
    status: string,
    reach: int,
    engagement: int,
    recommendedResponse: Option<string>,
    resolvedAt: Option<int>)

  /** A row of the `platforms` table. */
  datatype PlatformRow = PlatformRow(
    id: nat,
    name: string,
    mentions: int,
    sentimentAvg: real,
    updatedAt: int)

  /** The schema fields of a stored alert: the row without what the store supplied. */
  function ToCreate(row: AlertRow): AlertCreate {
    AlertCreate(row.customer, row.platform, row.sentiment, row.urgency, row.message,
                row.reach, row.engagement, row.recommendedResponse)
  }

  /**
   * The row inserted for `a` with primary key `id` at time `now`: the status
   * takes its default, the resolution time is absent, and every schema field
   * is stored as given.
   */
  function NewAlertRow(id: nat, a: AlertCreate, now: int): (row: AlertRow)
    ensures row.id == id && row.timestamp == now
    ensures row.status == Pending && row.resolvedAt == None
    ensures ToCreate(row) == a
  {
    AlertRow(id, a.customer, a.platform, a.sentiment, a.urgency, a.message, now,
             Pending, a.reach, a.engagement, a.recommendedResponse, None)
  }

  /** The row inserted for `p` with primary key `id` at time `now`. */
  function NewPlatformRow(id: nat, p: PlatformCreate, now: int): (row: PlatformRow)
    ensures row.id == id && row.updatedAt == now
    ensures row.name == p.name && row.mentions == p.mentions && row.sentimentAvg == p.sentimentAvg
  {
    PlatformRow(id, p.name, p.mentions, p.sentimentAvg, now)
  }

  /**
   * `row` after update `u` at time `now`. Only the status is written from the
   * update: the alerts table has no response-text column, so an explicitly
   * set response text is not stored. A 'resolved' status stamps the
   * resolution time; any other status keeps whatever resolution time the row
   * had.
   */
  function MergeUpdate(row: AlertRow, u: AlertUpdate, now: int): (r: AlertRow)
    ensures r.status == u.status
    ensures u.status == Resolved ==> r.resolvedAt == Some(now)
    ensures u.status != Resolved ==> r.resolvedAt == row.resolvedAt
    ensures r.(status := row.status, resolvedAt := row.resolvedAt) == row
  {
    row.(status := u.status, resolvedAt := if u.status == Resolved then Some(now) else row.resolvedAt)
  }

  /** The response text of an update never reaches the stored row. */
  lemma ResponseTextNotStored(row: AlertRow, status: string, t1: Option<string>, t2: Option<string>, now: int)
    ensures MergeUpdate(row, AlertUpdate(status, t1), now) == MergeUpdate(row, AlertUpdate(status, t2), now)
  {
  }

  /** A resolved row carries a resolution time. */
  predicate StampedIfResolved(row: AlertRow) {
    row.status == Resolved ==> row.resolvedAt.Some?
  }

  /** Row `i` of an alerts table is keyed below `nextId` and, when resolved, has a resolution time. */
  predicate AlertRowValid(alerts: seq<AlertRow>, nextId: nat, i: nat)
    requires i < |alerts|
  {
    alerts[i].id < nextId && StampedIfResolved(alerts[i])
  }

  /** Rows `i` and `j` of an alerts table have different primary keys. */
  predicate AlertKeysDiffer(alerts: seq<AlertRow>, i: nat, j: nat)
    requires i < |alerts| && j < |alerts|
  {
    alerts[i].id != alerts[j].id
  }

  /**
   * The invariant of the alerts table: primary keys are unique and below the
   * next key to hand out, and every resolved row has a resolution time.
   */
  predicate AlertTableValid(alerts: seq<AlertRow>, nextId: nat) {
    && (forall i :: 0 <= i < |alerts| ==> AlertRowValid(alerts, nextId, i))
    && (forall i, j :: 0 <= i < j < |alerts| ==> AlertKeysDiffer(alerts, i, j))
  }

  /** Rows `i` and `j` of a platforms table have different primary keys and different names. */
  predicate PlatformsDiffer(platforms: seq<PlatformRow>, i: nat, j: nat)
    requires i < |platforms| && j < |platforms|
  {
    platforms[i].id != platforms[j].id && platforms[i].name != platforms[j].name
  }

  /** Row `i` of a platforms table is keyed below `nextId`. */
  predicate PlatformKeyBelow(platforms: seq<PlatformRow>, nextId: nat, i: nat)
    requires i < |platforms|
  {
    platforms[i].id < nextId
  }

  /**
   * The invariant of the platforms table: primary keys are unique and below
   * the next key to hand out, and names are unique.
   */
  predicate PlatformTableValid(platforms: seq<PlatformRow>, nextId: nat) {
    && (forall i :: 0 <= i < |platforms| ==> PlatformKeyBelow(platforms, nextId, i))
    && (forall i, j :: 0 <= i < j < |platforms| ==> PlatformsDiffer(platforms, i, j))
  }

  /** Inserting a platform with an unused name under the next key keeps the table invariant. */
  lemma InsertPlatformKeepsValid(platforms: seq<PlatformRow>, nextId: nat, p: PlatformCreate, now: int)
    requires PlatformTableValid(platforms, nextId)
    requires forall i :: 0 <= i < |platforms| ==> platforms[i].name != p.name
    ensures PlatformTableValid(platforms + [NewPlatformRow(nextId, p, now)], nextId + 1)
  {
    var t, n := platforms + [NewPlatformRow(nextId, p, now)], nextId + 1;
    forall i | 0 <= i < |t|
      ensures PlatformKeyBelow(t, n, i)
    {
      if i < |platforms| {
        assert PlatformKeyBelow(platforms, nextId, i);
      }
    }
    forall i, j | 0 <= i < j < |t|
      ensures PlatformsDiffer(t, i, j)
    {
      if j < |platforms| {
        assert PlatformsDiffer(platforms, i, j);
      } else {
        assert PlatformKeyBelow(platforms, nextId, i);
      }
    }
  }

  /** Inserting a new alert under the next key keeps the table invariant; that key is not in use. */
  lemma InsertAlertKeepsValid(alerts: seq<AlertRow>, nextId: nat, a: AlertCreate, now: int)
    requires AlertTableValid(alerts, nextId)
    ensures AlertTableValid(alerts + [NewAlertRow(nextId, a, now)], nextId + 1)
    ensures forall i :: 0 <= i < |alerts| ==> alerts[i].id != nextId
  {
    var t, n := alerts + [NewAlertRow(nextId, a, now)], nextId + 1;
    forall i | 0 <= i < |alerts|
      ensures alerts[i].id != nextId
    {
      assert AlertRowValid(alerts, nextId, i);
    }
    forall i | 0 <= i < |t|
      ensures AlertRowValid(t, n, i)
    {
      if i < |alerts| {
        assert AlertRowValid(alerts, nextId, i);
      }
    }
    forall i, j | 0 <= i < j < |t|
      ensures AlertKeysDiffer(t, i, j)
    {
      if j < |alerts| {
        assert AlertKeysDiffer(alerts, i, j);
      } else {
        assert AlertRowValid(alerts, nextId, i);
      }
    }
  }

  /** Updating one row in place keeps the table invariant. */
  lemma UpdateAlertKeepsValid(alerts: seq<AlertRow>, nextId: nat, k: nat, u: AlertUpdate, now: int)
    requires AlertTableValid(alerts, nextId) && k < |alerts|
    ensures AlertTableValid(alerts[k := MergeUpdate(alerts[k], u, now)], nextId)
  {
    var t := alerts[k := MergeUpdate(alerts[k], u, now)];
    forall i | 0 <= i < |t|
      ensures AlertRowValid(t, nextId, i)
    {
      assert AlertRowValid(alerts, nextId, i);
    }
    forall i, j | 0 <= i < j < |t|
      ensures AlertKeysDiffer(t, i, j)
    {
      assert AlertKeysDiffer(alerts, i, j);
    }
  }

  /**
   * Reopening a resolved alert keeps its resolution time: a row can have a
   * resolution time without being resolved.
   */
  lemma ReopenKeepsResolvedAt(row: AlertRow, now: int, later: int)
    ensures var resolved := MergeUpdate(row, AlertUpdate(Resolved), now);
      var reopened := MergeUpdate(resolved, AlertUpdate(Pending), later);
      reopened.status == Pending && reopened.resolvedAt == Some(now)
  {
  }
}
