/**
 * The store of the alert service: the queries over the alerts table, as
 * functions of the table's rows, and the writes, as methods of a `Store`
 * holding both tables.
 */
module Crud {
  import opened Wrappers
  import opened Text
  import opened Schemas
  import opened Models

  /** The sentiment value that means "no filter". */
  const AllSentiments := "all"
  /** The urgency of a critical alert. */
  const High := "high"

  function Min(a: int, b: int): int {
    if a <= b then a else b
  }

  // ---------------------------------------------------------------- filtering

  /** The sentiment parameter filters only when given, non-empty and not 'all'. */
  predicate SentimentFilterActive(sentiment: Option<string>) {
    sentiment.Some? && sentiment.value != "" && sentiment.value != AllSentiments
  }

  /** The search parameter filters only when given and non-empty. */
  predicate SearchActive(search: Option<string>) {
    search.Some? && search.value != ""
  }

  /** `row` passes the list filters: equal sentiment, and the term in its customer or message. */
  predicate Selected(row: AlertRow, sentiment: Option<string>, search: Option<string>) {
    && (SentimentFilterActive(sentiment) ==> row.sentiment == sentiment.value)
    && (SearchActive(search) ==>
          ContainsIgnoringCase(row.customer, search.value) || ContainsIgnoringCase(row.message, search.value))
  }

  /** The rows of `rows` that `keep` accepts, in table order. */
  function Where(rows: seq<AlertRow>, keep: AlertRow -> bool): (r: seq<AlertRow>)
    ensures forall x :: x in r <==> x in rows && keep(x)
    ensures multiset(r) <= multiset(rows)
    ensures |r| <= |rows|
  {
    if rows == [] then []
    else
      var rest := Where(rows[1..], keep);
      assert rows == [rows[0]] + rows[1..];
      if keep(rows[0]) then [rows[0]] + rest else rest
  }

  /** Filters that accept the same rows select the same rows. */
  lemma {:induction false} WhereAgrees(rows: seq<AlertRow>, f: AlertRow -> bool, g: AlertRow -> bool)
    requires forall x :: f(x) == g(x)
    ensures Where(rows, f) == Where(rows, g)
  {
    if rows != [] {
      WhereAgrees(rows[1..], f, g);
    }
  }

  /** A filter that keeps every row keeps the whole list. */
  lemma {:induction false} WhereKeepsAll(rows: seq<AlertRow>, keep: AlertRow -> bool)
    requires forall x :: keep(x)
    ensures Where(rows, keep) == rows
  {
    if rows != [] {
      WhereKeepsAll(rows[1..], keep);
      assert rows == [rows[0]] + rows[1..];
    }
  }

  // ------------------------------------------------------------------ sorting

  /** Timestamps never increase along `s`. */
  predicate NewestFirstOrder(s: seq<AlertRow>) {
    forall i, j :: 0 <= i < j < |s| ==> s[i].timestamp >= s[j].timestamp
  }

  /** A row no older than every row of a newest-first list can go in front of it. */
  lemma ConsNewestFirst(h: AlertRow, t: seq<AlertRow>)
    requires NewestFirstOrder(t)
    requires forall y :: y in t ==> y.timestamp <= h.timestamp
    ensures NewestFirstOrder([h] + t)
  {
    var r := [h] + t;
    forall i, j | 0 <= i < j < |r| ensures r[i].timestamp >= r[j].timestamp {
      assert r[j] == t[j - 1];
      if i > 0 {
        assert r[i] == t[i - 1];
      }
    }
  }

  /** The head of a newest-first sequence is its newest row. */
  lemma HeadNewest(s: seq<AlertRow>, t: int)
    requires NewestFirstOrder(s) && s != [] && s[0].timestamp <= t
    ensures forall y :: y in s ==> y.timestamp <= t
  {
    forall y | y in s ensures y.timestamp <= t {
      var k :| 0 <= k < |s| && s[k] == y;
      assert s[0].timestamp >= s[k].timestamp;
    }
  }

  /** The tail of a newest-first sequence is newest first. */
  lemma TailNewestFirst(s: seq<AlertRow>)
    requires NewestFirstOrder(s) && s != []
    ensures NewestFirstOrder(s[1..])
  {
    forall i, j | 0 <= i < j < |s[1..]| ensures s[1..][i].timestamp >= s[1..][j].timestamp {
      assert s[1..][i] == s[i + 1] && s[1..][j] == s[j + 1];
    }
  }

  /** `x` inserted into the newest-first sequence `s`, ahead of the rows with the same timestamp. */
  function InsertByTime(x: AlertRow, s: seq<AlertRow>): (r: seq<AlertRow>)
    requires NewestFirstOrder(s)
    ensures NewestFirstOrder(r)
    ensures multiset(r) == multiset(s) + multiset{x}
    ensures |r| == |s| + 1
  {
    if s == [] || x.timestamp >= s[0].timestamp then
      assert forall y :: y in s ==> y.timestamp <= x.timestamp by {
        if s != [] {
          HeadNewest(s, x.timestamp);
        }
      }
      ConsNewestFirst(x, s);
      [x] + s
    else
      TailNewestFirst(s);
      var rest := InsertByTime(x, s[1..]);
      assert s == [s[0]] + s[1..];
      assert forall y :: y in rest ==> y.timestamp <= s[0].timestamp by {
        HeadNewest(s, s[0].timestamp);
        forall y | y in rest ensures y.timestamp <= s[0].timestamp {
          assert y in multiset(s[1..]) + multiset{x};
          if y != x {
            assert y in s;
          }
        }
      }
      ConsNewestFirst(s[0], rest);
      assert multiset([s[0]] + rest) == multiset{s[0]} + multiset(rest);
      [s[0]] + rest
  }

  /** `s` ordered newest first (`ORDER BY timestamp DESC`), ties kept in table order. */
  function NewestFirst(s: seq<AlertRow>): (r: seq<AlertRow>)
    ensures NewestFirstOrder(r)
    ensures multiset(r) == multiset(s)
    ensures |r| == |s|
  {
    if s == [] then []
    else
      assert s == [s[0]] + s[1..];
      InsertByTime(s[0], NewestFirst(s[1..]))
  }

  // --------------------------------------------------------------- pagination

  /** `OFFSET skip LIMIT limit`: drop the first `skip` rows, then keep at most `limit`. */
  function Page(s: seq<AlertRow>, skip: nat, limit: nat): (r: seq<AlertRow>)
    ensures skip >= |s| ==> r == []
    ensures skip < |s| ==> |r| == Min(limit, |s| - skip) && r == s[skip..skip + |r|]
  {
    if skip >= |s| then [] else s[skip..skip + Min(limit, |s| - skip)]
  }

  /** Two adjacent pages of `s` are one page as long as both. */
  lemma PageConcatenate(s: seq<AlertRow>, skip: nat, k: nat, limit: nat)
    ensures Page(s, skip, k) + Page(s, skip + k, limit) == Page(s, skip, k + limit)
  {
    if skip < |s| && skip + k < |s| {
      var e := skip + k + Min(limit, |s| - skip - k);
      assert Page(s, skip, k) == s[skip..skip + k];
      assert Page(s, skip + k, limit) == s[skip + k..e];
      assert Page(s, skip, k + limit) == s[skip..e];
      SliceConcat(s, skip, skip + k, e);
    } else if skip < |s| {
      assert Page(s, skip, k) == s[skip..|s|];
      assert Page(s, skip, k + limit) == s[skip..|s|];
      assert Page(s, skip + k, limit) == [];
      assert s[skip..|s|] + [] == s[skip..|s|];
    }
  }

  /** Adjacent slices join into one slice. */
  lemma SliceConcat(s: seq<AlertRow>, a: nat, b: nat, c: nat)
    requires a <= b <= c <= |s|
    ensures s[a..b] + s[b..c] == s[a..c]
  {
    assert forall i :: 0 <= i < c - a ==> (s[a..b] + s[b..c])[i] == s[a..c][i];
  }

  /** A page of a newest-first sequence is newest first, and holds only rows of the sequence. */
  lemma PageNewestFirst(s: seq<AlertRow>, skip: nat, limit: nat)
    requires NewestFirstOrder(s)
    ensures NewestFirstOrder(Page(s, skip, limit))
    ensures forall x :: x in Page(s, skip, limit) ==> x in multiset(s)
  {
    var r := Page(s, skip, limit);
    if skip < |s| {
      assert forall i :: 0 <= i < |r| ==> r[i] == s[skip + i];
    }
  }

  // ------------------------------------------------------------------ queries

  /** The rows the list query selects, before ordering and paging. */
  function Matching(table: seq<AlertRow>, sentiment: Option<string>, search: Option<string>): seq<AlertRow> {
    Where(table, x => Selected(x, sentiment, search))
  }

  /** The number of rows the list query selects. */
  function Count(table: seq<AlertRow>, sentiment: Option<string>, search: Option<string>): nat {
    |Matching(table, sentiment, search)|
  }

  /** A page of the ordered selection is newest first and holds only selected table rows. */
  lemma PageOfMatching(table: seq<AlertRow>, skip: nat, limit: nat, sentiment: Option<string>, search: Option<string>)
    ensures var r := Page(NewestFirst(Matching(table, sentiment, search)), skip, limit);
      && NewestFirstOrder(r)
      && forall x :: x in r ==> x in table && Selected(x, sentiment, search)
  {
    var m := Matching(table, sentiment, search);
    var all := NewestFirst(m);
    PageNewestFirst(all, skip, limit);
    forall x | x in Page(all, skip, limit) ensures x in m {
      assert x in multiset(m);
    }
  }

  /** A page of the ordered selection holds as many rows as remain after `skip`, at most `limit`. */
  lemma PageOfMatchingSize(table: seq<AlertRow>, skip: nat, limit: nat, sentiment: Option<string>, search: Option<string>)
    ensures var r := Page(NewestFirst(Matching(table, sentiment, search)), skip, limit);
      && |r| <= limit
      && (skip < Count(table, sentiment, search) ==> |r| == Min(limit, Count(table, sentiment, search) - skip))
      && (skip >= Count(table, sentiment, search) ==> r == [])
  {
    var all := NewestFirst(Matching(table, sentiment, search));
    assert |all| == Count(table, sentiment, search);
  }

  /**
   * `get_alerts`: the selected rows, newest first, with the first `skip`
   * dropped and at most `limit` returned. Every returned row has the filtered
   * sentiment and contains the search term, case-insensitively, in its
   * customer or its message.
   */
  function GetAlerts(table: seq<AlertRow>, skip: nat := 0, limit: nat := 100, sentiment: Option<string> := None,
                     search: Option<string> := None)
    : (r: seq<AlertRow>)
    ensures |r| <= limit
    ensures NewestFirstOrder(r)
    ensures forall x :: x in r ==> x in table && Selected(x, sentiment, search)
    ensures SentimentFilterActive(sentiment) ==> forall x :: x in r ==> x.sentiment == sentiment.value
    ensures SearchActive(search) ==> forall x :: x in r ==>
      ContainsIgnoringCase(x.customer, search.value) || ContainsIgnoringCase(x.message, search.value)
    ensures skip < Count(table, sentiment, search) ==> |r| == Min(limit, Count(table, sentiment, search) - skip)
    ensures skip >= Count(table, sentiment, search) ==> r == []
  {
    PageOfMatching(table, skip, limit, sentiment, search);
    PageOfMatchingSize(table, skip, limit, sentiment, search);
    Page(NewestFirst(Matching(table, sentiment, search)), skip, limit)
  }

  /** A critical alert: urgency 'high'. */
  predicate Critical(row: AlertRow) {
    row.urgency == High
  }

  /**
   * `get_critical_alerts`: at most `limit` rows of urgency 'high', newest first.
   */
  function GetCriticalAlerts(table: seq<AlertRow>, limit: nat := 5): (r: seq<AlertRow>)
    ensures |r| <= limit
    ensures NewestFirstOrder(r)
    ensures forall x :: x in r ==> x in table && x.urgency == High
    ensures var all := NewestFirst(Where(table, Critical));
      |r| == Min(limit, |all|) && r == all[..|r|]
  {
    var all := NewestFirst(Where(table, Critical));
    PageNewestFirst(all, 0, limit);
    Page(all, 0, limit)
  }

  /** With no offset and a limit that admits the whole table, the list query returns every selected row. */
  lemma {:induction false} GetAlertsComplete(table: seq<AlertRow>, limit: nat, sentiment: Option<string>, search: Option<string>)
    requires |table| <= limit
    ensures multiset(GetAlerts(table, 0, limit, sentiment, search)) == multiset(Matching(table, sentiment, search))
    ensures forall x :: x in GetAlerts(table, 0, limit, sentiment, search) <==> x in table && Selected(x, sentiment, search)
  {
    var m := Matching(table, sentiment, search);
    var all := NewestFirst(m);
    WholeTablePage(table, limit, sentiment, search);
    forall x ensures x in all <==> x in m {
      assert x in all <==> x in multiset(all);
    }
  }

  /** With a limit that admits the whole table, the list query is the whole ordered selection. */
  lemma WholeTablePage(table: seq<AlertRow>, limit: nat, sentiment: Option<string>, search: Option<string>)
    requires |table| <= limit
    ensures GetAlerts(table, 0, limit, sentiment, search) == NewestFirst(Matching(table, sentiment, search))
  {
    var all := NewestFirst(Matching(table, sentiment, search));
    assert |all| <= |table|;
    if all != [] {
      assert Page(all, 0, limit) == all[0..|all|];
    }
  }

  /** With a limit that admits the whole table, the critical list holds every row of urgency 'high'. */
  lemma {:induction false} CriticalAlertsComplete(table: seq<AlertRow>, limit: nat)
    requires |table| <= limit
    ensures forall x :: x in GetCriticalAlerts(table, limit) <==> x in table && x.urgency == High
  {
    var m := Where(table, Critical);
    var all := NewestFirst(m);
    assert GetCriticalAlerts(table, limit) == all;
    forall x ensures x in all <==> x in m {
      assert x in all <==> x in multiset(all);
    }
  }

  /** Consecutive pages tile the ordered result: a page of `k` rows followed by the next page is one longer page. */
  lemma PagesConcatenate(table: seq<AlertRow>, skip: nat, k: nat, limit: nat, sentiment: Option<string>, search: Option<string>)
    ensures GetAlerts(table, skip, k, sentiment, search) + GetAlerts(table, skip + k, limit, sentiment, search)
         == GetAlerts(table, skip, k + limit, sentiment, search)
  {
    var m := Matching(table, sentiment, search);
    PageConcatenate(NewestFirst(m), skip, k, limit);
  }

  /** A sentiment of 'all', or an empty one, filters nothing. */
  lemma AllSentimentsFiltersNothing(table: seq<AlertRow>, skip: nat, limit: nat, search: Option<string>)
    ensures GetAlerts(table, skip, limit, Some(AllSentiments), search) == GetAlerts(table, skip, limit, None, search)
    ensures GetAlerts(table, skip, limit, Some(""), search) == GetAlerts(table, skip, limit, None, search)
  {
    WhereAgrees(table, x => Selected(x, Some(AllSentiments), search), x => Selected(x, None, search));
    WhereAgrees(table, x => Selected(x, Some(""), search), x => Selected(x, None, search));
  }

  /**
   * Without arguments the list query returns the first 100 ordered rows, unfiltered,
   * and the critical query the 5 newest high-urgency rows.
   */
  lemma QueryDefaults(table: seq<AlertRow>)
    ensures GetAlerts(table) == GetAlerts(table, 0, 100, None, None)
    ensures GetAlerts(table) == NewestFirst(table)[..Min(100, |table|)]
    ensures GetCriticalAlerts(table) == GetCriticalAlerts(table, 5)
    ensures |GetCriticalAlerts(table)| <= 5
  {
    WhereKeepsAll(table, x => Selected(x, None, None));
    assert Page(NewestFirst(table), 0, 100) == NewestFirst(table)[..Min(100, |table|)];
  }

  // ---------------------------------------------------------- platform rollup

  /** The number of alerts on platform `name` (`COUNT(id) ... GROUP BY platform`). */
  function Mentions(alerts: seq<AlertRow>, name: string): (n: nat)
    ensures n <= |alerts|
    ensures n == 0 <==> forall i :: 0 <= i < |alerts| ==> alerts[i].platform != name
  {
    if alerts == [] then 0
    else
      var rest := Mentions(alerts[..|alerts| - 1], name);
      rest + if alerts[|alerts| - 1].platform == name then 1 else 0
  }

  /** The distinct platform names of `alerts`, in order of first appearance. */
  function PlatformNames(alerts: seq<AlertRow>): (r: seq<string>)
    ensures forall i, j :: 0 <= i < j < |r| ==> r[i] != r[j]
    ensures forall name :: name in r <==> exists i :: 0 <= i < |alerts| && alerts[i].platform == name
  {
    if alerts == [] then []
    else
      var init := alerts[..|alerts| - 1];
      var rest := PlatformNames(init);
      var last := alerts[|alerts| - 1].platform;
      assert forall i :: 0 <= i < |init| ==> init[i] == alerts[i];
      if last in rest then rest else rest + [last]
  }

  /**
   * The groups of the platform rollup: one per distinct alert platform, whose
   * mentions are that platform's alert count. The average-sentiment column is
   * not modelled and is 0.
   */
  function Rollup(alerts: seq<AlertRow>): (r: seq<PlatformCreate>)
    ensures forall i, j :: 0 <= i < j < |r| ==> r[i].name != r[j].name
    ensures forall i :: 0 <= i < |r| ==> r[i].mentions == Mentions(alerts, r[i].name) && r[i].mentions > 0
    ensures forall k :: 0 <= k < |alerts| ==> exists i :: 0 <= i < |r| && r[i].name == alerts[k].platform
  {
    var names := PlatformNames(alerts);
    var r := seq(|names|, i requires 0 <= i < |names| => PlatformCreate(names[i], Mentions(alerts, names[i]), 0.0));
    forall k | 0 <= k < |alerts| ensures exists i :: 0 <= i < |r| && r[i].name == alerts[k].platform {
      assert alerts[k].platform in names;
      var i :| 0 <= i < |names| && names[i] == alerts[k].platform;
      assert r[i].name == alerts[k].platform;
    }
    forall i | 0 <= i < |r| ensures r[i].mentions > 0 {
      assert names[i] in names;
      var k :| 0 <= k < |alerts| && alerts[k].platform == names[i];
    }
    r
  }

  /** The mentions of the groups `r`, added up. */
  function SumMentions(r: seq<PlatformCreate>): int {
    if r == [] then 0 else r[0].mentions + SumMentions(r[1..])
  }

  /** The alerts on each of `names`, added up. */
  function MentionsOfAll(alerts: seq<AlertRow>, names: seq<string>): nat {
    if names == [] then 0 else Mentions(alerts, names[0]) + MentionsOfAll(alerts, names[1..])
  }

  /** How many entries of `names` are `x`. */
  function Occurrences(names: seq<string>, x: string): nat {
    if names == [] then 0 else (if names[0] == x then 1 else 0) + Occurrences(names[1..], x)
  }

  /** A name that occurs in a list without repeats occurs once. */
  lemma {:induction false} OccursOnce(names: seq<string>, x: string)
    requires forall i, j :: 0 <= i < j < |names| ==> names[i] != names[j]
    requires x in names
    ensures Occurrences(names, x) == 1
  {
    if names[0] == x {
      OccursNot(names[1..], x);
    } else {
      OccursOnce(names[1..], x);
    }
  }

  lemma {:induction false} OccursNot(names: seq<string>, x: string)
    requires x !in names
    ensures Occurrences(names, x) == 0
  {
    if names != [] {
      OccursNot(names[1..], x);
    }
  }

  /** Adding one alert raises the mentions over `names` by the number of times its platform is among them. */
  lemma {:induction false} MentionsOfAllSnoc(alerts: seq<AlertRow>, names: seq<string>)
    requires alerts != []
    ensures MentionsOfAll(alerts, names)
         == MentionsOfAll(alerts[..|alerts| - 1], names) + Occurrences(names, alerts[|alerts| - 1].platform)
  {
    if names != [] {
      MentionsOfAllSnoc(alerts, names[1..]);
    }
  }

  /** Over distinct names covering every alert's platform, the mentions add up to the number of alerts. */
  lemma {:induction false} MentionsOfAllCovering(alerts: seq<AlertRow>, names: seq<string>)
    requires forall i, j :: 0 <= i < j < |names| ==> names[i] != names[j]
    requires forall k :: 0 <= k < |alerts| ==> alerts[k].platform in names
    ensures MentionsOfAll(alerts, names) == |alerts|
  {
    if alerts != [] {
      var init := alerts[..|alerts| - 1];
      assert forall k :: 0 <= k < |init| ==> init[k] == alerts[k];
      MentionsOfAllCovering(init, names);
      MentionsOfAllSnoc(alerts, names);
      OccursOnce(names, alerts[|alerts| - 1].platform);
    } else {
      NoAlertsNoMentions(names);
    }
  }

  lemma {:induction false} NoAlertsNoMentions(names: seq<string>)
    ensures MentionsOfAll([], names) == 0
  {
    if names != [] {
      NoAlertsNoMentions(names[1..]);
    }
  }

  /** Groups whose mentions are the alert counts of `names` add up as those counts do. */
  lemma {:induction false} SumMentionsOfCounts(alerts: seq<AlertRow>, names: seq<string>, r: seq<PlatformCreate>)
    requires |r| == |names|
    requires forall i :: 0 <= i < |r| ==> r[i].mentions == Mentions(alerts, names[i])
    ensures SumMentions(r) == MentionsOfAll(alerts, names)
  {
    if r != [] {
      SumMentionsOfCounts(alerts, names[1..], r[1..]);
    }
  }

  /** The rollup counts every alert exactly once: its mentions add up to the number of alerts. */
  lemma RollupCountsEveryAlert(alerts: seq<AlertRow>)
    ensures SumMentions(Rollup(alerts)) == |alerts|
  {
    var names := PlatformNames(alerts);
    var r := Rollup(alerts);
    assert forall k :: 0 <= k < |alerts| ==> alerts[k].platform in names;
    MentionsOfAllCovering(alerts, names);
    SumMentionsOfCounts(alerts, names, r);
  }

  /** Some platform row is named `name`. */
  predicate NameTaken(platforms: seq<PlatformRow>, name: string) {
    exists i :: 0 <= i < |platforms| && platforms[i].name == name
  }

  // -------------------------------------------------------------------- store

  /** Both tables of the database, with the next primary key of each. */
  class Store {
    var alerts: seq<AlertRow>
    var platforms: seq<PlatformRow>
    var nextAlertId: nat
    var nextPlatformId: nat

    ghost predicate Valid()
      reads this
    {
      AlertTableValid(alerts, nextAlertId) && PlatformTableValid(platforms, nextPlatformId)
    }

    /** An empty database; auto-increment keys start at 1. */
    constructor ()
      ensures Valid()
      ensures alerts == [] && platforms == []
      ensures nextAlertId == 1 && nextPlatformId == 1
    {
      alerts, platforms := [], [];
      nextAlertId, nextPlatformId := 1, 1;
    }

    /**
     * `create_alert`: insert one row with a fresh key, the status default and
     * no resolution time, and return it. Nothing else changes.
     */
    method CreateAlert(a: AlertCreate, now: int) returns (row: AlertRow)
      requires Valid()
      modifies this
      ensures Valid()
      ensures row == NewAlertRow(old(nextAlertId), a, now)
      ensures forall i :: 0 <= i < |old(alerts)| ==> old(alerts)[i].id != row.id
      ensures alerts == old(alerts) + [row]
      ensures nextAlertId == old(nextAlertId) + 1
      ensures platforms == old(platforms) && nextPlatformId == old(nextPlatformId)
    {
      InsertAlertKeepsValid(alerts, nextAlertId, a, now);
      row := NewAlertRow(nextAlertId, a, now);
      alerts := alerts + [row];
      nextAlertId := nextAlertId + 1;
    }

    /** The position of the row with key `id`, as `filter(id == alert_id).first()` finds it. */
    static function FindAlert(alerts: seq<AlertRow>, id: int): (r: Option<nat>)
      ensures r.None? <==> forall i :: 0 <= i < |alerts| ==> alerts[i].id != id
      ensures r.Some? ==> r.value < |alerts| && alerts[r.value].id == id
      ensures r.Some? ==> forall i :: 0 <= i < r.value ==> alerts[i].id != id
    {
      if alerts == [] then None
      else if alerts[0].id == id then Some(0)
      else match FindAlert(alerts[1..], id)
        case None => None
        case Some(k) => Some(k + 1)
    }

    /**
     * `update_alert`: merge `u` into the row with key `id` and return it; on
     * an unknown key return None and change nothing. No other row changes.
     */
    method UpdateAlert(id: int, u: AlertUpdate, now: int) returns (r: Option<AlertRow>)
      requires Valid()
      modifies this
      ensures Valid()
      ensures r.None? <==> forall i :: 0 <= i < |old(alerts)| ==> old(alerts)[i].id != id
      ensures r.None? ==> alerts == old(alerts)
      ensures r.Some? ==> exists k :: (0 <= k < |old(alerts)| && old(alerts)[k].id == id
                                       && r.value == MergeUpdate(old(alerts)[k], u, now)
                                       && alerts == old(alerts)[k := r.value])
      ensures platforms == old(platforms)
      ensures nextAlertId == old(nextAlertId) && nextPlatformId == old(nextPlatformId)
    {
      match FindAlert(alerts, id)
      case None =>
        r := None;
      case Some(k) =>
        UpdateAlertKeepsValid(alerts, nextAlertId, k, u, now);
        var merged := MergeUpdate(alerts[k], u, now);
        alerts := alerts[k := merged];
        r := Some(merged);
    }

    /**
     * `create_platform`: insert a platform row with a fresh key and return
     * it. A name that is already taken violates the unique constraint: the
     * insert fails, None is returned and nothing changes.
     */
    method CreatePlatform(p: PlatformCreate, now: int) returns (r: Option<PlatformRow>)
      requires Valid()
      modifies this
      ensures Valid()
      ensures r.None? <==> NameTaken(old(platforms), p.name)
      ensures r.None? ==> platforms == old(platforms) && nextPlatformId == old(nextPlatformId)
      ensures r.Some? ==> (r.value == NewPlatformRow(old(nextPlatformId), p, now)
                           && platforms == old(platforms) + [r.value]
                           && nextPlatformId == old(nextPlatformId) + 1)
      ensures alerts == old(alerts) && nextAlertId == old(nextAlertId)
    {
      if exists i :: 0 <= i < |platforms| && platforms[i].name == p.name {
        r := None;
      } else {
        InsertPlatformKeepsValid(platforms, nextPlatformId, p, now);
        var row := NewPlatformRow(nextPlatformId, p, now);
        platforms := platforms + [row];
        nextPlatformId := nextPlatformId + 1;
        r := Some(row);
      }
    }

    /**
     * `get_platforms`: the platform rows. When there are some, they are
     * returned and nothing is written. When there are none, one row per
     * distinct alert platform is inserted first, its mentions that platform's
     * alert count.
     */
    method GetPlatforms(now: int) returns (r: seq<PlatformRow>)
      requires Valid()
      modifies this
      ensures Valid()
      ensures r == platforms
      ensures old(platforms) != [] ==> platforms == old(platforms) && nextPlatformId == old(nextPlatformId)
      ensures old(platforms) == [] ==>
        var groups := Rollup(old(alerts));
        |r| == |groups| && forall k :: 0 <= k < |r| ==> r[k] == NewPlatformRow(old(nextPlatformId) + k, groups[k], now)
      ensures alerts == old(alerts) && nextAlertId == old(nextAlertId)
    {
      if platforms == [] {
        var groups := Rollup(alerts);
        var i := 0;
        while i < |groups|
          invariant 0 <= i <= |groups|
          invariant Valid()
          invariant alerts == old(alerts) && nextAlertId == old(nextAlertId)
          invariant |platforms| == i && nextPlatformId == old(nextPlatformId) + i
          invariant forall k :: 0 <= k < i ==> platforms[k] == NewPlatformRow(old(nextPlatformId) + k, groups[k], now)
        {
          assert !NameTaken(platforms, groups[i].name);
          var created := CreatePlatform(groups[i], now);
          i := i + 1;
        }
      }
      r := platforms;
    }
  }
}
