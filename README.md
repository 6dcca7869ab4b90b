# SentinelAI alert pipeline and store, in Dafny

This project models the decision logic of the SentinelAI backend, a service that
watches social-media posts and stores the negative ones as alerts. It covers:

- the **classifier adapter**, which maps the sentiment model's `(label, score)` to a
  sentiment, an urgency tier and a signed score (`Background.AnalyzeSentiment`);
- the **recommendation lookup**, which gives a canned response per sentiment
  (`Background.GenerateRecommendation`);
- one **tick of the feed monitor**, which turns fetched posts into stored alerts
  (`Background.TickFrom` and `Background.TickCreates` as its specification,
  `Background.MonitorFeeds` and `Background.ProcessPosts` as the loop that stores rows
  one at a time). The loop is stated for any per-post decision `inspect`; the monitor
  passes the classifier adapter for the tick's author (`Background.Inspector`);
- the **store**: the list queries as functions of the alerts table
  (`Crud.GetAlerts`, `Crud.GetCriticalAlerts`), and the writes as methods of the class
  `Crud.Store`, which holds both tables and their next primary keys (`CreateAlert`,
  `UpdateAlert`, `CreatePlatform`, `GetPlatforms`);
- the **row and request shapes** with their defaults (`Models`, `Schemas`).

The foreign services are parameters. The sentiment model is `classify: string ->
Option<ModelOutput>`, where `None` means the call raised. The social-media client's
answer is `feed: Option<Fetch>`, where `None` means no client is configured. The chat
webhook is `webhookOk: nat -> bool`, keyed by the position of the post in the fetch, where
`false` means the webhook post for that post's alert raised. Server
timestamps and the clock are supplied integers (`now`). Strings are `seq<char>`, and
case folding is ASCII only.

Modules follow the source files: `Background` (background.py), `Crud` (crud.py),
`Models` (models.py), `Schemas` (schemas.py). `Text` holds lower-casing and substring
search, and `Wrappers` holds `Option`.

### Behaviour of the code worth knowing

- `update_alert` stamps the resolution time on a 'resolved' update and never clears it.
  "Resolved implies stamped" is a table invariant of the model; the converse does not
  hold: a reopened alert keeps its resolution time (`Models.ReopenKeepsResolvedAt`).
- `AlertUpdate.response_text` is merged with `setattr`, but the alerts table has no such
  column. An update therefore stores only the status, plus the resolution time
  (`Models.ResponseTextNotStored`).
- Every alert of a tick gets the first included user as its customer, whoever wrote the
  post (background.py:56). The model reproduces this.
- Alerts have no deduplication key. Given the same fetch, a second tick stores the same
  alerts again under new ids (`MonitorFeeds` depends on the store only through its next key).

## Model

| member | source | states |
|---|---|---|
| Background.AnalyzeSentiment | background.py:21-34 | sentiment is negative iff the label lower-cases to 'negative', positive iff 'positive', neutral otherwise; urgency is high iff negative and score > 0.8, medium iff negative and score <= 0.8, low iff not negative; the score is negated exactly for negative verdicts |
| Background.ModelLabelsRecognised | background.py:22-30 | the model's upper-case labels NEGATIVE and POSITIVE are recognised through lower-casing |
| Background.ThresholdIsStrict | background.py:27 | a confidence of exactly 0.8 gives medium urgency and score -0.8; 0.81 gives high |
| Background.GenerateRecommendation | background.py:36-42 | the three known sentiments map to their fixed templates; the fallback is returned exactly for every other string |
| Background.RecommendationIgnoresMessage | background.py:36-42 | the recommendation does not depend on the message |
| Background.Author | background.py:56 | the customer is the first included user name, or 'Anonymous' when there are none |
| Background.Reach | background.py:63 | a missing or zero impression count becomes 100; any other count is kept |
| Background.BuildAlert | background.py:57-66 | the alert's customer is the author, its platform 'Twitter', its sentiment and urgency the verdict's, its message the post's text, its reach the impression count or 100 when that is missing or zero (never 0), its engagement likes + retweets, and a negative verdict gets the negative template |
| Background.Inspect | background.py:54-66 | the per-post decision raises exactly when the classifier call raises, and flags a post exactly when its classification succeeds and is negative; a flagged post's alert is negative and carries the post's text |
| Background.InspectFlagged | background.py:55-66 | the alert of a flagged post is negative, on 'Twitter', for the tick's author, of high or medium urgency, with the negative template, and carries the post's text, reach and likes+retweets |
| Background.TickFrom | background.py:53-71 | from post `i` on, a tick creates at most one alert per remaining post; the webhook answer is taken per post position |
| Background.TickPlan | background.py:44-52 | no client or a failed fetch gives no alerts; otherwise at most one alert per fetched post, every one for the tick's author |
| Background.AlertsFor | background.py:53-66 | one alert per post, in post order, each with that post's text and the tick's author |
| Background.FlaggedPosts | background.py:54-55 | a post is kept iff it is among the posts and its classification succeeds and is negative |
| Background.TickWithoutFailures | background.py:53-67 | with no classifier failure and no webhook failure at a negative post, the alerts of a tick are exactly the alerts of the negative posts, one each, in post order |
| Background.TickStopsAtClassifierFailure | background.py:53-73 | a classification that raises at post k ends the tick: the alerts are those of posts[..k] |
| Background.TickAlertsShape | background.py:55-66 | every alert of a tick is negative, on 'Twitter', for the tick's author, of high or medium urgency, with the negative template, and carries the text, reach and likes+retweets of one of the posts |
| Background.TickFromStopsAt | background.py:53-73 | whatever decides the posts, a post that raises at position k ends the tick: the alerts are those of the posts before k |
| Background.TickFromAtWebhookFailure | background.py:67-73 | a flagged post whose webhook post raises contributes its alert and nothing after it |
| Background.TickFromStopsAtWebhook | background.py:53-73 | whatever decides the posts, posts after a flagged post at position k whose webhook post raises add nothing: the alerts are those of posts[..k + 1] |
| Background.TickFromReachesWebhook | background.py:53-73 | whatever decides the posts, when no post before k ends the tick and k is a flagged post whose webhook post raises, the alerts are those of posts[..k] followed by k's own alert, the last |
| Background.TickStopsAtWebhookFailure | background.py:53-73 | posts after a negative post at position k whose webhook post raises add nothing: the alerts are those of posts[..k + 1] |
| Background.TickReachesWebhookFailure | background.py:53-73 | when every classification before k succeeds, every earlier negative post's webhook post succeeds, and the webhook post for negative post k raises, the tick stores the alerts of posts[..k] and then k's alert, and nothing after it |
| Background.PlanStep | background.py:53-73 | one post adds its alert, if any, to the alerts sent so far; then either the tick stops there or the rest of the plan comes from the next post |
| Background.TickFromFlagged | background.py:53-67 | whatever decides the posts, every alert of a tick is the flagged alert of one of the posts |
| Background.RowsOf | crud.py:15-20 | a run of alerts stores one row per alert |
| Background.RowsOfAt | crud.py:15-20 | the k-th row stored for a run of alerts is the k-th alert under key first + k, stamped with the tick's time |
| Background.RowsOfSnoc | crud.py:15-20 | storing one more alert appends its row under the next key |
| Background.Inserted | crud.py:15-20 | a step inserts a row exactly when it made one, and at most one |
| Background.StepRows | crud.py:15-20 | after a step, the k-th stored row of the run is still the k-th sent alert under key first + k |
| Background.HandlePost | background.py:54-71 | a flagged post stores exactly one row, the alert under the next key, and ends the tick iff the webhook post for that position raises; a raising classification stores nothing and ends the tick; any other post stores nothing and the tick goes on; the platforms table is untouched |
| Background.ProcessPosts | background.py:53-73 | the loop stores exactly the alerts of `TickFrom` for its per-post decision and per-position webhook answers, in order, under consecutive fresh keys, appended after the existing rows; the platforms table is untouched |
| Background.MonitorFeeds | background.py:44-75 | no client or a failed fetch stores nothing; otherwise the appended rows are those of the tick's alerts; the store invariant is kept |
| Crud.Where | crud.py:9-12 | a row is in the filtered list iff it is in the table and passes the filter; the result is a sub-multiset of the table |
| Crud.WhereKeepsAll | crud.py:9-12 | a filter that accepts every row keeps the table as it is |
| Crud.InsertByTime | crud.py:8 | inserting into a newest-first list gives a newest-first list with one more element |
| Crud.NewestFirst | crud.py:8 | the ordered list is newest first and a permutation of its input |
| Crud.Page | crud.py:13 | an offset at or past the end gives nothing; otherwise the result is the contiguous slice from the offset, of length min(limit, remaining) |
| Crud.PageConcatenate | crud.py:13 | two adjacent pages are one page as long as both |
| Crud.PageNewestFirst | crud.py:8-13 | a page of a newest-first list is newest first and holds only its rows |
| Crud.PageOfMatching | crud.py:8-13 | a page of the ordered selection is newest first and holds only table rows that pass the filters |
| Crud.PageOfMatchingSize | crud.py:8-13 | a page of the ordered selection has min(limit, selected - skip) rows, or none past the end |
| Crud.GetAlerts | crud.py:7-13 | at most `limit` rows, newest first, each a table row with the filtered sentiment (when the filter is given, non-empty and not 'all') and containing the search term case-insensitively in customer or message (when the term is non-empty); the page size is min(limit, selected - skip), or nothing past the end |
| Crud.QueryDefaults | crud.py:7-34 | the list query's defaults are offset 0, limit 100 and no filters, which give the first 100 rows of the whole table newest first; the critical list's default limit is 5: the call without a limit is the call with limit 5 |
| Crud.WholeTablePage | crud.py:7-13 | with no offset and a limit admitting the whole table, the list query is the whole ordered selection |
| Crud.GetAlertsComplete | crud.py:7-13 | with no offset and a limit admitting the whole table, the result is a permutation of the selected rows: a row is returned iff it is in the table and passes the filters |
| Crud.PagesConcatenate | crud.py:13 | consecutive pages of the list query tile the full ordered result |
| Crud.AllSentimentsFiltersNothing | crud.py:9 | a sentiment of 'all' or '' gives the same result as no sentiment |
| Crud.GetCriticalAlerts | crud.py:33-34 | at most `limit` rows, newest first, all table rows of urgency 'high'; the result is the first min(limit, n) of the ordered high-urgency rows |
| Crud.CriticalAlertsComplete | crud.py:33-34 | with a limit admitting the whole table, a row is returned iff it is a table row of urgency 'high' |
| Crud.Mentions | crud.py:44 | the count is at most the number of alerts, and zero iff no alert is on that platform |
| Crud.PlatformNames | crud.py:42-46 | the group names have no repeats, and a name is among them iff some alert is on that platform |
| Crud.Rollup | crud.py:42-48 | one group per distinct alert platform, every alert's platform has a group, and each group's mentions is that platform's (positive) alert count |
| Crud.RollupCountsEveryAlert | crud.py:42-48 | the mentions of the rollup add up to the number of alerts: every alert is counted exactly once |
| Crud.Store.constructor | models.py:9-25 | an empty database whose keys start at 1 satisfies the table invariants |
| Crud.Store.CreateAlert | crud.py:15-20 | appends exactly one row, with a key no existing row has, status 'pending', no resolution time and the given fields, and returns it; nothing else changes |
| Crud.Store.FindAlert | crud.py:23 | the first position holding the key, or None iff no row has it |
| Crud.Store.UpdateAlert | crud.py:22-31 | on an unknown key returns None and changes nothing; otherwise replaces only the matching row by its merge with the update and returns the new row |
| Crud.Store.CreatePlatform | crud.py:52-57 | a taken name fails (the unique constraint) and changes nothing; otherwise appends one row with a fresh key and the given fields |
| Crud.Store.GetPlatforms | crud.py:36-50 | with existing platform rows returns them and writes nothing; with none, inserts one row per rollup group in order, under consecutive fresh keys, and returns them; alerts are untouched |
| Models.NewAlertRow | models.py:9-20 | a new row has the given key and timestamp, status 'pending', no resolution time, and its schema fields are exactly the request's |
| Models.NewPlatformRow | models.py:25-29 | a new platform row has the given key, name, mentions and average, and the given update time |
| Models.MergeUpdate | crud.py:25-28 | the update writes the status; a 'resolved' status stamps the resolution time, any other keeps the old one; every other field is unchanged |
| Models.ResponseTextNotStored | crud.py:25-26 | two updates with the same status and different response texts store the same row |
| Models.InsertAlertKeepsValid | models.py:9 | inserting a row under the next key keeps keys unique and below the counter, and keeps resolved rows stamped; no existing row has that key |
| Models.InsertPlatformKeepsValid | crud.py:52-57 | inserting a platform with an unused name under the next key keeps keys and names unique and keys below the counter |
| Models.UpdateAlertKeepsValid | crud.py:22-31 | merging an update into one row keeps the table invariant |
| Models.ReopenKeepsResolvedAt | crud.py:27-28 | resolving and then setting 'pending' leaves the resolution time in place |
| Schemas.AlertCreateDefaults | schemas.py:11-13 | a create request with only the required fields has reach 0, engagement 0 and no recommended response |
| Schemas.AlertUpdateDefaults | schemas.py:18-20 | an update with only a status has no response text |
| Text.ContainsIff | crud.py:12 | the recursive substring test holds iff the term occurs at some position |
| Text.ContainsIgnoringCaseOfTerm | crud.py:12 | the search ignores the case of the search term |

## Left out

- main.py (HTTP routing, CORS, the websocket keep-alive loop and the connected-client list, broadcasting, the static settings and lists): request handling and async I/O, not decision logic.
- `notify_slack` and `notify_email` (background.py:82-101): HTTP and SMTP I/O. The only part modelled is that a webhook post that raises ends the tick (`webhookOk`). The email sender catches its own errors, so it never affects the tick.
- The sentiment pipeline and the Twitter client (background.py:15,19,51): foreign services, given as the `classify` and `feed` parameters. The query string and `max_results=10` belong to the client call; the model takes whatever posts the feed holds.
- `BackgroundScheduler` (background.py:78-80): timing and threading. A tick is one call of `MonitorFeeds`.
- `get_analytics_trend` (crud.py:59-75): a wall-clock window and the numeric average of a text column through database casting.
- Crud.Store.GetPlatforms: does not model `sentiment_avg`. Every bootstrapped row stores 0.0 because the database's average of the text sentiment column is not modelled.
- Crud.GetAlerts: the search is a plain case-insensitive substring test. `ILIKE` gives `%` and `_` in the term wildcard meaning, and those are not modelled. Case folding is ASCII only.
- Crud.GetAlerts: the order among rows with equal timestamps is unspecified in SQL. The model keeps table order. The platform groups of `GetPlatforms` come in order of first appearance, which SQL also leaves unspecified.
- Crud.GetAlerts: `skip` and `limit` (and the critical-alerts `limit`) are natural numbers. Negative values behave differently on each database engine.
- Background.ProcessPosts: every row of a tick is stamped with the one time `now`. The source's `server_default=func.now()` (models.py:15) stamps each insert separately, so the order `GetAlerts` gives rows of one tick can differ from the model's.
- ORM session mechanics (add, commit, refresh, close) and `server_default=func.now()`: timestamps and now are supplied integers. Each write is atomic in the model.
- Background.ProcessPosts: does not model faults raised by `create_alert` itself, a response whose includes lack a `users` entry, or missing metric keys. Only classifier and webhook failures end the tick.
- Background.MonitorFeeds: assumes a database session is obtained. How `next(SessionLocal())` at background.py:48 behaves depends on database.py, and database.py is not part of this model. main.py:4 imports `get_db` next to `SessionLocal`, which suggests `SessionLocal` is a session factory rather than a generator; then `next()` raises TypeError outside the `try`, and no tick stores an alert. This is unverified and not modelled.
- The `print` calls (background.py:46, 68, 73): console output. Only one that raised would matter: after `create_alert` at background.py:68 it would end the tick as a raising webhook post does. Printing is assumed not to raise.
- The type of `sentiment`, `urgency` and `status` is an unconstrained string in the source; the model keeps them as strings and does not validate them.
