/**
 * The alert pipeline: mapping the classifier's output to a sentiment, an
 * urgency and a signed score; the canned response for a sentiment; and one
 * tick of the feed monitor, which stores an alert for every negative post.
 * The classifier, the social-media client and the chat webhook are foreign
 * services and enter as parameters.
 */
module Background {
  import opened Wrappers
  import opened Text
  import opened Schemas
  import opened Models
  import opened Crud

  const Negative := "negative"
  const Positive := "positive"
  const Neutral := "neutral"
  const Medium := "medium"
  const Low := "low"
  /** The platform of every alert the monitor creates. */
  const Twitter := "Twitter"
  /** The customer name when the fetch includes no users. */
  const Anonymous := "Anonymous"
  /** The reach recorded when a post has no impression count, or a zero one. */
  const FallbackReach := 100
  /** Urgency is high only for a negative confidence strictly above this. */
  const HighConfidence: real := 0.8

  const NegativeTemplate := "Apologize sincerely, offer immediate resolution (e.g., refund/replacement), and escalate to support team."
  const NeutralTemplate := "Acknowledge feedback, ask for more details, and share how we're improving."
  const PositiveTemplate := "Thank the customer, encourage sharing more, and offer loyalty perks."
  const FallbackTemplate := "Thank you for your feedback. We value your input and will review this."

  /** What the sentiment model answers for a text: a label and a confidence. */
  datatype ModelOutput = ModelOutput(rawLabel: string, score: real)

  /** The adapter's verdict: sentiment label, urgency tier and signed score. */
  datatype Classification = Classification(sentiment: string, urgency: string, score: real)

  /**
   * `analyze_sentiment` after the model call: a label that lower-cases to
   * 'negative' gives a negative verdict whose urgency is high exactly when
   * the confidence exceeds 0.8, and whose score is the negated confidence;
   * 'positive' gives a positive, low-urgency verdict; anything else a neutral,
   * low-urgency one. Only negative verdicts negate the score.
   */
  function AnalyzeSentiment(rawLabel: string, score: real): (c: Classification)
    ensures c.sentiment == Negative <==> Lower(rawLabel) == Negative
    ensures c.sentiment == Positive <==> Lower(rawLabel) == Positive
    ensures c.sentiment == Neutral <==> Lower(rawLabel) != Negative && Lower(rawLabel) != Positive
    ensures c.urgency == High <==> c.sentiment == Negative && score > HighConfidence
    ensures c.urgency == Medium <==> c.sentiment == Negative && score <= HighConfidence
    ensures c.urgency == Low <==> c.sentiment != Negative
    ensures c.sentiment == Negative ==> c.score == -score
    ensures c.sentiment != Negative ==> c.score == score
  {
    var name := Lower(rawLabel);
    if name == Negative then
      Classification(Negative, if score > HighConfidence then High else Medium, -score)
    else if name == Positive then
      Classification(Positive, Low, score)
    else
      Classification(Neutral, Low, score)
  }

  /** The upper-case labels the sentiment model emits are recognised. */
  lemma ModelLabelsRecognised(score: real)
    ensures AnalyzeSentiment("NEGATIVE", score).sentiment == Negative
    ensures AnalyzeSentiment("POSITIVE", score) == Classification(Positive, Low, score)
  {
    LowerMatches("NEGATIVE", Negative);
    LowerMatches("POSITIVE", Positive);
  }

  /** The confidence threshold is strict: exactly 0.8 is still medium. */
  lemma ThresholdIsStrict()
    ensures AnalyzeSentiment("negative", 0.8) == Classification(Negative, Medium, -0.8)
    ensures AnalyzeSentiment("negative", 0.81).urgency == High
  {
    LowerMatches(Negative, Negative);
  }

  /**
   * `generate_recommendation`: the template of a known sentiment, the
   * fallback for any other string. The message is not consulted.
   */
  function GenerateRecommendation(sentiment: string, message: string): (r: string)
    ensures sentiment == Negative ==> r == NegativeTemplate
    ensures sentiment == Neutral ==> r == NeutralTemplate
    ensures sentiment == Positive ==> r == PositiveTemplate
    ensures r == FallbackTemplate <==> sentiment !in {Negative, Neutral, Positive}
  {
    if sentiment == Negative then NegativeTemplate
    else if sentiment == Neutral then NeutralTemplate
    else if sentiment == Positive then PositiveTemplate
    else FallbackTemplate
  }

  /** The recommendation depends on the sentiment alone. */
  lemma RecommendationIgnoresMessage(sentiment: string, m1: string, m2: string)
    ensures GenerateRecommendation(sentiment, m1) == GenerateRecommendation(sentiment, m2)
  {
  }

  /** The public metrics of a fetched post; the impression count may be missing. */
  datatype Post = Post(text: string, impressions: Option<int>, likes: int, retweets: int)

  /**
   * What searching recent posts gives: the posts (none when the response has
   * no data) with the user names of the response's includes, or a failure.
   */
  datatype Fetch = FetchFailed | Fetched(posts: seq<Post>, users: seq<string>)

  /** The customer of every alert in a tick: the first included user, or 'Anonymous'. */
  function Author(users: seq<string>): (a: string)
    ensures users != [] ==> a == users[0]
    ensures users == [] ==> a == Anonymous
  {
    if users != [] then users[0] else Anonymous
  }

  /** `impression_count or 100`: a missing or zero count becomes 100, any other count is kept. */
  function Reach(impressions: Option<int>): (r: int)
    ensures impressions.None? || impressions.value == 0 ==> r == FallbackReach
    ensures impressions.Some? && impressions.value != 0 ==> r == impressions.value
    ensures r != 0
  {
    match impressions
    case None => FallbackReach
    case Some(n) => if n == 0 then FallbackReach else n
  }

  /** The alert the monitor builds for `post` with verdict `c`. */
  function BuildAlert(post: Post, author: string, c: Classification): (a: AlertCreate)
    ensures a.customer == author && a.platform == Twitter && a.message == post.text
    ensures a.sentiment == c.sentiment && a.urgency == c.urgency
    ensures a.reach == Reach(post.impressions) && a.reach != 0
    ensures a.engagement == post.likes + post.retweets
    ensures c.sentiment == Negative ==> a.recommendedResponse == Some(NegativeTemplate)
  {
    AlertCreate(author, Twitter, c.sentiment, c.urgency, post.text,
                Reach(post.impressions), post.likes + post.retweets,
                Some(GenerateRecommendation(c.sentiment, post.text)))
  }

  /** What handling one post decides, before anything is stored. */
  datatype PostOutcome = ClassifierRaised | NotFlagged | FlaggedAlert(alert: AlertCreate)

  /**
   * The pure part of handling one post: classify its text (which may raise),
   * and for a negative verdict build its alert.
   */
  function Inspect(post: Post, author: string, classify: string -> Option<ModelOutput>): (o: PostOutcome)
    ensures o.ClassifierRaised? <==> classify(post.text).None?
    ensures o.FlaggedAlert? <==> Flagged(post, classify)
    ensures o.FlaggedAlert? ==> o.alert.sentiment == Negative && o.alert.message == post.text
  {
    match classify(post.text)
    case None => ClassifierRaised
    case Some(out) =>
      var c := AnalyzeSentiment(out.rawLabel, out.score);
      if c.sentiment != Negative then NotFlagged else FlaggedAlert(BuildAlert(post, author, c))
  }

  /** The per-post decision of a tick whose alerts go to `author`. */
  function Inspector(author: string, classify: string -> Option<ModelOutput>): (inspect: Post -> PostOutcome)
    ensures forall p :: inspect(p) == Inspect(p, author, classify)
  {
    p => Inspect(p, author, classify)
  }

  /** The alerts one post's outcome adds to the tick: its alert when flagged, else none. */
  function Emitted(o: PostOutcome): (r: seq<AlertCreate>)
    ensures |r| <= 1
    ensures r != [] <==> o.FlaggedAlert?
  {
    if o.FlaggedAlert? then [o.alert] else []
  }

  /**
   * Whether one post's outcome ends the tick: a raising classifier, or a
   * flagged post whose webhook post raises (`webhookOk` is false).
   */
  predicate Stops(o: PostOutcome, webhookOk: bool)
  {
    o.ClassifierRaised? || (o.FlaggedAlert? && !webhookOk)
  }

  /**
   * The alerts a tick creates from the posts from index `i` on, in post
   * order, when `inspect` decides each post: the post's alert if it is
   * flagged, then, unless the post ends the tick, the alerts of the rest.
   * A post whose classification raises ends the tick; so does a flagged one
   * whose webhook post raises, and its alert stays created. `webhookOk(i)`
   * says whether the webhook post for the alert of post `i` succeeds.
   */
  function TickFrom(posts: seq<Post>, i: nat, inspect: Post -> PostOutcome,
                    webhookOk: nat -> bool): (r: seq<AlertCreate>)
    requires i <= |posts|
    ensures |r| <= |posts| - i
    decreases |posts| - i
  {
    if i == |posts| then []
    else
      var o := inspect(posts[i]);
      Emitted(o) + (if Stops(o, webhookOk(i)) then [] else TickFrom(posts, i + 1, inspect, webhookOk))
  }

  /** The alerts one tick creates from `posts`, all for `author`. */
  function TickCreates(posts: seq<Post>, author: string, classify: string -> Option<ModelOutput>,
                       webhookOk: nat -> bool): seq<AlertCreate>
  {
    TickFrom(posts, 0, Inspector(author, classify), webhookOk)
  }

  /** The alerts of a whole tick: none without a configured client or when the fetch fails. */
  function TickPlan(feed: Option<Fetch>, classify: string -> Option<ModelOutput>, webhookOk: nat -> bool)
    : (r: seq<AlertCreate>)
    ensures feed.None? || feed == Some(FetchFailed) ==> r == []
    ensures feed.Some? && feed.value.Fetched? ==>
      |r| <= |feed.value.posts| && forall a :: a in r ==> a.customer == Author(feed.value.users)
  {
    match feed
    case None => []
    case Some(FetchFailed) => []
    case Some(Fetched(posts, users)) =>
      TickAlertsShape(posts, Author(users), classify, webhookOk);
      TickCreates(posts, Author(users), classify, webhookOk)
  }

  /** The classifier flags `post` as negative. */
  predicate Flagged(post: Post, classify: string -> Option<ModelOutput>) {
    classify(post.text).Some? &&
    AnalyzeSentiment(classify(post.text).value.rawLabel, classify(post.text).value.score).sentiment == Negative
  }

  /** The posts the classifier flags, in post order. */
  function FlaggedPosts(posts: seq<Post>, classify: string -> Option<ModelOutput>): (r: seq<Post>)
    ensures forall p :: p in r <==> p in posts && Flagged(p, classify)
  {
    if posts == [] then []
    else
      var rest := FlaggedPosts(posts[1..], classify);
      assert posts == [posts[0]] + posts[1..];
      if Flagged(posts[0], classify) then [posts[0]] + rest else rest
  }

  /** The alert of each post, built from its (successful) classification, in order. */
  function AlertsFor(posts: seq<Post>, author: string, classify: string -> Option<ModelOutput>): (r: seq<AlertCreate>)
    requires forall p :: p in posts ==> classify(p.text).Some?
    ensures |r| == |posts|
    ensures forall k :: 0 <= k < |r| ==> r[k].message == posts[k].text && r[k].customer == author
  {
    if posts == [] then []
    else
      var out := classify(posts[0].text).value;
      [BuildAlert(posts[0], author, AnalyzeSentiment(out.rawLabel, out.score))] + AlertsFor(posts[1..], author, classify)
  }

  /**
   * When no classification raises and no webhook post raises, a tick creates
   * exactly one alert per negative post, in post order, and none for the
   * other posts.
   */
  lemma TickWithoutFailures(posts: seq<Post>, author: string, classify: string -> Option<ModelOutput>,
                            webhookOk: nat -> bool)
    requires forall i :: 0 <= i < |posts| ==> classify(posts[i].text).Some?
    requires forall j :: 0 <= j < |posts| && Flagged(posts[j], classify) ==> webhookOk(j)
    ensures TickCreates(posts, author, classify, webhookOk) == AlertsFor(FlaggedPosts(posts, classify), author, classify)
  {
    TickFromWithoutFailures(posts, 0, author, classify, webhookOk);
    assert posts[0..] == posts;
  }

  lemma {:induction false} TickFromWithoutFailures(posts: seq<Post>, i: nat, author: string,
                                                   classify: string -> Option<ModelOutput>, webhookOk: nat -> bool)
    requires i <= |posts|
    requires forall i :: 0 <= i < |posts| ==> classify(posts[i].text).Some?
    requires forall j :: 0 <= j < |posts| && Flagged(posts[j], classify) ==> webhookOk(j)
    ensures TickFrom(posts, i, Inspector(author, classify), webhookOk) == AlertsFor(FlaggedPosts(posts[i..], classify), author, classify)
    decreases |posts| - i
  {
    if i < |posts| {
      assert posts[i..][0] == posts[i] && posts[i..][1..] == posts[i + 1..];
      TickFromWithoutFailures(posts, i + 1, author, classify, webhookOk);
    }
  }

  /**
   * A classification that raises ends the tick: the alerts are those of the
   * posts before it, and no later post is looked at.
   */
  lemma TickStopsAtClassifierFailure(posts: seq<Post>, k: nat, author: string,
                                     classify: string -> Option<ModelOutput>, webhookOk: nat -> bool)
    requires k < |posts| && classify(posts[k].text).None?
    ensures TickCreates(posts, author, classify, webhookOk) == TickCreates(posts[..k], author, classify, webhookOk)
  {
    TickFromStopsAt(posts, 0, k, Inspector(author, classify), webhookOk);
  }

  /** Whatever decides the posts, a post that raises ends the tick: later posts add nothing. */
  lemma {:induction false} TickFromStopsAt(posts: seq<Post>, i: nat, k: nat, inspect: Post -> PostOutcome,
                                           webhookOk: nat -> bool)
    requires i <= k < |posts| && inspect(posts[k]).ClassifierRaised?
    ensures TickFrom(posts, i, inspect, webhookOk) == TickFrom(posts[..k], i, inspect, webhookOk)
    decreases k - i
  {
    var prefix := posts[..k];
    if i == k {
      TickFromAtRaise(posts, k, inspect, webhookOk);
    } else {
      var o := inspect(posts[i]);
      assert prefix[i] == posts[i];
      if !Stops(o, webhookOk(i)) {
        TickFromStopsAt(posts, i + 1, k, inspect, webhookOk);
      }
    }
  }

  /**
   * Whatever decides the posts, a flagged post whose webhook post raises ends
   * the tick after its own alert: later posts add nothing.
   */
  lemma {:induction false} TickFromStopsAtWebhook(posts: seq<Post>, i: nat, k: nat, inspect: Post -> PostOutcome,
                                                  webhookOk: nat -> bool)
    requires i <= k < |posts| && inspect(posts[k]).FlaggedAlert? && !webhookOk(k)
    ensures TickFrom(posts, i, inspect, webhookOk) == TickFrom(posts[..k + 1], i, inspect, webhookOk)
    decreases k - i
  {
    var prefix := posts[..k + 1];
    assert prefix[i] == posts[i];
    if i == k {
      TickFromAtWebhookFailure(posts, k, inspect, webhookOk);
      TickFromAtWebhookFailure(prefix, k, inspect, webhookOk);
    } else {
      var o := inspect(posts[i]);
      if !Stops(o, webhookOk(i)) {
        TickFromStopsAtWebhook(posts, i + 1, k, inspect, webhookOk);
      }
    }
  }

  /**
   * Whatever decides the posts, a tick that reaches a flagged post whose
   * webhook post raises ends with that post's alert: the alerts are those of
   * the earlier posts followed by it.
   */
  lemma {:induction false} TickFromReachesWebhook(posts: seq<Post>, i: nat, k: nat, inspect: Post -> PostOutcome,
                                                  webhookOk: nat -> bool)
    requires i <= k < |posts| && inspect(posts[k]).FlaggedAlert? && !webhookOk(k)
    requires forall j :: i <= j < k ==> !Stops(inspect(posts[j]), webhookOk(j))
    ensures TickFrom(posts, i, inspect, webhookOk) == TickFrom(posts[..k], i, inspect, webhookOk) + [inspect(posts[k]).alert]
    decreases k - i
  {
    var prefix := posts[..k];
    if i == k {
      TickFromAtWebhookFailure(posts, k, inspect, webhookOk);
      assert TickFrom(prefix, i, inspect, webhookOk) == [];
    } else {
      var o := inspect(posts[i]);
      assert prefix[i] == posts[i];
      TickFromReachesWebhook(posts, i + 1, k, inspect, webhookOk);
      AppendAssoc(Emitted(o), TickFrom(prefix, i + 1, inspect, webhookOk), [inspect(posts[k]).alert]);
    }
  }

  /** A flagged post whose webhook post raises contributes its alert and ends the tick there. */
  lemma TickFromAtWebhookFailure(posts: seq<Post>, k: nat, inspect: Post -> PostOutcome, webhookOk: nat -> bool)
    requires k < |posts| && inspect(posts[k]).FlaggedAlert? && !webhookOk(k)
    ensures TickFrom(posts, k, inspect, webhookOk) == [inspect(posts[k]).alert]
  {
    assert [inspect(posts[k]).alert] + [] == [inspect(posts[k]).alert];
  }

  /**
   * A webhook post that raises for the alert of post k ends the tick: the
   * alerts are those of the posts up to and including k.
   */
  lemma TickStopsAtWebhookFailure(posts: seq<Post>, k: nat, author: string,
                                  classify: string -> Option<ModelOutput>, webhookOk: nat -> bool)
    requires k < |posts| && Flagged(posts[k], classify) && !webhookOk(k)
    ensures TickCreates(posts, author, classify, webhookOk) == TickCreates(posts[..k + 1], author, classify, webhookOk)
  {
    TickFromStopsAtWebhook(posts, 0, k, Inspector(author, classify), webhookOk);
  }

  /**
   * A tick in which no classification raises and no webhook post raises before
   * post k, and whose negative post k hits a raising webhook post, stores the
   * alerts of posts[..k] and then the alert of post k, and nothing after it.
   */
  lemma TickReachesWebhookFailure(posts: seq<Post>, k: nat, author: string,
                                  classify: string -> Option<ModelOutput>, webhookOk: nat -> bool)
    requires k < |posts| && Flagged(posts[k], classify) && !webhookOk(k)
    requires forall j :: 0 <= j < k ==> classify(posts[j].text).Some?
    requires forall j :: 0 <= j < k && Flagged(posts[j], classify) ==> webhookOk(j)
    ensures TickCreates(posts, author, classify, webhookOk) ==
      TickCreates(posts[..k], author, classify, webhookOk) + [Inspect(posts[k], author, classify).alert]
  {
    var inspect := Inspector(author, classify);
    forall j | 0 <= j < k
      ensures !Stops(inspect(posts[j]), webhookOk(j))
    {
      assert inspect(posts[j]) == Inspect(posts[j], author, classify);
    }
    TickFromReachesWebhook(posts, 0, k, inspect, webhookOk);
  }

  /** A post that raises ends the tick there. */
  lemma TickFromAtRaise(posts: seq<Post>, k: nat, inspect: Post -> PostOutcome, webhookOk: nat -> bool)
    requires k < |posts| && inspect(posts[k]).ClassifierRaised?
    ensures TickFrom(posts, k, inspect, webhookOk) == []
  {
  }

  /**
   * Every alert of a tick is a negative alert on 'Twitter' for `author`, of
   * high or medium urgency, carrying the negative template, and built from
   * one of the posts: its message is the post's text, its reach the post's
   * reach and its engagement the post's likes plus retweets.
   */
  lemma TickAlertsShape(posts: seq<Post>, author: string, classify: string -> Option<ModelOutput>,
                        webhookOk: nat -> bool)
    ensures forall a :: a in TickCreates(posts, author, classify, webhookOk) ==>
      && a.platform == Twitter && a.customer == author && a.sentiment == Negative
      && (a.urgency == High || a.urgency == Medium)
      && a.recommendedResponse == Some(NegativeTemplate)
      && exists p :: p in posts && a.message == p.text && a.reach == Reach(p.impressions) && a.engagement == p.likes + p.retweets
  {
    TickFromFlagged(posts, 0, Inspector(author, classify), webhookOk);
    forall a | a in TickCreates(posts, author, classify, webhookOk)
      ensures exists p :: p in posts && Inspect(p, author, classify) == FlaggedAlert(a)
    {
      var p :| p in posts && Inspector(author, classify)(p) == FlaggedAlert(a);
      assert Inspect(p, author, classify) == FlaggedAlert(a);
    }
    forall a | a in TickCreates(posts, author, classify, webhookOk)
      ensures && a.platform == Twitter && a.customer == author && a.sentiment == Negative
              && (a.urgency == High || a.urgency == Medium)
              && a.recommendedResponse == Some(NegativeTemplate)
              && exists p :: p in posts && a.message == p.text && a.reach == Reach(p.impressions) && a.engagement == p.likes + p.retweets
    {
      var p :| p in posts && Inspect(p, author, classify) == FlaggedAlert(a);
      InspectFlagged(p, author, classify, a);
    }
  }

  /** Whatever decides the posts, every alert of a tick is the alert of one of the posts. */
  lemma {:induction false} TickFromFlagged(posts: seq<Post>, i: nat, inspect: Post -> PostOutcome,
                                           webhookOk: nat -> bool)
    requires i <= |posts|
    ensures forall a :: a in TickFrom(posts, i, inspect, webhookOk) ==>
      exists p :: p in posts && inspect(p) == FlaggedAlert(a)
    decreases |posts| - i
  {
    if i < |posts| {
      var o := inspect(posts[i]);
      var rest := if Stops(o, webhookOk(i)) then [] else TickFrom(posts, i + 1, inspect, webhookOk);
      assert TickFrom(posts, i, inspect, webhookOk) == Emitted(o) + rest;
      TickFromFlagged(posts, i + 1, inspect, webhookOk);
      forall a | a in TickFrom(posts, i, inspect, webhookOk)
        ensures exists p :: p in posts && inspect(p) == FlaggedAlert(a)
      {
        if a in Emitted(o) {
          assert posts[i] in posts && inspect(posts[i]) == FlaggedAlert(a);
        } else {
          assert a in TickFrom(posts, i + 1, inspect, webhookOk);
        }
      }
    }
  }

  /** The alert of a flagged post: negative, on 'Twitter', for `author`, with the post's text and metrics. */
  lemma InspectFlagged(p: Post, author: string, classify: string -> Option<ModelOutput>, a: AlertCreate)
    requires Inspect(p, author, classify) == FlaggedAlert(a)
    ensures && a.platform == Twitter && a.customer == author && a.sentiment == Negative
            && (a.urgency == High || a.urgency == Medium)
            && a.recommendedResponse == Some(NegativeTemplate)
            && a.message == p.text && a.reach == Reach(p.impressions) && a.engagement == p.likes + p.retweets
  {
  }

  /** The rows stored for the alerts `plan`, under consecutive keys from `firstId`, at time `now`. */
  function RowsOf(firstId: nat, plan: seq<AlertCreate>, now: int): (rows: seq<AlertRow>)
    ensures |rows| == |plan|
  {
    if plan == [] then []
    else RowsOf(firstId, plan[..|plan| - 1], now) + [NewAlertRow(firstId + |plan| - 1, plan[|plan| - 1], now)]
  }

  lemma AppendAssoc(a: seq<AlertCreate>, b: seq<AlertCreate>, c: seq<AlertCreate>)
    ensures (a + b) + c == a + (b + c)
  {
  }

  /** The rows a step inserted: its row, if it made one. */
  function Inserted(row: Option<AlertRow>): (r: seq<AlertRow>)
    ensures |r| <= 1
    ensures r != [] <==> row.Some?
  {
    if row.Some? then [row.value] else []
  }

  /**
   * One step keeps the rows of the run in step with the alerts sent: an
   * alert emitted by the step was inserted as the row with the next key.
   */
  lemma StepRows(firstId: nat, created: seq<AlertRow>, sent: seq<AlertCreate>, o: PostOutcome,
                 row: Option<AlertRow>, now: int)
    requires |created| == |sent|
    requires forall k :: 0 <= k < |created| ==> created[k] == NewAlertRow(firstId + k, sent[k], now)
    requires row.Some? <==> o.FlaggedAlert?
    requires row.Some? ==> row.value == NewAlertRow(firstId + |created|, o.alert, now)
    ensures |created + Inserted(row)| == |sent + Emitted(o)|
    ensures forall k :: 0 <= k < |created + Inserted(row)| ==>
      (created + Inserted(row))[k] == NewAlertRow(firstId + k, (sent + Emitted(o))[k], now)
  {
    if row.None? {
      assert created + Inserted(row) == created;
      assert sent + Emitted(o) == sent;
    }
  }

  /**
   * One step of the run against its plan: the post at `i` adds its alert, if
   * any, to what was sent, and either the run stops there or the rest of the
   * plan follows from the next post.
   */
  lemma PlanStep(posts: seq<Post>, i: nat, inspect: Post -> PostOutcome, webhookOk: nat -> bool,
                 sent: seq<AlertCreate>, plan: seq<AlertCreate>)
    requires i < |posts|
    requires sent + TickFrom(posts, i, inspect, webhookOk) == plan
    ensures var o := inspect(posts[i]);
      && (Stops(o, webhookOk(i)) ==> sent + Emitted(o) == plan)
      && (!Stops(o, webhookOk(i)) ==> (sent + Emitted(o)) + TickFrom(posts, i + 1, inspect, webhookOk) == plan)
  {
    var o := inspect(posts[i]);
    var rest := TickFrom(posts, i + 1, inspect, webhookOk);
    if Stops(o, webhookOk(i)) {
      assert TickFrom(posts, i, inspect, webhookOk) == Emitted(o) + [];
      assert Emitted(o) + [] == Emitted(o);
    } else {
      assert TickFrom(posts, i, inspect, webhookOk) == Emitted(o) + rest;
      AppendAssoc(sent, Emitted(o), rest);
    }
  }

  /** Rows that agree with `RowsOf` at every position are `RowsOf`. */
  lemma RowsOfPointwise(firstId: nat, plan: seq<AlertCreate>, now: int, rows: seq<AlertRow>)
    requires |rows| == |plan|
    requires forall k :: 0 <= k < |rows| ==> rows[k] == NewAlertRow(firstId + k, plan[k], now)
    ensures rows == RowsOf(firstId, plan, now)
  {
    forall k | 0 <= k < |rows|
      ensures rows[k] == RowsOf(firstId, plan, now)[k]
    {
      RowsOfAt(firstId, plan, now, k);
    }
  }

  /** Storing one more alert appends its row under the next key. */
  lemma RowsOfSnoc(firstId: nat, plan: seq<AlertCreate>, a: AlertCreate, now: int)
    ensures RowsOf(firstId, plan + [a], now) == RowsOf(firstId, plan, now) + [NewAlertRow(firstId + |plan|, a, now)]
  {
    assert (plan + [a])[..|plan|] == plan;
  }

  /** The `k`-th stored row is the `k`-th alert under key `firstId + k`. */
  lemma {:induction false} RowsOfAt(firstId: nat, plan: seq<AlertCreate>, now: int, k: nat)
    requires k < |plan|
    ensures RowsOf(firstId, plan, now)[k] == NewAlertRow(firstId + k, plan[k], now)
  {
    if k < |plan| - 1 {
      RowsOfAt(firstId, plan[..|plan| - 1], now, k);
    }
  }

  /**
   * The side effects of handling one post whose outcome is `o`: a flagged
   * post's alert is stored under the next key and posted to the webhook.
   * Returns the row stored, if any, and whether the tick ends here.
   */
  method HandlePost(store: Store, o: PostOutcome, webhookOk: bool, now: int)
    returns (row: Option<AlertRow>, stop: bool)
    requires store.Valid()
    modifies store
    ensures store.Valid()
    ensures row.Some? <==> o.FlaggedAlert?
    ensures row.Some? ==> row.value == NewAlertRow(old(store.nextAlertId), o.alert, now)
    ensures stop == Stops(o, webhookOk)
    ensures store.alerts == old(store.alerts) + Inserted(row)
    ensures store.nextAlertId == old(store.nextAlertId) + |Emitted(o)|
    ensures store.platforms == old(store.platforms) && store.nextPlatformId == old(store.nextPlatformId)
  {
    match o
    case ClassifierRaised =>
      row, stop := None, true;
    case NotFlagged =>
      row, stop := None, false;
    case FlaggedAlert(a) =>
      var r := store.CreateAlert(a, now);
      row, stop := Some(r), !webhookOk;
  }

  /**
   * The loop of a tick over fetched posts: decides each post with `inspect`,
   * stores the alert of each flagged one, and ends at a classification or
   * webhook failure. Returns the rows created.
   */
  method ProcessPosts(store: Store, posts: seq<Post>, inspect: Post -> PostOutcome,
                      webhookOk: nat -> bool, now: int) returns (created: seq<AlertRow>)
    requires store.Valid()
    modifies store
    ensures store.Valid()
    ensures store.alerts == old(store.alerts) + created
    ensures created == RowsOf(old(store.nextAlertId), TickFrom(posts, 0, inspect, webhookOk), now)
    ensures store.platforms == old(store.platforms) && store.nextPlatformId == old(store.nextPlatformId)
  {
    var firstId := store.nextAlertId;
    ghost var plan := TickFrom(posts, 0, inspect, webhookOk);
    created := [];
    ghost var sent: seq<AlertCreate> := [];
    var i := 0;
    var stopped := false;
    while i < |posts| && !stopped
      invariant 0 <= i <= |posts|
      invariant store.Valid()
      invariant store.alerts == old(store.alerts) + created
      invariant store.platforms == old(store.platforms) && store.nextPlatformId == old(store.nextPlatformId)
      invariant store.nextAlertId == firstId + |created|
      invariant |created| == |sent|
      invariant forall k :: 0 <= k < |created| ==> created[k] == NewAlertRow(firstId + k, sent[k], now)
      invariant !stopped ==> sent + TickFrom(posts, i, inspect, webhookOk) == plan
      invariant stopped ==> sent == plan
    {
      var o := inspect(posts[i]);
      var row, stop := HandlePost(store, o, webhookOk(i), now);
      StepRows(firstId, created, sent, o, row, now);
      PlanStep(posts, i, inspect, webhookOk, sent, plan);
      created := created + Inserted(row);
      sent := sent + Emitted(o);
      stopped := stop;
      i := i + 1;
    }
    if !stopped {
      assert sent + [] == sent;
    }
    RowsOfPointwise(firstId, sent, now, created);
  }

  /**
   * `monitor_feeds`, one tick. With no client nothing happens, and a failed
   * fetch ends the tick with nothing stored. Otherwise the posts are taken in
   * order; each negative one becomes a stored alert, handed to the
   * notifiers; a classification or webhook failure ends the tick, and the
   * alerts stored until then stay stored. Returns the rows created, which
   * are exactly the rows appended to the alerts table.
   */
  method MonitorFeeds(store: Store, feed: Option<Fetch>, classify: string -> Option<ModelOutput>,
                      webhookOk: nat -> bool, now: int) returns (created: seq<AlertRow>)
    requires store.Valid()
    modifies store
    ensures store.Valid()
    ensures feed.None? ==> created == []
    ensures store.alerts == old(store.alerts) + created
    ensures created == RowsOf(old(store.nextAlertId), TickPlan(feed, classify, webhookOk), now)
    ensures store.platforms == old(store.platforms) && store.nextPlatformId == old(store.nextPlatformId)
  {
    match feed
    case None =>
      created := [];
    case Some(FetchFailed) =>
      created := [];
    case Some(Fetched(posts, users)) =>
      created := ProcessPosts(store, posts, Inspector(Author(users), classify), webhookOk, now);
  }
}
