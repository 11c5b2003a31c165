/** The correlation engine of helpers/correlation_engine.py.

    For every unprocessed tweet: embed its text, score it against every active market by
    cosine similarity, keep the 50 best candidates, let the adjudicator (an LLM) judge them,
    store each judged correlation whose relevance is at least 0.6, and mark the tweet
    processed whatever happened. The embedding model, the adjudicator and the Euclidean norm
    are parameters. */
module Engine {
  import opened Common
  import opened Sorting
  import opened Similarity
  import opened Store

  const TopN: nat := 50
  const RelevanceFloor: real := 0.6

  function Min(a: nat, b: nat): nat {
    if a <= b then a else b
  }

  /** One entry of `scored_candidates`: a similarity and the market it belongs to. */
  datatype Scored = Scored(score: real, market: Market)

  /** "Sorted by score, descending": `a` may stand before `b`. */
  predicate ScoreGe(a: Scored, b: Scored) {
    a.score >= b.score
  }

  lemma ScoreGeTotal()
    ensures TotalPreorder(ScoreGe)
  {
  }

  /** get_active_market_data only returns rows whose embedding is not NULL. */
  predicate HasEmbeddings(ms: seq<Market>) {
    forall i :: 0 <= i < |ms| ==> ms[i].embedding.Some?
  }

  /** The scores of the first `n` active markets, in row order. numpy raises ValueError on
      a dot product of vectors of different lengths, and nothing catches it: None. */
  function ScoresUpTo(e: seq<real>, ms: seq<Market>, norm: seq<real> -> real, n: nat): (r: Option<seq<Scored>>)
    requires n <= |ms| && HasEmbeddings(ms)
    ensures r.Some? <==> forall i :: 0 <= i < n ==> |ms[i].embedding.value| == |e|
    ensures r.Some? ==> |r.value| == n
    ensures r.Some? ==> forall i :: 0 <= i < n ==>
      r.value[i] == Scored(Cosine(e, ms[i].embedding.value, norm), ms[i])
  {
    if n == 0 then Some([])
    else
      match ScoresUpTo(e, ms, norm, n - 1)
      case None => None
      case Some(s) =>
        var v := ms[n - 1].embedding.value;
        if |v| != |e| then None else Some(s + [Scored(Cosine(e, v, norm), ms[n - 1])])
  }

  /** The sorted scores with the `TopN` best in front; None when a dimension mismatch raised. */
  function TopCandidates(e: seq<real>, ms: seq<Market>, norm: seq<real> -> real): Option<seq<Scored>>
    requires HasEmbeddings(ms)
  {
    match ScoresUpTo(e, ms, norm, |ms|)
    case None => None
    case Some(s) =>
      var sorted := Sort(s, ScoreGe);
      Some(sorted[..Min(TopN, |sorted|)])
  }

  /** Candidate ranking: with all dimensions matching there are min(50, markets) candidates,
      in non-increasing score order; they are the front of a permutation of all scored
      markets, every selected score is at least every score left out, and markets with equal
      scores keep the row order of the active-market query. */
  lemma TopCandidatesFacts(e: seq<real>, ms: seq<Market>, norm: seq<real> -> real, k: Scored)
    requires HasEmbeddings(ms)
    ensures TopCandidates(e, ms, norm).Some? <==> forall i :: 0 <= i < |ms| ==> |ms[i].embedding.value| == |e|
    ensures TopCandidates(e, ms, norm).Some? ==>
      var s := ScoresUpTo(e, ms, norm, |ms|).value;
      var top := TopCandidates(e, ms, norm).value;
      var sorted := Sort(s, ScoreGe);
      && |top| == Min(TopN, |ms|)
      && top == sorted[..|top|]
      && multiset(sorted) == multiset(s)
      && (forall i, j :: 0 <= i < j < |top| ==> top[i].score >= top[j].score)
      && (forall i, j :: 0 <= i < |top| <= j < |sorted| ==> top[i].score >= sorted[j].score)
      && EquivalentTo(sorted, ScoreGe, k) == EquivalentTo(s, ScoreGe, k)
  {
    if TopCandidates(e, ms, norm).Some? {
      TopOfSorted(ScoresUpTo(e, ms, norm, |ms|).value, k);
    }
  }

  /** The front `TopN` of the sorted scores: in order, and at least every score behind it. */
  lemma TopOfSorted(s: seq<Scored>, k: Scored)
    ensures var sorted := Sort(s, ScoreGe);
      var top := sorted[..Min(TopN, |sorted|)];
      && (forall i, j :: 0 <= i < j < |top| ==> top[i].score >= top[j].score)
      && (forall i, j :: 0 <= i < |top| <= j < |sorted| ==> top[i].score >= sorted[j].score)
      && EquivalentTo(sorted, ScoreGe, k) == EquivalentTo(s, ScoreGe, k)
  {
    var sorted := Sort(s, ScoreGe);
    ScoreGeTotal();
    SortSorted(s, ScoreGe);
    SortStable(s, ScoreGe, k);
    forall i, j | 0 <= i < j < |sorted| ensures sorted[i].score >= sorted[j].score {
      assert ScoreGe(sorted[i], sorted[j]);
    }
  }

  /** Scoring the markets in a loop, then the stable descending sort and the cut at 50. */
  method RankCandidates(e: seq<real>, ms: seq<Market>, norm: seq<real> -> real) returns (top: Option<seq<Scored>>)
    requires HasEmbeddings(ms)
    ensures top == TopCandidates(e, ms, norm)
  {
    var scored: seq<Scored> := [];
    var i := 0;
    while i < |ms|
      invariant 0 <= i <= |ms|
      invariant ScoresUpTo(e, ms, norm, i) == Some(scored)
    {
      var v := ms[i].embedding.value;
      if |v| != |e| {
        return None;
      }
      scored := scored + [Scored(Cosine(e, v, norm), ms[i])];
      i := i + 1;
    }
    var sorted := Sort(scored, ScoreGe);
    top := Some(sorted[..Min(TopN, |sorted|)]);
  }

  /** What the adjudicator is shown of each candidate. */
  datatype Candidate = Candidate(id: string, question: string, embeddingText: string)

  function LlmView(top: seq<Scored>): (r: seq<Candidate>)
    ensures |r| == |top|
    ensures forall i :: 0 <= i < |top| ==>
      r[i] == Candidate(top[i].market.id, top[i].market.question, top[i].market.embeddingText)
  {
    seq(|top|, i requires 0 <= i < |top| =>
      Candidate(top[i].market.id, top[i].market.question, top[i].market.embeddingText))
  }

  /** One validated correlation returned by the adjudicator. */
  datatype Judgment = Judgment(
    marketId: string,
    relevance: real, relevanceReason: string,
    urgency: real, urgencyReason: string)

  /** The adjudicator's outcome: the call (or the parsing of its answer) raised, or it
      returned judgments; `storeFailsAt`, when present, is the position of the judgment whose
      storing raised, which ends the tweet's storing loop. */
  datatype Adjudication = CallFailed | Judged(results: seq<Judgment>, storeFailsAt: Option<nat>)

  /** The judgments the storing loop gets through before an exception. */
  function Attempted(a: Adjudication): (r: seq<Judgment>)
    ensures a.Judged? ==> |r| <= |a.results| && r == a.results[..|r|]
    ensures a.Judged? && (a.storeFailsAt.None? || a.storeFailsAt.value >= |a.results|) ==> r == a.results
    ensures a.Judged? && a.storeFailsAt.Some? && a.storeFailsAt.value < |a.results| ==>
      r == a.results[..a.storeFailsAt.value]
    ensures a.CallFailed? ==> r == []
  {
    match a
    case CallFailed => []
    case Judged(rs, f) => if f.Some? && f.value < |rs| then rs[..f.value] else rs
  }

  function Request(tweetId: string, j: Judgment): StoreRequest {
    StoreRequest(tweetId, j.marketId, j.relevance, j.relevanceReason, j.urgency, j.urgencyReason)
  }

  /** The store_correlation calls made for the judgments `js` of one tweet: those at or
      above the floor, in order. */
  function RequestsFor(tweetId: string, js: seq<Judgment>): (r: seq<StoreRequest>)
    ensures forall i :: 0 <= i < |r| ==> r[i].tweetId == tweetId && r[i].relevance >= RelevanceFloor
    ensures forall j :: j in js && j.relevance >= RelevanceFloor ==> Request(tweetId, j) in r
    ensures forall q :: q in r ==> exists j :: j in js && j.relevance >= RelevanceFloor && q == Request(tweetId, j)
  {
    if js == [] then []
    else
      var front := js[..|js| - 1];
      var last := js[|js| - 1];
      var rf := RequestsFor(tweetId, front);
      assert forall j :: j in js ==> j in front || j == last;
      assert forall j :: j in front ==> j in js;
      rf + (if last.relevance >= RelevanceFloor then [Request(tweetId, last)] else [])
  }

  /** The request each judgment would make, floor or not, in judgment order. */
  function AllRequests(tweetId: string, js: seq<Judgment>): (r: seq<StoreRequest>)
    ensures |r| == |js| && forall i :: 0 <= i < |js| ==> r[i] == Request(tweetId, js[i])
  {
    seq(|js|, i requires 0 <= i < |js| => Request(tweetId, js[i]))
  }

  /** The store calls keep the order of the judgments: they are a subsequence of the
      requests of all judgments. */
  lemma {:induction false} RequestsForInOrder(tweetId: string, js: seq<Judgment>)
    ensures SubsequenceOf(RequestsFor(tweetId, js), AllRequests(tweetId, js))
  {
    if js != [] {
      var front := js[..|js| - 1];
      RequestsForInOrder(tweetId, front);
      assert AllRequests(tweetId, js) == AllRequests(tweetId, front) + [Request(tweetId, js[|js| - 1])];
      SubsequenceExtend(RequestsFor(tweetId, front), RequestsFor(tweetId, js),
                        AllRequests(tweetId, front), Request(tweetId, js[|js| - 1]));
    }
  }

  /** What processing one tweet leads to. */
  datatype TweetOutcome = Crash | Done(requests: seq<StoreRequest>)

  /** One iteration of the per-tweet loop. `embed` answers `generate_embeddings([text])`:
      None when that list is empty (the embedding client failed to initialise), so that
      taking its first element raises IndexError outside the try; an empty vector when the
      embedding request failed, which marks the tweet processed and skips it. A similarity
      over vectors of different dimensions also raises outside the try. */
  function TweetStep(t: Tweet, ms: seq<Market>, embed: string -> Option<seq<real>>,
                     adjudicate: (Tweet, seq<Candidate>) -> Adjudication,
                     norm: seq<real> -> real): TweetOutcome
    requires HasEmbeddings(ms)
  {
    match embed(t.text)
    case None => Crash
    case Some(e) =>
      if |e| == 0 then Done([])
      else
        match TopCandidates(e, ms, norm)
        case None => Crash
        case Some(top) => Done(RequestsFor(t.id, Attempted(adjudicate(t, LlmView(top)))))
  }

  /** Every store call made for a tweet is for that tweet and at or above the floor. An
      empty embedding list crashes the run; an empty embedding skips the tweet. When ranking
      succeeds and no store raises, every judgment at or above the floor is stored. */
  lemma TweetStepFacts(t: Tweet, ms: seq<Market>, embed: string -> Option<seq<real>>,
                       adjudicate: (Tweet, seq<Candidate>) -> Adjudication,
                       norm: seq<real> -> real)
    requires HasEmbeddings(ms)
    ensures embed(t.text).None? ==> TweetStep(t, ms, embed, adjudicate, norm).Crash?
    ensures embed(t.text) == Some([]) ==> TweetStep(t, ms, embed, adjudicate, norm) == Done([])
    ensures embed(t.text).Some? && |embed(t.text).value| > 0
            && TopCandidates(embed(t.text).value, ms, norm).Some?
            && adjudicate(t, LlmView(TopCandidates(embed(t.text).value, ms, norm).value)).Judged?
            && adjudicate(t, LlmView(TopCandidates(embed(t.text).value, ms, norm).value)).storeFailsAt.None? ==>
      var rs := adjudicate(t, LlmView(TopCandidates(embed(t.text).value, ms, norm).value)).results;
      && TweetStep(t, ms, embed, adjudicate, norm) == Done(RequestsFor(t.id, rs))
      && forall j :: j in rs && j.relevance >= RelevanceFloor ==>
           Request(t.id, j) in TweetStep(t, ms, embed, adjudicate, norm).requests
    ensures TweetStep(t, ms, embed, adjudicate, norm).Done? ==>
      forall q :: q in TweetStep(t, ms, embed, adjudicate, norm).requests ==>
        q.tweetId == t.id && q.relevance >= RelevanceFloor
  {
  }

  /** The outcome of each tweet of the backlog, in order. Outcomes do not depend on the
      store, since the markets are read once before the loop. */
  function Outcomes(ts: seq<Tweet>, ms: seq<Market>, embed: string -> Option<seq<real>>,
                    adjudicate: (Tweet, seq<Candidate>) -> Adjudication,
                    norm: seq<real> -> real): (r: seq<TweetOutcome>)
    requires HasEmbeddings(ms)
    ensures |r| == |ts|
    ensures forall i :: 0 <= i < |ts| ==> r[i] == TweetStep(ts[i], ms, embed, adjudicate, norm)
  {
    seq(|ts|, i requires 0 <= i < |ts| => TweetStep(ts[i], ms, embed, adjudicate, norm))
  }

  /** Every store call planned for a tweet is for that tweet and at or above the floor. */
  ghost predicate OutcomesSound(ts: seq<Tweet>, outs: seq<TweetOutcome>) {
    && |outs| == |ts|
    && forall i, q :: 0 <= i < |ts| && outs[i].Done? && q in outs[i].requests ==>
         q.tweetId == ts[i].id && q.relevance >= RelevanceFloor
  }

  lemma OutcomesAreSound(ts: seq<Tweet>, ms: seq<Market>, embed: string -> Option<seq<real>>,
                         adjudicate: (Tweet, seq<Candidate>) -> Adjudication,
                         norm: seq<real> -> real)
    requires HasEmbeddings(ms)
    ensures OutcomesSound(ts, Outcomes(ts, ms, embed, adjudicate, norm))
  {
    var outs := Outcomes(ts, ms, embed, adjudicate, norm);
    forall i | 0 <= i < |ts| {
      TweetStepFacts(ts[i], ms, embed, adjudicate, norm);
    }
  }

  /** What a run has done after the first `n` tweets: the store calls made, the tweets
      marked processed, and whether an uncaught exception ended the run. */
  datatype RunTrace = RunTrace(requests: seq<StoreRequest>, processed: seq<string>, crashed: bool)

  function Trace(ts: seq<Tweet>, outs: seq<TweetOutcome>, n: nat): RunTrace
    requires n <= |ts| && n <= |outs|
  {
    if n == 0 then RunTrace([], [], false)
    else
      var prev := Trace(ts, outs, n - 1);
      if prev.crashed then prev
      else
        match outs[n - 1]
        case Crash => prev.(crashed := true)
        case Done(qs) => RunTrace(prev.requests + qs, prev.processed + [ts[n - 1].id], false)
  }

  lemma {:induction false} CrashSticks(ts: seq<Tweet>, outs: seq<TweetOutcome>, k: nat, n: nat)
    requires k <= n <= |ts| && n <= |outs|
    requires Trace(ts, outs, k).crashed
    ensures Trace(ts, outs, n) == Trace(ts, outs, k)
    decreases n - k
  {
    if k < n {
      CrashSticks(ts, outs, k + 1, n);
    }
  }

  /** The run's bookkeeping: tweets are marked processed in order, each once; a run that is
      not cut short marks every tweet; a crash leaves the tweet it happened on and all later
      ones unmarked; every store call is at or above the 0.6 floor and belongs to a tweet
      that was marked processed. */
  lemma {:induction false} TraceFacts(ts: seq<Tweet>, outs: seq<TweetOutcome>, n: nat)
    requires n <= |ts| && OutcomesSound(ts, outs)
    ensures var tr := Trace(ts, outs, n);
      && |tr.processed| <= n
      && tr.processed == TweetIds(ts[..|tr.processed|])
      && (!tr.crashed <==> |tr.processed| == n)
      && (forall q :: q in tr.requests ==> q.relevance >= RelevanceFloor && q.tweetId in tr.processed)
  {
    if n > 0 {
      TraceFacts(ts, outs, n - 1);
      var prev := Trace(ts, outs, n - 1);
      var tr := Trace(ts, outs, n);
      if !prev.crashed && outs[n - 1].Done? {
        assert tr.processed == TweetIds(ts[..n]) by {
          assert ts[..n][..n - 1] == ts[..n - 1];
          assert TweetIds(ts[..n]) == TweetIds(ts[..n - 1]) + [ts[n - 1].id];
        }
        forall q | q in tr.requests
          ensures q.relevance >= RelevanceFloor && q.tweetId in tr.processed
        {
          if q !in outs[n - 1].requests {
            assert q in prev.requests;
          } else {
            assert tr.processed[n - 1] == ts[n - 1].id;
          }
        }
      }
    }
  }

  /** An unprocessed tweet's id is among the ids of the unprocessed tweets. */
  lemma BacklogIdListed(tweets: seq<Tweet>, i: nat)
    requires i < |tweets| && !tweets[i].isProcessed
    ensures tweets[i].id in TweetIds(Unprocessed(tweets))
  {
    var ts := Unprocessed(tweets);
    assert tweets[i] in ts;
    var k :| 0 <= k < |ts| && ts[k] == tweets[i];
    assert TweetIds(ts)[k] == tweets[i].id;
  }

  /** When the run is not cut short, no tweet of the table is left unprocessed afterwards. */
  lemma CompletedRunClearsBacklog(tweets: seq<Tweet>, outs: seq<TweetOutcome>)
    requires OutcomesSound(Unprocessed(tweets), outs)
    requires !Trace(Unprocessed(tweets), outs, |outs|).crashed
    ensures Unprocessed(MarkProcessedAll(tweets, Trace(Unprocessed(tweets), outs, |outs|).processed)) == []
  {
    var ts := Unprocessed(tweets);
    var tr := Trace(ts, outs, |ts|);
    TraceFacts(ts, outs, |ts|);
    assert ts[..|ts|] == ts;
    var after := MarkProcessedAll(tweets, tr.processed);
    MarkProcessedAllFacts(tweets, tr.processed);
    forall i | 0 <= i < |after| ensures after[i].isProcessed {
      if !tweets[i].isProcessed {
        BacklogIdListed(tweets, i);
      }
    }
    SelectNone(after, (t: Tweet) => !t.isProcessed);
  }

  /** Each tweet of the backlog is marked processed at most once per run (exactly once when
      the run is not cut short). */
  lemma ProcessedOnce(tweets: seq<Tweet>, outs: seq<TweetOutcome>)
    requires TweetIdsUnique(tweets) && OutcomesSound(Unprocessed(tweets), outs)
    ensures var p := Trace(Unprocessed(tweets), outs, |outs|).processed;
      forall i, j :: 0 <= i < j < |p| ==> p[i] != p[j]
  {
    var ts := Unprocessed(tweets);
    TraceFacts(ts, outs, |ts|);
    UnprocessedIdsUnique(tweets);
  }

  /** The storing loop of one tweet: store_correlation for each judgment at or above the
      floor, in order. */
  method StoreJudgments(db: Database, tweetId: string, js: seq<Judgment>)
    requires db.Valid()
    modifies db
    ensures db.Valid()
    ensures db.markets == old(db.markets) && db.tweets == old(db.tweets)
    ensures CorrelationTable(db.correlations, db.nextCorrelationId)
         == UpsertAll(CorrelationTable(old(db.correlations), old(db.nextCorrelationId)), RequestsFor(tweetId, js))
  {
    ghost var table0 := CorrelationTable(db.correlations, db.nextCorrelationId);
    var j := 0;
    while j < |js|
      invariant 0 <= j <= |js|
      invariant db.Valid() && db.markets == old(db.markets) && db.tweets == old(db.tweets)
      invariant CorrelationTable(db.correlations, db.nextCorrelationId)
             == UpsertAll(table0, RequestsFor(tweetId, js[..j]))
    {
      StoreJudgment(db, table0, tweetId, js, j);
      j := j + 1;
    }
    assert js[..|js|] == js;
  }

  /** One iteration of the storing loop: judgment `j` is stored when it reaches the floor. */
  method StoreJudgment(db: Database, ghost table0: CorrelationTable, tweetId: string, js: seq<Judgment>, j: nat)
    requires db.Valid() && j < |js|
    requires CorrelationTable(db.correlations, db.nextCorrelationId) == UpsertAll(table0, RequestsFor(tweetId, js[..j]))
    modifies db
    ensures db.Valid() && db.markets == old(db.markets) && db.tweets == old(db.tweets)
    ensures CorrelationTable(db.correlations, db.nextCorrelationId) == UpsertAll(table0, RequestsFor(tweetId, js[..j + 1]))
  {
    RequestsForSnoc(tweetId, js, j);
    if js[j].relevance >= RelevanceFloor {
      var q := Request(tweetId, js[j]);
      UpsertAllAppend(table0, RequestsFor(tweetId, js[..j]), [q]);
      UpsertOne(UpsertAll(table0, RequestsFor(tweetId, js[..j])), q);
      db.StoreCorrelation(q);
    } else {
      assert RequestsFor(tweetId, js[..j]) + [] == RequestsFor(tweetId, js[..j]);
    }
  }

  lemma RequestsForSnoc(tweetId: string, js: seq<Judgment>, j: nat)
    requires j < |js|
    ensures RequestsFor(tweetId, js[..j + 1])
         == RequestsFor(tweetId, js[..j]) + (if js[j].relevance >= RelevanceFloor then [Request(tweetId, js[j])] else [])
  {
    assert js[..j + 1][..j] == js[..j];
  }

  /** The body of the per-tweet loop. On a crash nothing has been written for the tweet;
      otherwise its store calls are made and it is marked processed. */
  method ProcessTweet(db: Database, t: Tweet, ms: seq<Market>, embed: string -> Option<seq<real>>,
                      adjudicate: (Tweet, seq<Candidate>) -> Adjudication,
                      norm: seq<real> -> real) returns (crashed: bool)
    requires db.Valid() && HasEmbeddings(ms)
    modifies db
    ensures db.Valid()
    ensures db.markets == old(db.markets)
    ensures crashed <==> TweetStep(t, ms, embed, adjudicate, norm).Crash?
    ensures crashed ==> db.tweets == old(db.tweets) && db.correlations == old(db.correlations)
                        && db.nextCorrelationId == old(db.nextCorrelationId)
    ensures !crashed ==>
      && db.tweets == MarkProcessed(old(db.tweets), t.id)
      && CorrelationTable(db.correlations, db.nextCorrelationId)
         == UpsertAll(CorrelationTable(old(db.correlations), old(db.nextCorrelationId)),
                      TweetStep(t, ms, embed, adjudicate, norm).requests)
  {
    var embedded := embed(t.text);
    if embedded.None? {
      return true;
    }
    var e := embedded.value;
    if |e| == 0 {
      db.MarkTweetAsProcessed(t.id);
      return false;
    }
    var top := RankCandidates(e, ms, norm);
    if top.None? {
      return true;
    }
    var js := Attempted(adjudicate(t, LlmView(top.value)));
    StoreJudgments(db, t.id, js);
    db.MarkTweetAsProcessed(t.id);
    crashed := false;
  }

  /** The per-tweet loop over the backlog `ts`, against the active markets `ms`. */
  method ProcessBacklog(db: Database, ts: seq<Tweet>, ms: seq<Market>, embed: string -> Option<seq<real>>,
                        adjudicate: (Tweet, seq<Candidate>) -> Adjudication,
                        norm: seq<real> -> real) returns (crashed: bool)
    requires db.Valid() && HasEmbeddings(ms)
    modifies db
    ensures db.Valid()
    ensures db.markets == old(db.markets)
    ensures crashed == Trace(ts, Outcomes(ts, ms, embed, adjudicate, norm), |ts|).crashed
    ensures db.tweets == MarkProcessedAll(old(db.tweets), Trace(ts, Outcomes(ts, ms, embed, adjudicate, norm), |ts|).processed)
    ensures CorrelationTable(db.correlations, db.nextCorrelationId)
         == UpsertAll(CorrelationTable(old(db.correlations), old(db.nextCorrelationId)),
                      Trace(ts, Outcomes(ts, ms, embed, adjudicate, norm), |ts|).requests)
  {
    ghost var outs := Outcomes(ts, ms, embed, adjudicate, norm);
    ghost var table0 := CorrelationTable(db.correlations, db.nextCorrelationId);
    ghost var tweets0 := db.tweets;
    var i := 0;
    while i < |ts|
      invariant 0 <= i <= |ts|
      invariant db.Valid() && db.markets == old(db.markets)
      invariant !Trace(ts, outs, i).crashed
      invariant db.tweets == MarkProcessedAll(tweets0, Trace(ts, outs, i).processed)
      invariant CorrelationTable(db.correlations, db.nextCorrelationId)
             == UpsertAll(table0, Trace(ts, outs, i).requests)
    {
      ghost var prev := Trace(ts, outs, i);
      var c := ProcessTweet(db, ts[i], ms, embed, adjudicate, norm);
      if c {
        CrashSticks(ts, outs, i + 1, |ts|);
        return true;
      }
      UpsertAllAppend(table0, prev.requests, outs[i].requests);
      MarkProcessedAllSnoc(tweets0, prev.processed, ts[i].id);
      i := i + 1;
    }
    return false;
  }

  datatype RunOutcome = NoWork | Completed | Crashed

  /** Every market get_active_market_data returns has an embedding. */
  lemma ActiveHaveEmbeddings(ms: seq<Market>)
    ensures HasEmbeddings(ActiveMarkets(ms))
  {
    var active := ActiveMarkets(ms);
    forall i | 0 <= i < |active| ensures active[i].embedding.Some? {
      assert active[i] in active;
    }
  }

  /** run_correlation_engine: with an empty backlog it returns before reading the markets. */
  method RunCorrelationEngine(db: Database, embed: string -> Option<seq<real>>,
                              adjudicate: (Tweet, seq<Candidate>) -> Adjudication,
                              norm: seq<real> -> real) returns (outcome: RunOutcome)
    requires db.Valid()
    modifies db
    ensures db.Valid()
    ensures db.markets == old(db.markets)
    ensures HasEmbeddings(ActiveMarkets(db.markets))
    ensures var ts := old(Unprocessed(db.tweets));
      var tr := Trace(ts, Outcomes(ts, ActiveMarkets(db.markets), embed, adjudicate, norm), |ts|);
      && (outcome == NoWork <==> ts == [])
      && (outcome == NoWork ==> db.tweets == old(db.tweets) && db.correlations == old(db.correlations)
                                && db.nextCorrelationId == old(db.nextCorrelationId))
      && (outcome == Crashed <==> tr.crashed)
      && db.tweets == MarkProcessedAll(old(db.tweets), tr.processed)
      && CorrelationTable(db.correlations, db.nextCorrelationId)
         == UpsertAll(CorrelationTable(old(db.correlations), old(db.nextCorrelationId)), tr.requests)
  {
    ActiveHaveEmbeddings(db.markets);
    var ts := db.GetUnprocessedTweets();
    if |ts| == 0 {
      return NoWork;
    }
    var ms := db.GetActiveMarketData();
    var crashed := ProcessBacklog(db, ts, ms, embed, adjudicate, norm);
    outcome := if crashed then Crashed else Completed;
  }
}
