/** `send_new_correlations` of helpers/discord_bot.py: take the unsent correlations, refresh
    their odds, bundle them into one message package per tweet, rank the packages by an
    "alpha score", drop packages whose tweet repeats an earlier one, and broadcast the rest,
    marking their correlations sent.

    The catalogue API, the Discord client and the clock are parameters: `latest` is what the
    first price fetch returned, `fetch` answers the per-message fetch, `channels` are the
    subscribed channel ids, `failAt` is the number of packages the Discord loop gets through
    before an exception ends it, and `now` is CURRENT_TIMESTAMP. */
module Broadcast {
  import opened Common
  import opened Sorting
  import opened Similarity
  import opened Store

  const CheckIntervalSeconds := 7200
  const SimilarityThreshold: real := 0.95

  // ------------------------------------------------------------------ price refresh

  datatype Prices = Prices(yes: real, no: real)

  /** The odds a fetch result offers for a market: the first two entries of its
      `outcomePrices`, when the market was returned and the list has at least two. */
  function Fresh(id: string, latest: map<string, OutcomePrices>): (r: Option<Prices>)
    ensures r.Some? <==> id in latest && latest[id].PriceList? && |latest[id].values| >= 2
    ensures r.Some? ==> r.value == Prices(latest[id].values[0], latest[id].values[1])
  {
    if id in latest && latest[id].PriceList? && |latest[id].values| >= 2 then
      Some(Prices(latest[id].values[0], latest[id].values[1]))
    else None
  }

  /** `json.loads` of the market's `outcomePrices` raises. */
  predicate Undecodable(c: UnsentRow, latest: map<string, OutcomePrices>) {
    c.marketId in latest && latest[c.marketId].Undecodable?
  }

  /** A correlation row with the fetched odds written into it, when there are any. */
  function RefreshRow(c: UnsentRow, latest: map<string, OutcomePrices>): (r: UnsentRow)
    ensures r.(yesPrice := c.yesPrice, noPrice := c.noPrice) == c
    ensures Fresh(c.marketId, latest).None? ==> r == c
    ensures Fresh(c.marketId, latest).Some? ==>
      Prices(r.yesPrice, r.noPrice) == Fresh(c.marketId, latest).value
  {
    match Fresh(c.marketId, latest)
    case None => c
    case Some(p) => c.(yesPrice := p.yes, noPrice := p.no)
  }

  function RefreshAll(rows: seq<UnsentRow>, latest: map<string, OutcomePrices>): (r: seq<UnsentRow>)
    ensures |r| == |rows|
    ensures forall i :: 0 <= i < |rows| ==> r[i] == RefreshRow(rows[i], latest)
  {
    seq(|rows|, i requires 0 <= i < |rows| => RefreshRow(rows[i], latest))
  }

  /** The position of the first row whose fetched odds cannot be decoded, or |rows|. */
  function FirstUndecodable(rows: seq<UnsentRow>, latest: map<string, OutcomePrices>): (k: nat)
    ensures k <= |rows|
    ensures forall i :: 0 <= i < k ==> !Undecodable(rows[i], latest)
    ensures k < |rows| ==> Undecodable(rows[k], latest)
  {
    if rows == [] then 0
    else if Undecodable(rows[0], latest) then 0
    else 1 + FirstUndecodable(rows[1..], latest)
  }

  /** The `update_market_prices` calls of the first refresh over `rows`, applied in order. */
  function StoreRefresh(ms: seq<Market>, rows: seq<UnsentRow>, latest: map<string, OutcomePrices>): (r: seq<Market>)
    ensures |r| == |ms|
  {
    if rows == [] then ms
    else
      var prev := StoreRefresh(ms, rows[..|rows| - 1], latest);
      var id := rows[|rows| - 1].marketId;
      match Fresh(id, latest)
      case None => prev
      case Some(p) => SetPrices(prev, id, p.yes, p.no)
  }

  predicate Mentions(rows: seq<UnsentRow>, id: string) {
    exists j :: 0 <= j < |rows| && rows[j].marketId == id
  }

  /** The refresh writes to the store exactly the markets some row mentions and the fetch
      returned usable odds for, and writes those odds; no other column and no other market
      changes. */
  lemma {:induction false} StoreRefreshFacts(ms: seq<Market>, rows: seq<UnsentRow>, latest: map<string, OutcomePrices>)
    ensures var r := StoreRefresh(ms, rows, latest);
      && |r| == |ms|
      && forall i :: 0 <= i < |ms| ==>
           r[i] == (if Mentions(rows, ms[i].id) && Fresh(ms[i].id, latest).Some?
                    then ms[i].(yesPrice := Fresh(ms[i].id, latest).value.yes,
                                noPrice := Fresh(ms[i].id, latest).value.no)
                    else ms[i])
  {
    if rows != [] {
      var front := rows[..|rows| - 1];
      StoreRefreshFacts(ms, front, latest);
      var id := rows[|rows| - 1].marketId;
      var r := StoreRefresh(ms, rows, latest);
      forall i | 0 <= i < |ms|
        ensures r[i] == (if Mentions(rows, ms[i].id) && Fresh(ms[i].id, latest).Some?
                         then ms[i].(yesPrice := Fresh(ms[i].id, latest).value.yes,
                                     noPrice := Fresh(ms[i].id, latest).value.no)
                         else ms[i])
      {
        if Mentions(rows, ms[i].id) && ms[i].id != id {
          var j :| 0 <= j < |rows| && rows[j].marketId == ms[i].id;
          assert front[j] == rows[j];
        }
        if Mentions(front, ms[i].id) {
          var j :| 0 <= j < |front| && front[j].marketId == ms[i].id;
          assert rows[j] == front[j];
        }
        if ms[i].id == id {
          assert rows[|rows| - 1].marketId == ms[i].id;
        }
      }
    }
  }

  /** After the first refresh the in-memory odds of a row and the stored odds of its market
      agree whenever the fetch returned usable odds. */
  lemma RefreshAgrees(ms: seq<Market>, rows: seq<UnsentRow>, latest: map<string, OutcomePrices>, i: nat, j: nat)
    requires i < |rows| && j < |ms| && rows[i].marketId == ms[j].id
    requires Fresh(ms[j].id, latest).Some?
    ensures var c := RefreshAll(rows, latest)[i];
      var m := StoreRefresh(ms, rows, latest)[j];
      c.yesPrice == m.yesPrice && c.noPrice == m.noPrice
  {
    StoreRefreshFacts(ms, rows, latest);
    assert Mentions(rows, ms[j].id);
  }

  lemma StoreRefreshSnoc(ms: seq<Market>, rows: seq<UnsentRow>, k: nat, latest: map<string, OutcomePrices>)
    requires k < |rows|
    ensures StoreRefresh(ms, rows[..k + 1], latest) ==
      match Fresh(rows[k].marketId, latest)
      case None => StoreRefresh(ms, rows[..k], latest)
      case Some(p) => SetPrices(StoreRefresh(ms, rows[..k], latest), rows[k].marketId, p.yes, p.no)
  {
    assert rows[..k + 1][..k] == rows[..k];
  }

  /** One row of the first refresh: `update_market_prices` when the fetched list has two
      prices. */
  method RefreshOne(db: Database, ghost ms: seq<Market>, rows: seq<UnsentRow>, i: nat, latest: map<string, OutcomePrices>)
    requires db.Valid() && i < |rows|
    requires db.markets == StoreRefresh(ms, rows[..i], latest)
    modifies db
    ensures db.Valid()
    ensures db.markets == StoreRefresh(ms, rows[..i + 1], latest)
    ensures db.tweets == old(db.tweets) && db.correlations == old(db.correlations)
    ensures db.nextCorrelationId == old(db.nextCorrelationId)
  {
    StoreRefreshSnoc(ms, rows, i, latest);
    var p := Fresh(rows[i].marketId, latest);
    if p.Some? {
      db.UpdateMarketPrices(rows[i].marketId, p.value.yes, p.value.no);
    }
  }

  /** The first refresh (step 2): rewrite each row's odds in memory and in the store; an
      undecodable `outcomePrices` raises and ends the run, leaving earlier writes in place. */
  method RefreshPrices(db: Database, rows: seq<UnsentRow>, latest: map<string, OutcomePrices>)
    returns (raised: bool, refreshed: seq<UnsentRow>)
    requires db.Valid()
    modifies db
    ensures db.Valid()
    ensures raised <==> FirstUndecodable(rows, latest) < |rows|
    ensures db.markets == StoreRefresh(old(db.markets), rows[..FirstUndecodable(rows, latest)], latest)
    ensures !raised ==> refreshed == RefreshAll(rows, latest)
    ensures db.tweets == old(db.tweets) && db.correlations == old(db.correlations)
    ensures db.nextCorrelationId == old(db.nextCorrelationId)
  {
    refreshed := [];
    var i := 0;
    while i < |rows|
      invariant 0 <= i <= FirstUndecodable(rows, latest)
      invariant db.Valid()
      invariant db.markets == StoreRefresh(old(db.markets), rows[..i], latest)
      invariant refreshed == RefreshAll(rows[..i], latest)
      invariant db.tweets == old(db.tweets) && db.correlations == old(db.correlations)
      invariant db.nextCorrelationId == old(db.nextCorrelationId)
    {
      if Undecodable(rows[i], latest) {
        return true, refreshed;
      }
      RefreshOne(db, old(db.markets), rows, i, latest);
      RefreshAllSnoc(rows, i, latest);
      refreshed := refreshed + [RefreshRow(rows[i], latest)];
      i := i + 1;
    }
    assert rows[..|rows|] == rows;
    raised := false;
  }

  lemma RefreshAllSnoc(rows: seq<UnsentRow>, k: nat, latest: map<string, OutcomePrices>)
    requires k < |rows|
    ensures RefreshAll(rows[..k + 1], latest) == RefreshAll(rows[..k], latest) + [RefreshRow(rows[k], latest)]
  {
    var a := RefreshAll(rows[..k + 1], latest);
    var b := RefreshAll(rows[..k], latest) + [RefreshRow(rows[k], latest)];
    assert |a| == |b|;
    forall j | 0 <= j < |a| ensures a[j] == b[j] {
      assert rows[..k + 1][j] == rows[j];
    }
  }

  // ------------------------------------------------------------------ message packages

  function TweetKey(c: UnsentRow): string {
    c.tweetId
  }

  /** `key=lambda x: x['tweet_id']` */
  predicate TweetIdLe(a: UnsentRow, b: UnsentRow) {
    StrLe(a.tweetId, b.tweetId)
  }

  lemma TweetIdLeTotal()
    ensures TotalPreorder(TweetIdLe)
  {
    forall a: UnsentRow, b: UnsentRow ensures TweetIdLe(a, b) || TweetIdLe(b, a) {
      StrLeTotal(a.tweetId, b.tweetId);
    }
    forall a: UnsentRow, b: UnsentRow, c: UnsentRow | TweetIdLe(a, b) && TweetIdLe(b, c)
      ensures TweetIdLe(a, c)
    {
      StrLeTransitive(a.tweetId, b.tweetId, c.tweetId);
    }
  }

  /** Step 3: sort by tweet id, then one package per run of equal tweet ids. */
  function Packages(rows: seq<UnsentRow>): seq<seq<UnsentRow>> {
    GroupRuns(Sort(rows, TweetIdLe), TweetKey)
  }

  /** The packages partition the rows by tweet: none is empty, each holds one tweet's rows,
      no tweet has two packages, and together they are the rows. */
  lemma PackagesPartition(rows: seq<UnsentRow>)
    ensures var ps := Packages(rows);
      && (forall i :: 0 <= i < |ps| ==> ps[i] != [])
      && (forall i, x :: 0 <= i < |ps| && x in ps[i] ==> x.tweetId == ps[i][0].tweetId)
      && (forall i, j :: 0 <= i < j < |ps| ==> ps[i][0].tweetId != ps[j][0].tweetId)
      && multiset(Flatten(ps)) == multiset(rows)
  {
    var s := Sort(rows, TweetIdLe);
    TweetIdLeTotal();
    SortSorted(rows, TweetIdLe);
    assert forall i, j :: 0 <= i < j < |s| ==> StrLe(TweetKey(s[i]), TweetKey(s[j])) by {
      forall i, j | 0 <= i < j < |s| ensures StrLe(TweetKey(s[i]), TweetKey(s[j])) {
        assert TweetIdLe(s[i], s[j]);
      }
    }
    GroupRunsDistinct(s, TweetKey);
    GroupRunsUniform(s, TweetKey);
    GroupRunsFlatten(s, TweetKey);
  }

  // ------------------------------------------------------------------ alpha score

  /** `4 * yes_price * no_price`: largest for an even market, zero for a settled one. */
  function Impact(c: UnsentRow): real {
    4.0 * c.yesPrice * c.noPrice
  }

  /** A settled market (one side priced at zero) has no impact. */
  lemma SettledMarketHasNoImpact(c: UnsentRow)
    requires c.yesPrice == 0.0 || c.noPrice == 0.0
    ensures Impact(c) == 0.0
  {
  }

  /** `min(len(package) / 5.0, 1.0) * 0.1` */
  function DiversityBonus(size: nat): (b: real)
    ensures 0.0 <= b <= 0.1
    ensures size >= 5 ==> b == 0.1
    ensures size < 5 ==> b == size as real / 50.0
  {
    var ratio := size as real / 5.0;
    (if ratio < 1.0 then ratio else 1.0) * 0.1
  }

  /** `relevance * 0.5 + urgency * 0.3 + impact * 0.2 + diversity_bonus`, over the row
      standing first in the package. */
  function AlphaScore(top: UnsentRow, size: nat): real {
    top.relevance * 0.5 + top.urgency * 0.3 + Impact(top) * 0.2 + DiversityBonus(size)
  }

  /** Relevance weighs 0.5 and urgency 0.3; a larger package never scores less, and past
      five rows size adds nothing more. */
  lemma AlphaScoreWeights(top: UnsentRow, size: nat, r: real, u: real)
    ensures AlphaScore(top.(relevance := r), size) == AlphaScore(top, size) + 0.5 * (r - top.relevance)
    ensures AlphaScore(top.(urgency := u), size) == AlphaScore(top, size) + 0.3 * (u - top.urgency)
    ensures AlphaScore(top, size) <= AlphaScore(top, size + 1)
    ensures size >= 5 ==> AlphaScore(top, size + 1) == AlphaScore(top, size)
  {
    assert Impact(top.(relevance := r)) == Impact(top);
    assert Impact(top.(urgency := u)) == Impact(top);
  }

  /** `key=lambda x: x['relevance_score'], reverse=True` */
  predicate RelevanceGe(a: UnsentRow, b: UnsentRow) {
    a.relevance >= b.relevance
  }

  lemma RelevanceGeTotal()
    ensures TotalPreorder(RelevanceGe)
  {
  }

  datatype ScoredPackage = ScoredPackage(score: real, package: seq<UnsentRow>)

  /** One package of step 4: sorted by relevance, scored by its first row. */
  function ScorePackage(p: seq<UnsentRow>): ScoredPackage
    requires p != []
  {
    var sorted := Sort(p, RelevanceGe);
    ScoredPackage(AlphaScore(sorted[0], |sorted|), sorted)
  }

  /** The package's score is taken over its most relevant row, and the stored package is the
      same rows, most relevant first. */
  lemma ScorePackageFacts(p: seq<UnsentRow>)
    requires p != []
    ensures var s := ScorePackage(p);
      && multiset(s.package) == multiset(p)
      && s.package[0] in p
      && (forall x :: x in p ==> s.package[0].relevance >= x.relevance)
      && (forall i, j :: 0 <= i < j < |s.package| ==> s.package[i].relevance >= s.package[j].relevance)
      && s.score == AlphaScore(s.package[0], |p|)
  {
    var s := Sort(p, RelevanceGe);
    RelevanceGeTotal();
    SortSorted(p, RelevanceGe);
    assert s[0] in multiset(p);
    forall x | x in p ensures s[0].relevance >= x.relevance {
      assert x in multiset(s);
      var k :| 0 <= k < |s| && s[k] == x;
      if k > 0 {
        assert RelevanceGe(s[0], s[k]);
      }
    }
    forall i, j | 0 <= i < j < |s| ensures s[i].relevance >= s[j].relevance {
      assert RelevanceGe(s[i], s[j]);
    }
  }

  predicate NonEmpty(ps: seq<seq<UnsentRow>>) {
    forall i :: 0 <= i < |ps| ==> ps[i] != []
  }

  function ScoreAll(ps: seq<seq<UnsentRow>>): (r: seq<ScoredPackage>)
    requires NonEmpty(ps)
    ensures |r| == |ps|
    ensures forall i :: 0 <= i < |ps| ==> r[i] == ScorePackage(ps[i])
  {
    seq(|ps|, i requires 0 <= i < |ps| => ScorePackage(ps[i]))
  }

  /** The scoring loop of step 4. */
  method ScorePackages(ps: seq<seq<UnsentRow>>) returns (scored: seq<ScoredPackage>)
    requires NonEmpty(ps)
    ensures scored == ScoreAll(ps)
  {
    scored := [];
    var i := 0;
    while i < |ps|
      invariant 0 <= i <= |ps|
      invariant scored == ScoreAll(ps[..i])
    {
      scored := scored + [ScorePackage(ps[i])];
      i := i + 1;
    }
    assert ps[..|ps|] == ps;
  }

  /** `key=lambda x: x['score'], reverse=True` */
  predicate ScoreGe(a: ScoredPackage, b: ScoredPackage) {
    a.score >= b.score
  }

  /** Steps 3 to 5: package, score, and order by score, highest first. */
  function Prioritized(rows: seq<UnsentRow>): seq<ScoredPackage> {
    PackagesPartition(rows);
    Sort(ScoreAll(Packages(rows)), ScoreGe)
  }

  /** The prioritized list holds one scored package per tweet, in non-increasing score
      order, and packages with equal scores keep their tweet-id order. */
  lemma PrioritizedFacts(rows: seq<UnsentRow>)
    ensures var ps := Prioritized(rows);
      && multiset(ps) == multiset(ScoreAll(Packages(rows)))
      && (forall i, j :: 0 <= i < j < |ps| ==> ps[i].score >= ps[j].score)
      && (forall k :: EquivalentTo(ps, ScoreGe, k) == EquivalentTo(ScoreAll(Packages(rows)), ScoreGe, k))
  {
    PackagesPartition(rows);
    ScoreOrder(ScoreAll(Packages(rows)));
  }

  /** Sorting scored packages by score: highest first, ties in their original order. */
  lemma ScoreOrder(scored: seq<ScoredPackage>)
    ensures forall i, j :: 0 <= i < j < |Sort(scored, ScoreGe)| ==>
      Sort(scored, ScoreGe)[i].score >= Sort(scored, ScoreGe)[j].score
    ensures forall k :: EquivalentTo(Sort(scored, ScoreGe), ScoreGe, k) == EquivalentTo(scored, ScoreGe, k)
  {
    var ps := Sort(scored, ScoreGe);
    assert TotalPreorder(ScoreGe);
    SortSorted(scored, ScoreGe);
    forall i, j | 0 <= i < j < |ps| ensures ps[i].score >= ps[j].score {
      assert ScoreGe(ps[i], ps[j]);
    }
    forall k ensures EquivalentTo(ps, ScoreGe, k) == EquivalentTo(scored, ScoreGe, k) {
      SortStable(scored, ScoreGe, k);
    }
  }

  // ------------------------------------------------------------------ cross-package dedup

  /** `package_info['package'][0].get('tweet_embedding')` */
  function FirstEmbedding(p: ScoredPackage): Option<seq<real>>
    requires p.package != []
  {
    p.package[0].tweetEmbedding
  }

  predicate AllNonEmpty(ps: seq<ScoredPackage>) {
    forall i :: 0 <= i < |ps| ==> ps[i].package != []
  }

  /** The inner loop over `processed_tweet_embeddings`: Some(true) at the first embedding
      more similar than the threshold, None when `np.dot` meets a vector of another length
      first (it raises ValueError), Some(false) when no earlier embedding is that similar. */
  function IsDuplicate(e: seq<real>, seen: seq<seq<real>>, norm: seq<real> -> real): (r: Option<bool>)
    ensures r == Some(false) ==>
      forall i :: 0 <= i < |seen| ==> |seen[i]| == |e| && Cosine(e, seen[i], norm) <= SimilarityThreshold
    ensures r == Some(true) ==>
      exists i :: 0 <= i < |seen| && |seen[i]| == |e| && Cosine(e, seen[i], norm) > SimilarityThreshold
    ensures r.None? ==> exists i :: 0 <= i < |seen| && |seen[i]| != |e|
  {
    if seen == [] then Some(false)
    else if |seen[0]| != |e| then None
    else if Cosine(e, seen[0], norm) > SimilarityThreshold then Some(true)
    else
      var r := IsDuplicate(e, seen[1..], norm);
      assert forall i :: 1 <= i < |seen| ==> seen[1..][i - 1] == seen[i];
      r
  }

  method CheckDuplicate(e: seq<real>, seen: seq<seq<real>>, norm: seq<real> -> real) returns (r: Option<bool>)
    ensures r == IsDuplicate(e, seen, norm)
  {
    var i := 0;
    while i < |seen|
      invariant 0 <= i <= |seen|
      invariant IsDuplicate(e, seen[i..], norm) == IsDuplicate(e, seen, norm)
    {
      assert seen[i..][1..] == seen[i + 1..];
      if |seen[i]| != |e| {
        return None;
      }
      if Cosine(e, seen[i], norm) > SimilarityThreshold {
        return Some(true);
      }
      i := i + 1;
    }
    return Some(false);
  }

  /** The kept packages and the embeddings compared against so far. */
  datatype Kept = Kept(packages: seq<ScoredPackage>, seen: seq<seq<real>>)

  /** The outer loop of step 6 over the first `n` packages; None when it raised. */
  function KeptUpTo(ps: seq<ScoredPackage>, norm: seq<real> -> real, n: nat): Option<Kept>
    requires n <= |ps| && AllNonEmpty(ps)
  {
    if n == 0 then Some(Kept([], []))
    else
      match KeptUpTo(ps, norm, n - 1)
      case None => None
      case Some(k) =>
        var p := ps[n - 1];
        match FirstEmbedding(p)
        case None => Some(Kept(k.packages + [p], k.seen))
        case Some(e) =>
          match IsDuplicate(e, k.seen, norm)
          case None => None
          case Some(true) => Some(k)
          case Some(false) => Some(Kept(k.packages + [p], k.seen + [e]))
  }

  /** The embeddings of the kept packages that have one, in order. */
  function Embeddings(ps: seq<ScoredPackage>): seq<seq<real>>
    requires AllNonEmpty(ps)
  {
    if ps == [] then []
    else
      var front := ps[..|ps| - 1];
      assert AllNonEmpty(front) by {
        assert forall i :: 0 <= i < |front| ==> front[i] == ps[i];
      }
      Embeddings(front)
        + (match FirstEmbedding(ps[|ps| - 1]) case None => [] case Some(e) => [e])
  }

  /** Pairwise: every kept embedding has the length of the earlier ones and is at most
      `SimilarityThreshold` similar to each of them. */
  ghost predicate Dissimilar(seen: seq<seq<real>>, norm: seq<real> -> real) {
    forall i, j :: 0 <= j < i < |seen| ==>
      |seen[i]| == |seen[j]| && Cosine(seen[i], seen[j], norm) <= SimilarityThreshold
  }

  /** Each step keeps the packages kept so far and appends at most the package it looks at. */
  lemma KeptStep(ps: seq<ScoredPackage>, norm: seq<real> -> real, n: nat)
    requires 0 < n <= |ps| && AllNonEmpty(ps) && KeptUpTo(ps, norm, n).Some?
    ensures KeptUpTo(ps, norm, n - 1).Some?
    ensures var k := KeptUpTo(ps, norm, n - 1).value;
      var k' := KeptUpTo(ps, norm, n).value;
      || k' == k
      || (k'.packages == k.packages + [ps[n - 1]] && FirstEmbedding(ps[n - 1]).None? && k'.seen == k.seen)
      || (k'.packages == k.packages + [ps[n - 1]] && FirstEmbedding(ps[n - 1]).Some?
          && IsDuplicate(FirstEmbedding(ps[n - 1]).value, k.seen, norm) == Some(false)
          && k'.seen == k.seen + [FirstEmbedding(ps[n - 1]).value])
    ensures FirstEmbedding(ps[n - 1]).None? ==>
      KeptUpTo(ps, norm, n).value.packages == KeptUpTo(ps, norm, n - 1).value.packages + [ps[n - 1]]
  {
  }

  /** The kept packages are the input with some packages left out, in input order. */
  lemma {:induction false} KeptSubsequence(ps: seq<ScoredPackage>, norm: seq<real> -> real, n: nat)
    requires n <= |ps| && AllNonEmpty(ps) && KeptUpTo(ps, norm, n).Some?
    ensures SubsequenceOf(KeptUpTo(ps, norm, n).value.packages, ps[..n])
  {
    if n > 0 {
      KeptStep(ps, norm, n);
      KeptSubsequence(ps, norm, n - 1);
      assert ps[..n] == ps[..n - 1] + [ps[n - 1]];
      SubsequenceExtend(KeptUpTo(ps, norm, n - 1).value.packages, KeptUpTo(ps, norm, n).value.packages,
                        ps[..n - 1], ps[n - 1]);
    }
  }

  /** A package without an embedding is never dropped. */
  lemma {:induction false} KeptWithoutEmbedding(ps: seq<ScoredPackage>, norm: seq<real> -> real, n: nat)
    requires n <= |ps| && AllNonEmpty(ps) && KeptUpTo(ps, norm, n).Some?
    ensures forall i :: 0 <= i < n && FirstEmbedding(ps[i]).None? ==> ps[i] in KeptUpTo(ps, norm, n).value.packages
  {
    if n > 0 {
      KeptStep(ps, norm, n);
      KeptWithoutEmbedding(ps, norm, n - 1);
    }
  }

  /** The embeddings compared against are exactly those of the kept packages, and they are
      pairwise dissimilar. */
  lemma {:induction false} KeptDissimilar(ps: seq<ScoredPackage>, norm: seq<real> -> real, n: nat)
    requires n <= |ps| && AllNonEmpty(ps) && KeptUpTo(ps, norm, n).Some?
    ensures AllNonEmpty(KeptUpTo(ps, norm, n).value.packages)
    ensures KeptUpTo(ps, norm, n).value.seen == Embeddings(KeptUpTo(ps, norm, n).value.packages)
    ensures Dissimilar(KeptUpTo(ps, norm, n).value.seen, norm)
  {
    if n > 0 {
      KeptStep(ps, norm, n);
      KeptDissimilar(ps, norm, n - 1);
      var k := KeptUpTo(ps, norm, n - 1).value;
      var k' := KeptUpTo(ps, norm, n).value;
      if k' != k {
        assert AllNonEmpty(k'.packages) by {
          assert forall i :: 0 <= i < |k.packages| ==> k'.packages[i] == k.packages[i];
        }
        assert k'.packages[..|k'.packages| - 1] == k.packages;
        if FirstEmbedding(ps[n - 1]).Some? {
          DissimilarSnoc(k.seen, FirstEmbedding(ps[n - 1]).value, norm);
        }
      }
    }
  }

  lemma DissimilarSnoc(seen: seq<seq<real>>, e: seq<real>, norm: seq<real> -> real)
    requires Dissimilar(seen, norm) && IsDuplicate(e, seen, norm) == Some(false)
    ensures Dissimilar(seen + [e], norm)
  {
    var s := seen + [e];
    forall i, j | 0 <= j < i < |s|
      ensures |s[i]| == |s[j]| && Cosine(s[i], s[j], norm) <= SimilarityThreshold
    {
      if i == |seen| {
        assert s[i] == e && s[j] == seen[j];
      } else {
        assert s[i] == seen[i] && s[j] == seen[j];
      }
    }
  }

  /** The first package is always kept: there is nothing yet to be a duplicate of. */
  lemma {:induction false} KeptFirst(ps: seq<ScoredPackage>, norm: seq<real> -> real, n: nat)
    requires 0 < n <= |ps| && AllNonEmpty(ps) && KeptUpTo(ps, norm, n).Some?
    ensures KeptUpTo(ps, norm, n).value.packages != []
    ensures KeptUpTo(ps, norm, n).value.packages[0] == ps[0]
  {
    if n > 1 {
      KeptFirst(ps, norm, n - 1);
    }
  }

  /** One step of `KeptUpTo`, case by case. */
  lemma KeptNext(ps: seq<ScoredPackage>, norm: seq<real> -> real, i: nat)
    requires i < |ps| && AllNonEmpty(ps) && KeptUpTo(ps, norm, i).Some?
    ensures var k := KeptUpTo(ps, norm, i).value;
      var p := ps[i];
      var next := KeptUpTo(ps, norm, i + 1);
      && (FirstEmbedding(p).None? ==> next == Some(Kept(k.packages + [p], k.seen)))
      && (FirstEmbedding(p).Some? ==>
            match IsDuplicate(FirstEmbedding(p).value, k.seen, norm)
            case None => next.None?
            case Some(true) => next == Some(k)
            case Some(false) => next == Some(Kept(k.packages + [p], k.seen + [FirstEmbedding(p).value])))
  {
  }

  /** Step 6: the cross-package de-duplication loop. */
  method CrossDedup(ps: seq<ScoredPackage>, norm: seq<real> -> real) returns (r: Option<seq<ScoredPackage>>)
    requires AllNonEmpty(ps)
    ensures r.None? <==> KeptUpTo(ps, norm, |ps|).None?
    ensures r.Some? ==> r.value == KeptUpTo(ps, norm, |ps|).value.packages
  {
    var kept: seq<ScoredPackage> := [];
    var seen: seq<seq<real>> := [];
    var i := 0;
    while i < |ps|
      invariant 0 <= i <= |ps|
      invariant KeptUpTo(ps, norm, i) == Some(Kept(kept, seen))
    {
      KeptNext(ps, norm, i);
      var p := ps[i];
      var e := p.package[0].tweetEmbedding;
      if e.None? {
        kept := kept + [p];
      } else {
        var dup := CheckDuplicate(e.value, seen, norm);
        if dup.None? {
          NoneSticks(ps, norm, i + 1, |ps|);
          return None;
        }
        if !dup.value {
          kept := kept + [p];
          seen := seen + [e.value];
        }
      }
      i := i + 1;
    }
    return Some(kept);
  }

  lemma {:induction false} NoneSticks(ps: seq<ScoredPackage>, norm: seq<real> -> real, k: nat, n: nat)
    requires k <= n <= |ps| && AllNonEmpty(ps) && KeptUpTo(ps, norm, k).None?
    ensures KeptUpTo(ps, norm, n).None?
    decreases n - k
  {
    if k < n {
      NoneSticks(ps, norm, k + 1, n);
    }
  }

  // ------------------------------------------------------------------ pacing

  /** `(CHECK_INTERVAL_SECONDS / 2) / (num_messages + 1)` seconds between messages, or 0. */
  function Delay(n: nat): real {
    if n > 0 then (CheckIntervalSeconds / 2) as real / (n as real + 1.0) else 0.0
  }

  lemma DelayTimes(n: nat)
    requires n > 0
    ensures Delay(n) * (n as real + 1.0) == 3600.0
    ensures Delay(n) > 0.0
  {
  }

  lemma SpreadBound(d: real, k: real)
    requires d > 0.0 && d * (k + 1.0) == 3600.0
    ensures d * k < 3600.0
  {
    assert d * (k + 1.0) == d * k + d;
  }

  /** The pauses between `n` messages add up to less than half the check interval. */
  lemma DelayBound(n: nat)
    ensures 0.0 <= Delay(n)
    ensures Delay(n) * (n as real) < 3600.0
  {
    if n > 0 {
      DelayTimes(n);
      SpreadBound(Delay(n), n as real);
    }
  }

  // ------------------------------------------------------------------ parent collapse

  /** `m['parent_event_id']` is truthy. */
  predicate HasParent(m: UnsentRow) {
    Truthy(m.parentEventId)
  }

  predicate NoParent(m: UnsentRow) {
    !Truthy(m.parentEventId)
  }

  function ParentKey(m: UnsentRow): string {
    if m.parentEventId.Some? then m.parentEventId.value else ""
  }

  /** `key=lambda x: x['parent_event_id']` */
  predicate ParentLe(a: UnsentRow, b: UnsentRow) {
    StrLe(ParentKey(a), ParentKey(b))
  }

  lemma ParentLeTotal()
    ensures TotalPreorder(ParentLe)
  {
    forall a: UnsentRow, b: UnsentRow ensures ParentLe(a, b) || ParentLe(b, a) {
      StrLeTotal(ParentKey(a), ParentKey(b));
    }
    forall a: UnsentRow, b: UnsentRow, c: UnsentRow | ParentLe(a, b) && ParentLe(b, c)
      ensures ParentLe(a, c)
    {
      StrLeTransitive(ParentKey(a), ParentKey(b), ParentKey(c));
    }
  }

  /** The markets with a parent event, sorted by parent id and cut into one run per parent. */
  function ParentRuns(group: seq<UnsentRow>): (runs: seq<seq<UnsentRow>>)
    ensures forall i :: 0 <= i < |runs| ==> runs[i] != []
  {
    GroupRuns(Sort(Select(group, HasParent), ParentLe), ParentKey)
  }

  /** The most relevant market of each run (`market_group[0]` after the relevance sort). */
  function RunHeads(runs: seq<seq<UnsentRow>>): (heads: seq<UnsentRow>)
    requires forall i :: 0 <= i < |runs| ==> runs[i] != []
    ensures |heads| == |runs|
    ensures forall i :: 0 <= i < |runs| ==> heads[i] == Sort(runs[i], RelevanceGe)[0]
  {
    seq(|runs|, i requires 0 <= i < |runs| => Sort(runs[i], RelevanceGe)[0])
  }

  /** `final_market_list`: one market per parent event plus every market without one, most
      relevant first. */
  function Collapsed(group: seq<UnsentRow>): seq<UnsentRow> {
    Sort(RunHeads(ParentRuns(group)) + Select(group, NoParent), RelevanceGe)
  }

  /** The first row of a relevance-sorted list is a most relevant row of the list. */
  lemma MostRelevantFirst(p: seq<UnsentRow>)
    requires p != []
    ensures Sort(p, RelevanceGe)[0] in p
    ensures forall x :: x in p ==> Sort(p, RelevanceGe)[0].relevance >= x.relevance
  {
    var s := Sort(p, RelevanceGe);
    RelevanceGeTotal();
    SortSorted(p, RelevanceGe);
    assert s[0] in multiset(p);
    forall x | x in p ensures s[0].relevance >= x.relevance {
      assert x in multiset(s);
      var k :| 0 <= k < |s| && s[k] == x;
      if k > 0 {
        assert RelevanceGe(s[0], s[k]);
      }
    }
  }

  /** What the parent runs of a group are: each run holds rows of the group with a parent,
      all with the parent of its first row; no parent has two runs; every row with a parent
      is in some run. */
  lemma ParentRunsFacts(group: seq<UnsentRow>)
    ensures var runs := ParentRuns(group);
      && (forall i, x :: 0 <= i < |runs| && x in runs[i] ==>
            x in group && HasParent(x) && ParentKey(x) == ParentKey(runs[i][0]))
      && (forall i, j :: 0 <= i < j < |runs| ==> ParentKey(runs[i][0]) != ParentKey(runs[j][0]))
      && (forall x :: x in group && HasParent(x) ==> exists i :: 0 <= i < |runs| && x in runs[i])
  {
    var withParent := Select(group, HasParent);
    var s := Sort(withParent, ParentLe);
    var runs := ParentRuns(group);
    ParentLeTotal();
    SortSorted(withParent, ParentLe);
    assert forall i, j :: 0 <= i < j < |s| ==> StrLe(ParentKey(s[i]), ParentKey(s[j])) by {
      forall i, j | 0 <= i < j < |s| ensures StrLe(ParentKey(s[i]), ParentKey(s[j])) {
        assert ParentLe(s[i], s[j]);
      }
    }
    GroupRunsDistinct(s, ParentKey);
    GroupRunsUniform(s, ParentKey);
    GroupRunsFlatten(s, ParentKey);
    forall i, x | 0 <= i < |runs| && x in runs[i]
      ensures x in group && HasParent(x) && ParentKey(x) == ParentKey(runs[i][0])
    {
      FlattenMember(runs, i, x);
      assert x in multiset(s);
      assert x in withParent;
    }
    forall x | x in group && HasParent(x) ensures exists i :: 0 <= i < |runs| && x in runs[i] {
      assert x in withParent;
      assert x in multiset(withParent);
      assert x in s;
      FlattenMemberInv(runs, x);
    }
  }

  /** A member of the collapsed list is a run head or a market without a parent event. */
  lemma CollapsedMembers(group: seq<UnsentRow>)
    ensures forall x :: x in Collapsed(group) <==>
      x in RunHeads(ParentRuns(group)) || x in Select(group, NoParent)
  {
    var body := RunHeads(ParentRuns(group)) + Select(group, NoParent);
    var c := Collapsed(group);
    forall x ensures x in c <==> x in body {
      assert x in c <==> x in multiset(c);
      assert x in body <==> x in multiset(body);
    }
  }

  /** The head of the `i`-th parent run: a market of the group with that run's parent
      event, at least as relevant as every market of the run. */
  lemma HeadFacts(group: seq<UnsentRow>, i: nat)
    requires i < |ParentRuns(group)|
    ensures var runs := ParentRuns(group);
      var h := RunHeads(runs)[i];
      && h in runs[i] && h in group && HasParent(h)
      && ParentKey(h) == ParentKey(runs[i][0])
      && forall x :: x in runs[i] ==> h.relevance >= x.relevance
  {
    ParentRunsFacts(group);
    MostRelevantFirst(ParentRuns(group)[i]);
  }

  /** The collapsed list comes from the group, keeps every market without a parent event,
      and is ordered by relevance, highest first. */
  lemma CollapseKeeps(group: seq<UnsentRow>)
    ensures var c := Collapsed(group);
      && (forall x :: x in c ==> x in group)
      && (forall x :: x in group && NoParent(x) ==> x in c)
      && (forall i, j :: 0 <= i < j < |c| ==> c[i].relevance >= c[j].relevance)
  {
    var heads := RunHeads(ParentRuns(group));
    var c := Collapsed(group);
    CollapsedMembers(group);
    forall x | x in heads ensures x in group {
      var i :| 0 <= i < |heads| && heads[i] == x;
      HeadFacts(group, i);
    }
    RelevanceGeTotal();
    SortSorted(heads + Select(group, NoParent), RelevanceGe);
    forall i, j | 0 <= i < j < |c| ensures c[i].relevance >= c[j].relevance {
      assert RelevanceGe(c[i], c[j]);
    }
  }

  /** The run holding a market of the group that has a parent event. */
  lemma RunIndex(group: seq<UnsentRow>, x: UnsentRow) returns (j: nat)
    requires x in group && HasParent(x)
    ensures j < |ParentRuns(group)| && x in ParentRuns(group)[j]
    ensures ParentKey(x) == ParentKey(ParentRuns(group)[j][0])
  {
    ParentRunsFacts(group);
    j :| 0 <= j < |ParentRuns(group)| && x in ParentRuns(group)[j];
  }

  /** A market of the collapsed list that has a parent event is a run head. */
  lemma HeadIndex(group: seq<UnsentRow>, y: UnsentRow) returns (i: nat)
    requires y in Collapsed(group) && HasParent(y)
    ensures i < |ParentRuns(group)| && RunHeads(ParentRuns(group))[i] == y
  {
    CollapsedMembers(group);
    var heads := RunHeads(ParentRuns(group));
    var without := Select(group, NoParent);
    assert y !in without;
    assert y in heads;
    i :| 0 <= i < |heads| && heads[i] == y;
  }

  /** Two parent runs with the same parent event are the same run. */
  lemma DistinctRuns(group: seq<UnsentRow>, i: nat, j: nat)
    requires i < |ParentRuns(group)| && j < |ParentRuns(group)|
    requires ParentKey(ParentRuns(group)[i][0]) == ParentKey(ParentRuns(group)[j][0])
    ensures i == j
  {
    ParentRunsFacts(group);
  }

  /** Every parent event of the group is represented in the collapsed list. */
  lemma ParentRepresented(group: seq<UnsentRow>, x: UnsentRow)
    requires x in group && HasParent(x)
    ensures exists y :: y in Collapsed(group) && HasParent(y) && ParentKey(y) == ParentKey(x)
  {
    var i := RunIndex(group, x);
    HeadFacts(group, i);
    CollapsedMembers(group);
    var heads := RunHeads(ParentRuns(group));
    assert heads[i] in heads;
    assert heads[i] in Collapsed(group);
  }

  /** The representative of a parent event is at least as relevant as every market of the
      group with that parent. */
  lemma RepresentativeMostRelevant(group: seq<UnsentRow>, y: UnsentRow, x: UnsentRow)
    requires y in Collapsed(group) && HasParent(y)
    requires x in group && HasParent(x) && ParentKey(x) == ParentKey(y)
    ensures y.relevance >= x.relevance
  {
    var i := HeadIndex(group, y);
    var j := RunIndex(group, x);
    HeadFacts(group, i);
    DistinctRuns(group, i, j);
  }

  /** No parent event has two representatives. */
  lemma RepresentativeUnique(group: seq<UnsentRow>, y1: UnsentRow, y2: UnsentRow)
    requires y1 in Collapsed(group) && HasParent(y1)
    requires y2 in Collapsed(group) && HasParent(y2)
    requires ParentKey(y1) == ParentKey(y2)
    ensures y1 == y2
  {
    var i := HeadIndex(group, y1);
    var j := HeadIndex(group, y2);
    HeadFacts(group, i);
    HeadFacts(group, j);
    DistinctRuns(group, i, j);
  }

  /** For each parent event of the group the collapsed list keeps exactly one market with
      that parent, and it is one of the most relevant markets with that parent. */
  lemma CollapseOnePerParent(group: seq<UnsentRow>)
    ensures var c := Collapsed(group);
      && (forall x :: x in group && HasParent(x) ==>
            exists y :: y in c && HasParent(y) && ParentKey(y) == ParentKey(x))
      && (forall y, x :: y in c && HasParent(y) && x in group && HasParent(x) && ParentKey(x) == ParentKey(y) ==>
            y.relevance >= x.relevance)
      && (forall y1, y2 :: y1 in c && y2 in c && HasParent(y1) && HasParent(y2) && ParentKey(y1) == ParentKey(y2) ==>
            y1 == y2)
  {
    forall x | x in group && HasParent(x)
      ensures exists y :: y in Collapsed(group) && HasParent(y) && ParentKey(y) == ParentKey(x)
    {
      ParentRepresented(group, x);
    }
    forall y, x | y in Collapsed(group) && HasParent(y) && x in group && HasParent(x) && ParentKey(x) == ParentKey(y)
      ensures y.relevance >= x.relevance
    {
      RepresentativeMostRelevant(group, y, x);
    }
    forall y1, y2 | y1 in Collapsed(group) && y2 in Collapsed(group) && HasParent(y1) && HasParent(y2) && ParentKey(y1) == ParentKey(y2)
      ensures y1 == y2
    {
      RepresentativeUnique(group, y1, y2);
    }
  }

  lemma RunHeadsSnoc(runs: seq<seq<UnsentRow>>, i: nat)
    requires i < |runs| && forall j :: 0 <= j < |runs| ==> runs[j] != []
    ensures RunHeads(runs[..i + 1]) == RunHeads(runs[..i]) + [Sort(runs[i], RelevanceGe)[0]]
  {
  }

  /** The inner grouping of step 7: one head per parent run, then the markets without a
      parent, then the relevance sort. */
  method CollapseByParent(group: seq<UnsentRow>) returns (list: seq<UnsentRow>)
    ensures list == Collapsed(group)
  {
    list := [];
    var withParent := Select(group, HasParent);
    var without := Select(group, NoParent);
    if withParent != [] {
      var runs := GroupRuns(Sort(withParent, ParentLe), ParentKey);
      var i := 0;
      while i < |runs|
        invariant 0 <= i <= |runs|
        invariant list == RunHeads(runs[..i])
      {
        RunHeadsSnoc(runs, i);
        list := list + [Sort(runs[i], RelevanceGe)[0]];
        i := i + 1;
      }
      assert runs[..|runs|] == runs;
    }
    assert list == RunHeads(ParentRuns(group));
    list := Sort(list + without, RelevanceGe);
  }

  /** The just-in-time refresh: new odds in memory only; undecodable or short price lists
      leave the market as it was. */
  method RefreshInMemory(list: seq<UnsentRow>, quotes: map<string, OutcomePrices>) returns (r: seq<UnsentRow>)
    ensures r == RefreshAll(list, quotes)
  {
    r := [];
    var i := 0;
    while i < |list|
      invariant 0 <= i <= |list|
      invariant r == RefreshAll(list[..i], quotes)
    {
      RefreshAllSnoc(list, i, quotes);
      var p := Fresh(list[i].marketId, quotes);
      if p.Some? {
        r := r + [list[i].(yesPrice := p.value.yes, noPrice := p.value.no)];
      } else {
        r := r + [list[i]];
      }
      i := i + 1;
    }
    assert list[..|list|] == list;
  }

  // ------------------------------------------------------------------ sending

  /** `key=lambda m: (m['relevance_score'], m['impact_score']), reverse=True` */
  predicate RelevanceImpactGe(a: UnsentRow, b: UnsentRow) {
    a.relevance > b.relevance || (a.relevance == b.relevance && Impact(a) >= Impact(b))
  }

  lemma RelevanceImpactGeTotal()
    ensures TotalPreorder(RelevanceImpactGe)
  {
  }

  function MarketIdsOf(list: seq<UnsentRow>): (ids: seq<string>)
    ensures |ids| == |list|
    ensures forall i :: 0 <= i < |list| ==> ids[i] == list[i].marketId
  {
    seq(|list|, i requires 0 <= i < |list| => list[i].marketId)
  }

  function CorrelationIds(rows: seq<UnsentRow>): (ids: seq<nat>)
    ensures |ids| == |rows|
    ensures forall i :: 0 <= i < |rows| ==> ids[i] == rows[i].correlationId
  {
    seq(|rows|, i requires 0 <= i < |rows| => rows[i].correlationId)
  }

  /** One broadcast message: the tweet (`tweet_data`, the package's first row, taken before
      the group is re-sorted) and its collapsed, refreshed market list. */
  datatype Message = Message(tweet: UnsentRow, markets: seq<UnsentRow>)

  /** `tweet_group` after the in-place sort by relevance, then impact. */
  function TweetGroup(p: ScoredPackage): (g: seq<UnsentRow>)
    ensures |g| == |p.package|
    ensures multiset(g) == multiset(p.package)
  {
    Sort(p.package, RelevanceImpactGe)
  }

  function Compose(p: ScoredPackage, fetch: seq<string> -> map<string, OutcomePrices>): Message
    requires p.package != []
  {
    var list := Collapsed(TweetGroup(p));
    Message(p.package[0], RefreshAll(list, fetch(MarketIdsOf(list))))
  }

  /** `Compose` with the price source fixed, as a function of the package alone. */
  function Composer(fetch: seq<string> -> map<string, OutcomePrices>): ScoredPackage --> Message {
    (p: ScoredPackage) requires p.package != [] => Compose(p, fetch)
  }

  /** The messages of the first `k` packages, in order: the `i`-th is the one composed from
      the `i`-th package. */
  function MessagesUpTo(final: seq<ScoredPackage>, fetch: seq<string> -> map<string, OutcomePrices>, k: nat): (ms: seq<Message>)
    requires k <= |final| && AllNonEmpty(final)
    ensures |ms| == k
    ensures forall i :: 0 <= i < k ==> ms[i] == Compose(final[i], fetch)
  {
    MapPrefix(final, Composer(fetch), k)
  }

  /** The correlation ids of the first `k` lists, list after list. */
  function IdsUpTo(groups: seq<seq<UnsentRow>>, k: nat): seq<nat>
    requires k <= |groups|
  {
    if k == 0 then [] else IdsUpTo(groups, k - 1) + CorrelationIds(groups[k - 1])
  }

  /** Exactly the ids of the rows of the first `k` lists are listed. */
  lemma {:induction false} IdsUpToMembers(groups: seq<seq<UnsentRow>>, k: nat)
    requires k <= |groups|
    ensures forall i, c :: 0 <= i < k && c in groups[i] ==> c.correlationId in IdsUpTo(groups, k)
    ensures forall id :: id in IdsUpTo(groups, k) ==>
      exists i, c :: 0 <= i < k && c in groups[i] && c.correlationId == id
  {
    if k > 0 {
      IdsUpToMembers(groups, k - 1);
      var front := IdsUpTo(groups, k - 1);
      var ids := CorrelationIds(groups[k - 1]);
      forall i, c | 0 <= i < k && c in groups[i] ensures c.correlationId in front + ids {
        if i == k - 1 {
          var j :| 0 <= j < |groups[i]| && groups[i][j] == c;
          assert ids[j] == c.correlationId;
        }
      }
      forall id | id in front + ids ensures exists i, c :: 0 <= i < k && c in groups[i] && c.correlationId == id {
        if id !in front {
          var j :| 0 <= j < |ids| && ids[j] == id;
          assert groups[k - 1][j] in groups[k - 1];
        }
      }
    }
  }

  /** The uncollapsed, impact-sorted `tweet_group` of each package. */
  function TweetGroups(final: seq<ScoredPackage>): (gs: seq<seq<UnsentRow>>)
    ensures |gs| == |final|
    ensures forall i :: 0 <= i < |final| ==> gs[i] == TweetGroup(final[i])
  {
    seq(|final|, i requires 0 <= i < |final| => TweetGroup(final[i]))
  }

  /** The ids marked sent for the first `k` packages of the Discord loop. */
  function SentIdsUpTo(final: seq<ScoredPackage>, k: nat): seq<nat>
    requires k <= |final|
  {
    IdsUpTo(TweetGroups(final), k)
  }

  /** The ids marked sent when no channel is subscribed: every row of every package. */
  function AllIds(final: seq<ScoredPackage>): seq<nat> {
    if final == [] then [] else AllIds(final[..|final| - 1]) + CorrelationIds(final[|final| - 1].package)
  }

  /** A package's `tweet_group` holds the same correlations as the package. */
  lemma TweetGroupMembers(p: ScoredPackage)
    ensures forall c :: c in TweetGroup(p) <==> c in p.package
  {
    var g := TweetGroup(p);
    forall c ensures c in g <==> c in p.package {
      assert c in g <==> c in multiset(g);
      assert c in p.package <==> c in multiset(p.package);
    }
  }

  /** Every correlation of the first `k` packages is among the ids marked. */
  lemma SentIdsCover(final: seq<ScoredPackage>, k: nat)
    requires k <= |final|
    ensures forall i, c :: 0 <= i < k && c in final[i].package ==> c.correlationId in SentIdsUpTo(final, k)
  {
    var gs := TweetGroups(final);
    IdsUpToMembers(gs, k);
    forall i, c | 0 <= i < k && c in final[i].package ensures c.correlationId in IdsUpTo(gs, k) {
      TweetGroupMembers(final[i]);
      assert c in gs[i];
    }
  }

  /** And nothing else is marked: every id marked belongs to one of the first `k` packages. */
  lemma SentIdsOnly(final: seq<ScoredPackage>, k: nat)
    requires k <= |final|
    ensures forall id :: id in SentIdsUpTo(final, k) ==>
      exists i, c :: 0 <= i < k && c in final[i].package && c.correlationId == id
  {
    var gs := TweetGroups(final);
    IdsUpToMembers(gs, k);
    forall id | id in IdsUpTo(gs, k) ensures exists i, c :: 0 <= i < k && c in final[i].package && c.correlationId == id {
      var i: nat, c: UnsentRow :| i < k && c in gs[i] && c.correlationId == id;
      TweetGroupMembers(final[i]);
      assert c in final[i].package;
    }
  }

  /** Every correlation of every package is among the ids marked on the no-channel path. */
  lemma {:induction false} AllIdsCover(final: seq<ScoredPackage>)
    ensures forall i, c :: 0 <= i < |final| && c in final[i].package ==> c.correlationId in AllIds(final)
  {
    if final != [] {
      var front := final[..|final| - 1];
      AllIdsCover(front);
      var p := final[|final| - 1];
      forall i, c | 0 <= i < |final| && c in final[i].package ensures c.correlationId in AllIds(final) {
        if i < |final| - 1 {
          assert final[i] == front[i];
        } else {
          var j :| 0 <= j < |p.package| && p.package[j] == c;
          assert CorrelationIds(p.package)[j] == c.correlationId;
        }
      }
    }
  }

  /** Every id marked on the no-channel path belongs to some package. */
  lemma {:induction false} AllIdsOnly(final: seq<ScoredPackage>)
    ensures forall id :: id in AllIds(final) ==>
      exists i, c :: 0 <= i < |final| && c in final[i].package && c.correlationId == id
  {
    if final != [] {
      var front := final[..|final| - 1];
      var p := final[|final| - 1];
      AllIdsOnly(front);
      forall id | id in AllIds(final)
        ensures exists i, c :: 0 <= i < |final| && c in final[i].package && c.correlationId == id
      {
        if id in AllIds(front) {
          var i, c :| 0 <= i < |front| && c in front[i].package && c.correlationId == id;
          assert final[i] == front[i];
        } else {
          var j :| 0 <= j < |p.package| && CorrelationIds(p.package)[j] == id;
          assert p.package[j] in p.package;
        }
      }
    }
  }

  /** After the Discord loop has sent the first `k` packages, every stored correlation of
      those packages is sent with this run's timestamp, and every other row is as it was. */
  lemma SentPackagesMarked(rows: seq<Correlation>, final: seq<ScoredPackage>, k: nat, now: int)
    requires k <= |final|
    ensures var r := MarkSentAll(rows, SentIdsUpTo(final, k), now);
      && |r| == |rows|
      && (forall j, i, c :: 0 <= j < |rows| && 0 <= i < k && c in final[i].package && rows[j].id == c.correlationId ==>
            r[j] == rows[j].(sent := true, sentAt := Some(now)))
      && (forall j :: 0 <= j < |rows| && !InPackages(final, k, rows[j].id) ==> r[j] == rows[j])
  {
    SentIdsCover(final, k);
    SentIdsOnly(final, k);
    MarkSentAllFacts(rows, SentIdsUpTo(final, k), now);
  }

  /** On the no-channel path every stored correlation of every package is marked sent, and
      every other row is as it was. */
  lemma AllPackagesMarked(rows: seq<Correlation>, final: seq<ScoredPackage>, now: int)
    ensures var r := MarkSentAll(rows, AllIds(final), now);
      && |r| == |rows|
      && (forall j, i, c :: 0 <= j < |rows| && 0 <= i < |final| && c in final[i].package && rows[j].id == c.correlationId ==>
            r[j] == rows[j].(sent := true, sentAt := Some(now)))
      && (forall j :: 0 <= j < |rows| && !InPackages(final, |final|, rows[j].id) ==> r[j] == rows[j])
  {
    AllIdsCover(final);
    AllIdsOnly(final);
    MarkSentAllFacts(rows, AllIds(final), now);
  }

  /** `id` is the id of a correlation in one of the first `k` packages. */
  ghost predicate InPackages(final: seq<ScoredPackage>, k: nat, id: nat)
    requires k <= |final|
  {
    exists i, c :: 0 <= i < k && c in final[i].package && c.correlationId == id
  }

  lemma MarkSentOne(rows: seq<Correlation>, ids: seq<nat>, id: nat, now: int)
    ensures MarkSentAll(rows, ids + [id], now) == MarkSent(MarkSentAll(rows, ids, now), id, now)
  {
    MarkSentAllAppend(rows, ids, [id], now);
    assert [id][1..] == [];
  }

  /** `for c_id in correlation_ids_to_mark: mark_correlation_as_sent(c_id)` */
  method MarkIds(db: Database, ids: seq<nat>, now: int)
    requires db.Valid()
    modifies db
    ensures db.Valid()
    ensures db.correlations == MarkSentAll(old(db.correlations), ids, now)
    ensures db.markets == old(db.markets) && db.tweets == old(db.tweets)
    ensures db.nextCorrelationId == old(db.nextCorrelationId)
  {
    var j := 0;
    while j < |ids|
      invariant 0 <= j <= |ids|
      invariant db.Valid()
      invariant db.correlations == MarkSentAll(old(db.correlations), ids[..j], now)
      invariant db.markets == old(db.markets) && db.tweets == old(db.tweets)
      invariant db.nextCorrelationId == old(db.nextCorrelationId)
    {
      MarkSentOne(old(db.correlations), ids[..j], ids[j], now);
      assert ids[..j + 1] == ids[..j] + [ids[j]];
      db.MarkCorrelationAsSent(ids[j], now);
      j := j + 1;
    }
    assert ids[..|ids|] == ids;
  }

  /** The no-channel path: mark every correlation of every final package sent. */
  method MarkAllSent(db: Database, final: seq<ScoredPackage>, now: int)
    requires db.Valid()
    modifies db
    ensures db.Valid()
    ensures db.correlations == MarkSentAll(old(db.correlations), AllIds(final), now)
    ensures db.markets == old(db.markets) && db.tweets == old(db.tweets)
    ensures db.nextCorrelationId == old(db.nextCorrelationId)
  {
    var i := 0;
    while i < |final|
      invariant 0 <= i <= |final|
      invariant db.Valid()
      invariant db.correlations == MarkSentAll(old(db.correlations), AllIds(final[..i]), now)
      invariant db.markets == old(db.markets) && db.tweets == old(db.tweets)
      invariant db.nextCorrelationId == old(db.nextCorrelationId)
    {
      var ids := CorrelationIds(final[i].package);
      assert final[..i + 1][..i] == final[..i];
      assert AllIds(final[..i + 1]) == AllIds(final[..i]) + ids;
      MarkSentAllAppend(old(db.correlations), AllIds(final[..i]), ids, now);
      MarkIds(db, ids, now);
      i := i + 1;
    }
    assert final[..|final|] == final;
  }

  /** The Discord loop of step 7 over the first `k` packages (`k` = where an exception ended
      it, or all of them): compose each message, then mark the whole uncollapsed group sent. */
  method BroadcastPackages(db: Database, final: seq<ScoredPackage>, fetch: seq<string> -> map<string, OutcomePrices>,
                           k: nat, now: int)
    returns (messages: seq<Message>)
    requires db.Valid() && AllNonEmpty(final) && k <= |final|
    modifies db
    ensures db.Valid()
    ensures messages == MessagesUpTo(final, fetch, k)
    ensures db.correlations == MarkSentAll(old(db.correlations), SentIdsUpTo(final, k), now)
    ensures db.markets == old(db.markets) && db.tweets == old(db.tweets)
    ensures db.nextCorrelationId == old(db.nextCorrelationId)
  {
    messages := [];
    var i := 0;
    while i < k
      invariant 0 <= i <= k
      invariant db.Valid()
      invariant messages == MessagesUpTo(final, fetch, i)
      invariant db.correlations == MarkSentAll(old(db.correlations), SentIdsUpTo(final, i), now)
      invariant db.markets == old(db.markets) && db.tweets == old(db.tweets)
      invariant db.nextCorrelationId == old(db.nextCorrelationId)
    {
      var message, ids := ComposeMessage(final[i], fetch);
      MarkSentAllAppend(old(db.correlations), SentIdsUpTo(final, i), ids, now);
      MarkIds(db, ids, now);
      messages := messages + [message];
      i := i + 1;
    }
  }

  /** One iteration's message: impact sort, parent collapse, just-in-time refresh. */
  method ComposeMessage(p: ScoredPackage, fetch: seq<string> -> map<string, OutcomePrices>)
    returns (message: Message, ids: seq<nat>)
    requires p.package != []
    ensures message == Compose(p, fetch)
    ensures ids == CorrelationIds(TweetGroup(p))
  {
    var tweetData := p.package[0];
    var group := Sort(p.package, RelevanceImpactGe);
    var list := CollapseByParent(group);
    var quotes := fetch(MarketIdsOf(list));
    list := RefreshInMemory(list, quotes);
    message := Message(tweetData, list);
    ids := CorrelationIds(group);
  }

  // ------------------------------------------------------------------ send_new_correlations

  /** Steps 3 to 6 on the refreshed rows: the packages to send, in order, or None when the
      cross-package comparison raised. */
  function Selection(rows: seq<UnsentRow>, norm: seq<real> -> real): (r: Option<seq<ScoredPackage>>)
    ensures r.Some? ==> AllNonEmpty(r.value)
  {
    var ps := Prioritized(rows);
    PrioritizedNonEmpty(rows);
    match KeptUpTo(ps, norm, |ps|)
    case None => None
    case Some(k) =>
      KeptDissimilar(ps, norm, |ps|);
      Some(k.packages)
  }

  lemma PrioritizedNonEmpty(rows: seq<UnsentRow>)
    ensures AllNonEmpty(Prioritized(rows))
  {
    PackagesPartition(rows);
    var scored := ScoreAll(Packages(rows));
    var ps := Prioritized(rows);
    forall i | 0 <= i < |ps| ensures ps[i].package != [] {
      assert ps[i] in multiset(scored);
      var j :| 0 <= j < |scored| && scored[j] == ps[i];
      assert Packages(rows)[j] != [];
    }
  }

  /** Steps 3 to 6: group into packages, score, sort by score, drop near-duplicates. */
  method SelectPackages(rows: seq<UnsentRow>, norm: seq<real> -> real) returns (final: Option<seq<ScoredPackage>>)
    ensures final == Selection(rows, norm)
  {
    PackagesPartition(rows);
    var scored := ScorePackages(Packages(rows));
    var ps := Sort(scored, ScoreGe);
    PrioritizedNonEmpty(rows);
    final := CrossDedup(ps, norm);
  }

  datatype SendOutcome = NotConfigured | NothingToSend | Raised | Returned(count: nat)

  predicate Configured(targetChannelId: int, token: Option<string>) {
    targetChannelId != 0 && Truthy(token)
  }

  /** send_new_correlations. */
  method SendNewCorrelations(db: Database, targetChannelId: int, token: Option<string>,
                             latest: map<string, OutcomePrices>, norm: seq<real> -> real,
                             channels: seq<int>, fetch: seq<string> -> map<string, OutcomePrices>,
                             failAt: nat, now: int)
    returns (outcome: SendOutcome, messages: seq<Message>)
    requires db.Valid()
    modifies db
    ensures db.Valid()
    ensures db.tweets == old(db.tweets) && db.nextCorrelationId == old(db.nextCorrelationId)
    ensures var rows := old(db.GetUnsentCorrelations());
      var k := FirstUndecodable(rows, latest);
      && (outcome == NotConfigured <==> !Configured(targetChannelId, token))
      && (outcome == NothingToSend <==> Configured(targetChannelId, token) && rows == [])
      && (outcome.NotConfigured? || outcome.NothingToSend? ==>
            db.markets == old(db.markets) && db.correlations == old(db.correlations) && messages == [])
      && (Configured(targetChannelId, token) && rows != [] ==>
            db.markets == StoreRefresh(old(db.markets), rows[..k], latest))
      && (outcome == SendOutcome.Raised <==>
            Configured(targetChannelId, token) && rows != [] &&
            (k < |rows| || Selection(RefreshAll(rows, latest), norm).None?))
      && (outcome == SendOutcome.Raised ==> db.correlations == old(db.correlations) && messages == [])
      && (outcome.Returned? ==>
            var final := Selection(RefreshAll(rows, latest), norm).value;
            var sent := if failAt < |final| then failAt else |final|;
            if channels == [] then
              && outcome.count == 0 && messages == []
              && db.correlations == MarkSentAll(old(db.correlations), AllIds(final), now)
            else
              && outcome.count == |final|
              && messages == MessagesUpTo(final, fetch, sent)
              && db.correlations == MarkSentAll(old(db.correlations), SentIdsUpTo(final, sent), now))
  {
    messages := [];
    if !Configured(targetChannelId, token) {
      return NotConfigured, [];
    }
    var rows := db.GetUnsentCorrelations();
    if rows == [] {
      return NothingToSend, [];
    }
    var raised, refreshed := RefreshPrices(db, rows, latest);
    if raised {
      return SendOutcome.Raised, [];
    }
    var final := SelectPackages(refreshed, norm);
    if final.None? {
      return SendOutcome.Raised, [];
    }
    if channels == [] {
      MarkAllSent(db, final.value, now);
      return Returned(0), [];
    }
    var sent := if failAt < |final.value| then failAt else |final.value|;
    messages := BroadcastPackages(db, final.value, fetch, sent, now);
    outcome := Returned(|final.value|);
  }
}
