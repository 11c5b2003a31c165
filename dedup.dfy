/** Raw-tweet de-duplication of helpers/deduplication.py.

    A language model reports groups of tweet ids that tell the same news; of each group the
    tweet with the highest engagement is kept and the other members are discarded. The model's
    answer is a parameter. */
module Dedup {
  import opened Common

  /** The fields of a raw tweet the step reads. A count is None when the key is absent. */
  datatype RawTweet = RawTweet(
    id: string,
    text: string,
    likeCount: Option<int>,
    retweetCount: Option<int>,
    replyCount: Option<int>)

  /** `tweet.get(key, 0)` */
  function CountOrZero(c: Option<int>): int {
    if c.Some? then c.value else 0
  }

  predicate CountsNonNegative(t: RawTweet) {
    CountOrZero(t.likeCount) >= 0 && CountOrZero(t.retweetCount) >= 0 && CountOrZero(t.replyCount) >= 0
  }

  /** get_tweet_engagement: likes, twice the retweets, and replies. */
  function Engagement(t: RawTweet): (r: int)
    ensures CountsNonNegative(t) ==> r >= 0
    ensures CountsNonNegative(t) ==> r >= CountOrZero(t.likeCount) && r >= 2 * CountOrZero(t.retweetCount)
  {
    CountOrZero(t.likeCount) + CountOrZero(t.retweetCount) * 2 + CountOrZero(t.replyCount)
  }

  /** A missing count weighs what a zero count does; a like or a reply weighs one and a
      retweet two. */
  lemma EngagementWeights(t: RawTweet, likes: int, retweets: int, replies: int)
    ensures Engagement(t.(likeCount := None)) == Engagement(t.(likeCount := Some(0)))
    ensures Engagement(t.(retweetCount := None)) == Engagement(t.(retweetCount := Some(0)))
    ensures Engagement(t.(replyCount := None)) == Engagement(t.(replyCount := Some(0)))
    ensures Engagement(t.(retweetCount := Some(retweets + 1))) == Engagement(t.(retweetCount := Some(retweets))) + 2
    ensures Engagement(t.(likeCount := Some(likes + 1))) == Engagement(t.(likeCount := Some(likes))) + 1
    ensures Engagement(t.(replyCount := Some(replies + 1))) == Engagement(t.(replyCount := Some(replies))) + 1
  {
  }

  /** `tweets_by_id[id]`: the dict is built in batch order, so a later tweet with the same id
      replaces an earlier one. */
  function ById(batch: seq<RawTweet>, id: string): (r: Option<RawTweet>)
    ensures r.Some? <==> exists i :: 0 <= i < |batch| && batch[i].id == id
    ensures r.Some? ==> r.value.id == id && r.value in batch
  {
    if batch == [] then None
    else if batch[|batch| - 1].id == id then Some(batch[|batch| - 1])
    else
      var r := ById(batch[..|batch| - 1], id);
      assert forall i :: 0 <= i < |batch| - 1 ==> batch[..|batch| - 1][i] == batch[i];
      r
  }

  /** When ids repeat, the lookup finds the last tweet with that id, as the dict does. */
  lemma {:induction false} ByIdLastWins(batch: seq<RawTweet>, id: string)
    ensures ById(batch, id).Some? ==>
      exists i :: 0 <= i < |batch| && batch[i] == ById(batch, id).value
                  && forall k :: i < k < |batch| ==> batch[k].id != id
  {
    if batch != [] && batch[|batch| - 1].id != id {
      var front := batch[..|batch| - 1];
      ByIdLastWins(front, id);
      if ById(front, id).Some? {
        var i :| 0 <= i < |front| && front[i] == ById(front, id).value
                 && forall k :: i < k < |front| ==> front[k].id != id;
        assert batch[i] == front[i];
        forall k | i < k < |batch| ensures batch[k].id != id {
          if k < |front| {
            assert batch[k] == front[k];
          }
        }
      }
    }
  }

  /** With unique ids in the batch, the lookup finds each tweet by its own id. */
  lemma ByIdUnique(batch: seq<RawTweet>, i: nat)
    requires i < |batch|
    requires forall j, k :: 0 <= j < k < |batch| ==> batch[j].id != batch[k].id
    ensures ById(batch, batch[i].id) == Some(batch[i])
  {
  }

  /** The first id of a group that is not in the batch: the lookup that raises KeyError. */
  function MissingId(batch: seq<RawTweet>, g: seq<string>): (r: Option<string>)
    ensures r.None? <==> forall i :: 0 <= i < |g| ==> ById(batch, g[i]).Some?
    ensures r.Some? ==> r.value in g && ById(batch, r.value).None?
  {
    if g == [] then None
    else if ById(batch, g[0]).None? then Some(g[0])
    else
      var r := MissingId(batch, g[1..]);
      assert forall i :: 1 <= i < |g| ==> g[1..][i - 1] == g[i];
      r
  }

  /** Python's `max`: the position of the first element of greatest value (a later element
      replaces the current best only when it is strictly greater). */
  function BestIndex(xs: seq<int>): (k: nat)
    requires |xs| > 0
    ensures k < |xs|
    ensures forall i :: 0 <= i < |xs| ==> xs[i] <= xs[k]
    ensures forall i :: 0 <= i < k ==> xs[i] < xs[k]
  {
    if |xs| == 1 then 0
    else
      var k := BestIndex(xs[..|xs| - 1]);
      assert forall i :: 0 <= i < |xs| - 1 ==> xs[..|xs| - 1][i] == xs[i];
      if xs[|xs| - 1] > xs[k] then |xs| - 1 else k
  }

  /** The engagement of the tweet a lookup finds (only asked for ids in the batch). */
  function EngagementOf(batch: seq<RawTweet>, id: string): int {
    match ById(batch, id)
    case Some(t) => Engagement(t)
    case None => 0
  }

  /** The engagement of each member of a group whose ids are all in the batch. */
  function GroupEngagements(batch: seq<RawTweet>, g: seq<string>): (r: seq<int>)
    requires MissingId(batch, g).None?
    ensures |r| == |g|
    ensures forall i :: 0 <= i < |g| ==> r[i] == Engagement(ById(batch, g[i]).value)
  {
    seq(|g|, i requires 0 <= i < |g| => EngagementOf(batch, g[i]))
  }

  /** `best_tweet_in_group['id']` */
  function BestId(batch: seq<RawTweet>, g: seq<string>): (b: string)
    requires |g| > 0 && MissingId(batch, g).None?
    ensures b in g
  {
    g[BestIndex(GroupEngagements(batch, g))]
  }

  /** The kept member has the greatest engagement in its group and every member before it has
      strictly less. */
  lemma BestIdIsFirstMaximum(batch: seq<RawTweet>, g: seq<string>)
    requires |g| > 0 && MissingId(batch, g).None?
    ensures exists k :: (
      && 0 <= k < |g| && g[k] == BestId(batch, g)
      && (forall i :: 0 <= i < |g| ==> Engagement(ById(batch, g[i]).value) <= Engagement(ById(batch, g[k]).value))
      && (forall i :: 0 <= i < k ==> Engagement(ById(batch, g[i]).value) < Engagement(ById(batch, g[k]).value)))
  {
    var xs := GroupEngagements(batch, g);
    var k := BestIndex(xs);
    var best := Engagement(ById(batch, g[k]).value);
    assert xs[k] == best;
    forall i | 0 <= i < |g| ensures Engagement(ById(batch, g[i]).value) <= best {
      assert xs[i] <= xs[k];
    }
    forall i | 0 <= i < k ensures Engagement(ById(batch, g[i]).value) < best {
      assert xs[i] < xs[k];
    }
    assert g[k] == BestId(batch, g);
  }

  /** What one group adds to the discard set: every member but the kept one. */
  function GroupDiscards(batch: seq<RawTweet>, g: seq<string>): (d: set<string>)
    requires |g| > 0 && MissingId(batch, g).None?
    ensures BestId(batch, g) !in d
    ensures forall x :: x in g && x != BestId(batch, g) ==> x in d
    ensures forall x :: x in d ==> x in g
  {
    set x | x in g && x != BestId(batch, g)
  }

  datatype DiscardOutcome = Found(discards: set<string>) | Missing(id: string)

  /** The discard set after the first `n` groups; groups of fewer than two ids are skipped. */
  function Discards(batch: seq<RawTweet>, gs: seq<seq<string>>, n: nat): DiscardOutcome
    requires n <= |gs|
  {
    if n == 0 then Found({})
    else
      match Discards(batch, gs, n - 1)
      case Missing(id) => Missing(id)
      case Found(d) =>
        var g := gs[n - 1];
        if |g| < 2 then Found(d)
        else
          match MissingId(batch, g)
          case Some(id) => Missing(id)
          case None => Found(d + GroupDiscards(batch, g))
  }

  lemma {:induction false} MissingSticks(batch: seq<RawTweet>, gs: seq<seq<string>>, k: nat, n: nat)
    requires k <= n <= |gs| && Discards(batch, gs, k).Missing?
    ensures Discards(batch, gs, n) == Discards(batch, gs, k)
    decreases n - k
  {
    if k < n {
      MissingSticks(batch, gs, k + 1, n);
    }
  }

  /** One more group of two or more whose ids are all in the batch adds its discards. */
  lemma DiscardsStep(batch: seq<RawTweet>, gs: seq<seq<string>>, n: nat, d: set<string>)
    requires 0 < n <= |gs| && Discards(batch, gs, n - 1) == Found(d)
    requires |gs[n - 1]| >= 2 && MissingId(batch, gs[n - 1]).None?
    ensures Discards(batch, gs, n) == Found(d + GroupDiscards(batch, gs[n - 1]))
  {
  }

  /** The lookup fails exactly when some group of two or more names an id outside the batch. */
  lemma {:induction false} DiscardsMissing(batch: seq<RawTweet>, gs: seq<seq<string>>, n: nat)
    requires n <= |gs|
    ensures Discards(batch, gs, n).Missing? <==>
      exists j :: 0 <= j < n && |gs[j]| >= 2 && MissingId(batch, gs[j]).Some?
  {
    if n > 0 {
      DiscardsMissing(batch, gs, n - 1);
    }
  }

  /** `id` is a member of group `j` (of two or more ids, all in the batch) other than the
      one that group keeps. */
  predicate LosesIn(batch: seq<RawTweet>, gs: seq<seq<string>>, j: int, id: string) {
    && 0 <= j < |gs| && |gs[j]| >= 2 && MissingId(batch, gs[j]).None?
    && id in gs[j] && id != BestId(batch, gs[j])
  }

  /** Only ids that some group of two or more names without keeping them are discarded. */
  lemma {:induction false} DiscardsNamed(batch: seq<RawTweet>, gs: seq<seq<string>>, n: nat, x: string)
    requires n <= |gs| && Discards(batch, gs, n).Found? && x in Discards(batch, gs, n).discards
    ensures exists j :: j < n && LosesIn(batch, gs, j, x)
  {
    var prev := Discards(batch, gs, n - 1);
    assert prev.Found?;
    if x in prev.discards {
      DiscardsNamed(batch, gs, n - 1, x);
    } else {
      assert LosesIn(batch, gs, n - 1, x);
    }
  }

  /** A successful run looked up every group of two or more and discarded all its members
      but the kept one. */
  lemma {:induction false} DiscardsCover(batch: seq<RawTweet>, gs: seq<seq<string>>, n: nat, j: nat)
    requires j < n <= |gs| && Discards(batch, gs, n).Found? && |gs[j]| >= 2
    ensures MissingId(batch, gs[j]).None? && GroupDiscards(batch, gs[j]) <= Discards(batch, gs, n).discards
  {
    var prev := Discards(batch, gs, n - 1);
    assert prev.Found?;
    if j < n - 1 {
      DiscardsCover(batch, gs, n - 1, j);
    }
  }

  /** The discard set is exactly the ids that some group of two or more names without
      keeping them: every valid group's non-keepers, and nothing else. */
  lemma DiscardsFacts(batch: seq<RawTweet>, gs: seq<seq<string>>, n: nat)
    requires n <= |gs| && Discards(batch, gs, n).Found?
    ensures forall x :: x in Discards(batch, gs, n).discards <==> exists j :: j < n && LosesIn(batch, gs, j, x)
    ensures forall j :: 0 <= j < n && |gs[j]| >= 2 ==>
      MissingId(batch, gs[j]).None? && GroupDiscards(batch, gs[j]) <= Discards(batch, gs, n).discards
  {
    forall x | x in Discards(batch, gs, n).discards
      ensures exists j :: j < n && LosesIn(batch, gs, j, x)
    {
      DiscardsNamed(batch, gs, n, x);
    }
    forall j | 0 <= j < n && |gs[j]| >= 2
      ensures MissingId(batch, gs[j]).None? && GroupDiscards(batch, gs[j]) <= Discards(batch, gs, n).discards
    {
      DiscardsCover(batch, gs, n, j);
    }
  }

  /** The language model's answer. */
  datatype Report = Raised | NullResponse | Groups(groups: seq<seq<string>>)

  /** The result of deduplicate_raw_tweets: the filtered batch, or the KeyError it raises. */
  datatype DedupResult = Deduped(tweets: seq<RawTweet>) | KeyError(id: string)

  /** The final comprehension: the batch without the discarded ids, in batch order. */
  function Survivors(batch: seq<RawTweet>, d: set<string>): (r: seq<RawTweet>)
    ensures |r| <= |batch|
    ensures forall t :: t in r <==> t in batch && t.id !in d
  {
    if batch == [] then []
    else (if batch[0].id !in d then [batch[0]] else []) + Survivors(batch[1..], d)
  }

  lemma {:induction false} SurvivorsAppend(a: seq<RawTweet>, t: RawTweet, d: set<string>)
    ensures Survivors(a + [t], d) == Survivors(a, d) + (if t.id !in d then [t] else [])
  {
    if a == [] {
      assert [t][1..] == [];
    } else {
      assert (a + [t])[1..] == a[1..] + [t];
      SurvivorsAppend(a[1..], t, d);
    }
  }

  /** How many tweets of the batch carry a discarded id. */
  function DiscardedCount(batch: seq<RawTweet>, d: set<string>): nat {
    if batch == [] then 0
    else (if batch[0].id in d then 1 else 0) + DiscardedCount(batch[1..], d)
  }

  /** The whole step as a value. */
  function DedupSpec(batch: seq<RawTweet>, report: Report): DedupResult {
    if |batch| < 2 then Deduped(batch)
    else
      match report
      case Raised => Deduped(batch)
      case NullResponse => Deduped(batch)
      case Groups(gs) =>
        if gs == [] then Deduped(batch)
        else
          match Discards(batch, gs, |gs|)
          case Missing(id) => KeyError(id)
          case Found(d) => Deduped(Survivors(batch, d))
  }

  /** The group loop: look every id up, find the best member, discard the others. */
  method FindDiscards(batch: seq<RawTweet>, gs: seq<seq<string>>) returns (r: DiscardOutcome)
    ensures r == Discards(batch, gs, |gs|)
  {
    var d: set<string> := {};
    var i := 0;
    while i < |gs|
      invariant 0 <= i <= |gs|
      invariant Discards(batch, gs, i) == Found(d)
    {
      var g := gs[i];
      if |g| >= 2 {
        var missing := MissingId(batch, g);
        if missing.Some? {
          MissingSticks(batch, gs, i + 1, |gs|);
          return Missing(missing.value);
        }
        var best := BestId(batch, g);
        d := DiscardOthers(g, best, d);
      }
      i := i + 1;
    }
    return Found(d);
  }

  /** The inner loop: add every member of `g` other than `best` to the discard set. */
  method DiscardOthers(g: seq<string>, best: string, d0: set<string>) returns (d: set<string>)
    ensures d == d0 + set x | x in g && x != best
  {
    d := d0;
    var j := 0;
    while j < |g|
      invariant 0 <= j <= |g|
      invariant d == d0 + set x | x in g[..j] && x != best
    {
      assert g[..j + 1] == g[..j] + [g[j]];
      if g[j] != best {
        d := d + {g[j]};
      }
      j := j + 1;
    }
    assert g[..|g|] == g;
  }

  /** The final comprehension as a loop over the batch. */
  lemma SurvivorsStep(batch: seq<RawTweet>, k: nat, d: set<string>)
    requires k < |batch|
    ensures Survivors(batch[..k + 1], d) == Survivors(batch[..k], d) + (if batch[k].id !in d then [batch[k]] else [])
  {
    SurvivorsAppend(batch[..k], batch[k], d);
    assert batch[..k + 1] == batch[..k] + [batch[k]];
  }

  method KeepSurvivors(batch: seq<RawTweet>, d: set<string>) returns (kept: seq<RawTweet>)
    ensures kept == Survivors(batch, d)
  {
    kept := [];
    var k := 0;
    while k < |batch|
      invariant 0 <= k <= |batch|
      invariant kept == Survivors(batch[..k], d)
    {
      SurvivorsStep(batch, k, d);
      if batch[k].id !in d {
        kept := kept + [batch[k]];
      }
      k := k + 1;
    }
    assert batch[..|batch|] == batch;
  }

  /** deduplicate_raw_tweets. */
  method DeduplicateRawTweets(batch: seq<RawTweet>, report: Report) returns (r: DedupResult)
    ensures r == DedupSpec(batch, report)
  {
    if |batch| < 2 {
      return Deduped(batch);
    }
    if report.Raised? || report.NullResponse? {
      return Deduped(batch);
    }
    var gs := report.groups;
    if gs == [] {
      return Deduped(batch);
    }
    var outcome := FindDiscards(batch, gs);
    match outcome {
      case Missing(id) => r := KeyError(id);
      case Found(d) =>
        var kept := KeepSurvivors(batch, d);
        r := Deduped(kept);
    }
  }

  /** The pass-through paths: fewer than two tweets, a failed or empty answer, or no groups. */
  lemma PassThrough(batch: seq<RawTweet>, report: Report)
    requires |batch| < 2 || report.Raised? || report.NullResponse? || report == Groups([])
    ensures DedupSpec(batch, report) == Deduped(batch)
  {
  }

  /** An id missing from the batch in a group of two or more raises, wherever the group is. */
  lemma UnknownIdRaises(batch: seq<RawTweet>, gs: seq<seq<string>>)
    requires |batch| >= 2 && gs != []
    ensures DedupSpec(batch, Groups(gs)).KeyError? <==>
      exists j :: 0 <= j < |gs| && |gs[j]| >= 2 && MissingId(batch, gs[j]).Some?
  {
    DiscardsMissing(batch, gs, |gs|);
  }

  /** The survivors come from the batch, and a batch tweet survives exactly when no group of
      two or more names it without keeping it. So a tweet named in no such group survives,
      and so does a group's keeper unless another group discards it. */
  lemma SurvivorsFacts(batch: seq<RawTweet>, gs: seq<seq<string>>)
    requires |batch| >= 2 && DedupSpec(batch, Groups(gs)).Deduped?
    ensures var out := DedupSpec(batch, Groups(gs)).tweets;
      && multiset(out) <= multiset(batch)
      && (forall t :: t in out <==> t in batch && !exists j :: LosesIn(batch, gs, j, t.id))
      && (forall t :: t in batch && (forall j :: 0 <= j < |gs| && |gs[j]| >= 2 ==> t.id !in gs[j]) ==> t in out)
  {
    var out := DedupSpec(batch, Groups(gs)).tweets;
    if gs == [] {
      assert out == batch;
    } else {
      DiscardsFacts(batch, gs, |gs|);
      var d := Discards(batch, gs, |gs|).discards;
      assert out == Survivors(batch, d);
      SurvivorsMultiset(batch, d);
      forall t ensures t in out <==> t in batch && t.id !in d {
        if t in out {
          var i :| 0 <= i < |out| && out[i] == t;
        }
        if t in batch && t.id !in d {
          var i :| 0 <= i < |batch| && batch[i] == t;
        }
      }
    }
  }

  lemma {:induction false} SurvivorsMultiset(batch: seq<RawTweet>, d: set<string>)
    ensures multiset(Survivors(batch, d)) <= multiset(batch)
  {
    if batch != [] {
      SurvivorsMultiset(batch[1..], d);
      assert batch == [batch[0]] + batch[1..];
    }
  }

  /** The output length is the batch length less the number of batch tweets whose id was
      discarded. */
  lemma {:induction false} SurvivorCount(batch: seq<RawTweet>, d: set<string>)
    ensures |Survivors(batch, d)| + DiscardedCount(batch, d) == |batch|
  {
    if batch != [] {
      SurvivorCount(batch[1..], d);
    }
  }

  /** In every group of two or more, the kept member is the first one of greatest engagement
      and all the others are gone from the output. */
  lemma GroupLosersDropped(batch: seq<RawTweet>, gs: seq<seq<string>>, j: nat, t: RawTweet)
    requires |batch| >= 2 && DedupSpec(batch, Groups(gs)).Deduped?
    requires j < |gs| && |gs[j]| >= 2
    requires t in batch && t.id in gs[j]
    ensures MissingId(batch, gs[j]).None?
    ensures t.id != BestId(batch, gs[j]) ==> t !in DedupSpec(batch, Groups(gs)).tweets
  {
    DiscardsFacts(batch, gs, |gs|);
  }

  const TweetA := RawTweet("A", "same news", Some(10), None, None)
  const TweetB := RawTweet("B", "same news", Some(20), None, None)
  const TweetC := RawTweet("C", "other news", None, None, None)
  const TweetD := RawTweet("D", "same news", Some(30), None, None)

  lemma PairMissing(batch: seq<RawTweet>, g: seq<string>)
    requires |g| == 2 && ById(batch, g[0]).Some? && ById(batch, g[1]).Some?
    ensures MissingId(batch, g) == None
  {
    assert g[1..][1..] == [];
  }

  lemma PairBest(xs: seq<int>)
    requires |xs| == 2 && xs[0] < xs[1]
    ensures BestIndex(xs) == 1
  {
    assert xs[..1] == [xs[0]];
  }

  /** In a batch with unique ids where `x` has less engagement than `y`, the group [x, y]
      keeps `y` and discards `x`. */
  lemma PairGroup(batch: seq<RawTweet>, i: nat, j: nat)
    requires i < |batch| && j < |batch|
    requires forall a, b :: 0 <= a < b < |batch| ==> batch[a].id != batch[b].id
    requires Engagement(batch[i]) < Engagement(batch[j])
    ensures MissingId(batch, [batch[i].id, batch[j].id]) == None
    ensures GroupDiscards(batch, [batch[i].id, batch[j].id]) == {batch[i].id}
  {
    var g := [batch[i].id, batch[j].id];
    ByIdUnique(batch, i);
    ByIdUnique(batch, j);
    PairMissing(batch, g);
    var es := GroupEngagements(batch, g);
    PairBest(es);
    assert BestId(batch, g) == batch[j].id;
  }

  lemma KeepsBestSurvivors()
    ensures Survivors([TweetA, TweetB, TweetC], {"A"}) == [TweetB, TweetC]
  {
    var d := {"A"};
    assert Survivors([TweetC], d) == [TweetC] by {
      assert [TweetC][1..] == [];
    }
    assert Survivors([TweetB, TweetC], d) == [TweetB, TweetC] by {
      assert [TweetB, TweetC][1..] == [TweetC];
    }
    assert [TweetA, TweetB, TweetC][1..] == [TweetB, TweetC];
  }

  /** A and B report the same event, B has more engagement: the output is [B, C]. */
  lemma ExampleKeepsBest()
    ensures DedupSpec([TweetA, TweetB, TweetC], Groups([["A", "B"]])) == Deduped([TweetB, TweetC])
  {
    var batch := [TweetA, TweetB, TweetC];
    var gs := [["A", "B"]];
    PairGroup(batch, 0, 1);
    DiscardsStep(batch, gs, 1, {});
    assert {} + {"A"} == {"A"};
    assert Discards(batch, gs, |gs|) == Found({"A"});
    KeepsBestSurvivors();
  }

  lemma OverlappingDiscards()
    ensures Discards([TweetA, TweetB, TweetD], [["A", "B"], ["B", "D"]], 2) == Found({"A", "B"})
  {
    var batch := [TweetA, TweetB, TweetD];
    var gs := [["A", "B"], ["B", "D"]];
    PairGroup(batch, 0, 1);
    DiscardsStep(batch, gs, 1, {});
    PairGroup(batch, 1, 2);
    DiscardsStep(batch, gs, 2, {"A"});
    assert {"A"} + {"B"} == {"A", "B"};
  }

  lemma OverlappingSurvivors()
    ensures Survivors([TweetA, TweetB, TweetD], {"A", "B"}) == [TweetD]
  {
    var d := {"A", "B"};
    assert Survivors([TweetD], d) == [TweetD] by {
      assert [TweetD][1..] == [];
    }
    assert Survivors([TweetB, TweetD], d) == [TweetD] by {
      assert [TweetB, TweetD][1..] == [TweetD];
    }
    assert [TweetA, TweetB, TweetD][1..] == [TweetB, TweetD];
  }

  /** Overlapping groups: B wins the first group but loses the second to D, so B is
      discarded even though one group kept it. */
  lemma ExampleOverlappingGroups()
    ensures DedupSpec([TweetA, TweetB, TweetD], Groups([["A", "B"], ["B", "D"]])) == Deduped([TweetD])
  {
    OverlappingDiscards();
    OverlappingSurvivors();
  }

  /** A group naming a tweet outside the batch raises instead of passing the batch through. */
  lemma ExampleUnknownId()
    ensures DedupSpec([TweetA, TweetB], Groups([["A", "Z"]])) == KeyError("Z")
  {
    var batch := [TweetA, TweetB];
    var g := ["A", "Z"];
    assert MissingId(batch, g) == Some("Z") by {
      ByIdUnique(batch, 0);
      assert ById(batch, "Z") == None;
      assert g[1..] == ["Z"];
    }
    assert Discards(batch, [g], 1) == Missing("Z");
  }
}
