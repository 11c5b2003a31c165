/** The SQLite store of helpers/database.py as an in-memory table model.

    Three tables: `markets` (primary key `id`), `tweets` (primary key `id`) and
    `sent_correlations` (AUTOINCREMENT `id`, UNIQUE(tweet_id, market_id)). Each table is a
    sequence of rows in rowid order, which is the order an unordered SELECT returns them in.
    Every write is an INSERT OR IGNORE or an UPDATE; the pure functions below say what each
    statement does to a table and the class `Database` applies them in place. */
module Store {
  import opened Common
  import opened Sorting

  // ------------------------------------------------------------------ rows

  datatype Market = Market(
    id: string,
    parentEventId: Option<string>,
    question: string,
    slug: string,
    marketUrl: string,
    imageUrl: Option<string>,
    yesPrice: real,
    noPrice: real,
    endDate: int,
    embeddingText: string,
    embedding: Option<seq<real>>,
    isActive: bool)

  datatype Tweet = Tweet(
    id: string,
    text: string,
    tweetUrl: string,
    authorName: Option<string>,
    createdAt: int,
    embedding: Option<seq<real>>,
    isProcessed: bool)

  datatype Correlation = Correlation(
    id: nat,
    tweetId: string,
    marketId: string,
    relevance: real,
    relevanceReason: string,
    urgency: real,
    urgencyReason: string,
    sent: bool,
    sentAt: Option<int>)

  /** One row of the join returned by `get_unsent_correlations`. `tweetCreatedAt` is the
      tweet's `created_at_utc`, which the query orders by. */
  datatype UnsentRow = UnsentRow(
    correlationId: nat,
    relevance: real,
    relevanceReason: string,
    urgency: real,
    urgencyReason: string,
    tweetId: string,
    tweetText: string,
    tweetUrl: string,
    tweetEmbedding: Option<seq<real>>,
    authorName: Option<string>,
    tweetCreatedAt: int,
    marketQuestion: string,
    marketId: string,
    marketSlug: string,
    marketUrl: string,
    parentEventId: Option<string>,
    yesPrice: real,
    noPrice: real,
    marketImage: Option<string>)

  // ------------------------------------------------------------------ table invariants

  ghost predicate MarketIdsUnique(ms: seq<Market>) {
    forall i, j :: 0 <= i < j < |ms| ==> ms[i].id != ms[j].id
  }

  ghost predicate TweetIdsUnique(ts: seq<Tweet>) {
    forall i, j :: 0 <= i < j < |ts| ==> ts[i].id != ts[j].id
  }

  /** AUTOINCREMENT ids rise in rowid order and stay below the next id to hand out;
      UNIQUE(tweet_id, market_id) holds. */
  ghost predicate CorrelationsWellFormed(rows: seq<Correlation>, nextId: nat) {
    && (forall i :: 0 <= i < |rows| ==> rows[i].id < nextId)
    && (forall i, j :: 0 <= i < j < |rows| ==> rows[i].id < rows[j].id)
    && (forall i, j :: 0 <= i < j < |rows| ==>
          rows[i].tweetId != rows[j].tweetId || rows[i].marketId != rows[j].marketId)
  }

  // ------------------------------------------------------------------ markets: insert_markets

  datatype RawEvent = RawEvent(ticker: Option<string>, id: Option<string>)

  /** `json.loads(market.get('outcomePrices', '[]'))`: a missing field reads as the empty list. */
  datatype OutcomePrices = PriceList(values: seq<real>) | Undecodable

  /** A market as fetched from the catalogue API. `events` is None when the field is absent
      or is not a list. */
  datatype RawMarket = RawMarket(
    id: string,
    question: Option<string>,
    description: Option<string>,
    slug: Option<string>,
    image: Option<string>,
    outcomePrices: OutcomePrices,
    endDate: Option<int>,
    events: Option<seq<RawEvent>>)

  /** One tuple of `records_to_insert`; the NOT NULL columns may still be missing here. */
  datatype MarketRecord = MarketRecord(
    id: string,
    parentEventId: Option<string>,
    question: Option<string>,
    slug: Option<string>,
    marketUrl: string,
    image: Option<string>,
    yesPrice: real,
    noPrice: real,
    endDate: Option<int>,
    embeddingText: string,
    embedding: seq<real>)

  const EventUrlPrefix: string := "https://polymarket.com/event/"

  /** `market.get(key, '')` */
  function OrEmpty(s: Option<string>): string {
    if s.Some? then s.value else ""
  }

  /** How an f-string renders a value that may be None. */
  function Rendered(s: Option<string>): string {
    if s.Some? then s.value else "None"
  }

  /** The loop variables `parent_slug` and `parent_event_id` of insert_markets, which are
      only assigned when a market has a non-empty `events` list and otherwise keep the
      value of an earlier iteration (or are unbound). */
  datatype Carry = Unbound | Bound(parentSlug: Option<string>, parentEventId: Option<string>)

  function CarryAfter(m: RawMarket, c: Carry): Carry {
    if m.events.Some? && |m.events.value| > 0 then
      var e := m.events.value[0];
      Bound(if Truthy(e.ticker) then e.ticker else m.slug, e.id)
    else c
  }

  datatype StepResult = Skipped | Emitted(record: MarketRecord, carry: Carry) | NameError

  /** One iteration of the insert_markets loop. Undecodable prices are caught and the market
      skipped; reading an unbound `parent_slug` raises NameError, which is not caught. */
  function RecordStep(m: RawMarket, embedding: seq<real>, c: Carry): StepResult {
    match m.outcomePrices
    case Undecodable => Skipped
    case PriceList(p) =>
      var c' := CarryAfter(m, c);
      if c'.Unbound? then NameError
      else
        Emitted(MarketRecord(
            m.id, c'.parentEventId, m.question, m.slug,
            EventUrlPrefix + Rendered(c'.parentSlug), m.image,
            if |p| > 0 then p[0] else 0.0,
            if |p| > 1 then p[1] else 0.0,
            m.endDate,
            "Question: " + OrEmpty(m.question) + "\nDescription: " + OrEmpty(m.description),
            embedding),
          c')
  }

  datatype RecordPlan = Planned(records: seq<MarketRecord>, carry: Carry) | Raised

  /** The records built by the first `n` iterations over `zip(markets_data, embeddings)`. */
  function PlanRecords(data: seq<RawMarket>, embeddings: seq<seq<real>>, n: nat): RecordPlan
    requires n <= |data| && n <= |embeddings|
  {
    if n == 0 then Planned([], Unbound)
    else
      match PlanRecords(data, embeddings, n - 1)
      case Raised => Raised
      case Planned(rs, c) =>
        match RecordStep(data[n - 1], embeddings[n - 1], c)
        case Skipped => Planned(rs, c)
        case NameError => Raised
        case Emitted(r, c') => Planned(rs + [r], c')
  }

  lemma {:induction false} RaisedSticks(data: seq<RawMarket>, embeddings: seq<seq<real>>, k: nat, n: nat)
    requires k <= n <= |data| && n <= |embeddings|
    requires PlanRecords(data, embeddings, k).Raised?
    ensures PlanRecords(data, embeddings, n).Raised?
    decreases n - k
  {
    if k < n {
      RaisedSticks(data, embeddings, k + 1, n);
    }
  }

  /** The prices and the link of a market that has a non-empty `events` list: yes/no are the
      first two outcome prices (0.0 when absent), the link names the first event's ticker
      when it is truthy and the market's slug otherwise, and the parent is the event's id. */
  lemma RecordOfMarketWithEvents(m: RawMarket, embedding: seq<real>, c: Carry)
    requires m.outcomePrices.PriceList? && m.events.Some? && |m.events.value| > 0
    ensures RecordStep(m, embedding, c).Emitted?
    ensures var r := RecordStep(m, embedding, c).record;
      var p := m.outcomePrices.values;
      var e := m.events.value[0];
      && r.id == m.id
      && r.yesPrice == (if |p| > 0 then p[0] else 0.0)
      && r.noPrice == (if |p| > 1 then p[1] else 0.0)
      && r.marketUrl == EventUrlPrefix + (if Truthy(e.ticker) then e.ticker.value else Rendered(m.slug))
      && r.parentEventId == e.id
  {
  }

  /** A market without events inherits the link and parent of the last earlier market
      that had events; as the very first market reached, it raises NameError. */
  lemma RecordOfMarketWithoutEvents(m: RawMarket, embedding: seq<real>, c: Carry)
    requires m.outcomePrices.PriceList? && (m.events.None? || m.events.value == [])
    ensures c.Unbound? <==> RecordStep(m, embedding, c).NameError?
    ensures c.Bound? ==>
      (&& RecordStep(m, embedding, c).Emitted?
       && RecordStep(m, embedding, c).record.marketUrl == EventUrlPrefix + Rendered(c.parentSlug)
       && RecordStep(m, embedding, c).record.parentEventId == c.parentEventId)
  {
  }

  /** The NOT NULL columns question, slug and end_date_utc: a row missing one is ignored. */
  predicate Insertable(r: MarketRecord) {
    r.question.Some? && r.slug.Some? && r.endDate.Some?
  }

  function MarketIds(ms: seq<Market>): (ids: seq<string>)
    ensures |ids| == |ms| && forall i :: 0 <= i < |ms| ==> ids[i] == ms[i].id
  {
    seq(|ms|, i requires 0 <= i < |ms| => ms[i].id)
  }

  function NewMarket(r: MarketRecord): Market
    requires Insertable(r)
  {
    Market(r.id, r.parentEventId, r.question.value, r.slug.value, r.marketUrl, r.image,
           r.yesPrice, r.noPrice, r.endDate.value, r.embeddingText, Some(r.embedding), true)
  }

  /** `executemany("INSERT OR IGNORE INTO markets ...", records)` */
  function InsertMarketRows(ms: seq<Market>, records: seq<MarketRecord>): seq<Market>
    decreases |records|
  {
    if records == [] then ms
    else
      var r := records[0];
      var ms' := if Insertable(r) && r.id !in MarketIds(ms) then ms + [NewMarket(r)] else ms;
      InsertMarketRows(ms', records[1..])
  }

  /** INSERT OR IGNORE never overwrites: the old rows are a prefix of the new table, the
      primary key stays unique, and every insertable record's id is present afterwards. */
  lemma {:induction false} InsertMarketRowsKeeps(ms: seq<Market>, records: seq<MarketRecord>)
    requires MarketIdsUnique(ms)
    ensures var ms' := InsertMarketRows(ms, records);
      && |ms| <= |ms'| && ms'[..|ms|] == ms
      && MarketIdsUnique(ms')
      && (forall r :: r in records && Insertable(r) ==> r.id in MarketIds(ms'))
    decreases |records|
  {
    if records != [] {
      var r := records[0];
      var next := if Insertable(r) && r.id !in MarketIds(ms) then ms + [NewMarket(r)] else ms;
      assert MarketIdsUnique(next) by {
        if next != ms {
          forall i | 0 <= i < |ms| ensures ms[i].id != r.id {
            assert MarketIds(ms)[i] == ms[i].id;
          }
        }
      }
      InsertMarketRowsKeeps(next, records[1..]);
      var ms' := InsertMarketRows(next, records[1..]);
      assert ms'[..|next|] == next;
      assert ms'[..|ms|] == next[..|ms|];
      if Insertable(r) {
        if r.id in MarketIds(ms) {
          assert next == ms;
        } else {
          assert MarketIds(next)[|ms|] == r.id;
        }
        var i :| 0 <= i < |next| && MarketIds(next)[i] == r.id;
        assert ms'[i] == next[i];
        assert MarketIds(ms')[i] == r.id;
      }
      forall r' | r' in records && Insertable(r') ensures r'.id in MarketIds(ms') {
        if r' != r {
          assert r' in records[1..];
        }
      }
    }
  }

  // ------------------------------------------------------------------ markets: updates

  /** `UPDATE markets SET is_active = 0 WHERE end_date_utc < now AND is_active = 1` */
  function Prune(ms: seq<Market>, now: int): (r: seq<Market>)
  {
    seq(|ms|, i requires 0 <= i < |ms| =>
      if ms[i].isActive && ms[i].endDate < now then ms[i].(isActive := false) else ms[i])
  }

  /** The rows the prune statement matches; `cursor.rowcount` is how many there are. */
  function Expiring(ms: seq<Market>, now: int): (r: seq<Market>)
  {
    Select(ms, (m: Market) => m.isActive && m.endDate < now)
  }

  /** Pruning only clears `is_active` on expired rows: it deletes nothing, reactivates
      nothing and touches no other column; the rows it flips are exactly the matched ones,
      and a second prune with the same clock flips nothing. */
  lemma PruneOnlyDeactivates(ms: seq<Market>, now: int)
    ensures var r := Prune(ms, now);
      && |r| == |ms|
      && (forall i :: 0 <= i < |ms| ==> r[i] == ms[i].(isActive := r[i].isActive))
      && (forall i :: 0 <= i < |ms| ==> (r[i].isActive <==> ms[i].isActive && ms[i].endDate >= now))
      && Expiring(r, now) == []
  {
    var r := Prune(ms, now);
    SelectNone(r, (m: Market) => m.isActive && m.endDate < now);
  }

  /** How many rows went from active to inactive between two versions of the table. */
  function FlippedCount(before: seq<Market>, after: seq<Market>): nat
    requires |before| == |after|
  {
    if before == [] then 0
    else (if before[0].isActive && !after[0].isActive then 1 else 0) + FlippedCount(before[1..], after[1..])
  }

  /** The count returned by prune_expired_markets is the number of rows it flipped. */
  lemma {:induction false} PruneCount(ms: seq<Market>, now: int)
    ensures |Expiring(ms, now)| == FlippedCount(ms, Prune(ms, now))
  {
    if ms != [] {
      PruneCount(ms[1..], now);
      assert Prune(ms, now)[1..] == Prune(ms[1..], now);
    }
  }

  /** `UPDATE markets SET yes_price = ?, no_price = ? WHERE id = ?` */
  function SetPrices(ms: seq<Market>, id: string, yes: real, no: real): (r: seq<Market>)
    ensures |r| == |ms|
    ensures forall i :: 0 <= i < |ms| ==> r[i].(yesPrice := ms[i].yesPrice, noPrice := ms[i].noPrice) == ms[i]
    ensures forall i :: 0 <= i < |ms| && ms[i].id == id ==> r[i].yesPrice == yes && r[i].noPrice == no
    ensures forall i :: 0 <= i < |ms| && ms[i].id != id ==> r[i] == ms[i]
  {
    seq(|ms|, i requires 0 <= i < |ms| =>
      if ms[i].id == id then ms[i].(yesPrice := yes, noPrice := no) else ms[i])
  }

  /** The rows get_active_market_data returns: active with an embedding, in rowid order. */
  function ActiveMarkets(ms: seq<Market>): (r: seq<Market>)
    ensures forall m :: m in r <==> m in ms && m.isActive && m.embedding.Some?
  {
    Select(ms, (m: Market) => m.isActive && m.embedding.Some?)
  }

  // ------------------------------------------------------------------ tweets

  /** A de-duplicated tweet as insert_tweets receives it, its timestamp already parsed. */
  datatype NewTweet = NewTweet(id: string, text: string, url: string, authorName: Option<string>, createdAt: int)

  function TweetIds(ts: seq<Tweet>): (ids: seq<string>)
    ensures |ids| == |ts| && forall i :: 0 <= i < |ts| ==> ids[i] == ts[i].id
  {
    seq(|ts|, i requires 0 <= i < |ts| => ts[i].id)
  }

  /** `executemany("INSERT OR IGNORE INTO tweets ...")`: new rows start unprocessed and
      without an embedding. */
  function InsertTweetRows(ts: seq<Tweet>, news: seq<NewTweet>): seq<Tweet>
    decreases |news|
  {
    if news == [] then ts
    else
      var n := news[0];
      var ts' := if n.id !in TweetIds(ts)
        then ts + [Tweet(n.id, n.text, n.url, n.authorName, n.createdAt, None, false)]
        else ts;
      InsertTweetRows(ts', news[1..])
  }

  lemma {:induction false} InsertTweetRowsKeeps(ts: seq<Tweet>, news: seq<NewTweet>)
    requires TweetIdsUnique(ts)
    ensures var ts' := InsertTweetRows(ts, news);
      && |ts| <= |ts'| && ts'[..|ts|] == ts
      && TweetIdsUnique(ts')
      && (forall n :: n in news ==> n.id in TweetIds(ts'))
      && (forall i :: |ts| <= i < |ts'| ==>
            exists n :: n in news && ts'[i] == Tweet(n.id, n.text, n.url, n.authorName, n.createdAt, None, false))
    decreases |news|
  {
    if news != [] {
      var n := news[0];
      var next := if n.id !in TweetIds(ts)
        then ts + [Tweet(n.id, n.text, n.url, n.authorName, n.createdAt, None, false)]
        else ts;
      assert TweetIdsUnique(next) by {
        if next != ts {
          forall i | 0 <= i < |ts| ensures ts[i].id != n.id {
            assert TweetIds(ts)[i] == ts[i].id;
          }
        }
      }
      InsertTweetRowsKeeps(next, news[1..]);
      var ts' := InsertTweetRows(next, news[1..]);
      assert ts'[..|next|] == next;
      assert ts'[..|ts|] == next[..|ts|];
      assert n.id in TweetIds(ts') by {
        var i :| 0 <= i < |next| && TweetIds(next)[i] == n.id;
        assert ts'[i] == next[i];
        assert TweetIds(ts')[i] == n.id;
      }
      forall n' | n' in news ensures n'.id in TweetIds(ts') {
        if n' != n {
          assert n' in news[1..];
        }
      }
      forall i | |ts| <= i < |ts'|
        ensures exists n' :: n' in news && ts'[i] == Tweet(n'.id, n'.text, n'.url, n'.authorName, n'.createdAt, None, false)
      {
        if i >= |next| {
          var n' :| n' in news[1..] && ts'[i] == Tweet(n'.id, n'.text, n'.url, n'.authorName, n'.createdAt, None, false);
          assert n' in news;
        } else {
          assert ts'[i] == next[i];
        }
      }
    }
  }

  /** The rows of `SELECT * FROM tweets WHERE is_processed = 0`, in rowid order. */
  function Unprocessed(ts: seq<Tweet>): (r: seq<Tweet>)
    ensures forall t :: t in r <==> t in ts && !t.isProcessed
  {
    Select(ts, (t: Tweet) => !t.isProcessed)
  }

  /** `UPDATE tweets SET is_processed = 1 WHERE id = ?` */
  function MarkProcessed(ts: seq<Tweet>, id: string): (r: seq<Tweet>)
  {
    seq(|ts|, i requires 0 <= i < |ts| => if ts[i].id == id then ts[i].(isProcessed := true) else ts[i])
  }

  /** Marking processed touches only the flag of the row with that id, sets it, never clears
      a flag, and doing it again changes nothing. */
  lemma MarkProcessedFacts(ts: seq<Tweet>, id: string)
    ensures var r := MarkProcessed(ts, id);
      && |r| == |ts|
      && (forall i :: 0 <= i < |ts| ==> r[i] == ts[i].(isProcessed := r[i].isProcessed))
      && (forall i :: 0 <= i < |ts| ==> (r[i].isProcessed <==> ts[i].isProcessed || ts[i].id == id))
      && MarkProcessed(r, id) == r
  {
  }

  /** Marking several tweets processed in turn. */
  function MarkProcessedAll(ts: seq<Tweet>, ids: seq<string>): seq<Tweet>
    decreases |ids|
  {
    if ids == [] then ts else MarkProcessedAll(MarkProcessed(ts, ids[0]), ids[1..])
  }

  /** After marking a list of ids, a row is processed exactly when it was before or its id
      is listed; no other column changes. */
  lemma {:induction false} MarkProcessedAllFacts(ts: seq<Tweet>, ids: seq<string>)
    ensures var r := MarkProcessedAll(ts, ids);
      && |r| == |ts|
      && (forall i :: 0 <= i < |ts| ==> r[i] == ts[i].(isProcessed := ts[i].isProcessed || ts[i].id in ids))
    decreases |ids|
  {
    if ids != [] {
      var m := MarkProcessed(ts, ids[0]);
      MarkProcessedAllFacts(m, ids[1..]);
      var r := MarkProcessedAll(ts, ids);
      forall i | 0 <= i < |ts|
        ensures r[i] == ts[i].(isProcessed := ts[i].isProcessed || ts[i].id in ids)
      {
        assert ts[i].id in ids <==> ts[i].id == ids[0] || ts[i].id in ids[1..];
      }
    }
  }

  lemma {:induction false} MarkProcessedAllAppend(ts: seq<Tweet>, a: seq<string>, b: seq<string>)
    ensures MarkProcessedAll(ts, a + b) == MarkProcessedAll(MarkProcessedAll(ts, a), b)
    decreases |a|
  {
    if a != [] {
      assert (a + b)[1..] == a[1..] + b;
      MarkProcessedAllAppend(MarkProcessed(ts, a[0]), a[1..], b);
    } else {
      assert a + b == b;
    }
  }

  lemma MarkProcessedAllSnoc(ts: seq<Tweet>, ids: seq<string>, id: string)
    ensures MarkProcessedAll(ts, ids + [id]) == MarkProcessed(MarkProcessedAll(ts, ids), id)
  {
    MarkProcessedAllAppend(ts, ids, [id]);
  }

  /** The unprocessed rows of a table with unique ids have unique ids. */
  lemma {:induction false} UnprocessedIdsUnique(ts: seq<Tweet>)
    requires TweetIdsUnique(ts)
    ensures TweetIdsUnique(Unprocessed(ts))
  {
    if ts != [] {
      UnprocessedIdsUnique(ts[1..]);
      var rest := Unprocessed(ts[1..]);
      assert Unprocessed(ts) == (if !ts[0].isProcessed then [ts[0]] else []) + rest;
      forall j | 0 <= j < |rest| ensures rest[j].id != ts[0].id {
        var k :| 0 <= k < |ts[1..]| && ts[1..][k] == rest[j];
        assert ts[k + 1] == rest[j];
      }
    }
  }

  // ------------------------------------------------------------------ correlations

  /** The arguments of one store_correlation call. */
  datatype StoreRequest = StoreRequest(
    tweetId: string, marketId: string,
    relevance: real, relevanceReason: string,
    urgency: real, urgencyReason: string)

  predicate HasPair(rows: seq<Correlation>, tweetId: string, marketId: string) {
    exists i :: 0 <= i < |rows| && rows[i].tweetId == tweetId && rows[i].marketId == marketId
  }

  /** The correlation table: its rows and the next AUTOINCREMENT id. */
  datatype CorrelationTable = CorrelationTable(rows: seq<Correlation>, nextId: nat)

  /** `INSERT OR IGNORE INTO sent_correlations ...`: a row for an existing
      (tweet_id, market_id) pair is ignored and consumes no id. */
  function Upsert(t: CorrelationTable, q: StoreRequest): CorrelationTable {
    if HasPair(t.rows, q.tweetId, q.marketId) then t
    else CorrelationTable(
      t.rows + [Correlation(t.nextId, q.tweetId, q.marketId, q.relevance, q.relevanceReason,
                            q.urgency, q.urgencyReason, false, None)],
      t.nextId + 1)
  }

  /** Several store_correlation calls in order. */
  function UpsertAll(t: CorrelationTable, qs: seq<StoreRequest>): CorrelationTable
    decreases |qs|
  {
    if qs == [] then t else UpsertAll(Upsert(t, qs[0]), qs[1..])
  }

  lemma UpsertOne(t: CorrelationTable, q: StoreRequest)
    ensures UpsertAll(t, [q]) == Upsert(t, q)
  {
    assert [q][1..] == [];
  }

  lemma {:induction false} UpsertAllAppend(t: CorrelationTable, a: seq<StoreRequest>, b: seq<StoreRequest>)
    ensures UpsertAll(t, a + b) == UpsertAll(UpsertAll(t, a), b)
    decreases |a|
  {
    if a != [] {
      assert (a + b)[1..] == a[1..] + b;
      UpsertAllAppend(Upsert(t, a[0]), a[1..], b);
    } else {
      assert a + b == b;
    }
  }

  /** A second store for a pair already in the table changes nothing: the first row's
      scores and reasons win. */
  lemma UpsertFirstWins(t: CorrelationTable, q: StoreRequest, q2: StoreRequest)
    requires q2.tweetId == q.tweetId && q2.marketId == q.marketId
    ensures Upsert(Upsert(t, q), q2) == Upsert(t, q)
  {
    var t1 := Upsert(t, q);
    if !HasPair(t.rows, q.tweetId, q.marketId) {
      assert t1.rows[|t.rows|].tweetId == q.tweetId && t1.rows[|t.rows|].marketId == q.marketId;
    }
  }

  /** One store: the table stays well formed, the old rows stay, and the pair is present. */
  lemma UpsertKeeps(t: CorrelationTable, q: StoreRequest)
    requires CorrelationsWellFormed(t.rows, t.nextId)
    ensures var t1 := Upsert(t, q);
      && CorrelationsWellFormed(t1.rows, t1.nextId)
      && HasPair(t1.rows, q.tweetId, q.marketId)
      && |t.rows| <= |t1.rows| <= |t.rows| + 1 && t1.rows[..|t.rows|] == t.rows
      && t.nextId <= t1.nextId
      && (|t1.rows| > |t.rows| ==>
            (t1.rows[|t.rows|] == Correlation(t.nextId, q.tweetId, q.marketId, q.relevance,
                                              q.relevanceReason, q.urgency, q.urgencyReason, false, None)))
  {
    var t1 := Upsert(t, q);
    if !HasPair(t.rows, q.tweetId, q.marketId) {
      forall i | 0 <= i < |t.rows|
        ensures t.rows[i].tweetId != q.tweetId || t.rows[i].marketId != q.marketId
      {
      }
      assert t1.rows[|t.rows|].tweetId == q.tweetId && t1.rows[|t.rows|].marketId == q.marketId;
    }
  }

  /** Storing keeps the table well formed, keeps every old row as it was, and afterwards
      every requested pair is present. */
  lemma {:induction false} UpsertAllKeeps(t: CorrelationTable, qs: seq<StoreRequest>)
    requires CorrelationsWellFormed(t.rows, t.nextId)
    ensures var t' := UpsertAll(t, qs);
      && CorrelationsWellFormed(t'.rows, t'.nextId)
      && |t.rows| <= |t'.rows| && t'.rows[..|t.rows|] == t.rows
      && t.nextId <= t'.nextId
      && (forall q :: q in qs ==> HasPair(t'.rows, q.tweetId, q.marketId))
    decreases |qs|
  {
    if qs != [] {
      var q := qs[0];
      var t1 := Upsert(t, q);
      UpsertKeeps(t, q);
      UpsertAllKeeps(t1, qs[1..]);
      var t' := UpsertAll(t1, qs[1..]);
      assert t'.rows[..|t1.rows|] == t1.rows;
      assert t'.rows[..|t.rows|] == t1.rows[..|t.rows|];
      assert HasPair(t'.rows, q.tweetId, q.marketId) by {
        var i :| 0 <= i < |t1.rows| && t1.rows[i].tweetId == q.tweetId && t1.rows[i].marketId == q.marketId;
        assert t'.rows[i] == t1.rows[i];
      }
    }
  }

  /** The rows storing adds are unsent, take fresh ids, and each carries the pair, scores
      and reasons of one of the requests. */
  lemma {:induction false} UpsertAllNewRows(t: CorrelationTable, qs: seq<StoreRequest>)
    requires CorrelationsWellFormed(t.rows, t.nextId)
    ensures var t' := UpsertAll(t, qs);
      forall i :: |t.rows| <= i < |t'.rows| ==>
        && !t'.rows[i].sent && t'.rows[i].sentAt.None? && t'.rows[i].id >= t.nextId
        && exists q :: q in qs && q.tweetId == t'.rows[i].tweetId && q.marketId == t'.rows[i].marketId
                     && q.relevance == t'.rows[i].relevance && q.urgency == t'.rows[i].urgency
    decreases |qs|
  {
    if qs != [] {
      var q := qs[0];
      var t1 := Upsert(t, q);
      UpsertKeeps(t, q);
      UpsertAllKeeps(t1, qs[1..]);
      UpsertAllNewRows(t1, qs[1..]);
      var t' := UpsertAll(t1, qs[1..]);
      assert t'.rows[..|t1.rows|] == t1.rows;
      forall i | |t.rows| <= i < |t'.rows|
        ensures !t'.rows[i].sent && t'.rows[i].sentAt.None? && t'.rows[i].id >= t.nextId
        ensures exists q' :: q' in qs && q'.tweetId == t'.rows[i].tweetId && q'.marketId == t'.rows[i].marketId
                          && q'.relevance == t'.rows[i].relevance && q'.urgency == t'.rows[i].urgency
      {
        if i < |t1.rows| {
          assert t'.rows[i] == t1.rows[i];
          assert q in qs;
        } else {
          var q' :| q' in qs[1..] && q'.tweetId == t'.rows[i].tweetId && q'.marketId == t'.rows[i].marketId
                   && q'.relevance == t'.rows[i].relevance && q'.urgency == t'.rows[i].urgency;
          assert q' in qs;
        }
      }
    }
  }

  /** `UPDATE sent_correlations SET sent_to_discord = 1, sent_at_utc = now WHERE id = ?` */
  function MarkSent(rows: seq<Correlation>, id: nat, now: int): (r: seq<Correlation>)
  {
    seq(|rows|, i requires 0 <= i < |rows| =>
      if rows[i].id == id then rows[i].(sent := true, sentAt := Some(now)) else rows[i])
  }

  /** Marking sent touches only the row with that id: its flag becomes 1 and its timestamp
      is overwritten, even when it was already sent; no flag is ever cleared. */
  lemma MarkSentFacts(rows: seq<Correlation>, id: nat, now: int)
    ensures var r := MarkSent(rows, id, now);
      && |r| == |rows|
      && (forall i :: 0 <= i < |rows| && rows[i].id != id ==> r[i] == rows[i])
      && (forall i :: 0 <= i < |rows| && rows[i].id == id ==>
            r[i] == rows[i].(sent := true, sentAt := Some(now)))
      && (forall i :: 0 <= i < |rows| ==> rows[i].sent ==> r[i].sent)
  {
  }

  /** Marking several ids in turn. */
  function MarkSentAll(rows: seq<Correlation>, ids: seq<nat>, now: int): seq<Correlation>
    decreases |ids|
  {
    if ids == [] then rows else MarkSentAll(MarkSent(rows, ids[0], now), ids[1..], now)
  }

  /** After marking a list of ids, exactly the rows whose id is listed have changed, each to
      sent with the timestamp; nothing else moves. */
  lemma {:induction false} MarkSentAllFacts(rows: seq<Correlation>, ids: seq<nat>, now: int)
    ensures var r := MarkSentAll(rows, ids, now);
      && |r| == |rows|
      && (forall i :: 0 <= i < |rows| && rows[i].id !in ids ==> r[i] == rows[i])
      && (forall i :: 0 <= i < |rows| && rows[i].id in ids ==>
            r[i] == rows[i].(sent := true, sentAt := Some(now)))
    decreases |ids|
  {
    if ids != [] {
      var m := MarkSent(rows, ids[0], now);
      MarkSentAllFacts(m, ids[1..], now);
      var r := MarkSentAll(rows, ids, now);
      forall i | 0 <= i < |rows| && rows[i].id in ids
        ensures r[i] == rows[i].(sent := true, sentAt := Some(now))
      {
        if rows[i].id != ids[0] {
          assert rows[i].id in ids[1..];
        }
      }
    }
  }

  lemma {:induction false} MarkSentAllAppend(rows: seq<Correlation>, a: seq<nat>, b: seq<nat>, now: int)
    ensures MarkSentAll(rows, a + b, now) == MarkSentAll(MarkSentAll(rows, a, now), b, now)
    decreases |a|
  {
    if a != [] {
      assert (a + b)[1..] == a[1..] + b;
      MarkSentAllAppend(MarkSent(rows, a[0], now), a[1..], b, now);
    } else {
      assert a + b == b;
    }
  }

  lemma MarkSentAllPreserves(rows: seq<Correlation>, ids: seq<nat>, now: int, nextId: nat)
    requires CorrelationsWellFormed(rows, nextId)
    ensures CorrelationsWellFormed(MarkSentAll(rows, ids, now), nextId)
  {
    MarkSentAllFacts(rows, ids, now);
  }

  // ------------------------------------------------------------------ get_unsent_correlations

  function FindTweet(ts: seq<Tweet>, id: string): (r: Option<Tweet>)
    ensures r.Some? ==> r.value in ts && r.value.id == id
    ensures r.None? ==> id !in TweetIds(ts)
  {
    if ts == [] then None
    else if ts[0].id == id then Some(ts[0])
    else
      var r := FindTweet(ts[1..], id);
      assert TweetIds(ts) == [ts[0].id] + TweetIds(ts[1..]);
      r
  }

  function FindMarket(ms: seq<Market>, id: string): (r: Option<Market>)
    ensures r.Some? ==> r.value in ms && r.value.id == id
    ensures r.None? ==> id !in MarketIds(ms)
  {
    if ms == [] then None
    else if ms[0].id == id then Some(ms[0])
    else
      var r := FindMarket(ms[1..], id);
      assert MarketIds(ms) == [ms[0].id] + MarketIds(ms[1..]);
      r
  }

  function JoinRow(c: Correlation, t: Tweet, m: Market): UnsentRow {
    UnsentRow(c.id, c.relevance, c.relevanceReason, c.urgency, c.urgencyReason,
              t.id, t.text, t.tweetUrl, t.embedding, t.authorName, t.createdAt,
              m.question, m.id, m.slug, m.marketUrl, m.parentEventId, m.yesPrice, m.noPrice, m.imageUrl)
  }

  /** The inner join `sent_correlations JOIN tweets JOIN markets WHERE sent_to_discord = 0`,
      in rowid order of the correlation table. */
  function JoinUnsent(rows: seq<Correlation>, ts: seq<Tweet>, ms: seq<Market>): seq<UnsentRow>
  {
    if rows == [] then []
    else
      var c := rows[0];
      var t := FindTweet(ts, c.tweetId);
      var m := FindMarket(ms, c.marketId);
      (if !c.sent && t.Some? && m.Some? then [JoinRow(c, t.value, m.value)] else [])
        + JoinUnsent(rows[1..], ts, ms)
  }

  /** Every joined row is an unsent correlation's columns with those of its tweet and market. */
  lemma {:induction false} JoinUnsentOnly(rows: seq<Correlation>, ts: seq<Tweet>, ms: seq<Market>)
    ensures forall x :: x in JoinUnsent(rows, ts, ms) ==>
      exists c, t, m :: c in rows && !c.sent && t in ts && m in ms && t.id == c.tweetId
                     && m.id == c.marketId && x == JoinRow(c, t, m)
  {
    if rows != [] {
      JoinUnsentOnly(rows[1..], ts, ms);
      var c0 := rows[0];
      var t := FindTweet(ts, c0.tweetId);
      var m := FindMarket(ms, c0.marketId);
      var head := if !c0.sent && t.Some? && m.Some? then [JoinRow(c0, t.value, m.value)] else [];
      var rest := JoinUnsent(rows[1..], ts, ms);
      assert JoinUnsent(rows, ts, ms) == head + rest;
      forall x | x in head + rest
        ensures exists c, t, m :: c in rows && !c.sent && t in ts && m in ms && t.id == c.tweetId
                               && m.id == c.marketId && x == JoinRow(c, t, m)
      {
        if x in head {
          assert c0 in rows && x == JoinRow(c0, t.value, m.value);
        } else {
          var c, t', m' :| c in rows[1..] && !c.sent && t' in ts && m' in ms && t'.id == c.tweetId
                         && m'.id == c.marketId && x == JoinRow(c, t', m');
          assert c in rows;
        }
      }
    }
  }

  /** Every unsent correlation whose tweet and market exist is joined with them. */
  lemma {:induction false} JoinUnsentCovers(rows: seq<Correlation>, ts: seq<Tweet>, ms: seq<Market>)
    ensures forall c :: c in rows && !c.sent && c.tweetId in TweetIds(ts) && c.marketId in MarketIds(ms) ==>
      exists t, m :: t in ts && m in ms && t.id == c.tweetId && m.id == c.marketId
                  && JoinRow(c, t, m) in JoinUnsent(rows, ts, ms)
  {
    if rows != [] {
      JoinUnsentCovers(rows[1..], ts, ms);
      var c0 := rows[0];
      var t := FindTweet(ts, c0.tweetId);
      var m := FindMarket(ms, c0.marketId);
      var head := if !c0.sent && t.Some? && m.Some? then [JoinRow(c0, t.value, m.value)] else [];
      var rest := JoinUnsent(rows[1..], ts, ms);
      assert JoinUnsent(rows, ts, ms) == head + rest;
      forall c | c in rows && !c.sent && c.tweetId in TweetIds(ts) && c.marketId in MarketIds(ms)
        ensures exists t, m :: t in ts && m in ms && t.id == c.tweetId && m.id == c.marketId
                            && JoinRow(c, t, m) in head + rest
      {
        if c == c0 {
          assert JoinRow(c0, t.value, m.value) in head;
        } else {
          assert c in rows[1..];
          var t', m' :| t' in ts && m' in ms && t'.id == c.tweetId && m'.id == c.marketId
                       && JoinRow(c, t', m') in rest;
          assert JoinRow(c, t', m') in head + rest;
        }
      }
    }
  }

  /** The join returns a row for exactly the unsent correlations whose tweet and market exist,
      each row made of the correlation's columns and those of its tweet and market. */
  lemma JoinUnsentExactly(rows: seq<Correlation>, ts: seq<Tweet>, ms: seq<Market>)
    ensures forall x :: x in JoinUnsent(rows, ts, ms) ==>
      exists c, t, m :: c in rows && !c.sent && t in ts && m in ms && t.id == c.tweetId
                     && m.id == c.marketId && x == JoinRow(c, t, m)
    ensures forall c :: c in rows && !c.sent && c.tweetId in TweetIds(ts) && c.marketId in MarketIds(ms) ==>
      exists t, m :: t in ts && m in ms && t.id == c.tweetId && m.id == c.marketId
                  && JoinRow(c, t, m) in JoinUnsent(rows, ts, ms)
  {
    JoinUnsentOnly(rows, ts, ms);
    JoinUnsentCovers(rows, ts, ms);
  }

  /** ORDER BY sc.relevance_score DESC, t.created_at_utc DESC */
  predicate UnsentOrder(a: UnsentRow, b: UnsentRow) {
    a.relevance > b.relevance || (a.relevance == b.relevance && a.tweetCreatedAt >= b.tweetCreatedAt)
  }

  lemma UnsentOrderTotal()
    ensures TotalPreorder(UnsentOrder)
  {
  }

  // ------------------------------------------------------------------ the store

  class Database {
    var markets: seq<Market>
    var tweets: seq<Tweet>
    var correlations: seq<Correlation>
    var nextCorrelationId: nat

    ghost predicate Valid()
      reads this
    {
      && MarketIdsUnique(markets)
      && TweetIdsUnique(tweets)
      && CorrelationsWellFormed(correlations, nextCorrelationId)
    }

    /** setup_database on a fresh file: three empty tables. */
    constructor ()
      ensures Valid()
      ensures markets == [] && tweets == [] && correlations == [] && nextCorrelationId == 1
    {
      markets, tweets, correlations, nextCorrelationId := [], [], [], 1;
    }

    /** insert_markets: build the records in one pass over `zip(markets_data, embeddings)`,
        then INSERT OR IGNORE them. A NameError in the loop leaves the table as it was. */
    method InsertMarkets(data: seq<RawMarket>, embeddings: seq<seq<real>>) returns (raised: bool)
      requires Valid()
      modifies this
      ensures Valid()
      ensures tweets == old(tweets) && correlations == old(correlations)
      ensures nextCorrelationId == old(nextCorrelationId)
      ensures var n := if |data| < |embeddings| then |data| else |embeddings|;
        match PlanRecords(data, embeddings, n)
        case Raised => raised && markets == old(markets)
        case Planned(rs, _) => !raised && markets == InsertMarketRows(old(markets), rs)
    {
      if |data| == 0 {
        return false;
      }
      var n := if |data| < |embeddings| then |data| else |embeddings|;
      var records: seq<MarketRecord> := [];
      var carry := Unbound;
      var i := 0;
      while i < n
        invariant 0 <= i <= n
        invariant PlanRecords(data, embeddings, i) == Planned(records, carry)
      {
        match RecordStep(data[i], embeddings[i], carry) {
          case Skipped =>
          case NameError =>
            RaisedSticks(data, embeddings, i + 1, n);
            return true;
          case Emitted(r, c) =>
            records := records + [r];
            carry := c;
        }
        i := i + 1;
      }
      InsertMarketRowsKeeps(markets, records);
      markets := InsertMarketRows(markets, records);
      raised := false;
    }

    /** prune_expired_markets, with `now` standing for CURRENT_TIMESTAMP. */
    method PruneExpiredMarkets(now: int) returns (updatedCount: nat)
      requires Valid()
      modifies this
      ensures Valid()
      ensures markets == Prune(old(markets), now)
      ensures updatedCount == |Expiring(old(markets), now)|
      ensures tweets == old(tweets) && correlations == old(correlations)
      ensures nextCorrelationId == old(nextCorrelationId)
    {
      updatedCount := |Expiring(markets, now)|;
      markets := Prune(markets, now);
    }

    method InsertTweets(news: seq<NewTweet>)
      requires Valid()
      modifies this
      ensures Valid()
      ensures tweets == InsertTweetRows(old(tweets), news)
      ensures markets == old(markets) && correlations == old(correlations)
      ensures nextCorrelationId == old(nextCorrelationId)
    {
      InsertTweetRowsKeeps(tweets, news);
      tweets := InsertTweetRows(tweets, news);
    }

    function GetUnprocessedTweets(): (r: seq<Tweet>)
      reads this
      ensures forall t :: t in r <==> t in tweets && !t.isProcessed
    {
      Unprocessed(tweets)
    }

    function GetActiveMarketData(): (r: seq<Market>)
      reads this
      ensures forall m :: m in r <==> m in markets && m.isActive && m.embedding.Some?
    {
      ActiveMarkets(markets)
    }

    method MarkTweetAsProcessed(id: string)
      requires Valid()
      modifies this
      ensures Valid()
      ensures tweets == MarkProcessed(old(tweets), id)
      ensures markets == old(markets) && correlations == old(correlations)
      ensures nextCorrelationId == old(nextCorrelationId)
    {
      tweets := MarkProcessed(tweets, id);
    }

    method StoreCorrelation(q: StoreRequest)
      requires Valid()
      modifies this
      ensures Valid()
      ensures CorrelationTable(correlations, nextCorrelationId)
           == Upsert(CorrelationTable(old(correlations), old(nextCorrelationId)), q)
      ensures markets == old(markets) && tweets == old(tweets)
    {
      UpsertAllKeeps(CorrelationTable(correlations, nextCorrelationId), [q]);
      var t := Upsert(CorrelationTable(correlations, nextCorrelationId), q);
      correlations, nextCorrelationId := t.rows, t.nextId;
    }

    /** get_unsent_correlations: the join, ordered by relevance then tweet recency, both
        descending; rows equal on both keys keep rowid order. */
    function GetUnsentCorrelations(): (r: seq<UnsentRow>)
      reads this
      ensures multiset(r) == multiset(JoinUnsent(correlations, tweets, markets))
      ensures forall i, j :: 0 <= i < j < |r| ==> UnsentOrder(r[i], r[j])
    {
      UnsentOrderTotal();
      SortSorted(JoinUnsent(correlations, tweets, markets), UnsentOrder);
      Sort(JoinUnsent(correlations, tweets, markets), UnsentOrder)
    }

    method UpdateMarketPrices(id: string, yes: real, no: real)
      requires Valid()
      modifies this
      ensures Valid()
      ensures markets == SetPrices(old(markets), id, yes, no)
      ensures tweets == old(tweets) && correlations == old(correlations)
      ensures nextCorrelationId == old(nextCorrelationId)
    {
      markets := SetPrices(markets, id, yes, no);
    }

    method MarkCorrelationAsSent(id: nat, now: int)
      requires Valid()
      modifies this
      ensures Valid()
      ensures correlations == MarkSent(old(correlations), id, now)
      ensures markets == old(markets) && tweets == old(tweets)
      ensures nextCorrelationId == old(nextCorrelationId)
    {
      MarkSentAllPreserves(correlations, [id], now, nextCorrelationId);
      correlations := MarkSent(correlations, id, now);
    }
  }
}
