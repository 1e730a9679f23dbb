/** The market_store table and its order by (updated_at, id). */
module Markets {
  import opened Wrappers
  import opened Query

  type MarketId = nat

  datatype Market = Market(name: string, enabled: bool, deletedAt: Option<int>, updatedAt: int)

  /** A position of the poller; the zero position is below every market. */
  datatype Key = Key(at: int, id: MarketId)

  const ZERO_KEY := Key(0, 0)

  predicate KeyLess(a: Key, b: Key) {
    a.at < b.at || (a.at == b.at && a.id < b.id)
  }

  predicate KeyLeq(a: Key, b: Key) {
    a == b || KeyLess(a, b)
  }

  function KeyOf(id: MarketId, market: Market): Key {
    Key(market.updatedAt, id)
  }

  /** WHERE (updated_at, id) > since. */
  function Above(markets: map<MarketId, Market>, since: Key): set<MarketId> {
    set id | id in markets && KeyLess(since, KeyOf(id, markets[id]))
  }

  /** ORDER BY updated_at, id. */
  function ByKey(markets: map<MarketId, Market>): (MarketId, MarketId) -> bool {
    (x, y) => x in markets && y in markets && KeyLess(KeyOf(x, markets[x]), KeyOf(y, markets[y]))
  }

  lemma ByKeyTotal(markets: map<MarketId, Market>, since: Key)
    ensures StrictTotal(ByKey(markets), Above(markets, since))
  {
  }

  /** A result of ListUpdatedSince: the first rows above since, at most limit of them. */
  predicate IsPage(markets: map<MarketId, Market>, since: Key, limit: nat, ids: seq<MarketId>) {
    && |ids| <= limit
    && (forall id | id in ids :: id in markets && KeyLess(since, KeyOf(id, markets[id])))
    && (forall i, j | 0 <= i < j < |ids| :: KeyLess(KeyOf(ids[i], markets[ids[i]]), KeyOf(ids[j], markets[ids[j]])))
    && (forall id | id in markets && KeyLess(since, KeyOf(id, markets[id])) && id !in ids ::
          && |ids| == limit
          && (ids != [] ==> KeyLess(KeyOf(ids[|ids| - 1], markets[ids[|ids| - 1]]), KeyOf(id, markets[id]))))
  }

  /** All rows above since, in order. */
  ghost function Rest(markets: map<MarketId, Market>, since: Key): seq<MarketId> {
    ByKeyTotal(markets, since);
    Listing(Above(markets, since), ByKey(markets))
  }

  lemma RestLists(markets: map<MarketId, Market>, since: Key)
    ensures Lists(Above(markets, since), ByKey(markets), Rest(markets, since))
  {
    ByKeyTotal(markets, since);
    ListingLists(Above(markets, since), ByKey(markets));
  }

  lemma SliceIsPage(markets: map<MarketId, Market>, since: Key, limit: nat, ids: seq<MarketId>)
    requires ids == Slice(Rest(markets, since), 0, limit)
    ensures IsPage(markets, since, limit, ids)
  {
    var l := Rest(markets, since);
    RestLists(markets, since);
    assert ids == l[..|ids|];
    forall id | id in ids ensures id in Above(markets, since) {
      assert id in l;
    }
    forall i, j | 0 <= i < j < |ids|
      ensures KeyLess(KeyOf(ids[i], markets[ids[i]]), KeyOf(ids[j], markets[ids[j]]))
    {
      assert ByKey(markets)(l[i], l[j]);
    }
    forall id | id in Above(markets, since) && id !in ids
      ensures |ids| == limit
      ensures ids != [] ==> KeyLess(KeyOf(ids[|ids| - 1], markets[ids[|ids| - 1]]), KeyOf(id, markets[id]))
    {
      assert id in l;
      var k :| 0 <= k < |l| && l[k] == id;
      assert forall m | 0 <= m < |ids| :: ids[m] in ids;
      if ids != [] {
        assert ByKey(markets)(l[|ids| - 1], l[k]);
      }
    }
  }

  /** A row behind the cursor makes the next page non-empty. */
  lemma NextPage(batchSize: nat, markets: map<MarketId, Market>, since: Key, id: MarketId) returns (ids: seq<MarketId>)
    requires batchSize > 0 && id in markets && KeyLess(since, KeyOf(id, markets[id]))
    ensures ids != [] && IsPage(markets, since, batchSize, ids)
  {
    ids := Slice(Rest(markets, since), 0, batchSize);
    SliceIsPage(markets, since, batchSize, ids);
  }

  /** Behind the n-th row of the rest lies the rest without its first n rows. */
  lemma RestAfter(markets: map<MarketId, Market>, since: Key, n: nat)
    requires 0 < n <= |Rest(markets, since)|
    ensures
      var l := Rest(markets, since);
      && l[n - 1] in markets
      && Rest(markets, KeyOf(l[n - 1], markets[l[n - 1]])) == l[n..]
  {
    var l := Rest(markets, since);
    RestLists(markets, since);
    assert l[n - 1] in l && l[n - 1] in Above(markets, since);
    var next := KeyOf(l[n - 1], markets[l[n - 1]]);
    assert forall m | 0 <= m < n - 1 :: ByKey(markets)(l[m], l[n - 1]);
    forall x | x in l[n..] ensures x in Above(markets, next) {
      var k :| 0 <= k < |l[n..]| && l[n..][k] == x;
      assert l[n + k] == x && l[n + k] in l && ByKey(markets)(l[n - 1], l[n + k]);
    }
    forall x | x in Above(markets, next) ensures x in l[n..] {
      assert x in Above(markets, since) && x in l;
      var k :| 0 <= k < |l| && l[k] == x;
      assert k >= n && l[n..][k - n] == x;
    }
    ByKeyTotal(markets, next);
    RestLists(markets, next);
    ListsUnique(Above(markets, next), ByKey(markets), Rest(markets, next), l[n..]);
  }
}
