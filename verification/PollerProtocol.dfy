/**
 The market poller: any number of poller instances over one market table, one durable cursor
 and one outbox. A page of events and the cursor are committed together. An event that is not
 possible in a state leaves it unchanged, so a run is any sequence of events.
 */
module PollerProtocol {
  import opened Wrappers
  import opened Markets

  type PollerId = nat

  /** A market as it was read. */
  datatype Snapshot = Snapshot(id: MarketId, market: Market)

  datatype MarketStateChanged = MarketStateChanged(id: MarketId, enabled: bool, deletedAt: Option<int>, updatedAt: int)

  datatype Pc = Idle | Publishing(page: seq<Snapshot>)

  /** lastSeen is the cursor in memory. */
  datatype Poller = Poller(lastSeen: Key, pc: Pc)

  datatype State = State(
    markets: map<MarketId, Market>,
    cursor: Option<Key>,
    outbox: seq<MarketStateChanged>,
    pollers: map<PollerId, Poller>)

  datatype Event =
    | Update(id: MarketId, market: Market)
    | Delete(id: MarketId)
    | LoadCursor(p: PollerId)
    | ReadPage(p: PollerId, ids: seq<MarketId>)
    | Publish(p: PollerId, outcome: Outcome)
    | Crash(p: PollerId)

  const Init := State(map[], None, [], map[])

  function Durable(s: State): Key {
    if s.cursor.Some? then s.cursor.value else ZERO_KEY
  }

  /** buildMarketStateChangedEvents, for one market. */
  function EventOf(snapshot: Snapshot): MarketStateChanged {
    MarketStateChanged(snapshot.id, snapshot.market.enabled, snapshot.market.deletedAt, snapshot.market.updatedAt)
  }

  function EventsOf(page: seq<Snapshot>): (events: seq<MarketStateChanged>)
    ensures |events| == |page|
    ensures forall i | 0 <= i < |page| :: events[i] == EventOf(page[i])
  {
    seq(|page|, i requires 0 <= i < |page| => EventOf(page[i]))
  }

  function SnapshotsOf(markets: map<MarketId, Market>, ids: seq<MarketId>): (page: seq<Snapshot>)
    requires forall id | id in ids :: id in markets
    ensures |page| == |ids|
    ensures forall i | 0 <= i < |ids| :: page[i] == Snapshot(ids[i], markets[ids[i]])
  {
    seq(|ids|, i requires 0 <= i < |ids| => Snapshot(ids[i], markets[ids[i]]))
  }

  /** buildNextPollerCursor. */
  function NextCursor(page: seq<Snapshot>): Key
    requires page != []
  {
    KeyOf(page[|page| - 1].id, page[|page| - 1].market)
  }

  function Move(s: State, p: PollerId, poller: Poller): State {
    s.(pollers := s.pollers[p := poller])
  }

  /** PublishMarketStateChanged: one event per market and the cursor, in one transaction. */
  function PublishStep(s: State, p: PollerId, o: Outcome): State
    requires p in s.pollers && s.pollers[p].pc.Publishing? && s.pollers[p].pc.page != []
  {
    var page, poller := s.pollers[p].pc.page, s.pollers[p];
    var next := NextCursor(page);
    var s' := if o.NotRan? then s
              else s.(outbox := s.outbox + EventsOf(page), cursor := Some(next));
    Move(s', p, Poller(if o.Ran? then next else poller.lastSeen, Idle))
  }

  /** batchSize is the LIMIT of a page. */
  function Apply(batchSize: nat, s: State, e: Event): State {
    match e
    case Update(id, market) => s.(markets := s.markets[id := market])
    case Delete(id) => s.(markets := s.markets - {id})
    case LoadCursor(p) => Move(s, p, Poller(Durable(s), Idle))
    case ReadPage(p, ids) =>
      if p in s.pollers && s.pollers[p].pc.Idle? && ids != []
         && IsPage(s.markets, s.pollers[p].lastSeen, batchSize, ids)
      then Move(s, p, s.pollers[p].(pc := Publishing(SnapshotsOf(s.markets, ids)))) else s
    case Publish(p, o) =>
      if p in s.pollers && s.pollers[p].pc.Publishing? && s.pollers[p].pc.page != [] then PublishStep(s, p, o) else s
    case Crash(p) => s.(pollers := s.pollers - {p})
  }

  function Run(batchSize: nat, es: seq<Event>): State {
    if es == [] then Init else Apply(batchSize, Run(batchSize, es[..|es| - 1]), es[|es| - 1])
  }

  // ----- Updates that come in time -----

  /** The key lies behind all that poller p has read or is publishing. */
  predicate Unread(poller: Poller, k: Key) {
    && KeyLess(poller.lastSeen, k)
    && (poller.pc.Publishing? && poller.pc.page != [] ==> KeyLess(NextCursor(poller.pc.page), k))
  }

  /** The key lies behind the durable cursor and behind all that any poller has read or is publishing. */
  predicate InTime(s: State, k: Key) {
    KeyLess(Durable(s), k) && forall p | p in s.pollers :: Unread(s.pollers[p], k)
  }

  /** Every update commits in time; in what order keys are committed otherwise does not matter. */
  predicate TimelyRun(batchSize: nat, es: seq<Event>) {
    es == [] ||
    var before := es[..|es| - 1];
    && TimelyRun(batchSize, before)
    && Timely(Run(batchSize, before), es[|es| - 1])
  }

  predicate Timely(s: State, e: Event) {
    e.Update? ==> InTime(s, KeyOf(e.id, e.market))
  }

  lemma RunAppend(batchSize: nat, es: seq<Event>, e: Event)
    ensures Run(batchSize, es + [e]) == Apply(batchSize, Run(batchSize, es), e)
    ensures TimelyRun(batchSize, es + [e]) <==> TimelyRun(batchSize, es) && Timely(Run(batchSize, es), e)
  {
    assert (es + [e])[..|es + [e]| - 1] == es;
  }
}
