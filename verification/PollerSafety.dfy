/**
 No committed market state at or below the durable cursor is without its event, whatever
 changes underneath, if updates commit in time; and a late update is missed.
 */
module PollerSafety {
  import opened Wrappers
  import opened Markets
  import opened PollerProtocol

  // ----- Completeness, for any number of pollers -----

  /** The market's present state has been written to the outbox. */
  predicate Announced(s: State, id: MarketId)
    requires id in s.markets
  {
    EventOf(Snapshot(id, s.markets[id])) in s.outbox
  }

  predicate UpTo(s: State, id: MarketId, k: Key)
    requires id in s.markets
  {
    KeyLeq(KeyOf(id, s.markets[id]), k)
  }

  /** Everything at or below k has been announced. */
  ghost predicate AllAnnouncedUpTo(s: State, k: Key) {
    forall id | id in s.markets && UpTo(s, id, k) :: Announced(s, id)
  }

  /** Every market between since and the end of the page is in the page as it is now. */
  ghost predicate PageFresh(s: State, since: Key, page: seq<Snapshot>)
    requires page != []
  {
    forall id | id in s.markets && !UpTo(s, id, since) && UpTo(s, id, NextCursor(page)) ::
      Snapshot(id, s.markets[id]) in page
  }

  ghost predicate PollerInv(s: State, p: PollerId)
    requires p in s.pollers
  {
    var poller := s.pollers[p];
    && AllAnnouncedUpTo(s, poller.lastSeen)
    && (poller.pc.Publishing? ==> poller.pc.page != [] && PageFresh(s, poller.lastSeen, poller.pc.page))
  }

  ghost predicate Inv(s: State) {
    AllAnnouncedUpTo(s, Durable(s)) && forall p | p in s.pollers :: PollerInv(s, p)
  }

  /** After a publication everything up to the end of its page is announced. */
  lemma PublishAnnounces(s: State, p: PollerId, o: Outcome, id: MarketId)
    requires Inv(s) && p in s.pollers && s.pollers[p].pc.Publishing? && s.pollers[p].pc.page != [] && !o.NotRan?
    requires id in s.markets && UpTo(s, id, NextCursor(s.pollers[p].pc.page))
    ensures Announced(PublishStep(s, p, o), id)
  {
    var page := s.pollers[p].pc.page;
    assert PollerInv(s, p);
    if UpTo(s, id, s.pollers[p].lastSeen) {
      assert Announced(s, id);
    } else {
      assert Snapshot(id, s.markets[id]) in page;
      var i :| 0 <= i < |page| && page[i] == Snapshot(id, s.markets[id]);
      assert EventsOf(page)[i] in EventsOf(page);
    }
  }

  lemma PublishKept(s: State, p: PollerId, o: Outcome)
    requires Inv(s) && p in s.pollers && s.pollers[p].pc.Publishing? && s.pollers[p].pc.page != []
    ensures Inv(PublishStep(s, p, o))
  {
    var s' := PublishStep(s, p, o);
    forall id | id in s.markets && !o.NotRan? && UpTo(s, id, NextCursor(s.pollers[p].pc.page)) ensures Announced(s', id) {
      PublishAnnounces(s, p, o, id);
    }
    forall id | id in s.markets && Announced(s, id) ensures Announced(s', id) {
    }
    forall q | q in s'.pollers ensures PollerInv(s', q) {
      assert PollerInv(s, q);
    }
  }

  lemma ReadKept(batchSize: nat, s: State, p: PollerId, ids: seq<MarketId>)
    requires Inv(s)
    ensures Inv(Apply(batchSize, s, ReadPage(p, ids)))
  {
    var s' := Apply(batchSize, s, ReadPage(p, ids));
    if s' != s {
      var page := SnapshotsOf(s.markets, ids);
      assert PollerInv(s, p);
      forall id | id in s.markets && !UpTo(s, id, s.pollers[p].lastSeen) && UpTo(s, id, NextCursor(page))
        ensures Snapshot(id, s.markets[id]) in page
      {
        assert ids[|ids| - 1] in ids;
        assert id in ids;
        var i :| 0 <= i < |ids| && ids[i] == id;
        assert page[i] in page;
      }
      forall q | q in s'.pollers ensures PollerInv(s', q) {
        if q != p {
          assert PollerInv(s, q);
        }
      }
    }
  }

  /** An update in time lies behind everything that was promised. */
  lemma UpdateKept(batchSize: nat, s: State, id: MarketId, market: Market)
    requires Inv(s) && InTime(s, KeyOf(id, market))
    ensures Inv(Apply(batchSize, s, Update(id, market)))
  {
    var s' := Apply(batchSize, s, Update(id, market));
    forall p | p in s'.pollers ensures PollerInv(s', p) {
      assert PollerInv(s, p) && Unread(s.pollers[p], KeyOf(id, market));
    }
  }

  lemma Kept(batchSize: nat, s: State, e: Event)
    requires Inv(s) && Timely(s, e)
    ensures Inv(Apply(batchSize, s, e))
  {
    if e.Publish? {
      if e.p in s.pollers && s.pollers[e.p].pc.Publishing? && s.pollers[e.p].pc.page != [] {
        PublishKept(s, e.p, e.outcome);
      }
    } else if e.ReadPage? {
      ReadKept(batchSize, s, e.p, e.ids);
    } else if e.Update? {
      UpdateKept(batchSize, s, e.id, e.market);
    } else {
      OthersKept(batchSize, s, e);
    }
  }

  lemma OthersKept(batchSize: nat, s: State, e: Event)
    requires Inv(s) && (e.Delete? || e.LoadCursor? || e.Crash?)
    ensures Inv(Apply(batchSize, s, e))
  {
    var s' := Apply(batchSize, s, e);
    forall q | q in s'.pollers ensures PollerInv(s', q) {
      if q in s.pollers {
        assert PollerInv(s, q);
      }
    }
  }

  lemma {:induction false} Always(batchSize: nat, es: seq<Event>)
    requires TimelyRun(batchSize, es)
    ensures Inv(Run(batchSize, es))
  {
    if es != [] {
      Always(batchSize, es[..|es| - 1]);
      Kept(batchSize, Run(batchSize, es[..|es| - 1]), es[|es| - 1]);
    }
  }

  /** Changes of the table leave pollers, cursor and outbox alone; a crash loses the poller and nothing else. */
  lemma ChangesAlone(batchSize: nat, s: State, id: MarketId, market: Market, p: PollerId)
    ensures Apply(batchSize, s, Update(id, market)) == State(s.markets[id := market], s.cursor, s.outbox, s.pollers)
    ensures Apply(batchSize, s, Delete(id)) == State(s.markets - {id}, s.cursor, s.outbox, s.pollers)
    ensures Apply(batchSize, s, Crash(p)) == State(s.markets, s.cursor, s.outbox, s.pollers - {p})
  {
  }

  /** A market at or below the durable cursor without an event of its present state. */
  predicate Missed(s: State, id: MarketId) {
    id in s.markets && KeyLeq(KeyOf(id, s.markets[id]), Durable(s)) &&
    MarketStateChanged(id, s.markets[id].enabled, s.markets[id].deletedAt, s.markets[id].updatedAt) !in s.outbox
  }

  /**
   In every reachable state (updates, inserts and physical deletes between any two steps,
   crashes, restarts, failed and ambiguous commits, any number of pollers), each market whose
   present key is at or below the durable cursor has an outbox event with exactly its present
   enabled, deleted_at and updated_at, if every update commits in time.
   */
  lemma NoChangeMissed(batchSize: nat, es: seq<Event>, id: MarketId)
    requires TimelyRun(batchSize, es)
    ensures !Missed(Run(batchSize, es), id)
  {
    Always(batchSize, es);
    var s := Run(batchSize, es);
    if id in s.markets && UpTo(s, id, Durable(s)) {
      assert Announced(s, id);
    }
  }
}
