/** The proviso of completeness is exact: an update that commits late is missed in some timely continuation. */
module PollerProvisos {
  import opened Wrappers
  import opened Query
  import opened Markets
  import opened PollerProtocol
  import opened PollerSafety

  /** Every update of fs, run after es, commits in time. */
  predicate TimelyAfter(batchSize: nat, es: seq<Event>, fs: seq<Event>) {
    fs == [] ||
    var n := |fs| - 1;
    TimelyAfter(batchSize, es, fs[..n]) && Timely(Run(batchSize, es + fs[..n]), fs[n])
  }

  lemma {:induction false} TimelyConcat(batchSize: nat, es: seq<Event>, fs: seq<Event>)
    requires TimelyRun(batchSize, es) && TimelyAfter(batchSize, es, fs)
    ensures TimelyRun(batchSize, es + fs)
    decreases |fs|
  {
    if fs == [] {
      assert es + fs == es;
    } else {
      var n := |fs| - 1;
      TimelyConcat(batchSize, es, fs[..n]);
      RunAppend(batchSize, es + fs[..n], fs[n]);
      assert es + fs == (es + fs[..n]) + [fs[n]];
    }
  }

  /** This version of the market has not been announced, and no poller is publishing it. */
  predicate Fresh(s: State, version: Snapshot) {
    && EventOf(version) !in s.outbox
    && forall p | p in s.pollers && s.pollers[p].pc.Publishing? :: EventOf(version) !in EventsOf(s.pollers[p].pc.page)
  }

  /** One step more. */
  lemma Extend(batchSize: nat, es: seq<Event>, fs: seq<Event>, s: State, e: Event) returns (gs: seq<Event>, t: State)
    requires TimelyAfter(batchSize, es, fs) && Run(batchSize, es + fs) == s && Timely(s, e)
    ensures gs == fs + [e] && TimelyAfter(batchSize, es, gs) && Run(batchSize, es + gs) == t == Apply(batchSize, s, e)
  {
    gs, t := fs + [e], Apply(batchSize, s, e);
    assert gs[..|gs| - 1] == fs && es + gs == (es + fs) + [e];
    RunAppend(batchSize, es + fs, e);
  }

  /** Some instant lies behind all cursors and pages. */
  lemma {:induction false} Later(pollers: map<PollerId, Poller>, from: int) returns (at: int)
    ensures from < at
    ensures forall p, id | p in pollers :: Unread(pollers[p], Key(at, id))
    decreases |pollers|
  {
    if pollers == map[] {
      at := from + 1;
    } else {
      var q :| q in pollers;
      var poller := pollers[q];
      var next := if poller.pc.Publishing? && poller.pc.page != [] then NextCursor(poller.pc.page).at else from;
      var up := if poller.lastSeen.at < next then next else poller.lastSeen.at;
      at := Later(pollers - {q}, if from < up then up else from);
      forall p, id | p in pollers ensures Unread(pollers[p], Key(at, id)) {
        if p != q {
          assert p in pollers - {q} && Unread((pollers - {q})[p], Key(at, id));
        }
      }
    }
  }

  /** A poller that stands at or behind the update passes it by with its next page. */
  lemma PassesBy(batchSize: nat, s: State, p: PollerId, id: MarketId, ids: seq<MarketId>)
    requires id in s.markets && EventOf(Snapshot(id, s.markets[id])) !in s.outbox
    requires p in s.pollers && s.pollers[p].pc.Idle? && KeyLeq(KeyOf(id, s.markets[id]), s.pollers[p].lastSeen)
    requires ids != [] && IsPage(s.markets, s.pollers[p].lastSeen, batchSize, ids)
    ensures Missed(Apply(batchSize, Apply(batchSize, s, ReadPage(p, ids)), Publish(p, Ran)), id)
  {
    var page := SnapshotsOf(s.markets, ids);
    var s1 := Apply(batchSize, s, ReadPage(p, ids));
    assert s1.pollers[p] == s.pollers[p].(pc := Publishing(page));
    forall i | 0 <= i < |page| ensures EventsOf(page)[i] != EventOf(Snapshot(id, s.markets[id])) {
      assert ids[i] in ids;
    }
    assert ids[|ids| - 1] in ids;
    assert Apply(batchSize, s1, Publish(p, Ran)) == PublishStep(s1, p, Ran);
  }

  /** With another market updated in time, the poller has a next page. */
  lemma PassedBy(batchSize: nat, es: seq<Event>, fs: seq<Event>, s: State, p: PollerId, id: MarketId) returns (gs: seq<Event>)
    requires batchSize > 0 && TimelyAfter(batchSize, es, fs) && Run(batchSize, es + fs) == s
    requires id in s.markets && EventOf(Snapshot(id, s.markets[id])) !in s.outbox
    requires p in s.pollers && s.pollers[p].pc.Idle? && KeyLeq(KeyOf(id, s.markets[id]), s.pollers[p].lastSeen)
    ensures TimelyAfter(batchSize, es, gs) && Missed(Run(batchSize, es + gs), id)
  {
    var at := Later(s.pollers, Durable(s).at);
    var other := Market("other", true, None, at);
    assert forall q | q in s.pollers :: Unread(s.pollers[q], Key(at, id + 1));
    var t;
    gs, t := Extend(batchSize, es, fs, s, Update(id + 1, other));
    assert Unread(s.pollers[p], Key(at, id + 1));
    var ids := NextPage(batchSize, t.markets, t.pollers[p].lastSeen, id + 1);
    PassesBy(batchSize, t, p, id, ids);
    gs, t := Extend(batchSize, es, gs, t, ReadPage(p, ids));
    gs, t := Extend(batchSize, es, gs, t, Publish(p, Ran));
  }

  /** An update that commits late is missed: at once, with a page in flight, or with the next page. */
  lemma LateUpdateMissed(batchSize: nat, es: seq<Event>, id: MarketId, market: Market) returns (fs: seq<Event>)
    requires batchSize > 0 && TimelyRun(batchSize, es) && Fresh(Run(batchSize, es), Snapshot(id, market))
    requires !InTime(Run(batchSize, es), KeyOf(id, market))
    ensures TimelyAfter(batchSize, es + [Update(id, market)], fs)
    ensures Missed(Run(batchSize, es + [Update(id, market)] + fs), id)
  {
    var s, after := Run(batchSize, es), es + [Update(id, market)];
    RunAppend(batchSize, es, Update(id, market));
    var t := Run(batchSize, after);
    assert t == s.(markets := s.markets[id := market]) && after + [] == after;
    if KeyLeq(KeyOf(id, market), Durable(s)) {
      fs := [];
    } else {
      var p :| p in s.pollers && !Unread(s.pollers[p], KeyOf(id, market));
      Always(batchSize, es);
      assert PollerInv(s, p);
      if KeyLeq(KeyOf(id, market), s.pollers[p].lastSeen) {
        fs := LateForPoller(batchSize, after, t, p, id);
      } else {
        assert Apply(batchSize, t, Publish(p, Ran)) == PublishStep(t, p, Ran);
        var u;
        fs, u := Extend(batchSize, after, [], t, Publish(p, Ran));
      }
    }
  }

  lemma LateForPoller(batchSize: nat, es: seq<Event>, s: State, p: PollerId, id: MarketId) returns (fs: seq<Event>)
    requires batchSize > 0 && Run(batchSize, es) == s
    requires id in s.markets && EventOf(Snapshot(id, s.markets[id])) !in s.outbox
    requires p in s.pollers && KeyLeq(KeyOf(id, s.markets[id]), s.pollers[p].lastSeen)
    requires s.pollers[p].pc.Publishing? ==> s.pollers[p].pc.page != []
    ensures TimelyAfter(batchSize, es, fs) && Missed(Run(batchSize, es + fs), id)
  {
    assert es + [] == es;
    if s.pollers[p].pc.Publishing? {
      var t;
      fs, t := Extend(batchSize, es, [], s, Publish(p, NotRan));
      fs := PassedBy(batchSize, es, fs, t, p, id);
    } else {
      fs := PassedBy(batchSize, es, [], s, p, id);
    }
  }

  /** A new version of a market is never missed, whatever timely steps follow, exactly if it commits in time. */
  lemma InTimeExactly(batchSize: nat, es: seq<Event>, id: MarketId, market: Market)
    requires batchSize > 0 && TimelyRun(batchSize, es) && Fresh(Run(batchSize, es), Snapshot(id, market))
    ensures
      InTime(Run(batchSize, es), KeyOf(id, market))
      <==> forall fs | TimelyAfter(batchSize, es + [Update(id, market)], fs) ::
             !Missed(Run(batchSize, es + [Update(id, market)] + fs), id)
  {
    var after := es + [Update(id, market)];
    if InTime(Run(batchSize, es), KeyOf(id, market)) {
      RunAppend(batchSize, es, Update(id, market));
      forall fs | TimelyAfter(batchSize, after, fs) ensures !Missed(Run(batchSize, after + fs), id) {
        TimelyConcat(batchSize, after, fs);
        NoChangeMissed(batchSize, after + fs, id);
      }
    } else {
      var fs := LateUpdateMissed(batchSize, es, id, market);
    }
  }
}
