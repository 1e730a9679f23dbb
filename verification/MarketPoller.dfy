/**
 The poller as the source writes it: read a page behind the cursor in memory, commit its
 events with the new cursor, until a page is not full. Markets change and other pollers run
 between its steps; while quiet, nothing does and every call succeeds.
 */
module MarketPoller {
  import opened Wrappers
  import opened Query
  import opened Markets
  import opened PollerProtocol

  /** There is an outbox event about every one of these markets. */
  ghost predicate AllAnnounced(outbox: seq<MarketStateChanged>, ids: seq<MarketId>) {
    forall k | 0 <= k < |ids| :: HasEvent(outbox, ids[k])
  }

  ghost predicate HasEvent(outbox: seq<MarketStateChanged>, id: MarketId) {
    exists i :: 0 <= i < |outbox| && outbox[i].id == id
  }

  lemma {:induction false} OutboxGrows(batchSize: nat, es: seq<Event>, fs: seq<Event>)
    ensures Run(batchSize, es).outbox <= Run(batchSize, es + fs).outbox
    decreases |fs|
  {
    if fs == [] {
      assert es + fs == es;
    } else {
      var n := |fs| - 1;
      OutboxGrows(batchSize, es, fs[..n]);
      RunAppend(batchSize, es + fs[..n], fs[n]);
      assert es + fs == (es + fs[..n]) + [fs[n]];
    }
  }

  /** Events stay in the outbox. */
  lemma AnnouncedStays(batchSize: nat, earlier: seq<Event>, later: seq<Event>, ids: seq<MarketId>)
    requires earlier <= later && AllAnnounced(Run(batchSize, earlier).outbox, ids)
    ensures AllAnnounced(Run(batchSize, later).outbox, ids)
  {
    OutboxGrows(batchSize, earlier, later[|earlier|..]);
    assert later == earlier + later[|earlier|..];
    var a, b := Run(batchSize, earlier).outbox, Run(batchSize, later).outbox;
    forall k | 0 <= k < |ids| ensures HasEvent(b, ids[k]) {
      assert HasEvent(a, ids[k]);
      var i :| 0 <= i < |a| && a[i].id == ids[k];
      assert b[i] == a[i];
    }
  }

  lemma ReadTakes(batchSize: nat, s: State, p: PollerId, ids: seq<MarketId>)
    requires p in s.pollers && s.pollers[p].pc.Idle? && ids != [] && IsPage(s.markets, s.pollers[p].lastSeen, batchSize, ids)
    ensures Apply(batchSize, s, ReadPage(p, ids)) ==
            s.(pollers := s.pollers[p := s.pollers[p].(pc := Publishing(SnapshotsOf(s.markets, ids)))])
  {
  }

  lemma LastOfPage(markets: map<MarketId, Market>, ids: seq<MarketId>)
    requires ids != [] && forall id | id in ids :: id in markets
    ensures ids[|ids| - 1] in ids
    ensures PageIds(SnapshotsOf(markets, ids)) == ids
    ensures NextCursor(SnapshotsOf(markets, ids)) == KeyOf(ids[|ids| - 1], markets[ids[|ids| - 1]])
  {
  }

  lemma PageAnnounces(before: seq<MarketStateChanged>, after: seq<MarketStateChanged>,
                      markets: map<MarketId, Market>, ids: seq<MarketId>)
    requires forall id | id in ids :: id in markets
    requires after == before + EventsOf(SnapshotsOf(markets, ids))
    ensures Announces(before, after, markets, ids)
  {
    assert forall i | 0 <= i < |ids| :: ids[i] in ids;
  }

  function PageIds(page: seq<Snapshot>): (ids: seq<MarketId>)
    ensures |ids| == |page|
  {
    seq(|page|, i requires 0 <= i < |page| => page[i].id)
  }

  lemma TailAnnounces(outbox: seq<MarketStateChanged>, page: seq<Snapshot>)
    requires |page| <= |outbox| && outbox[|outbox| - |page|..] == EventsOf(page)
    ensures AllAnnounced(outbox, PageIds(page))
  {
    forall k | 0 <= k < |page| ensures HasEvent(outbox, PageIds(page)[k]) {
      assert outbox[|outbox| - |page| + k] == EventsOf(page)[k];
    }
  }

  class MarketPoller {
    const batchSize: nat
    const p: PollerId
    var lastSeen: Key
    var state: State
    ghost var trace: seq<Event>

    ghost predicate Valid()
      reads this
    {
      state == Run(batchSize, trace)
    }

    /** Loaded, between two batches. */
    ghost predicate Ready()
      reads this
    {
      Valid() && p in state.pollers && state.pollers[p] == Poller(lastSeen, Idle)
    }

    constructor (batchSize: nat, p: PollerId)
      ensures Valid() && trace == [] && state == Init && this.batchSize == batchSize && this.p == p
    {
      this.batchSize := batchSize;
      this.p := p;
      lastSeen := ZERO_KEY;
      state := Init;
      trace := [];
    }

    method Step(e: Event)
      requires Valid()
      modifies this`state, this`trace
      ensures Valid() && state == Apply(batchSize, old(state), e) && trace == old(trace) + [e]
    {
      state := Apply(batchSize, state, e);
      RunAppend(batchSize, trace, e);
      trace := trace + [e];
    }

    /** Anything others may do: updates, deletes, other pollers. */
    method Interference(quiet: bool)
      requires Valid()
      modifies this`state, this`trace
      ensures Valid() && old(trace) <= trace
      ensures p in state.pollers <==> p in old(state.pollers)
      ensures p in state.pollers ==> state.pollers[p] == old(state.pollers)[p]
      ensures quiet ==> state == old(state)
    {
    }

    /** loadCursor: the durable cursor, or the zero position if there is none. */
    method LoadCursor(quiet: bool) returns (ok: bool)
      requires Valid()
      modifies this
      ensures Valid() && old(trace) <= trace
      ensures ok ==> Ready() && lastSeen == Durable(state)
      ensures quiet ==> ok && lastSeen == Durable(old(state)) && state.markets == old(state.markets)
                        && state.cursor == old(state.cursor) && state.outbox == old(state.outbox)
    {
      Interference(quiet);
      ok := *;
      if quiet {
        ok := true;
      }
      if !ok {
        return;
      }
      lastSeen := if state.cursor.Some? then state.cursor.value else ZERO_KEY;
      Step(Event.LoadCursor(p));
    }

    /** ListUpdatedSince: the first rows behind the cursor in memory. */
    method ListUpdatedSince() returns (ids: seq<MarketId>)
      ensures ids == Slice(Rest(state.markets, lastSeen), 0, batchSize)
      ensures IsPage(state.markets, lastSeen, batchSize, ids)
    {
      ByKeyTotal(state.markets, lastSeen);
      ids := Select(Above(state.markets, lastSeen), ByKey(state.markets), batchSize, 0);
      SliceIsPage(state.markets, lastSeen, batchSize, ids);
    }

    /** The transaction of PublishMarketStateChanged: the events one by one, the cursor, the commit. */
    method PublishMarketStateChanged(quiet: bool, events: seq<MarketStateChanged>) returns (ok: bool)
      requires Valid() && p in state.pollers && state.pollers[p].pc.Publishing? && state.pollers[p].pc.page != []
      requires events == EventsOf(state.pollers[p].pc.page) && state.pollers[p].lastSeen == lastSeen
      modifies this`state, this`trace
      ensures Valid() && old(trace) <= trace && p in state.pollers
      ensures state.pollers[p] == Poller(if ok then NextCursor(old(state.pollers[p].pc.page)) else lastSeen, Idle)
      ensures ok ==> state.cursor == Some(NextCursor(old(state.pollers[p].pc.page)))
      ensures ok ==> |events| <= |state.outbox| && state.outbox[|state.outbox| - |events|..] == events
      ensures quiet ==> ok && state.markets == old(state.markets) && state.outbox == old(state.outbox) + events
    {
      var inserted: seq<MarketStateChanged> := [];
      var failed := false;
      for n := 0 to |events|
        invariant inserted == events[..n] && !failed
      {
        var refused: bool := *;
        if refused && !quiet {
          failed := true;
          break;
        }
        inserted := inserted + [events[n]];
      }
      Interference(quiet);
      var outcome: Outcome := *;
      if failed {
        outcome := NotRan;
      } else if quiet {
        outcome := Ran;
      }
      assert !failed ==> inserted == events;
      ok := outcome.Ran?;
      Step(Publish(p, outcome));
    }

    /** buildMarketStateChangedEvents: one event per market, unless the context ends in between. */
    method BuildEvents(quiet: bool, page: seq<Snapshot>) returns (ok: bool, events: seq<MarketStateChanged>)
      ensures ok ==> events == EventsOf(page)
      ensures quiet ==> ok
    {
      events := [];
      for i := 0 to |page|
        invariant events == EventsOf(page)[..i]
      {
        var ended: bool := *;
        if ended && !quiet {
          return false, events;
        }
        events := events + [EventOf(page[i])];
      }
      ok := true;
    }

    method IdsOf(page: seq<Snapshot>) returns (updatedIds: seq<MarketId>)
      ensures updatedIds == PageIds(page)
    {
      updatedIds := [];
      for i := 0 to |page|
        invariant updatedIds == PageIds(page)[..i]
      {
        updatedIds := updatedIds + [page[i].id];
      }
    }

    /** Events and cursor of the page that was read; the cursor in memory moves only if that succeeds. */
    method Announce(quiet: bool, page: seq<Snapshot>) returns (ok: bool)
      requires Valid() && page != [] && p in state.pollers && state.pollers[p] == Poller(lastSeen, Publishing(page))
      modifies this
      ensures Ready() && old(trace) <= trace
      ensures lastSeen == if ok then NextCursor(page) else old(lastSeen)
      ensures ok ==> state.cursor == Some(lastSeen)
      ensures ok ==> AllAnnounced(state.outbox, PageIds(page))
      ensures quiet ==> ok && state.markets == old(state.markets) && state.outbox == old(state.outbox) + EventsOf(page)
    {
      var events;
      ok, events := BuildEvents(quiet, page);
      if ok {
        ok := PublishMarketStateChanged(quiet, events);
      } else {
        Step(Publish(p, NotRan));
      }
      if ok {
        lastSeen := NextCursor(page);
        TailAnnounces(state.outbox, page);
      }
    }

    /** The second half of processNextBatch: the events of a page that was just read. */
    method PublishPage(quiet: bool, ids: seq<MarketId>) returns (ok: bool, updatedIds: seq<MarketId>)
      requires Ready() && ids != [] && IsPage(state.markets, lastSeen, batchSize, ids)
      modifies this
      ensures Ready() && old(trace) <= trace
      ensures if ok then updatedIds == ids && state.cursor == Some(lastSeen) else updatedIds == [] && lastSeen == old(lastSeen)
      ensures AllAnnounced(state.outbox, updatedIds)
      ensures quiet ==>
                && ok
                && state.markets == old(state.markets)
                && Announces(old(state.outbox), state.outbox, old(state.markets), ids)
      ensures ids[|ids| - 1] in ids
      ensures ok ==> lastSeen == KeyOf(ids[|ids| - 1], old(state.markets)[ids[|ids| - 1]])
    {
      ghost var before := state;
      ReadTakes(batchSize, state, p, ids);
      Step(ReadPage(p, ids));
      var page := state.pollers[p].pc.page;
      LastOfPage(before.markets, ids);
      updatedIds := IdsOf(page);
      ok := Announce(quiet, page);
      if quiet {
        PageAnnounces(before.outbox, state.outbox, before.markets, ids);
      }
      if !ok {
        updatedIds := [];
      }
    }

    method ProcessNextBatch(quiet: bool) returns (ok: bool, updatedIds: seq<MarketId>, hasMore: bool)
      requires Ready()
      modifies this
      ensures Ready() && old(trace) <= trace
      ensures !ok ==> lastSeen == old(lastSeen) && updatedIds == []
      ensures ok && updatedIds != [] ==> state.cursor == Some(lastSeen)
      ensures AllAnnounced(state.outbox, updatedIds)
      ensures quiet ==> ok && BatchDone(batchSize, old(state), old(lastSeen), state, lastSeen, updatedIds)
      ensures ok ==> hasMore == (updatedIds != [] && |updatedIds| == batchSize)
    {
      Interference(quiet);
      updatedIds, hasMore := [], false;
      ok := *;
      if !ok && !quiet {
        return;
      }
      ok := true;
      var ids := ListUpdatedSince();
      if ids == [] {
        return;
      }
      ok, updatedIds := PublishPage(quiet, ids);
      hasMore := ok && |updatedIds| == batchSize;
    }

    /** poll: batch after batch until one is not full; the deadline leaves time for `allowed` of them. */
    method Poll(quiet: bool, allowed: nat) returns (ok: bool, updatedIds: seq<MarketId>, batches: nat)
      requires Ready()
      modifies this
      ensures Ready() && old(trace) <= trace && AllAnnounced(state.outbox, updatedIds)
      ensures quiet && batchSize > 0 && allowed > |old(Rest(state.markets, lastSeen))| / batchSize ==>
                ok && PolledAll(batchSize, old(state), old(lastSeen), state, lastSeen, updatedIds, batches)
    {
      ghost var before, since := state, lastSeen;
      ok, updatedIds, batches := true, [], 0;
      PollBegins(batchSize, before, since);
      var hasMore := true;
      while hasMore
        invariant Ready() && old(trace) <= trace && batches <= allowed && AllAnnounced(state.outbox, updatedIds)
        invariant quiet ==> PollInv(batchSize, before, since, state, lastSeen, updatedIds, batches, hasMore)
        decreases allowed - batches, hasMore
      {
        if batches == allowed {
          return false, updatedIds, batches;
        }
        ghost var s, seen, earlier := state, lastSeen, trace;
        var ids;
        ok, ids, hasMore := ProcessNextBatch(quiet);
        AnnouncedStays(batchSize, earlier, trace, updatedIds);
        if !ok {
          return false, updatedIds, batches + 1;
        }
        if quiet {
          PollStep(batchSize, before, since, s, seen, updatedIds, batches, state, lastSeen, ids, hasMore);
        }
        updatedIds := updatedIds + ids;
        batches := batches + 1;
      }
    }
  }

  /**
   A finished poll: it read floor(n / batchSize) + 1 pages for the n rows behind its cursor, announced
   each of them in key order, and left both cursors on the last one.
   */
  ghost predicate PolledAll(batchSize: nat, before: State, since: Key, after: State, now: Key,
                            updatedIds: seq<MarketId>, batches: nat)
    requires batchSize > 0
  {
    var rest := Rest(before.markets, since);
    && batches == |rest| / batchSize + 1
    && updatedIds == rest
    && Polled(before, since, after, now, |rest|)
  }

  /** A poll under way: full batches so far, or the last one done. */
  ghost predicate PollInv(batchSize: nat, before: State, since: Key, after: State, now: Key,
                          updatedIds: seq<MarketId>, batches: nat, hasMore: bool) {
    var rest := Rest(before.markets, since);
    && Polled(before, since, after, now, |updatedIds|)
    && updatedIds == rest[..|updatedIds|]
    && (batchSize > 0 ==>
          if hasMore then |updatedIds| == batches * batchSize && batches <= |rest| / batchSize
          else PolledAll(batchSize, before, since, after, now, updatedIds, batches))
  }

  lemma PollBegins(batchSize: nat, before: State, since: Key)
    ensures PollInv(batchSize, before, since, before, since, [], 0, true)
  {
  }

  /** What one undisturbed batch does: the first rows behind the cursor, their events, their last key. */
  ghost predicate BatchDone(batchSize: nat, before: State, since: Key, after: State, now: Key, ids: seq<MarketId>) {
    && ids == Slice(Rest(before.markets, since), 0, batchSize)
    && after.markets == before.markets
    && Announces(before.outbox, after.outbox, before.markets, ids)
    && (if ids == [] then now == since && after.cursor == before.cursor
        else
          var last := ids[|ids| - 1];
          last in before.markets && now == KeyOf(last, before.markets[last]) && after.cursor == Some(now))
  }

  /** The outbox grew by one event per listed market, in the order of the list. */
  ghost predicate Announces(before: seq<MarketStateChanged>, after: seq<MarketStateChanged>,
                            markets: map<MarketId, Market>, ids: seq<MarketId>) {
    && |after| == |before| + |ids|
    && before <= after
    && forall i | 0 <= i < |ids| ::
         ids[i] in markets && after[|before| + i] == EventOf(Snapshot(ids[i], markets[ids[i]]))
  }

  /** The first n rows behind since are announced in order, and both cursors stand on the last of them. */
  ghost predicate Polled(before: State, since: Key, after: State, now: Key, n: nat) {
    var rest := Rest(before.markets, since);
    && n <= |rest|
    && after.markets == before.markets
    && Rest(after.markets, now) == rest[n..]
    && Announces(before.outbox, after.outbox, before.markets, rest[..n])
    && (if n == 0 then now == since && after.cursor == before.cursor
        else rest[n - 1] in before.markets && now == KeyOf(rest[n - 1], before.markets[rest[n - 1]]) && after.cursor == Some(now))
  }

  lemma FullBatches(total: nat, done: nat, batches: nat, batchSize: nat)
    requires done == batches * batchSize && done <= total
    ensures batchSize > 0 ==> batches <= total / batchSize
    ensures batchSize > 0 && total - done < batchSize ==> batches == total / batchSize
  {
    if batchSize > 0 {
      var q := total / batchSize;
      assert total == q * batchSize + total % batchSize;
      AtMostTimes(batches, q, batchSize, total);
      if total - done < batchSize {
        AtMostTimes(q, batches, batchSize, total);
      }
    }
  }

  lemma {:induction false} AtMostTimes(a: nat, b: nat, size: nat, total: nat)
    requires a * size <= total < b * size + size
    ensures a <= b
  {
    if a > 0 && b > 0 {
      assert (a - 1) * size == a * size - size && (b - 1) * size == b * size - size;
      AtMostTimes(a - 1, b - 1, size, total - size);
    }
  }

  lemma AnnouncesMore(a: seq<MarketStateChanged>, b: seq<MarketStateChanged>, c: seq<MarketStateChanged>,
                      markets: map<MarketId, Market>, ids: seq<MarketId>, more: seq<MarketId>)
    requires Announces(a, b, markets, ids) && Announces(b, c, markets, more)
    ensures Announces(a, c, markets, ids + more)
  {
    forall i | 0 <= i < |ids + more|
      ensures (ids + more)[i] in markets
      ensures c[|a| + i] == EventOf(Snapshot((ids + more)[i], markets[(ids + more)[i]]))
    {
      if i < |ids| {
        assert c[|a| + i] == b[|a| + i];
      } else {
        assert c[|b| + (i - |ids|)] == c[|a| + i];
      }
    }
  }

  lemma NextRows(rest: seq<MarketId>, n: nat, limit: nat, ids: seq<MarketId>)
    requires n <= |rest| && ids == Slice(rest[n..], 0, limit)
    ensures n + |ids| <= |rest| && |ids| <= limit
    ensures rest[..n] + ids == rest[..n + |ids|]
    ensures ids != [] ==> ids[|ids| - 1] == rest[n + |ids| - 1]
    ensures |ids| < limit ==> n + |ids| == |rest|
  {
    assert ids == rest[n..n + |ids|];
  }

  lemma BatchPolled(batchSize: nat, first: State, since: Key, before: State, seen: Key, n: nat,
                    after: State, now: Key, ids: seq<MarketId>)
    requires Polled(first, since, before, seen, n) && BatchDone(batchSize, before, seen, after, now, ids)
    ensures Polled(first, since, after, now, n + |ids|)
    ensures var rest := Rest(first.markets, since);
            && rest[..n] + ids == rest[..n + |ids|]
            && (|ids| < batchSize ==> n + |ids| == |rest|)
            && |ids| <= batchSize
  {
    var rest := Rest(first.markets, since);
    NextRows(rest, n, batchSize, ids);
    AnnouncesMore(first.outbox, before.outbox, after.outbox, first.markets, rest[..n], ids);
    if ids != [] {
      RestAfter(first.markets, since, n + |ids|);
    }
  }

  lemma PollStep(batchSize: nat, before: State, since: Key, s: State, seen: Key, updatedIds: seq<MarketId>, batches: nat,
                 after: State, now: Key, ids: seq<MarketId>, hasMore: bool)
    requires PollInv(batchSize, before, since, s, seen, updatedIds, batches, true)
    requires BatchDone(batchSize, s, seen, after, now, ids)
    requires hasMore == (ids != [] && |ids| == batchSize)
    ensures PollInv(batchSize, before, since, after, now, updatedIds + ids, batches + 1, hasMore)
  {
    var rest, n := Rest(before.markets, since), |updatedIds|;
    BatchPolled(batchSize, before, since, s, seen, n, after, now, ids);
    if batchSize > 0 {
      if hasMore {
        assert n + |ids| == (batches + 1) * batchSize;
        FullBatches(|rest|, n + |ids|, batches + 1, batchSize);
      } else {
        FullBatches(|rest|, n, batches, batchSize);
      }
    }
  }
}
