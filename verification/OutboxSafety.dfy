/**
 What every run of the outbox keeps: the counting law, publication only after an
 acknowledgement, final states, and who may hold a row.
 */
module OutboxSafety {
  import opened Sets
  import opened Wrappers
  import opened OutboxProtocol

  predicate Holds(s: State, w: WorkerId, i: nat) {
    w in s.workers && i < |s.workers[w].queue|
  }

  function TicketOf(s: State, w: WorkerId, i: nat): Ticket
    requires Holds(s, w, i)
  {
    s.workers[w].queue[i]
  }

  /** The ticket's holder has already used it for a send. */
  predicate Used(s: State, w: WorkerId, i: nat)
    requires Holds(s, w, i)
  {
    i == 0 && s.workers[w].pc.Marking?
  }

  predicate CountingLaw(row: Row, h: History) {
    h.claims == row.retryCount + h.releases + (if row.status.Processing? || row.status.Published? then 1 else 0)
  }

  ghost predicate RowInv(cfg: Config, s: State, id: RowId)
    requires id in s.rows && id in s.history
  {
    var row, h := s.rows[id], s.history[id];
    && CountingLaw(row, h)
    && (row.lockedAt.Some? <==> row.status.Processing?)
    && h.sends == |h.sent|
    && (forall n | n in h.sent :: 1 <= n <= h.claims)
    && (row.status.Published? ==> MessageOf(cfg, row) in s.acked && MessageTopic(cfg, row.eventType) != "")
  }

  /** A late release took this claim of the row or an earlier one. */
  ghost predicate IsLate(s: State, ticket: Ticket) {
    exists l :: l in s.lates && l.id == ticket.id && l.number <= ticket.number
  }

  /** The ticket is the latest claim of its row and the row is still as it was claimed. */
  predicate Current(s: State, ticket: Ticket) {
    && ticket.id in s.rows && ticket.id in s.history
    && s.rows[ticket.id].status.Processing?
    && s.rows[ticket.id].lockedAt == Some(ticket.lockedAt)
    && s.history[ticket.id].claims == ticket.number
  }

  ghost predicate TicketInv(cfg: Config, s: State, w: WorkerId, i: nat)
    requires Holds(s, w, i)
  {
    var ticket, worker := TicketOf(s, w, i), s.workers[w];
    && ticket.id in s.rows && ticket.id in s.history
    && 1 <= ticket.number <= s.history[ticket.id].claims
    && (Used(s, w, i) || ticket.number !in s.history[ticket.id].sent)
    && (Current(s, ticket) || IsLate(s, ticket))
    && (i == 0 && worker.pc.Sending? ==> MessageTopic(cfg, s.rows[ticket.id].eventType) != "")
    && (i == 0 && worker.pc.Marking? && worker.pc.published ==>
          MessageOf(cfg, s.rows[ticket.id]) in s.acked && MessageTopic(cfg, s.rows[ticket.id].eventType) != "")
    && worker.batchStart <= ticket.lockedAt
  }

  /** The same claim of a row is in one place only. */
  ghost predicate Distinct(s: State) {
    forall w, i, v, j | Holds(s, w, i) && Holds(s, v, j) && (w != v || i != j) ::
      TicketOf(s, w, i).id == TicketOf(s, v, j).id ==> TicketOf(s, w, i).number != TicketOf(s, v, j).number
  }

  predicate WorkerInv(cfg: Config, s: State, w: WorkerId)
    requires w in s.workers
  {
    var worker := s.workers[w];
    && (worker.pc.Idle? || worker.pc.Claiming? || worker.pc.Releasing? ==> worker.queue == [])
    && (worker.pc.Sending? || worker.pc.Marking? ==> worker.queue != [])
    && (worker.pc.Releasing? ==> worker.pc.stuckBefore + cfg.processingTimeout <= s.now)
    && (worker.pc.Claiming? ==> worker.batchStart <= s.now)
  }

  predicate LateInv(cfg: Config, l: Late) {
    l.claimedAt + cfg.processingTimeout < l.releasedAt
  }

  ghost predicate Inv(cfg: Config, s: State) {
    && s.rows.Keys == s.history.Keys
    && (forall id | id in s.rows :: RowInv(cfg, s, id))
    && (forall w, i: nat | Holds(s, w, i) :: TicketInv(cfg, s, w, i))
    && Distinct(s)
    && (forall w | w in s.workers :: WorkerInv(cfg, s, w))
    && (forall l | l in s.lates :: LateInv(cfg, l))
  }

  // ----- Steps that touch no row -----

  /** Workers may drop tickets or move on; rows and history stay. */
  lemma WorkerStep(cfg: Config, s: State, s': State, w: WorkerId)
    requires Inv(cfg, s)
    requires s'.rows == s.rows && s'.history == s.history && s'.acked == s.acked && s'.lates == s.lates
    requires s.now <= s'.now
    requires s'.workers - {w} == s.workers - {w}
    requires w in s'.workers ==>
               && WorkerInv(cfg, s', w)
               && (s'.workers[w].queue != [] ==>
                     && w in s.workers
                     && s'.workers[w].queue == s.workers[w].queue
                     && s'.workers[w].batchStart == s.workers[w].batchStart
                     && (s'.workers[w].pc.Sending? ==>
                           var id := s'.workers[w].queue[0].id;
                           id in s.rows && MessageTopic(cfg, s.rows[id].eventType) != "")
                     && (s'.workers[w].pc == s.workers[w].pc
                         || (!s.workers[w].pc.Marking? && !(s'.workers[w].pc.Marking? && s'.workers[w].pc.published))))
    ensures Inv(cfg, s')
  {
    forall v | v in s.workers && v != w ensures v in s'.workers && s'.workers[v] == s.workers[v] {
      assert v in s.workers - {w};
    }
    forall v | v in s'.workers && v != w ensures v in s.workers && s'.workers[v] == s.workers[v] {
      assert v in s'.workers - {w};
    }
    assert forall v, i: nat | Holds(s', v, i) :: Holds(s, v, i) && TicketOf(s', v, i) == TicketOf(s, v, i);
    forall id | id in s'.rows ensures RowInv(cfg, s', id) {
      assert RowInv(cfg, s, id);
    }
    forall v, i: nat | Holds(s', v, i) ensures TicketInv(cfg, s', v, i) {
      assert TicketInv(cfg, s, v, i);
      assert IsLate(s, TicketOf(s, v, i)) ==> IsLate(s', TicketOf(s, v, i));
    }
    forall v | v in s'.workers ensures WorkerInv(cfg, s', v) {
      if v != w {
        assert WorkerInv(cfg, s, v);
      }
    }
  }

  lemma TickKept(cfg: Config, s: State, elapsed: nat)
    requires Inv(cfg, s)
    ensures Inv(cfg, Apply(cfg, s, Tick(elapsed)))
  {
    var s' := Apply(cfg, s, Tick(elapsed));
    assert forall w, i :: Holds(s', w, i) <==> Holds(s, w, i);
    forall id | id in s'.rows ensures RowInv(cfg, s', id) {
      assert RowInv(cfg, s, id);
    }
    forall v, i: nat | Holds(s', v, i) ensures TicketInv(cfg, s', v, i) {
      assert TicketInv(cfg, s, v, i);
      assert IsLate(s, TicketOf(s, v, i)) ==> IsLate(s', TicketOf(s, v, i));
    }
    forall v | v in s'.workers ensures WorkerInv(cfg, s', v) {
      assert WorkerInv(cfg, s, v);
    }
  }

  lemma InsertKept(cfg: Config, s: State, id: RowId, eventType: string, aggregate: nat, payload: Payload)
    requires Inv(cfg, s)
    ensures Inv(cfg, Apply(cfg, s, Insert(id, eventType, aggregate, payload)))
  {
    var s' := Apply(cfg, s, Insert(id, eventType, aggregate, payload));
    assert forall w, i :: Holds(s', w, i) <==> Holds(s, w, i);
    forall r | r in s'.rows ensures RowInv(cfg, s', r) {
      if r in s.rows {
        assert RowInv(cfg, s, r);
      }
    }
    forall v, i: nat | Holds(s', v, i) ensures TicketInv(cfg, s', v, i) {
      assert TicketInv(cfg, s, v, i);
      assert IsLate(s, TicketOf(s, v, i)) ==> IsLate(s', TicketOf(s, v, i));
    }
    forall v | v in s'.workers ensures WorkerInv(cfg, s', v) {
      assert WorkerInv(cfg, s, v);
    }
  }

  // ----- Claim -----

  lemma ClaimKept(cfg: Config, s: State, w: WorkerId, ids: seq<RowId>, o: Outcome)
    requires Inv(cfg, s) && w in s.workers && s.workers[w].pc.Claiming?
    ensures Inv(cfg, ClaimStep(cfg, s, w, ids, o))
  {
    var s' := ClaimStep(cfg, s, w, ids, o);
    assert WorkerInv(cfg, s, w);
    if o.NotRan? {
      WorkerStep(cfg, s, s', w);
    } else if s' != s {
      ClaimedTickets(cfg, s, w, ids, o);
    }
  }

  lemma ClaimKeepsTicket(cfg: Config, s: State, w: WorkerId, ids: seq<RowId>, o: Outcome, v: WorkerId, i: nat)
    requires Inv(cfg, s) && w in s.workers && s.workers[w].pc.Claiming?
    requires !o.NotRan? && Claimable(s.rows, ids, cfg.batchSize, s.now)
    requires Holds(ClaimStep(cfg, s, w, ids, o), v, i)
    ensures TicketInv(cfg, ClaimStep(cfg, s, w, ids, o), v, i)
  {
    var s' := ClaimStep(cfg, s, w, ids, o);
    assert WorkerInv(cfg, s, w);
    if v == w {
      assert ids[i] in ids;
      assert RowInv(cfg, s, ids[i]);
    } else {
      assert Holds(s, v, i) && TicketInv(cfg, s, v, i);
      assert IsLate(s, TicketOf(s, v, i)) ==> IsLate(s', TicketOf(s, v, i));
    }
  }

  lemma ClaimKeepsDistinct(cfg: Config, s: State, w: WorkerId, ids: seq<RowId>, o: Outcome)
    requires Inv(cfg, s) && w in s.workers && s.workers[w].pc.Claiming?
    requires !o.NotRan? && Claimable(s.rows, ids, cfg.batchSize, s.now)
    ensures Distinct(ClaimStep(cfg, s, w, ids, o))
  {
    var s' := ClaimStep(cfg, s, w, ids, o);
    forall v, i: nat | Holds(s', v, i) && v != w
      ensures Holds(s, v, i) && TicketOf(s', v, i) == TicketOf(s, v, i)
      ensures TicketOf(s', v, i).id in s.history && TicketOf(s', v, i).number <= s.history[TicketOf(s', v, i).id].claims
    {
      assert TicketInv(cfg, s, v, i);
    }
  }

  lemma ClaimedTickets(cfg: Config, s: State, w: WorkerId, ids: seq<RowId>, o: Outcome)
    requires Inv(cfg, s) && w in s.workers && s.workers[w].pc.Claiming?
    requires !o.NotRan? && Claimable(s.rows, ids, cfg.batchSize, s.now)
    ensures Inv(cfg, ClaimStep(cfg, s, w, ids, o))
  {
    var s' := ClaimStep(cfg, s, w, ids, o);
    ClaimKeepsDistinct(cfg, s, w, ids, o);
    forall id | id in s'.rows ensures RowInv(cfg, s', id) {
      assert RowInv(cfg, s, id);
    }
    forall v, i: nat | Holds(s', v, i) ensures TicketInv(cfg, s', v, i) {
      ClaimKeepsTicket(cfg, s, w, ids, o, v, i);
    }
    forall v | v in s'.workers ensures WorkerInv(cfg, s', v) {
      assert v in s.workers && WorkerInv(cfg, s, v);
    }
  }

  // ----- Send -----

  lemma SendKeepsTicket(cfg: Config, s: State, w: WorkerId, ok: bool, v: WorkerId, i: nat)
    requires Inv(cfg, s) && w in s.workers && s.workers[w].pc.Sending? && s.workers[w].queue != []
    requires s.workers[w].queue[0].id in s.rows && s.workers[w].queue[0].id in s.history
    requires Holds(SendStep(cfg, s, w, ok), v, i)
    ensures TicketInv(cfg, SendStep(cfg, s, w, ok), v, i)
  {
    var s' := SendStep(cfg, s, w, ok);
    assert Holds(s, v, i) && TicketInv(cfg, s, v, i);
    assert Holds(s, w, 0) && TicketInv(cfg, s, w, 0);
    assert IsLate(s, TicketOf(s, v, i)) ==> IsLate(s', TicketOf(s, v, i));
    assert v != w || i != 0 ==> TicketOf(s, v, i).id == TicketOf(s, w, 0).id ==>
             TicketOf(s, v, i).number != TicketOf(s, w, 0).number;
  }

  lemma SendKept(cfg: Config, s: State, w: WorkerId, ok: bool)
    requires Inv(cfg, s) && w in s.workers && s.workers[w].pc.Sending? && s.workers[w].queue != []
    requires s.workers[w].queue[0].id in s.rows && s.workers[w].queue[0].id in s.history
    ensures Inv(cfg, SendStep(cfg, s, w, ok))
  {
    var s' := SendStep(cfg, s, w, ok);
    assert forall v, i :: Holds(s', v, i) <==> Holds(s, v, i);
    assert Holds(s, w, 0) && TicketInv(cfg, s, w, 0);
    forall id | id in s'.rows ensures RowInv(cfg, s', id) {
      assert RowInv(cfg, s, id);
    }
    forall v, i: nat | Holds(s', v, i) ensures TicketInv(cfg, s', v, i) {
      SendKeepsTicket(cfg, s, w, ok, v, i);
    }
    forall v | v in s'.workers ensures WorkerInv(cfg, s', v) {
      assert WorkerInv(cfg, s, v);
    }
  }

  // ----- Mark -----

  /** A mark changes at most the ticket's row, and only if that row is processing. */
  lemma MarkedRowsFrame(cfg: Config, s: State, ticket: Ticket, published: bool, since: int)
    ensures
      var rows := MarkedRows(cfg, s, ticket, published, since);
      && rows.Keys == s.rows.Keys
      && (forall id | id in rows && id != ticket.id :: rows[id] == s.rows[id])
      && (ticket.id in s.rows && !s.rows[ticket.id].status.Processing? ==> rows == s.rows)
      && (forall id | id in rows :: MessageOf(cfg, rows[id]) == MessageOf(cfg, s.rows[id]))
  {
  }

  lemma MarkKeepsRow(cfg: Config, s: State, w: WorkerId, o: Outcome, id: RowId)
    requires Inv(cfg, s) && w in s.workers && s.workers[w].pc.Marking? && s.workers[w].queue != []
    requires id in s.rows
    ensures id in MarkStep(cfg, s, w, o).rows && RowInv(cfg, MarkStep(cfg, s, w, o), id)
  {
    assert Holds(s, w, 0) && TicketInv(cfg, s, w, 0);
    assert RowInv(cfg, s, id);
  }

  lemma MarkKeepsTicket(cfg: Config, s: State, w: WorkerId, o: Outcome, v: WorkerId, i: nat)
    requires Inv(cfg, s) && w in s.workers && s.workers[w].pc.Marking? && s.workers[w].queue != []
    requires Holds(MarkStep(cfg, s, w, o), v, i)
    ensures TicketInv(cfg, MarkStep(cfg, s, w, o), v, i)
  {
    var s', ticket := MarkStep(cfg, s, w, o), s.workers[w].queue[0];
    MarkedRowsFrame(cfg, s, ticket, s.workers[w].pc.published, s.workers[w].pc.since);
    var j := if v == w then i + 1 else i;
    assert Holds(s, v, j) && TicketOf(s', v, i) == TicketOf(s, v, j);
    var other := TicketOf(s, v, j);
    assert TicketInv(cfg, s, v, j) && Holds(s, w, 0) && TicketInv(cfg, s, w, 0);
    assert IsLate(s, other) ==> IsLate(s', other);
    assert other.id == ticket.id ==> TicketOf(s, w, 0).number != TicketOf(s, v, j).number;
    if IsLate(s, ticket) && other.id == ticket.id && ticket.number < other.number {
      var l :| l in s.lates && l.id == ticket.id && l.number <= ticket.number;
      assert IsLate(s, other);
    }
  }

  lemma MarkKeepsDistinct(cfg: Config, s: State, w: WorkerId, o: Outcome)
    requires Distinct(s) && w in s.workers && s.workers[w].pc.Marking? && s.workers[w].queue != []
    ensures Distinct(MarkStep(cfg, s, w, o))
  {
    var s' := MarkStep(cfg, s, w, o);
    forall v, i: nat | Holds(s', v, i)
      ensures var j := if v == w then i + 1 else i; Holds(s, v, j) && TicketOf(s', v, i) == TicketOf(s, v, j)
    {
    }
  }

  lemma MarkKept(cfg: Config, s: State, w: WorkerId, o: Outcome)
    requires Inv(cfg, s) && w in s.workers && s.workers[w].pc.Marking? && s.workers[w].queue != []
    ensures Inv(cfg, MarkStep(cfg, s, w, o))
  {
    var s' := MarkStep(cfg, s, w, o);
    MarkKeepsDistinct(cfg, s, w, o);
    forall id | id in s'.rows ensures RowInv(cfg, s', id) {
      MarkKeepsRow(cfg, s, w, o, id);
    }
    forall v, i: nat | Holds(s', v, i) ensures TicketInv(cfg, s', v, i) {
      MarkKeepsTicket(cfg, s, w, o, v, i);
    }
    forall v | v in s'.workers ensures WorkerInv(cfg, s', v) {
      assert WorkerInv(cfg, s, v);
    }
  }

  // ----- Release -----

  lemma ReleaseKept(cfg: Config, s: State, w: WorkerId, o: Outcome)
    requires Inv(cfg, s) && w in s.workers && s.workers[w].pc.Releasing?
    ensures Inv(cfg, ReleaseStep(s, w, o))
  {
    var s', stuckBefore := ReleaseStep(s, w, o), s.workers[w].pc.stuckBefore;
    assert WorkerInv(cfg, s, w);
    if o.NotRan? {
      WorkerStep(cfg, s, s', w);
    } else {
      forall id | id in s'.rows ensures RowInv(cfg, s', id) {
        assert RowInv(cfg, s, id);
      }
      assert forall v, i: nat | Holds(s', v, i) :: v != w && Holds(s, v, i) && TicketOf(s', v, i) == TicketOf(s, v, i);
      forall v, i: nat | Holds(s', v, i) ensures TicketInv(cfg, s', v, i) {
        assert TicketInv(cfg, s, v, i);
        var ticket := TicketOf(s, v, i);
        if Stuck(s.rows[ticket.id], stuckBefore) {
          if Current(s, ticket) {
            assert s.workers[v].queue[i] == ticket;
            assert HeldNow(s, ticket.id);
            assert Late(ticket.id, ticket.number, s.rows[ticket.id].lockedAt.value, s.now) in s'.lates;
          }
        }
        assert IsLate(s, ticket) ==> IsLate(s', ticket) by {
          if IsLate(s, ticket) {
            var l :| l in s.lates && l.id == ticket.id && l.number <= ticket.number;
            assert l in s'.lates;
          }
        }
      }
      forall v | v in s'.workers ensures WorkerInv(cfg, s', v) {
        assert WorkerInv(cfg, s, v);
      }
      forall l | l in s'.lates ensures LateInv(cfg, l) {
        if l !in s.lates {
          assert Stuck(s.rows[l.id], stuckBefore);
        }
      }
    }
  }

  lemma Kept(cfg: Config, s: State, e: Event)
    requires Inv(cfg, s)
    ensures Inv(cfg, Apply(cfg, s, e))
  {
    var s' := Apply(cfg, s, e);
    if s' == s {
      return;
    }
    match e
    case Insert(id, eventType, aggregate, payload) => InsertKept(cfg, s, id, eventType, aggregate, payload);
    case Tick(elapsed) => TickKept(cfg, s, elapsed);
    case ClaimRun(w, ids, o) => ClaimKept(cfg, s, w, ids, o);
    case SendRun(w, ok) => SendKept(cfg, s, w, ok);
    case MarkRun(w, o) => MarkKept(cfg, s, w, o);
    case ReleaseRun(w, o) => ReleaseKept(cfg, s, w, o);
    case StartBatch(w) => WorkerStep(cfg, s, s', w);
    case NextEvent(w, _) => WorkerStep(cfg, s, s', w);
    case StartRelease(w) => WorkerStep(cfg, s, s', w);
    case CrashWorker(w) => WorkerStep(cfg, s, s', w);
  }

  lemma {:induction false} Always(cfg: Config, es: seq<Event>)
    ensures Inv(cfg, Run(cfg, es))
  {
    if es != [] {
      Always(cfg, es[..|es| - 1]);
      Kept(cfg, Run(cfg, es[..|es| - 1]), es[|es| - 1]);
    }
  }

  // ----- What follows for every run -----

  /**
   The counting law, for any number of workers and any interleaving: the claims of a row are its
   retries, its releases and one more while it is processing or once it is published. Each claim
   is sent at most once.
   */
  lemma ClaimsAreCounted(cfg: Config, es: seq<Event>, id: RowId)
    requires id in Run(cfg, es).rows
    ensures
      var s := Run(cfg, es);
      && id in s.history
      && CountingLaw(s.rows[id], s.history[id])
      && s.history[id].sends <= s.history[id].claims
  {
    Always(cfg, es);
    var s := Run(cfg, es);
    assert RowInv(cfg, s, id);
    SubsetSize(s.history[id].sent, Span(1, s.history[id].claims));
  }

  /** The message of an order.created row goes to the created topic, that of an order.status.updated row to the updated topic. */
  predicate IsMessageOf(cfg: Config, row: Row, m: Message) {
    && m.key == row.aggregate && m.value == row.payload && m.topic != ""
    && ((row.eventType == "order.created" && m.topic == cfg.createdTopic)
        || (row.eventType == "order.status.updated" && m.topic == cfg.updatedTopic))
  }

  ghost predicate UnderItsTopic(cfg: Config, row: Row, acked: set<Message>) {
    exists m :: m in acked && IsMessageOf(cfg, row, m)
  }

  lemma MessageIsOf(cfg: Config, row: Row, acked: set<Message>)
    requires MessageOf(cfg, row) in acked && MessageTopic(cfg, row.eventType) != ""
    ensures UnderItsTopic(cfg, row, acked)
  {
    assert IsMessageOf(cfg, row, MessageOf(cfg, row));
  }

  /**
   A row is published only after the broker acknowledged its payload under its key and the topic of its type,
   so a row of another type never is; it is locked exactly while processing.
   */
  lemma PublishedWasAcknowledged(cfg: Config, es: seq<Event>, id: RowId)
    requires id in Run(cfg, es).rows
    ensures
      var s := Run(cfg, es);
      && (s.rows[id].status.Published? ==>
            UnderItsTopic(cfg, s.rows[id], s.acked))
      && (s.rows[id].lockedAt.Some? <==> s.rows[id].status.Processing?)
  {
    Always(cfg, es);
    var s := Run(cfg, es);
    assert RowInv(cfg, s, id);
    if s.rows[id].status.Published? {
      MessageIsOf(cfg, s.rows[id], s.acked);
    }
  }

  /** Whatever the broker acknowledged is the message of a row. */
  ghost predicate AckedInv(cfg: Config, s: State) {
    forall m | m in s.acked :: exists id :: id in s.rows && IsMessageOf(cfg, s.rows[id], m)
  }

  lemma AckedKept(cfg: Config, s: State, e: Event)
    requires Inv(cfg, s) && AckedInv(cfg, s)
    ensures AckedInv(cfg, Apply(cfg, s, e))
  {
    var s' := Apply(cfg, s, e);
    StepKeepsRows(cfg, s, e);
    forall m | m in s'.acked ensures exists id :: id in s'.rows && IsMessageOf(cfg, s'.rows[id], m) {
      if m in s.acked {
        var id :| id in s.rows && IsMessageOf(cfg, s.rows[id], m);
        assert id in s'.rows && IsMessageOf(cfg, s'.rows[id], m);
      } else {
        assert Holds(s, e.w, 0) && TicketInv(cfg, s, e.w, 0);
        assert IsMessageOf(cfg, s'.rows[s.workers[e.w].queue[0].id], m);
      }
    }
  }

  /** Nothing is sent but the messages of committed rows. */
  lemma AckedIsARow(cfg: Config, es: seq<Event>, m: Message) returns (id: RowId)
    requires m in Run(cfg, es).acked
    ensures id in Run(cfg, es).rows && IsMessageOf(cfg, Run(cfg, es).rows[id], m)
  {
    AckedAlways(cfg, es);
    id :| id in Run(cfg, es).rows && IsMessageOf(cfg, Run(cfg, es).rows[id], m);
  }

  lemma {:induction false} AckedAlways(cfg: Config, es: seq<Event>)
    ensures AckedInv(cfg, Run(cfg, es))
  {
    if es != [] {
      AckedAlways(cfg, es[..|es| - 1]);
      Always(cfg, es[..|es| - 1]);
      AckedKept(cfg, Run(cfg, es[..|es| - 1]), es[|es| - 1]);
    }
  }

  /** A claimed row whose type has a topic is sent next; any other is not sent at all but marked as failed. */
  lemma SentIfItHasATopic(cfg: Config, s: State, w: WorkerId)
    requires w in s.workers && (s.workers[w].pc.Claimed? || s.workers[w].pc.Returning?)
    requires s.workers[w].queue != [] && s.workers[w].queue[0].id in s.rows
    ensures
      var eventType := s.rows[s.workers[w].queue[0].id].eventType;
      Apply(cfg, s, NextEvent(w, false)).workers[w].pc ==
        if (eventType == "order.created" && cfg.createdTopic != "")
           || (eventType == "order.status.updated" && cfg.updatedTopic != "")
        then Sending else Marking(false, s.now)
  {
  }

  /** No row disappears, no row changes its content, published and failed rows never change again. */
  ghost predicate RowsStay(s: State, s': State) {
    forall id | id in s.rows ::
      && id in s'.rows
      && s'.rows[id].eventType == s.rows[id].eventType
      && s'.rows[id].aggregate == s.rows[id].aggregate
      && s'.rows[id].payload == s.rows[id].payload
      && (s.rows[id].status.Published? || s.rows[id].status.Failed? ==> s'.rows[id] == s.rows[id])
  }

  lemma StepKeepsRows(cfg: Config, s: State, e: Event)
    ensures RowsStay(s, Apply(cfg, s, e))
  {
  }

  lemma RunAppend(cfg: Config, es: seq<Event>, e: Event)
    ensures Run(cfg, es + [e]) == Apply(cfg, Run(cfg, es), e)
  {
    assert (es + [e])[..|es|] == es;
  }

  lemma {:induction false} FinalRowsStay(cfg: Config, es: seq<Event>, fs: seq<Event>)
    ensures RowsStay(Run(cfg, es), Run(cfg, es + fs))
  {
    if fs == [] {
      assert es + fs == es;
    } else {
      var n := |fs| - 1;
      FinalRowsStay(cfg, es, fs[..n]);
      StepKeepsRows(cfg, Run(cfg, es + fs[..n]), fs[n]);
      RunAppend(cfg, es + fs[..n], fs[n]);
      assert es + fs == (es + fs[..n]) + [fs[n]];
    }
  }

  /** Two tickets for one row, in the hands of two workers or of one. */
  predicate Shared(s: State, id: RowId) {
    exists w, v | w in s.workers && v in s.workers ::
      exists i, j | 0 <= i < |s.workers[w].queue| && 0 <= j < |s.workers[v].queue| ::
        (w != v || i != j) && s.workers[w].queue[i].id == id && s.workers[v].queue[j].id == id
  }

  /** Two tickets of row id, the first of an earlier claim. */
  predicate HandedOver(s: State, id: RowId, w: WorkerId, i: nat, v: WorkerId, j: nat) {
    && Holds(s, w, i) && Holds(s, v, j)
    && TicketOf(s, w, i).id == TicketOf(s, v, j).id == id
    && TicketOf(s, w, i).number < TicketOf(s, v, j).number
  }

  /**
   Two workers hold the same row only if a release took the claim of the earlier ticket, or one before it,
   from a worker that still held it and when it was older than processing_timeout.
   */
  lemma SharedOnlyAfterLateRelease(cfg: Config, es: seq<Event>, id: RowId, w: WorkerId, i: nat, v: WorkerId, j: nat)
    requires HandedOver(Run(cfg, es), id, w, i, v, j)
    ensures
      var s := Run(cfg, es);
      exists l :: l in s.lates && l.id == id && l.number <= TicketOf(s, w, i).number
                  && l.claimedAt + cfg.processingTimeout < l.releasedAt
  {
    Always(cfg, es);
    var s := Run(cfg, es);
    assert TicketInv(cfg, s, w, i) && TicketInv(cfg, s, v, j);
    assert IsLate(s, TicketOf(s, w, i));
    var l :| l in s.lates && l.id == id && l.number <= TicketOf(s, w, i).number;
    assert LateInv(cfg, l);
  }

  /** Of two tickets for one row one is of an earlier claim. */
  lemma SharedIsHandedOver(cfg: Config, es: seq<Event>, id: RowId) returns (w: WorkerId, i: nat, v: WorkerId, j: nat)
    requires Shared(Run(cfg, es), id)
    ensures HandedOver(Run(cfg, es), id, w, i, v, j)
  {
    Always(cfg, es);
    var s := Run(cfg, es);
    w, v, i, j :| w in s.workers && v in s.workers
                  && 0 <= i < |s.workers[w].queue| && 0 <= j < |s.workers[v].queue|
                  && (w != v || i != j) && s.workers[w].queue[i].id == id && s.workers[v].queue[j].id == id;
    assert Holds(s, w, i) && Holds(s, v, j) && TicketInv(cfg, s, w, i) && TicketInv(cfg, s, v, j);
    assert TicketOf(s, w, i).number != TicketOf(s, v, j).number;
    if TicketOf(s, v, j).number < TicketOf(s, w, i).number {
      w, i, v, j := v, j, w, i;
    }
  }
}
