/**
 Claims of one partition, session after session: which offset is marked. A session starts at
 or below the marked offset (commits may be lost), reads on after a message it left unmarked,
 and ends with an error, with its context, or with its channel.
 */
module ConsumerClaims {
  import opened Wrappers
  import opened ConsumerErrors
  import opened ConsumerChain

  /** marked is the next offset to consume; the sets say what became of the messages. */
  datatype Log = Log(marked: nat, processed: set<nat>, accepted: set<nat>, skipped: set<nat>)

  /** The deliveries the claim loop took before it ended; the context is done from cancelAt on. */
  datatype Session = Session(start: nat, cancelAt: nat, deliveries: seq<Delivery>)

  datatype Claim = Claim(log: Log, running: bool)

  function Start(base: nat): Log {
    Log(base, {}, {}, {})
  }

  function Marking(log: Log, offset: nat): Log {
    log.(marked := if offset < log.marked then log.marked else offset + 1)
  }

  /** What became of a message, and what the claim does about it. */
  datatype Effect = Effect(processed: bool, accepted: bool, skipped: bool, verdict: Verdict)

  function EffectOf(cfg: Config, cancelAt: nat, d: Delivery): Effect
    requires Complete(cfg, d)
  {
    Effect(Processed(d), Accepted(cfg, cancelAt, d), Skipped(d), Verdicts(cfg, cancelAt, d))
  }

  /** What one delivery leaves behind. */
  function Handle(offset: nat, e: Effect, log: Log): Claim {
    var noted := log.(
      processed := log.processed + (if e.processed then {offset} else {}),
      accepted := log.accepted + (if e.accepted then {offset} else {}),
      skipped := log.skipped + (if e.skipped then {offset} else {}));
    match e.verdict
    case Mark => Claim(Marking(noted, offset), true)
    case Leave => Claim(noted, true)
    case Fail => Claim(noted, false)
  }

  predicate AllComplete(cfg: Config, s: Session) {
    forall i | 0 <= i < |s.deliveries| :: Complete(cfg, s.deliveries[i])
  }

  function EffectsOf(cfg: Config, s: Session): seq<Effect>
    requires AllComplete(cfg, s)
  {
    seq(|s.deliveries|, i requires 0 <= i < |s.deliveries| => EffectOf(cfg, s.cancelAt, s.deliveries[i]))
  }

  /** The claim after these deliveries; once it failed it takes no more. */
  function ClaimAfter(start: nat, effects: seq<Effect>, log: Log): Claim {
    if effects == [] then Claim(log, true)
    else
      var n := |effects| - 1;
      var before := ClaimAfter(start, effects[..n], log);
      if before.running then Handle(start + n, effects[n], before.log) else before
  }

  function Run(cfg: Config, base: nat, sessions: seq<Session>): Log
    requires forall i | 0 <= i < |sessions| :: AllComplete(cfg, sessions[i])
  {
    if sessions == [] then Start(base)
    else
      var last := sessions[|sessions| - 1];
      ClaimAfter(last.start, EffectsOf(cfg, last), Run(cfg, base, sessions[..|sessions| - 1])).log
  }

  // ----- The loops -----

  class Consumer {
    const cfg: Config
    var log: Log

    constructor (cfg: Config, base: nat)
      ensures this.cfg == cfg && log == Start(base)
    {
      this.cfg := cfg;
      log := Start(base);
    }

    method MarkMessage(offset: nat)
      modifies this
      ensures log == Marking(old(log), offset)
    {
      if log.marked <= offset {
        log := log.(marked := offset + 1);
      }
    }

    /** DLQMiddleware around the result of the retries; sent is the error and the count of the DLQ message. */
    method Dlq(cancelAt: nat, offset: nat, d: Delivery, inner: Exit) returns (r: Result, sent: Option<(Err, nat)>)
      modifies this
      ensures r == AfterDlq(cfg, cancelAt, d, inner)
      ensures sent.Some? <==> r.accepted
      ensures sent.Some? ==> inner.Returned? && inner.err.Some? && sent.value == Unwound(inner.err.value)
      ensures log == old(log).(accepted := old(log).accepted + (if r.accepted then {offset} else {}))
    {
      r, sent := Result(inner, false), None;
      if inner.Panic? || inner.err.None? || IsControlFlow(inner.err.value) {
        return;
      }
      var lastErr, retryCount := inner.err.value, 0;
      var exhausted := AsRetryExhausted(lastErr);
      if exhausted.Some? {
        retryCount := exhausted.value.count + 1;
        lastErr := exhausted.value.inner;
      }
      if IsControlFlow(lastErr) {
        return Result(Returned(Some(lastErr)), false), None;
      }
      if cancelAt <= d.sendAt {
        return Result(Returned(Some(Both(Stop, Context))), false), None;
      }
      if !cfg.publisher {
        return Result(Returned(Some(lastErr)), false), None;
      }
      if d.refusal.Some? {
        return Result(Returned(d.refusal), false), None;
      }
      log := log.(accepted := log.accepted + {offset});
      r, sent := Result(Returned(Some(Handled)), true), Some((lastErr, retryCount));
    }

    /** handleMessageResult. */
    method HandleMessageResult(offset: nat, err: Option<Err>) returns (failed: bool)
      modifies this
      ensures failed == VerdictOf(err).Fail?
      ensures log == if VerdictOf(err).Mark? then Marking(old(log), offset) else old(log)
    {
      failed := false;
      if err.None? {
        MarkMessage(offset);
      } else if Is(err.value, Handled) {
        MarkMessage(offset);
      } else if Is(err.value, Skip) {
        MarkMessage(offset);
      } else if Is(err.value, Restart) {
        failed := true;
      } else if Is(err.value, Stop) {
      } else if IsNonRetryable(err.value) {
        MarkMessage(offset);
      } else {
        failed := true;
      }
    }

    /** handleMessage: the wrapped handler, then its result. */
    method HandleMessage(cancelAt: nat, offset: nat, d: Delivery, ghost e: Effect) returns (failed: bool)
      requires Complete(cfg, d) && e == EffectOf(cfg, cancelAt, d)
      modifies this
      ensures Claim(log, !failed) == Handle(offset, e, old(log))
    {
      var inner, calls := RetryMiddleware(cfg, d);
      if inner == Returned(None) {
        log := log.(processed := log.processed + {offset});
      }
      if inner.Returned? && inner.err.Some? && Is(inner.err.value, Skip) {
        log := log.(skipped := log.skipped + {offset});
      }
      var r, sent := Dlq(cancelAt, offset, d, inner);
      if r.outcome.Panic? {
        r := r.(outcome := Returned(Some(Other("panic recovered in kafka handler"))));
      }
      assert r == Chain(cfg, cancelAt, d);
      failed := HandleMessageResult(offset, r.outcome.err);
    }

    /** ConsumeClaim: message after message; only a failure ends the loop early. */
    method ConsumeClaim(s: Session) returns (failed: bool)
      requires AllComplete(cfg, s)
      modifies this
      ensures Claim(log, !failed) == ClaimAfter(s.start, EffectsOf(cfg, s), old(log))
    {
      ghost var effects := EffectsOf(cfg, s);
      failed := false;
      var n := 0;
      while n < |s.deliveries|
        invariant n <= |s.deliveries| && !failed
        invariant Claim(log, true) == ClaimAfter(s.start, effects[..n], old(log))
      {
        assert effects[..n + 1][..n] == effects[..n];
        failed := HandleMessage(s.cancelAt, s.start + n, s.deliveries[n], effects[n]);
        n := n + 1;
        if failed {
          StaysFailed(s.start, effects, n, old(log));
          return;
        }
      }
      assert effects[..n] == effects;
    }

    /** Consume: a new session whenever one ends. */
    method Consume(base: nat, sessions: seq<Session>)
      requires forall i | 0 <= i < |sessions| :: AllComplete(cfg, sessions[i])
      requires log == Start(base)
      modifies this
      ensures log == Run(cfg, base, sessions)
      ensures SessionsSafe(cfg, base, sessions) ==> AllDisposed(log, base, log.marked)
    {
      for i := 0 to |sessions|
        invariant log == Run(cfg, base, sessions[..i])
      {
        var failed := ConsumeClaim(sessions[i]);
        assert sessions[..i + 1][..i] == sessions[..i];
      }
      assert sessions[..|sessions|] == sessions;
      if SessionsSafe(cfg, base, sessions) {
        MarkedNeverPassesAMessage(cfg, base, sessions);
      }
    }
  }

  lemma {:induction false} StaysFailed(start: nat, effects: seq<Effect>, n: nat, log: Log)
    requires n <= |effects| && !ClaimAfter(start, effects[..n], log).running
    ensures ClaimAfter(start, effects, log) == ClaimAfter(start, effects[..n], log)
    decreases |effects|
  {
    var m := |effects| - 1;
    if n <= m {
      assert effects[..m][..n] == effects[..n];
      StaysFailed(start, effects[..m], n, log);
    } else {
      assert effects[..n] == effects;
    }
  }

  /** A claim ends early exactly when some delivery failed; a message that is left does not end it. */
  lemma {:induction false} OnlyFailuresEnd(start: nat, effects: seq<Effect>, log: Log)
    ensures ClaimAfter(start, effects, log).running <==> forall i | 0 <= i < |effects| :: !effects[i].verdict.Fail?
  {
    if effects != [] {
      var n := |effects| - 1;
      OnlyFailuresEnd(start, effects[..n], log);
      assert forall i | 0 <= i < n :: effects[..n][i] == effects[i];
    }
  }

  /** The marked offset never moves back, and moves behind every message that is marked while the claim goes on. */
  lemma {:induction false} MarkedGrows(start: nat, effects: seq<Effect>, log: Log)
    ensures
      var claim := ClaimAfter(start, effects, log);
      && log.marked <= claim.log.marked
      && (claim.running ==> forall i | 0 <= i < |effects| && effects[i].verdict.Mark? :: start + i < claim.log.marked)
  {
    if effects != [] {
      var n := |effects| - 1;
      MarkedGrows(start, effects[..n], log);
      assert forall i | 0 <= i < n :: effects[..n][i] == effects[i];
    }
  }

  // ----- Offset safety -----

  /** When the deliveries may start, and the last one ended. */
  function Times(s: Session): (times: seq<nat>)
    ensures |times| == |s.deliveries| + 1
  {
    [0] + seq(|s.deliveries|, i requires 0 <= i < |s.deliveries| => s.deliveries[i].finish)
  }

  /** Deliveries follow each other in time. */
  predicate SessionTimed(cfg: Config, s: Session) {
    && AllComplete(cfg, s)
    && forall i | 0 <= i < |s.deliveries| :: Timed(s.cancelAt, Times(s)[i], s.deliveries[i])
  }

  predicate SessionSafe(cfg: Config, s: Session) {
    SessionTimed(cfg, s) && forall i | 0 <= i < |s.deliveries| :: SafeDelivery(cfg, s.cancelAt, s.deliveries[i])
  }

  predicate SessionKeepsRules(cfg: Config, s: Session) {
    && SessionTimed(cfg, s)
    && forall i | 0 <= i < |s.deliveries| ::
         HandlerKeepsRules(s.cancelAt, s.deliveries[i]) && PublisherKeepsRules(cfg, s.deliveries[i])
  }

  /** Every session starts at or below the offset marked so far. */
  predicate SessionsResume(cfg: Config, base: nat, sessions: seq<Session>) {
    && (forall i | 0 <= i < |sessions| :: AllComplete(cfg, sessions[i]))
    && (forall i | 0 <= i < |sessions| :: sessions[i].start <= Run(cfg, base, sessions[..i]).marked)
  }

  predicate SessionsSafe(cfg: Config, base: nat, sessions: seq<Session>) {
    SessionsResume(cfg, base, sessions) && forall i | 0 <= i < |sessions| :: SessionSafe(cfg, sessions[i])
  }

  predicate SessionsKeepRules(cfg: Config, base: nat, sessions: seq<Session>) {
    SessionsResume(cfg, base, sessions) && forall i | 0 <= i < |sessions| :: SessionKeepsRules(cfg, sessions[i])
  }

  predicate Disposed(log: Log, offset: nat) {
    offset in log.processed || offset in log.accepted || offset in log.skipped
  }

  ghost predicate AllDisposed(log: Log, from: nat, to: nat) {
    forall o: nat | from <= o < to :: Disposed(log, o)
  }

  /** An offset is marked only for a message dealt with and started in time, left only when the context is done. */
  predicate SafeEffect(e: Effect, cancelAt: nat, ready: nat, finish: nat) {
    && ready <= finish
    && (e.verdict.Mark? ==> ready < cancelAt && (e.processed || e.accepted || e.skipped))
    && (e.verdict.Leave? ==> cancelAt <= finish)
  }

  lemma OneSafe(cfg: Config, cancelAt: nat, ready: nat, d: Delivery, e: Effect)
    requires Complete(cfg, d) && e == EffectOf(cfg, cancelAt, d) && SafeDelivery(cfg, cancelAt, d) && Timed(cancelAt, ready, d)
    ensures SafeEffect(e, cancelAt, ready, d.finish)
  {
    assert ready <= d.attempts[0].at <= d.sendAt;
  }

  lemma DeliverySafe(cfg: Config, s: Session, i: nat)
    requires SessionSafe(cfg, s) && i < |s.deliveries|
    ensures SafeEffect(EffectsOf(cfg, s)[i], s.cancelAt, Times(s)[i], Times(s)[i + 1])
  {
    OneSafe(cfg, s.cancelAt, Times(s)[i], s.deliveries[i], EffectsOf(cfg, s)[i]);
  }

  /** Effect i falls between times[i] and times[i + 1]. */
  predicate SafeEffects(effects: seq<Effect>, cancelAt: nat, times: seq<nat>) {
    |times| == |effects| + 1
    && forall i | 0 <= i < |effects| :: SafeEffect(effects[i], cancelAt, times[i], times[i + 1])
  }

  lemma {:induction false} ClaimSafe(start: nat, effects: seq<Effect>, cancelAt: nat, times: seq<nat>, base: nat, log: Log)
    requires SafeEffects(effects, cancelAt, times)
    requires AllDisposed(log, base, log.marked) && start <= log.marked
    ensures
      var claim := ClaimAfter(start, effects, log);
      && AllDisposed(claim.log, base, claim.log.marked)
      && (claim.running ==> AllDisposed(claim.log, base, start + |effects|) || cancelAt <= times[|effects|])
    decreases |effects|
  {
    if effects != [] {
      var n := |effects| - 1;
      ClaimSafe(start, effects[..n], cancelAt, times[..n + 1], base, log);
      var before, claim := ClaimAfter(start, effects[..n], log), ClaimAfter(start, effects, log);
      assert SafeEffect(effects[n], cancelAt, times[n], times[n + 1]);
      forall o: nat | Disposed(before.log, o) ensures Disposed(claim.log, o) {
      }
      if before.running && effects[n].verdict.Mark? {
        assert Disposed(claim.log, start + n);
        assert forall o: nat | base <= o < start + n + 1 :: o == start + n || Disposed(before.log, o);
      }
    }
  }

  lemma SessionEffects(cfg: Config, s: Session, effects: seq<Effect>, times: seq<nat>)
    requires SessionSafe(cfg, s) && effects == EffectsOf(cfg, s) && times == Times(s)
    ensures SafeEffects(effects, s.cancelAt, times)
  {
    forall i | 0 <= i < |effects| ensures SafeEffect(effects[i], s.cancelAt, times[i], times[i + 1]) {
      DeliverySafe(cfg, s, i);
    }
  }

  /**
   Across any number of sessions, restarts, failures and lost commits: if every delivery is safe, the
   marked offset never passes a message that was neither processed, nor accepted by the DLQ, nor skipped
   by its handler.
   */
  lemma {:induction false} MarkedNeverPassesAMessage(cfg: Config, base: nat, sessions: seq<Session>)
    requires SessionsSafe(cfg, base, sessions)
    ensures AllDisposed(Run(cfg, base, sessions), base, Run(cfg, base, sessions).marked)
  {
    if sessions != [] {
      var rest, last := sessions[..|sessions| - 1], sessions[|sessions| - 1];
      assert forall i | 0 <= i < |rest| :: sessions[..i] == rest[..i] && sessions[i] == rest[i];
      MarkedNeverPassesAMessage(cfg, base, rest);
      SessionEffects(cfg, last, EffectsOf(cfg, last), Times(last));
      ClaimSafe(last.start, EffectsOf(cfg, last), last.cancelAt, Times(last), base, Run(cfg, base, rest));
    }
  }

  /** The rules of handler and publisher are enough. */
  lemma RulesKeepOffsetsSafe(cfg: Config, base: nat, sessions: seq<Session>)
    requires SessionsKeepRules(cfg, base, sessions)
    ensures AllDisposed(Run(cfg, base, sessions), base, Run(cfg, base, sessions).marked)
  {
    forall i, j | 0 <= i < |sessions| && 0 <= j < |sessions[i].deliveries|
      ensures SafeDelivery(cfg, sessions[i].cancelAt, sessions[i].deliveries[j])
    {
      assert SessionKeepsRules(cfg, sessions[i]);
      RulesMakeSafe(cfg, sessions[i].cancelAt, Times(sessions[i])[j], sessions[i].deliveries[j]);
    }
    MarkedNeverPassesAMessage(cfg, base, sessions);
  }
}
