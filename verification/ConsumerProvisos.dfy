/**
 What the offset theorem asks is exactly what it takes: a delivery that is not safe loses a message
 in some session, and each rule of handler and publisher alone keeps deliveries safe from one loss.
 */
module ConsumerProvisos {
  import opened Wrappers
  import opened ConsumerErrors
  import opened ConsumerChain
  import opened ConsumerClaims

  /** The session marks past a message that was not dealt with. */
  ghost predicate Loses(cfg: Config, s: Session) {
    AllComplete(cfg, s) && !AllDisposed(Run(cfg, 0, [s]), 0, Run(cfg, 0, [s]).marked)
  }

  lemma OneEffect(cfg: Config, s: Session, e: Effect)
    requires s.start == 0 && AllComplete(cfg, s) && EffectsOf(cfg, s) == [e]
    ensures Run(cfg, 0, [s]) == Handle(0, e, Start(0)).log
  {
    assert [s][..0] == [] && [e][..0] == [];
    assert ClaimAfter(0, [], Start(0)) == Claim(Start(0), true);
  }

  lemma TwoEffects(cfg: Config, s: Session, e: Effect, f: Effect)
    requires s.start == 0 && AllComplete(cfg, s) && EffectsOf(cfg, s) == [e, f] && Handle(0, e, Start(0)).running
    ensures Run(cfg, 0, [s]) == Handle(1, f, Handle(0, e, Start(0)).log).log
  {
    assert [s][..0] == [] && [e, f][..1] == [e] && [e][..0] == [];
    assert ClaimAfter(0, [], Start(0)) == Claim(Start(0), true);
    assert ClaimAfter(0, [e], Start(0)) == Handle(0, e, Start(0));
  }

  /** A handler that fails until the context is done. */
  function LeftBehind(cfg: Config, cancelAt: nat): Delivery {
    Delivery(seq(MaxRetries(cfg) + 1, i => Attempt(0, Failed(Other("timeout")), false)), cancelAt, None, cancelAt)
  }

  lemma LeftBehindIsLeft(cfg: Config, cancelAt: nat)
    ensures
      var d := LeftBehind(cfg, cancelAt);
      Complete(cfg, d) && Timed(cancelAt, 0, d) && EffectOf(cfg, cancelAt, d) == Effect(false, false, false, Leave)
  {
    var d := LeftBehind(cfg, cancelAt);
    var k := LastCall(d.attempts, 0);
    assert Retried(d.attempts, 0) == Returned(Some(RetryExhausted(Other("timeout"), k)));
    assert Chain(cfg, cancelAt, d) == Result(Returned(Some(StoppedError())), false);
  }

  /** A handler that succeeds at once. */
  function InTime(cfg: Config, at: nat): Delivery {
    Delivery(seq(MaxRetries(cfg) + 1, i => Attempt(at, Success, false)), at, None, at)
  }

  lemma InTimeIsMarked(cfg: Config, cancelAt: nat, at: nat)
    requires at < cancelAt
    ensures
      var d := InTime(cfg, at);
      Complete(cfg, d) && Timed(cancelAt, at, d) && EffectOf(cfg, cancelAt, d) == Effect(true, false, false, Mark)
  {
    assert Retried(InTime(cfg, at).attempts, 0) == Returned(None);
  }

  /** A session at offset 0 whose deliveries are d or safe. */
  predicate SafeBut(cfg: Config, cancelAt: nat, d: Delivery, s: Session) {
    && s.start == 0 && s.cancelAt == cancelAt && SessionTimed(cfg, s)
    && forall i | 0 <= i < |s.deliveries| :: s.deliveries[i] == d || SafeDelivery(cfg, cancelAt, s.deliveries[i])
  }

  lemma LosesAlone(cfg: Config, cancelAt: nat, d: Delivery, e: Effect) returns (s: Session)
    requires Complete(cfg, d) && Timed(cancelAt, d.attempts[0].at, d) && e == EffectOf(cfg, cancelAt, d)
    requires e.verdict.Mark? && !(e.processed || e.accepted || e.skipped)
    ensures SafeBut(cfg, cancelAt, d, s) && Loses(cfg, s)
  {
    s := Session(0, cancelAt, [d]);
    assert EffectsOf(cfg, s) == [e];
    OneEffect(cfg, s, e);
    assert !Disposed(Run(cfg, 0, [s]), 0);
  }

  lemma BothTimed(cfg: Config, cancelAt: nat, c: Delivery, d: Delivery)
    requires Complete(cfg, c) && Complete(cfg, d) && Timed(cancelAt, 0, c) && Timed(cancelAt, c.finish, d)
    ensures SessionTimed(cfg, Session(0, cancelAt, [c, d]))
  {
  }

  lemma LosesTheOneBefore(cfg: Config, cancelAt: nat, d: Delivery, e: Effect) returns (s: Session)
    requires Complete(cfg, d) && Timed(cancelAt, d.attempts[0].at, d) && e == EffectOf(cfg, cancelAt, d)
    requires e.verdict.Mark? && cancelAt <= d.attempts[0].at
    ensures SafeBut(cfg, cancelAt, d, s) && Loses(cfg, s)
  {
    var left, f := LeftBehind(cfg, cancelAt), Effect(false, false, false, Leave);
    LeftBehindIsLeft(cfg, cancelAt);
    s := Session(0, cancelAt, [left, d]);
    assert SafeDelivery(cfg, cancelAt, left);
    BothTimed(cfg, cancelAt, left, d);
    assert EffectsOf(cfg, s) == [f, e];
    TwoEffects(cfg, s, f, e);
    assert !Disposed(Run(cfg, 0, [s]), 0);
  }

  lemma LosesByTheNext(cfg: Config, cancelAt: nat, d: Delivery, e: Effect) returns (s: Session)
    requires Complete(cfg, d) && Timed(cancelAt, d.attempts[0].at, d) && e == EffectOf(cfg, cancelAt, d)
    requires e.verdict.Leave? && d.finish < cancelAt
    ensures SafeBut(cfg, cancelAt, d, s) && Loses(cfg, s)
  {
    LeaveDisposesNothing(cfg, cancelAt, d);
    var ok, f := InTime(cfg, d.finish), Effect(true, false, false, Mark);
    InTimeIsMarked(cfg, cancelAt, d.finish);
    s := Session(0, cancelAt, [d, ok]);
    assert EffectsOf(cfg, s) == [e, f];
    TwoEffects(cfg, s, e, f);
    assert !Disposed(Run(cfg, 0, [s]), 0);
  }

  /** An unsafe delivery loses a message, alone or beside one safe delivery. */
  lemma UnsafeDeliveryLosesAMessage(cfg: Config, cancelAt: nat, d: Delivery) returns (s: Session)
    requires Complete(cfg, d) && Timed(cancelAt, d.attempts[0].at, d) && !SafeDelivery(cfg, cancelAt, d)
    ensures SafeBut(cfg, cancelAt, d, s) && Loses(cfg, s)
  {
    var e := EffectOf(cfg, cancelAt, d);
    if e.verdict.Leave? {
      s := LosesByTheNext(cfg, cancelAt, d, e);
    } else if e.processed || e.accepted || e.skipped {
      s := LosesTheOneBefore(cfg, cancelAt, d, e);
    } else {
      s := LosesAlone(cfg, cancelAt, d, e);
    }
  }

  lemma LeaveDisposesNothing(cfg: Config, cancelAt: nat, d: Delivery)
    requires Complete(cfg, d) && Verdicts(cfg, cancelAt, d) == Leave
    ensures !Processed(d) && !Accepted(cfg, cancelAt, d) && !Skipped(d)
  {
  }

  /** A delivery is safe exactly when no session of it and safe deliveries loses a message. */
  lemma SafeExactly(cfg: Config, cancelAt: nat, d: Delivery)
    requires Complete(cfg, d) && Timed(cancelAt, d.attempts[0].at, d)
    ensures SafeDelivery(cfg, cancelAt, d) <==> forall s | SafeBut(cfg, cancelAt, d, s) :: !Loses(cfg, s)
  {
    if SafeDelivery(cfg, cancelAt, d) {
      forall s | SafeBut(cfg, cancelAt, d, s) ensures !Loses(cfg, s) {
        assert [s][..0] == [];
        MarkedNeverPassesAMessage(cfg, 0, [s]);
      }
    } else {
      var s := UnsafeDeliveryLosesAMessage(cfg, cancelAt, d);
    }
  }

  // ----- Each rule is needed -----

  /** A success under the done context, the other rules kept: it marks past a stopped message. */
  lemma LateSuccessLosesAMessage() returns (cfg: Config, d: Delivery, s: Session)
    ensures !NoLateSuccess(5, d) && StopsOnlyWhenDone(5, d) && NeverHandled(d) && PublisherKeepsRules(cfg, d)
    ensures SafeBut(cfg, 5, d, s) && Loses(cfg, s)
  {
    cfg, d := Config(0, true), Delivery([Attempt(7, Success, false)], 7, None, 7);
    assert d.attempts[0].at == 7 && Retried(d.attempts, 0) == Returned(None);
    s := UnsafeDeliveryLosesAMessage(cfg, 5, d);
  }

  /** A stop under the live context, the other rules kept: the claim goes on and marks past it. */
  lemma LiveStopLosesAMessage() returns (cfg: Config, d: Delivery, s: Session)
    ensures NoLateSuccess(5, d) && !StopsOnlyWhenDone(5, d) && NeverHandled(d) && PublisherKeepsRules(cfg, d)
    ensures SafeBut(cfg, 5, d, s) && Loses(cfg, s)
  {
    cfg, d := Config(0, true), Delivery([Attempt(1, Failed(Stop), false)], 1, None, 1);
    assert d.attempts[0].reaction.err == Stop && Retried(d.attempts, 0) == Returned(Some(Stop));
    s := UnsafeDeliveryLosesAMessage(cfg, 5, d);
  }

  /** ErrMessageHandledByDLQ returned by the handler, the other rules kept: its own message is lost. */
  lemma FalseHandledLosesAMessage() returns (cfg: Config, d: Delivery, s: Session)
    ensures NoLateSuccess(5, d) && StopsOnlyWhenDone(5, d) && !NeverHandled(d) && PublisherKeepsRules(cfg, d)
    ensures SafeBut(cfg, 5, d, s) && Loses(cfg, s)
  {
    cfg, d := Config(0, true), Delivery([Attempt(1, Failed(Handled), false)], 1, None, 1);
    assert d.attempts[0].reaction.err == Handled && Retried(d.attempts, 0) == Returned(Some(Handled));
    s := UnsafeDeliveryLosesAMessage(cfg, 5, d);
  }

  /** A publisher that refuses with a non-retryable error, the handler's rules kept. */
  lemma FinalRefusalLosesAMessage() returns (cfg: Config, d: Delivery, s: Session)
    ensures cfg.publisher && HandlerKeepsRules(5, d) && !PublisherKeepsRules(cfg, d)
    ensures SafeBut(cfg, 5, d, s) && Loses(cfg, s)
  {
    cfg := Config(0, true);
    d := Delivery([Attempt(1, Failed(TooLarge), false)], 1, Some(TooLarge), 1);
    assert Retried(d.attempts, 0) == Returned(Some(TooLarge));
    s := UnsafeDeliveryLosesAMessage(cfg, 5, d);
  }

  /** No publisher and a non-retryable error of the handler, the handler's rules kept. */
  lemma NoPublisherLosesAMessage() returns (cfg: Config, d: Delivery, s: Session)
    ensures !cfg.publisher && HandlerKeepsRules(5, d)
    ensures SafeBut(cfg, 5, d, s) && Loses(cfg, s)
  {
    cfg := Config(0, false);
    d := Delivery([Attempt(1, Failed(TooLarge), false)], 1, None, 1);
    assert Retried(d.attempts, 0) == Returned(Some(TooLarge));
    s := UnsafeDeliveryLosesAMessage(cfg, 5, d);
  }
}
