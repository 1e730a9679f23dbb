/**
 What happens to one delivered message: panic recovery around the DLQ middleware around the
 retry middleware around the handler, and what the group handler does with the result. The
 environment of a delivery (what the handler, the timers and the DLQ broker do, and when) is a
 value; the context of the session is done from a fixed time on.
 */
module ConsumerChain {
  import opened Wrappers
  import opened ConsumerErrors

  /** publisher is false for a nil DLQ publisher. */
  datatype Config = Config(retries: int, publisher: bool)

  datatype Reaction = Success | Failed(err: Err) | Panicked

  /** A call of the handler, and whether the wait behind it ended with the context instead of the timer. */
  datatype Attempt = Attempt(at: nat, reaction: Reaction, stopped: bool)

  /** refusal is the error of the DLQ publisher, None when the broker accepted the message. */
  datatype Delivery = Delivery(attempts: seq<Attempt>, sendAt: nat, refusal: Option<Err>, finish: nat)

  datatype Exit = Returned(err: Option<Err>) | Panic

  /** What became of the message: the chain's error, and whether the DLQ accepted the message. */
  datatype Result = Result(outcome: Exit, accepted: bool)

  datatype Verdict = Mark | Leave | Fail

  function MaxRetries(cfg: Config): nat {
    if cfg.retries < 0 then 0 else cfg.retries
  }

  predicate Complete(cfg: Config, d: Delivery) {
    |d.attempts| == MaxRetries(cfg) + 1
  }

  /** A call that asks for another one. */
  predicate Retryable(a: Attempt) {
    a.reaction.Failed? && !EndsRetries(a.reaction.err)
  }

  function StoppedError(): Err {
    Both(Stop, Context)
  }

  /** The retry middleware when call n is the next one. */
  function Retried(attempts: seq<Attempt>, n: nat): Exit
    requires n < |attempts|
    decreases |attempts| - n
  {
    match attempts[n].reaction
    case Success => Returned(None)
    case Panicked => Panic
    case Failed(e) =>
      if IsNonRetryable(e) then Returned(Some(e))
      else if n == |attempts| - 1 then Returned(Some(RetryExhausted(e, n)))
      else if attempts[n].stopped then Returned(Some(StoppedError()))
      else Retried(attempts, n + 1)
  }

  /** RetryMiddleware: up to MaxRetries + 1 calls. */
  method RetryMiddleware(cfg: Config, d: Delivery) returns (outcome: Exit, calls: nat)
    requires Complete(cfg, d)
    ensures outcome == Retried(d.attempts, 0)
    ensures 0 < calls && (cfg.retries <= 0 ==> calls == 1) && (cfg.retries > 0 ==> calls <= cfg.retries + 1)
    ensures forall i | 0 <= i < calls - 1 :: Retryable(d.attempts[i]) && !d.attempts[i].stopped
    ensures match outcome
            case Panic => d.attempts[calls - 1].reaction.Panicked?
            case Returned(None) => d.attempts[calls - 1].reaction.Success?
            case Returned(Some(e)) =>
              var last := d.attempts[calls - 1];
              last.reaction.Failed? &&
              if !Retryable(last) then e == last.reaction.err
              else if calls > cfg.retries then e == RetryExhausted(last.reaction.err, calls - 1)
              else last.stopped && e == Both(Stop, Context)
    ensures d.attempts[0].reaction.Failed? && d.attempts[0].reaction.err.NonRetryable? ==>
              calls == 1 && outcome == Returned(Some(d.attempts[0].reaction.err))
  {
    var maxRetries := cfg.retries;
    if maxRetries < 0 {
      maxRetries := 0;
    }
    calls := 0;
    if d.attempts[0].reaction.Failed? && d.attempts[0].reaction.err.NonRetryable? {
      FinalEndsRetries(d.attempts[0].reaction.err);
    }
    while calls < maxRetries + 1
      invariant calls <= maxRetries
      invariant Retried(d.attempts, 0) == Retried(d.attempts, calls)
      invariant forall i | 0 <= i < calls :: Retryable(d.attempts[i]) && !d.attempts[i].stopped
    {
      var attempt := d.attempts[calls];
      calls := calls + 1;
      match attempt.reaction
      case Success => return Returned(None), calls;
      case Panicked => return Panic, calls;
      case Failed(e) =>
        if IsNonRetryable(e) {
          return Returned(Some(e)), calls;
        }
        if calls - 1 < maxRetries {
          if attempt.stopped {
            return Returned(Some(Both(Stop, Context))), calls;
          }
        } else {
          return Returned(Some(RetryExhausted(e, maxRetries))), calls;
        }
    }
    assert false;
  }

  /** sendToDLQ. */
  function SendToDlq(cfg: Config, cancelAt: nat, d: Delivery, lastErr: Err): Result {
    if cancelAt <= d.sendAt then Result(Returned(Some(StoppedError())), false)
    else if !cfg.publisher then Result(Returned(Some(lastErr)), false)
    else if d.refusal.Some? then Result(Returned(d.refusal), false)
    else Result(Returned(Some(Handled)), true)
  }

  /** The error and the number of attempts that go into the DLQ message. */
  function Unwound(e: Err): (Err, nat) {
    match AsRetryExhausted(e)
    case Some(exhausted) => (exhausted.inner, exhausted.count + 1)
    case None => (e, 0)
  }

  /** DLQMiddleware. */
  function AfterDlq(cfg: Config, cancelAt: nat, d: Delivery, inner: Exit): Result {
    if inner.Panic? || inner.err.None? then Result(inner, false)
    else
      var e := inner.err.value;
      if IsControlFlow(e) then Result(inner, false)
      else
        var lastErr := Unwound(e).0;
        if IsControlFlow(lastErr) then Result(Returned(Some(lastErr)), false)
        else SendToDlq(cfg, cancelAt, d, lastErr)
  }

  /** PanicRecoveryMiddleware. */
  function Recovered(r: Result): Result {
    if r.outcome.Panic? then r.(outcome := Returned(Some(Other("panic recovered in kafka handler")))) else r
  }

  /** The handler as applyMiddlewares wraps it. */
  function Chain(cfg: Config, cancelAt: nat, d: Delivery): (r: Result)
    requires Complete(cfg, d)
    ensures r.outcome.Returned?
  {
    Recovered(AfterDlq(cfg, cancelAt, d, Retried(d.attempts, 0)))
  }

  /** handleMessageResult: mark the offset, leave it unmarked and go on, or end the claim with the error. */
  function VerdictOf(err: Option<Err>): Verdict {
    if err.None? then Mark
    else if Is(err.value, Handled) then Mark
    else if Is(err.value, Skip) then Mark
    else if Is(err.value, Restart) then Fail
    else if Is(err.value, Stop) then Leave
    else if IsNonRetryable(err.value) then Mark
    else Fail
  }

  function Verdicts(cfg: Config, cancelAt: nat, d: Delivery): Verdict
    requires Complete(cfg, d)
  {
    VerdictOf(Chain(cfg, cancelAt, d).outcome.err)
  }

  // ----- What may become of a message -----

  predicate Processed(d: Delivery)
    requires d.attempts != []
  {
    Retried(d.attempts, 0) == Returned(None)
  }

  /** The handler asked to skip it. */
  predicate Skipped(d: Delivery)
    requires d.attempts != []
  {
    var o := Retried(d.attempts, 0);
    o.Returned? && o.err.Some? && Is(o.err.value, Skip)
  }

  predicate Accepted(cfg: Config, cancelAt: nat, d: Delivery)
    requires Complete(cfg, d)
  {
    Chain(cfg, cancelAt, d).accepted
  }

  /** Started under a done context the handler neither succeeds nor skips. */
  predicate NoLateSuccess(cancelAt: nat, d: Delivery) {
    forall i | 0 <= i < |d.attempts| ::
      var a := d.attempts[i];
      cancelAt <= a.at ==> !a.reaction.Success? && !(a.reaction.Failed? && Is(a.reaction.err, Skip))
  }

  /** The handler returns ErrStopConsumeClaim only once the context is done. */
  predicate StopsOnlyWhenDone(cancelAt: nat, d: Delivery) {
    forall i | 0 <= i < |d.attempts| ::
      var a := d.attempts[i];
      a.reaction.Failed? && Is(a.reaction.err, Stop) ==> cancelAt <= d.finish
  }

  /** ErrMessageHandledByDLQ is the middleware's, the handler never returns it. */
  predicate NeverHandled(d: Delivery) {
    forall i | 0 <= i < |d.attempts| ::
      var a := d.attempts[i];
      a.reaction.Failed? ==> !Is(a.reaction.err, Handled)
  }

  predicate HandlerKeepsRules(cancelAt: nat, d: Delivery) {
    NoLateSuccess(cancelAt, d) && StopsOnlyWhenDone(cancelAt, d) && NeverHandled(d)
  }

  /** Time passes, and a wait ends with the context only once the context is done. */
  predicate Timed(cancelAt: nat, start: nat, d: Delivery) {
    && (forall i | 0 <= i < |d.attempts| :: start <= d.attempts[i].at <= d.sendAt)
    && (forall i, j | 0 <= i < j < |d.attempts| :: d.attempts[i].at <= d.attempts[j].at)
    && d.sendAt <= d.finish
    && (forall i | 0 <= i < |d.attempts| :: d.attempts[i].stopped ==> cancelAt <= d.finish)
  }

  /** The call the retry middleware ended with. */
  lemma {:induction false} LastCall(attempts: seq<Attempt>, n: nat) returns (k: nat)
    requires n < |attempts|
    ensures n <= k < |attempts|
    ensures match Retried(attempts, n)
            case Panic => attempts[k].reaction.Panicked?
            case Returned(None) => attempts[k].reaction.Success?
            case Returned(Some(e)) =>
              attempts[k].reaction.Failed? &&
              if !Retryable(attempts[k]) then e == attempts[k].reaction.err
              else if k == |attempts| - 1 then e == RetryExhausted(attempts[k].reaction.err, k)
              else attempts[k].stopped && e == StoppedError()
    decreases |attempts| - n
  {
    k := n;
    if Retryable(attempts[n]) && n < |attempts| - 1 && !attempts[n].stopped {
      k := LastCall(attempts, n + 1);
    }
  }

  /** The DLQ message of an exhausted message says how often the handler was called. */
  lemma DlqCountsAttempts(cfg: Config, d: Delivery)
    requires Complete(cfg, d) && forall i | 0 <= i < |d.attempts| :: Retryable(d.attempts[i]) && !d.attempts[i].stopped
    ensures
      var o := Retried(d.attempts, 0);
      && o.Returned? && o.err.Some? && d.attempts[|d.attempts| - 1].reaction.Failed?
      && Unwound(o.err.value) == (d.attempts[|d.attempts| - 1].reaction.err, |d.attempts|)
  {
    var k := LastCall(d.attempts, 0);
  }

  /** The DLQ message of an error that was not retried counts no attempts and carries the error as it is. */
  lemma DlqCountsNoAttempts(e: Err)
    requires forall x | x in Unwrapped(e) :: !x.RetryExhausted?
    ensures Unwound(e) == (e, 0)
  {
    AsFindsFirst(e);
  }

  /** A panic of the handler ends the claim, so that the message is read again. */
  lemma PanicFails(cfg: Config, cancelAt: nat, d: Delivery)
    requires Complete(cfg, d) && Retried(d.attempts, 0).Panic?
    ensures Verdicts(cfg, cancelAt, d) == Fail
  {
  }

  /** The error the DLQ step ends with when it neither stops nor is accepted. */
  predicate PassesOver(cfg: Config, cancelAt: nat, d: Delivery)
    requires d.attempts != []
  {
    var o := Retried(d.attempts, 0);
    && o.Returned? && o.err.Some? && !IsControlFlow(o.err.value)
    && d.sendAt < cancelAt
    && var final := if cfg.publisher then d.refusal else Some(Unwound(o.err.value).0);
       final.Some? && VerdictOf(final) == Mark
  }

  lemma UnwoundControl(e: Err)
    requires !IsControlFlow(e)
    ensures !IsControlFlow(Unwound(e).0)
  {
    if AsRetryExhausted(e).Some? {
      forall s | s in {Skip, Restart, Handled, Stop} && Is(Unwound(e).0, s) ensures Is(e, s) {
        ExhaustedInside(e, s);
      }
    }
  }

  /** What the retries end with is handled by the DLQ only if the handler said so. */
  lemma RetriesNeverHandled(d: Delivery)
    requires d.attempts != [] && NeverHandled(d)
    ensures
      var o := Retried(d.attempts, 0);
      o.Returned? && o.err.Some? ==> !Is(o.err.value, Handled)
  {
    var k := LastCall(d.attempts, 0);
  }

  /**
   With the DLQ middleware and a handler that never returns ErrMessageHandledByDLQ an offset is marked
   exactly when its message was processed, accepted by the DLQ or skipped by the handler, or when the DLQ
   step itself, under a live context, ended with an error that counts as non-retryable.
   */
  lemma MarkedExactly(cfg: Config, cancelAt: nat, d: Delivery)
    requires Complete(cfg, d) && NeverHandled(d)
    ensures Verdicts(cfg, cancelAt, d) == Mark <==>
            Processed(d) || Accepted(cfg, cancelAt, d) || Skipped(d) || PassesOver(cfg, cancelAt, d)
  {
    var o := Retried(d.attempts, 0);
    RetriesNeverHandled(d);
    if o.Returned? && o.err.Some? && !IsControlFlow(o.err.value) {
      UnwoundControl(o.err.value);
    }
  }

  /** There is a publisher, and it refuses only with errors that end the claim. */
  predicate PublisherKeepsRules(cfg: Config, d: Delivery) {
    cfg.publisher && (d.refusal.Some? ==> !IsNonRetryable(d.refusal.value))
  }

  /** A message that was marked was dealt with, and its handler started before the context was done. */
  lemma MarkedIsDisposed(cfg: Config, cancelAt: nat, start: nat, d: Delivery)
    requires Complete(cfg, d) && HandlerKeepsRules(cancelAt, d) && PublisherKeepsRules(cfg, d) && Timed(cancelAt, start, d)
    ensures Verdicts(cfg, cancelAt, d) == Mark ==>
              d.attempts[0].at < cancelAt && (Processed(d) || Accepted(cfg, cancelAt, d) || Skipped(d))
  {
    MarkedExactly(cfg, cancelAt, d);
    var k := LastCall(d.attempts, 0);
  }

  /** A message is left unmarked in a claim that goes on only if the context is done by then. */
  lemma LeftOnlyWhenDone(cfg: Config, cancelAt: nat, start: nat, d: Delivery)
    requires Complete(cfg, d) && HandlerKeepsRules(cancelAt, d) && PublisherKeepsRules(cfg, d) && Timed(cancelAt, start, d)
    ensures Verdicts(cfg, cancelAt, d) == Leave ==> cancelAt <= d.finish
  {
    var k := LastCall(d.attempts, 0);
    var o := Retried(d.attempts, 0);
    if o.Returned? && o.err.Some? && !IsControlFlow(o.err.value) {
      UnwoundControl(o.err.value);
    }
  }

  /**
   A delivery is safe if its offset is marked only for a message dealt with by a handler that started
   before the context was done, and left unmarked in a claim that goes on only when the context is done.
   */
  predicate SafeDelivery(cfg: Config, cancelAt: nat, d: Delivery)
    requires Complete(cfg, d)
  {
    && (Verdicts(cfg, cancelAt, d) == Mark ==>
          d.attempts[0].at < cancelAt && (Processed(d) || Accepted(cfg, cancelAt, d) || Skipped(d)))
    && (Verdicts(cfg, cancelAt, d) == Leave ==> cancelAt <= d.finish)
  }

  /** The rules of handler and publisher make every delivery safe. */
  lemma RulesMakeSafe(cfg: Config, cancelAt: nat, start: nat, d: Delivery)
    requires Complete(cfg, d) && HandlerKeepsRules(cancelAt, d) && PublisherKeepsRules(cfg, d) && Timed(cancelAt, start, d)
    ensures SafeDelivery(cfg, cancelAt, d)
  {
    MarkedIsDisposed(cfg, cancelAt, start, d);
    LeftOnlyWhenDone(cfg, cancelAt, start, d);
  }
}
