/** The consumer's errors as Go sees them: chains and pairs of wrapped errors, searched by errors.Is and errors.As. */
module ConsumerErrors {
  import opened Wrappers

  datatype Err =
    | Skip
    | Restart
    | Handled
    | Stop
    | TooLarge
    | Context
    | Other(text: string)
    | NonRetryable(inner: Err)
    | RetryExhausted(inner: Err, count: nat)
    | Wrapped(inner: Err)
    | Both(first: Err, second: Err)

  /** errors.Is, for one of the sentinel values. */
  predicate Is(e: Err, sentinel: Err)
    requires sentinel.Skip? || sentinel.Restart? || sentinel.Handled? || sentinel.Stop?
  {
    e == sentinel ||
    match e
    case NonRetryable(inner) => Is(inner, sentinel)
    case RetryExhausted(inner, count) => Is(inner, sentinel)
    case Wrapped(inner) => Is(inner, sentinel)
    case Both(first, second) => Is(first, sentinel) || Is(second, sentinel)
    case _ => false
  }

  /** errors.As for MessageTooLargeError or NonRetryableError. */
  predicate HoldsNonRetryable(e: Err) {
    match e
    case TooLarge => true
    case NonRetryable(inner) => true
    case RetryExhausted(inner, count) => HoldsNonRetryable(inner)
    case Wrapped(inner) => HoldsNonRetryable(inner)
    case Both(first, second) => HoldsNonRetryable(first) || HoldsNonRetryable(second)
    case _ => false
  }

  /** errors.As for RetryExhaustedError: the first one met on the way in. */
  function AsRetryExhausted(e: Err): (found: Option<Err>)
    ensures found.Some? ==> found.value.RetryExhausted?
  {
    match e
    case RetryExhausted(inner, count) => Some(e)
    case NonRetryable(inner) => AsRetryExhausted(inner)
    case Wrapped(inner) => AsRetryExhausted(inner)
    case Both(first, second) =>
      if AsRetryExhausted(first).Some? then AsRetryExhausted(first) else AsRetryExhausted(second)
    case _ => None
  }

  predicate IsControlFlow(e: Err) {
    Is(e, Skip) || Is(e, Restart) || Is(e, Handled) || Is(e, Stop)
  }

  predicate IsNonRetryable(e: Err): (final: bool)
    ensures final <==> EndsRetries(e)
  {
    NonRetryableExactly(e);
    HoldsNonRetryable(e) || IsControlFlow(e)
  }

  // ----- What errors.Is and errors.As find -----

  /** The errors wrapped in e, outermost first, those of a pair one after the other. */
  function Unwrapped(e: Err): (chain: seq<Err>)
    ensures chain != [] && chain[0] == e
  {
    match e
    case Skip => [e]
    case Restart => [e]
    case Handled => [e]
    case Stop => [e]
    case TooLarge => [e]
    case Context => [e]
    case Other(_) => [e]
    case NonRetryable(inner) => [e] + Unwrapped(inner)
    case RetryExhausted(inner, _) => [e] + Unwrapped(inner)
    case Wrapped(inner) => [e] + Unwrapped(inner)
    case Both(first, second) => [e] + Unwrapped(first) + Unwrapped(second)
  }

  /** errors.Is finds a sentinel exactly when it is wrapped somewhere. */
  lemma {:induction false} IsFindsWrapped(e: Err, sentinel: Err)
    requires sentinel.Skip? || sentinel.Restart? || sentinel.Handled? || sentinel.Stop?
    ensures Is(e, sentinel) <==> sentinel in Unwrapped(e)
  {
    if e.NonRetryable? || e.RetryExhausted? || e.Wrapped? {
      IsFindsWrapped(e.inner, sentinel);
    } else if e.Both? {
      IsFindsWrapped(e.first, sentinel);
      IsFindsWrapped(e.second, sentinel);
    }
  }

  /** An error that is too large or marked as final by itself. */
  predicate Final(e: Err) {
    e.TooLarge? || e.NonRetryable?
  }

  lemma {:induction false} HoldsFindsWrapped(e: Err)
    ensures HoldsNonRetryable(e) <==> exists x :: x in Unwrapped(e) && Final(x)
  {
    assert e in Unwrapped(e);
    if e.NonRetryable? || e.RetryExhausted? || e.Wrapped? {
      HoldsFindsWrapped(e.inner);
      assert forall x | x in Unwrapped(e) :: x == e || x in Unwrapped(e.inner);
    } else if e.Both? {
      HoldsFindsWrapped(e.first);
      HoldsFindsWrapped(e.second);
      assert forall x | x in Unwrapped(e) :: x == e || x in Unwrapped(e.first) || x in Unwrapped(e.second);
    }
  }

  /** It wraps an error that is too large, marked as final or control flow. */
  predicate EndsRetries(e: Err) {
    exists x :: x in Unwrapped(e) && (x.TooLarge? || x.NonRetryable? || x.Skip? || x.Restart? || x.Handled? || x.Stop?)
  }

  lemma FinalEndsRetries(e: Err)
    requires e.NonRetryable?
    ensures EndsRetries(e)
  {
    assert e in Unwrapped(e);
  }

  /** That is exactly what IsNonRetryableError asks. */
  lemma NonRetryableExactly(e: Err)
    ensures HoldsNonRetryable(e) || IsControlFlow(e) <==> EndsRetries(e)
  {
    HoldsFindsWrapped(e);
    IsFindsWrapped(e, Skip);
    IsFindsWrapped(e, Restart);
    IsFindsWrapped(e, Handled);
    IsFindsWrapped(e, Stop);
  }

  /** Error x is the first exhausted one of a chain. */
  predicate FirstExhausted(chain: seq<Err>, x: Err) {
    exists i :: 0 <= i < |chain| && chain[i] == x && x.RetryExhausted? && forall j | 0 <= j < i :: !chain[j].RetryExhausted?
  }

  /** errors.As finds the outermost exhausted error, and none exactly when none is wrapped. */
  lemma {:induction false} AsFindsFirst(e: Err)
    ensures AsRetryExhausted(e).Some? ==>
              AsRetryExhausted(e).value in Unwrapped(e) && FirstExhausted(Unwrapped(e), AsRetryExhausted(e).value)
    ensures AsRetryExhausted(e).None? ==> forall x | x in Unwrapped(e) :: !x.RetryExhausted?
  {
    if e.RetryExhausted? {
      assert Unwrapped(e)[0] == e;
    } else if e.NonRetryable? || e.Wrapped? {
      AsFindsFirst(e.inner);
      if AsRetryExhausted(e).Some? {
        Later([e], Unwrapped(e.inner), AsRetryExhausted(e).value);
      }
    } else if e.Both? {
      AsFindsFirst(e.first);
      AsFindsFirst(e.second);
      if AsRetryExhausted(e.first).Some? {
        FirstOfPair(e, Unwrapped(e.first), Unwrapped(e.second), AsRetryExhausted(e.first).value);
      } else if AsRetryExhausted(e.second).Some? {
        SecondOfPair(e, Unwrapped(e.first), Unwrapped(e.second), AsRetryExhausted(e.second).value);
      }
    }
  }

  lemma FirstOfPair(e: Err, first: seq<Err>, second: seq<Err>, x: Err)
    requires e.Both? && FirstExhausted(first, x)
    ensures FirstExhausted([e] + first + second, x)
  {
    Sooner(first, second, x);
    Later([e], first + second, x);
    assert [e] + (first + second) == [e] + first + second;
  }

  lemma SecondOfPair(e: Err, first: seq<Err>, second: seq<Err>, x: Err)
    requires e.Both? && (forall y | y in first :: !y.RetryExhausted?) && FirstExhausted(second, x)
    ensures FirstExhausted([e] + first + second, x)
  {
    assert forall i | 0 <= i < |first| :: first[i] in first;
    Later([e] + first, second, x);
  }

  lemma Sooner(chain: seq<Err>, more: seq<Err>, x: Err)
    requires FirstExhausted(chain, x)
    ensures FirstExhausted(chain + more, x)
  {
    var i :| 0 <= i < |chain| && chain[i] == x && forall j | 0 <= j < i :: !chain[j].RetryExhausted?;
    assert (chain + more)[i] == x;
  }

  lemma Later(before: seq<Err>, chain: seq<Err>, x: Err)
    requires FirstExhausted(chain, x) && forall i | 0 <= i < |before| :: !before[i].RetryExhausted?
    ensures FirstExhausted(before + chain, x)
  {
    var i :| 0 <= i < |chain| && chain[i] == x && forall j | 0 <= j < i :: !chain[j].RetryExhausted?;
    assert (before + chain)[|before| + i] == x;
  }

  /** What errors.As finds inside is part of the error: its control flow is the error's. */
  lemma {:induction false} ExhaustedInside(e: Err, sentinel: Err)
    requires sentinel.Skip? || sentinel.Restart? || sentinel.Handled? || sentinel.Stop?
    requires AsRetryExhausted(e).Some? && Is(AsRetryExhausted(e).value.inner, sentinel)
    ensures Is(e, sentinel)
  {
    if e.NonRetryable? || e.Wrapped? {
      ExhaustedInside(e.inner, sentinel);
    } else if e.Both? {
      if AsRetryExhausted(e.first).Some? {
        ExhaustedInside(e.first, sentinel);
      } else {
        ExhaustedInside(e.second, sentinel);
      }
    }
  }
}
