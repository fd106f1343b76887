/**
 * The retry executor: run a fallible operation up to `maxAttempts` times,
 * waiting between attempts for a delay that doubles, gains a random jitter
 * in [0, 1000) ms and is capped at `maxDelay`; stop early on success or on an
 * error the policy does not consider retryable.
 *
 * The operation is given by its outcomes: `op(k)` is what the k-th call
 * (counting from 1) resolves to or throws. The jitter is given likewise:
 * `jitter(k)` is the value of `Math.random() * 1000` drawn after the k-th
 * failed attempt. The waits themselves are recorded, not performed.
 */
module Retry {
  import opened Wrappers

  /** The constructor an `Error` object was made with. */
  datatype ErrorKind = PlainError | TypeError | OtherKind(name: string)

  datatype Error = Error(kind: ErrorKind, message: string)

  /** Whatever the operation throws: an `Error` object, or any other value, given by `String(value)`. */
  datatype Thrown = ThrownError(error: Error) | ThrownValue(text: string)

  /** What one call of the operation does. */
  datatype Outcome<T> = Ok(value: T) | Throws(thrown: Thrown)

  /** The caller's options; `None` is a field left out of the options object. */
  datatype Options = Options(
    maxAttempts: Option<int>,
    initialDelay: Option<real>,
    maxDelay: Option<real>,
    shouldRetry: Option<Error -> bool>)

  /** The options after the defaults are filled in. */
  datatype Policy = Policy(maxAttempts: int, initialDelay: real, maxDelay: real, shouldRetry: Error -> bool)

  /** How the returned promise settles; `Rejected(None)` is a rejection with `null`. */
  datatype Settled<T> = Resolved(value: T) | Rejected(reason: Option<Error>)

  /** What a run does: how it settles, how many calls it makes, and the waits between them. */
  datatype Trace<T> = Trace(result: Settled<T>, calls: nat, waits: seq<real>)

  const NetworkFailureMessage: string := "Failed to fetch"

  /** `s.includes(sub)` */
  predicate Contains(s: string, sub: string) {
    exists i :: 0 <= i <= |s| && sub <= s[i..]
  }

  /** The default retry test: a `TypeError`, or any error whose message mentions "Failed to fetch". */
  predicate IsNetworkFailure(e: Error) {
    e.kind == TypeError || Contains(e.message, NetworkFailureMessage)
  }

  const DefaultMaxAttempts: int := 3
  const DefaultInitialDelay: real := 1000.0
  const DefaultMaxDelay: real := 5000.0

  /** `{ ...DEFAULT_OPTIONS, ...options }`: each field given by the caller overrides its default. */
  function ResolvePolicy(options: Options): (p: Policy)
    ensures p.maxAttempts == if options.maxAttempts.Some? then options.maxAttempts.value else 3
    ensures p.initialDelay == if options.initialDelay.Some? then options.initialDelay.value else 1000.0
    ensures p.maxDelay == if options.maxDelay.Some? then options.maxDelay.value else 5000.0
    ensures options.shouldRetry.Some? ==> p.shouldRetry == options.shouldRetry.value
    ensures options.shouldRetry.None? ==> forall e :: p.shouldRetry(e) == IsNetworkFailure(e)
  {
    Policy(
      match options.maxAttempts case Some(n) => n case None => DefaultMaxAttempts,
      match options.initialDelay case Some(d) => d case None => DefaultInitialDelay,
      match options.maxDelay case Some(d) => d case None => DefaultMaxDelay,
      match options.shouldRetry case Some(f) => f case None => IsNetworkFailure)
  }

  /** `error instanceof Error ? error : new Error(String(error))` */
  function AsError(t: Thrown): (e: Error)
    ensures t.ThrownError? ==> e == t.error
    ensures t.ThrownValue? ==> e.kind == PlainError && e.message == t.text
  {
    match t
    case ThrownError(err) => err
    case ThrownValue(text) => Error(PlainError, text)
  }

  function Min(a: real, b: real): real {
    if a <= b then a else b
  }

  /** The delay after a failed attempt that waited `delay`. */
  function NextDelay(delay: real, jitter: real, maxDelay: real): (d: real)
    ensures d <= maxDelay
    ensures 0.0 <= jitter ==> Min(2.0 * delay, maxDelay) <= d
    ensures jitter < 1000.0 ==> d < 2.0 * delay + 1000.0
  {
    Min(delay * 2.0 + jitter, maxDelay)
  }

  /** Whether an outcome is a failure that the policy retries. */
  predicate RetryableFailure<T>(p: Policy, o: Outcome<T>) {
    o.Throws? && p.shouldRetry(AsError(o.thrown))
  }

  /**
   * The loop from attempt `attempt` on, with the current `delay` and the
   * error of the previous attempt.
   */
  function RunFrom<T>(op: nat -> Outcome<T>, jitter: nat -> real, p: Policy,
                      attempt: nat, delay: real, lastError: Option<Error>): Trace<T>
    decreases p.maxAttempts - attempt
  {
    if attempt > p.maxAttempts then Trace(Rejected(lastError), 0, [])
    else match op(attempt)
      case Ok(v) => Trace(Resolved(v), 1, [])
      case Throws(x) =>
        var e := AsError(x);
        if !p.shouldRetry(e) || attempt == p.maxAttempts then Trace(Rejected(Some(e)), 1, [])
        else
          var rest := RunFrom(op, jitter, p, attempt + 1, NextDelay(delay, jitter(attempt), p.maxDelay), Some(e));
          Trace(rest.result, rest.calls + 1, [delay] + rest.waits)
  }

  /** A whole run of `withRetry(op, options)`. */
  function Run<T>(op: nat -> Outcome<T>, jitter: nat -> real, options: Options): Trace<T> {
    var p := ResolvePolicy(options);
    RunFrom(op, jitter, p, 1, p.initialDelay, None)
  }

  /** `t` preceded by `calls` calls that made the waits `waits`. */
  function After<T>(calls: nat, waits: seq<real>, t: Trace<T>): Trace<T> {
    Trace(t.result, calls + t.calls, waits + t.waits)
  }

  /** One step of the loop, as `RunFrom` takes it. */
  lemma RunFromStep<T>(op: nat -> Outcome<T>, jitter: nat -> real, p: Policy,
                       attempt: nat, delay: real, lastError: Option<Error>)
    requires attempt <= p.maxAttempts
    ensures op(attempt).Ok? ==>
      RunFrom(op, jitter, p, attempt, delay, lastError) == Trace(Resolved(op(attempt).value), 1, [])
    ensures op(attempt).Throws? && !(RetryableFailure(p, op(attempt)) && attempt < p.maxAttempts) ==>
      RunFrom(op, jitter, p, attempt, delay, lastError) == Trace(Rejected(Some(AsError(op(attempt).thrown))), 1, [])
    ensures RetryableFailure(p, op(attempt)) && attempt < p.maxAttempts ==>
      RunFrom(op, jitter, p, attempt, delay, lastError) ==
      After(1, [delay], RunFrom(op, jitter, p, attempt + 1, NextDelay(delay, jitter(attempt), p.maxDelay), Some(AsError(op(attempt).thrown))))
  {
  }

  /** Two prefixes of calls and waits combine into one. */
  lemma AfterAfter<T>(c1: nat, w1: seq<real>, c2: nat, w2: seq<real>, t: Trace<T>)
    ensures After(c1, w1, After(c2, w2, t)) == After(c1 + c2, w1 + w2, t)
  {
    assert w1 + (w2 + t.waits) == (w1 + w2) + t.waits;
  }

  /** `withRetry`: fill in the defaults, then run the attempt loop. */
  method WithRetry<T>(op: nat -> Outcome<T>, jitter: nat -> real, options: Options)
    returns (result: Settled<T>, calls: nat, waits: seq<real>)
    ensures Trace(result, calls, waits) == Run(op, jitter, options)
  {
    var p := ResolvePolicy(options);
    result, calls, waits := AttemptLoop(op, jitter, p);
  }

  /** The attempt loop of `withRetry` under a resolved policy. */
  method AttemptLoop<T>(op: nat -> Outcome<T>, jitter: nat -> real, p: Policy)
    returns (result: Settled<T>, calls: nat, waits: seq<real>)
    ensures Trace(result, calls, waits) == RunFrom(op, jitter, p, 1, p.initialDelay, None)
  {
    ghost var spec := RunFrom(op, jitter, p, 1, p.initialDelay, None);
    var lastError: Option<Error> := None;
    var delay := p.initialDelay;
    calls, waits := 0, [];
    var attempt: nat := 1;
    while attempt <= p.maxAttempts
      invariant calls == attempt - 1
      invariant spec == After(calls, waits, RunFrom(op, jitter, p, attempt, delay, lastError))
      decreases p.maxAttempts - attempt
    {
      RunFromStep(op, jitter, p, attempt, delay, lastError);
      calls := calls + 1;
      match op(attempt)
      case Ok(v) =>
        return Resolved(v), calls, waits;
      case Throws(x) =>
        lastError := Some(AsError(x));
        if !p.shouldRetry(lastError.value) || attempt == p.maxAttempts {
          return Rejected(lastError), calls, waits;
        }
        var next := NextDelay(delay, jitter(attempt), p.maxDelay);
        AfterAfter(calls - 1, waits, 1, [delay], RunFrom(op, jitter, p, attempt + 1, next, lastError));
        waits := waits + [delay];
        delay := next;
      attempt := attempt + 1;
    }
    assert waits + [] == waits;
    result := Rejected(lastError);
  }

  /**
   * The shape of every run from a real attempt: it makes between one call
   * and the attempts that remain, waits once fewer than it calls, every call
   * but the last failed retryably, the last call decides the result, the
   * first wait is the current delay and each later wait is the next delay of
   * the one before it.
   */
  lemma {:induction false} RunFromShape<T>(op: nat -> Outcome<T>, jitter: nat -> real, p: Policy,
                                           attempt: nat, delay: real, lastError: Option<Error>)
    requires 1 <= attempt <= p.maxAttempts
    decreases p.maxAttempts - attempt
    ensures var t := RunFrom(op, jitter, p, attempt, delay, lastError);
      && 1 <= t.calls <= p.maxAttempts - attempt + 1
      && |t.waits| == t.calls - 1
      && (forall k :: attempt <= k < attempt + t.calls - 1 ==> RetryableFailure(p, op(k)))
      && LastCallDecides(op, p, attempt + t.calls - 1, t.result)
      && (t.waits != [] ==> t.waits[0] == delay)
      && (forall i :: 0 < i < |t.waits| ==> t.waits[i] == NextDelay(t.waits[i - 1], jitter(attempt + i - 1), p.maxDelay))
  {
    var t := RunFrom(op, jitter, p, attempt, delay, lastError);
    match op(attempt)
    case Ok(v) =>
    case Throws(x) =>
      var e := AsError(x);
      if !p.shouldRetry(e) || attempt == p.maxAttempts {
      } else {
        var d' := NextDelay(delay, jitter(attempt), p.maxDelay);
        var rest := RunFrom(op, jitter, p, attempt + 1, d', Some(e));
        RunFromShape(op, jitter, p, attempt + 1, d', Some(e));
        assert t.waits == [delay] + rest.waits;
        forall i | 0 < i < |t.waits|
          ensures t.waits[i] == NextDelay(t.waits[i - 1], jitter(attempt + i - 1), p.maxDelay)
        {
          if i > 1 {
            assert t.waits[i] == rest.waits[i - 1] && t.waits[i - 1] == rest.waits[i - 2];
          }
        }
      }
  }

  /**
   * The last call, number `k`, settles the run: its value if it succeeded;
   * otherwise its error (wrapped), and that error was not retryable or `k`
   * was the last allowed attempt.
   */
  ghost predicate LastCallDecides<T>(op: nat -> Outcome<T>, p: Policy, k: nat, result: Settled<T>) {
    match op(k)
    case Ok(v) => result == Resolved(v)
    case Throws(x) =>
      result == Rejected(Some(AsError(x))) && (!p.shouldRetry(AsError(x)) || k == p.maxAttempts)
  }

  /** With at least one attempt allowed, a run has the shape of `RunFromShape` from attempt 1. */
  lemma RunShape<T>(op: nat -> Outcome<T>, jitter: nat -> real, options: Options)
    requires ResolvePolicy(options).maxAttempts >= 1
    ensures var p := ResolvePolicy(options);
            var t := Run(op, jitter, options);
      && 1 <= t.calls <= p.maxAttempts
      && |t.waits| == t.calls - 1
      && (forall k :: 1 <= k < t.calls ==> RetryableFailure(p, op(k)))
      && LastCallDecides(op, p, t.calls, t.result)
      && (t.waits != [] ==> t.waits[0] == p.initialDelay)
  {
    var p := ResolvePolicy(options);
    RunFromShape(op, jitter, p, 1, p.initialDelay, None);
  }

  /** With fewer than one attempt allowed, the operation is never called and the promise rejects with `null`. */
  lemma NoAttempts<T>(op: nat -> Outcome<T>, jitter: nat -> real, options: Options)
    requires ResolvePolicy(options).maxAttempts < 1
    ensures Run(op, jitter, options) == Trace(Rejected(None), 0, [])
  {
  }

  /** The operation is never called more than `maxAttempts` times. */
  lemma CallsBounded<T>(op: nat -> Outcome<T>, jitter: nat -> real, options: Options)
    ensures Run(op, jitter, options).calls <= if ResolvePolicy(options).maxAttempts < 1 then 0 else ResolvePolicy(options).maxAttempts
  {
    if ResolvePolicy(options).maxAttempts >= 1 {
      RunShape(op, jitter, options);
    }
  }

  /**
   * If the first `k - 1` calls fail retryably and call `k` (within the
   * allowed attempts) succeeds, its value is returned after exactly `k`
   * calls and `k - 1` waits.
   */
  lemma FirstSuccessReturned<T>(op: nat -> Outcome<T>, jitter: nat -> real, options: Options, k: nat)
    requires 1 <= k <= ResolvePolicy(options).maxAttempts
    requires forall j :: 1 <= j < k ==> RetryableFailure(ResolvePolicy(options), op(j))
    requires op(k).Ok?
    ensures Run(op, jitter, options).result == Resolved(op(k).value)
    ensures Run(op, jitter, options).calls == k
    ensures |Run(op, jitter, options).waits| == k - 1
  {
    RunShape(op, jitter, options);
    var t := Run(op, jitter, options);
    assert t.calls < k ==> RetryableFailure(ResolvePolicy(options), op(t.calls));
    assert t.calls > k ==> RetryableFailure(ResolvePolicy(options), op(k));
  }

  /**
   * If the first `k - 1` calls fail retryably and call `k` fails with an
   * error the policy does not retry, that error is thrown after exactly `k`
   * calls; a non-retryable first failure means one call and no wait.
   */
  lemma NonRetryableStops<T>(op: nat -> Outcome<T>, jitter: nat -> real, options: Options, k: nat)
    requires 1 <= k <= ResolvePolicy(options).maxAttempts
    requires forall j :: 1 <= j < k ==> RetryableFailure(ResolvePolicy(options), op(j))
    requires op(k).Throws? && !ResolvePolicy(options).shouldRetry(AsError(op(k).thrown))
    ensures Run(op, jitter, options).result == Rejected(Some(AsError(op(k).thrown)))
    ensures Run(op, jitter, options).calls == k
    ensures |Run(op, jitter, options).waits| == k - 1
  {
    RunShape(op, jitter, options);
    var t := Run(op, jitter, options);
    assert t.calls < k ==> RetryableFailure(ResolvePolicy(options), op(t.calls));
    assert t.calls > k ==> RetryableFailure(ResolvePolicy(options), op(k));
  }

  /**
   * If every allowed attempt fails retryably, the operation is called
   * exactly `maxAttempts` times and the last error is thrown.
   */
  lemma AllAttemptsFail<T>(op: nat -> Outcome<T>, jitter: nat -> real, options: Options)
    requires ResolvePolicy(options).maxAttempts >= 1
    requires forall j :: 1 <= j <= ResolvePolicy(options).maxAttempts ==> RetryableFailure(ResolvePolicy(options), op(j))
    ensures var n := ResolvePolicy(options).maxAttempts;
            op(n).Throws? && Run(op, jitter, options).result == Rejected(Some(AsError(op(n).thrown)))
    ensures Run(op, jitter, options).calls == ResolvePolicy(options).maxAttempts
  {
    RunShape(op, jitter, options);
    var t := Run(op, jitter, options);
    assert RetryableFailure(ResolvePolicy(options), op(t.calls));
  }

  /**
   * The backoff: the first wait is `initialDelay` (not capped), and with
   * jitter in [0, 1000) each later wait lies between the capped double of
   * the one before and `maxDelay`, and is below that double plus 1000.
   */
  lemma DelayBounds<T>(op: nat -> Outcome<T>, jitter: nat -> real, options: Options)
    requires forall k :: 0.0 <= jitter(k) < 1000.0
    ensures var p := ResolvePolicy(options);
            var w := Run(op, jitter, options).waits;
      && (w != [] ==> w[0] == p.initialDelay)
      && (forall i :: 0 < i < |w| ==> Min(2.0 * w[i - 1], p.maxDelay) <= w[i] <= p.maxDelay)
      && (forall i :: 0 < i < |w| ==> w[i] < 2.0 * w[i - 1] + 1000.0)
  {
    var p := ResolvePolicy(options);
    if p.maxAttempts >= 1 {
      RunFromShape(op, jitter, p, 1, p.initialDelay, None);
      var w := Run(op, jitter, options).waits;
      forall i | 0 < i < |w|
        ensures Min(2.0 * w[i - 1], p.maxDelay) <= w[i] <= p.maxDelay
        ensures w[i] < 2.0 * w[i - 1] + 1000.0
      {
        assert w[i] == NextDelay(w[i - 1], jitter(i), p.maxDelay);
        assert 0.0 <= jitter(i) < 1000.0;
      }
    }
  }

  /** A thrown non-`Error` value is rethrown as a plain `Error` carrying its text. */
  lemma ThrownValueWrapped<T>(op: nat -> Outcome<T>, jitter: nat -> real, options: Options, text: string)
    requires ResolvePolicy(options).maxAttempts >= 1
    requires op(1) == Throws(ThrownValue(text))
    requires options.shouldRetry.None?
    requires !Contains(text, NetworkFailureMessage)
    ensures Run(op, jitter, options) == Trace(Rejected(Some(Error(PlainError, text))), 1, [])
  {
  }

  /** Under the defaults, a `TypeError` is retried and an error without "Failed to fetch" in its message is not. */
  lemma DefaultClassification(message: string)
    ensures ResolvePolicy(Options(None, None, None, None)).shouldRetry(Error(TypeError, message))
    ensures !Contains(message, NetworkFailureMessage) ==>
              !ResolvePolicy(Options(None, None, None, None)).shouldRetry(Error(PlainError, message))
    ensures ResolvePolicy(Options(None, None, None, None)).shouldRetry(Error(PlainError, NetworkFailureMessage))
  {
    assert NetworkFailureMessage <= NetworkFailureMessage[0..];
  }

  /**
   * Each catalog call's message for a non-2xx response begins with
   * "Failed to fetch", so the default policy would classify a failed HTTP
   * status, 4xx included, as retryable.
   */
  lemma StatusFailureMessageIsRetried()
    ensures var p := ResolvePolicy(Options(None, None, None, None));
      && p.shouldRetry(Error(PlainError, "Failed to fetch products"))
      && p.shouldRetry(Error(PlainError, "Failed to fetch categories"))
      && p.shouldRetry(Error(PlainError, "Failed to fetch product"))
      && p.shouldRetry(Error(PlainError, "Failed to fetch products by category"))
  {
    assert NetworkFailureMessage <= "Failed to fetch products"[0..];
    assert NetworkFailureMessage <= "Failed to fetch categories"[0..];
    assert NetworkFailureMessage <= "Failed to fetch product"[0..];
    assert NetworkFailureMessage <= "Failed to fetch products by category"[0..];
  }
}
