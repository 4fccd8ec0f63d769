/**
 * The fixed-delay retry driver of retry.go (Go package `service`): the default
 * constants, the options record with its four setters, the options builder,
 * and the `retry` loop.
 *
 * The environment is abstracted:
 *  - the operation is a total function giving the outcome of its n-th call
 *    (calls are numbered from 1);
 *  - the timer is an oracle saying whether the deadline check made after
 *    some number of calls sees the timeout channel fired;
 *  - `time.Sleep` is a recorded event (the run counts its sleeps).
 */
module Service {

  /** time.Duration: a signed count of nanoseconds. */
  type Duration = int

  const Second: Duration := 1_000_000_000

  const DefaultMaxTries: int := 3
  const DefaultTimeout: Duration := 15 * Second

  // ---------------------------------------------------------------------------
  // Errors and the retry predicate
  // ---------------------------------------------------------------------------

  /** A Go value of type `func(err error) bool`, which may be nil. */
  datatype ErrorPredicate<!E> = Nil | Func(accepts: E -> bool)

  /** errgo.Any: accepts every error. */
  function Any<E>(err: E): bool { true }

  /** The guard `options.Retryer != nil && options.Retryer(lastError)`. */
  predicate Retryable<E>(p: ErrorPredicate<E>, err: E): (r: bool)
    ensures p.Nil? ==> !r
    ensures p == Func(Any) ==> r
  {
    p.Func? && p.accepts(err)
  }

  // ---------------------------------------------------------------------------
  // Options
  // ---------------------------------------------------------------------------

  datatype RetryOptions<!E> = RetryOptions(
    timeout: Duration,
    maxTries: int,
    retryer: ErrorPredicate<E>,
    sleep: Duration)

  /** A RetryOption closure, as the one field it writes and the value written. */
  datatype RetryOption<!E> =
    | RetryTimeout(timeout: Duration)
    | MaxTries(tries: int)
    | Retryer(retryer: ErrorPredicate<E>)
    | Sleep(sleep: Duration)

  /** The four fields of the options record. */
  datatype Field = TimeoutField | MaxTriesField | RetryerField | SleepField

  function FieldOf<E>(option: RetryOption<E>): Field {
    match option
    case RetryTimeout(_) => TimeoutField
    case MaxTries(_) => MaxTriesField
    case Retryer(_) => RetryerField
    case Sleep(_) => SleepField
  }

  /** `a` and `b` hold the same value in field `f`. */
  ghost predicate Agree<E>(a: RetryOptions<E>, b: RetryOptions<E>, f: Field) {
    match f
    case TimeoutField => a.timeout == b.timeout
    case MaxTriesField => a.maxTries == b.maxTries
    case RetryerField => a.retryer == b.retryer
    case SleepField => a.sleep == b.sleep
  }

  /** The field that `option` writes holds the value `option` carries. */
  ghost predicate Written<E>(state: RetryOptions<E>, option: RetryOption<E>) {
    match option
    case RetryTimeout(d) => state.timeout == d
    case MaxTries(n) => state.maxTries == n
    case Retryer(p) => state.retryer == p
    case Sleep(d) => state.sleep == d
  }

  /** The record `newRetryOptions` starts from; Sleep is Go's zero value. */
  function Defaults<E>(): (r: RetryOptions<E>)
    ensures r.timeout == 15 * Second && r.maxTries == 3 && r.sleep == 0
    ensures r.retryer == Func(Any)
  {
    RetryOptions(DefaultTimeout, DefaultMaxTries, Func(Any), 0)
  }

  /** Running one setter closure on the record: it writes its own field only. */
  function Apply<E>(state: RetryOptions<E>, option: RetryOption<E>): (r: RetryOptions<E>)
    ensures Written(r, option)
    ensures forall f: Field :: f != FieldOf(option) ==> Agree(r, state, f)
  {
    match option
    case RetryTimeout(d) => state.(timeout := d)
    case MaxTries(n) => state.(maxTries := n)
    case Retryer(p) => state.(retryer := p)
    case Sleep(d) => state.(sleep := d)
  }

  /** The setters run left to right over `state`. */
  function Applied<E>(state: RetryOptions<E>, options: seq<RetryOption<E>>): RetryOptions<E>
    decreases |options|
  {
    if options == [] then state
    else Apply(Applied(state, options[..|options| - 1]), options[|options| - 1])
  }

  /** Value of the last RetryTimeout in `options`, or `default` if there is none. */
  function LastTimeout<E>(options: seq<RetryOption<E>>, default: Duration): Duration
    decreases |options|
  {
    if options == [] then default
    else if options[|options| - 1].RetryTimeout? then options[|options| - 1].timeout
    else LastTimeout(options[..|options| - 1], default)
  }

  /** Value of the last MaxTries in `options`, or `default` if there is none. */
  function LastMaxTries<E>(options: seq<RetryOption<E>>, default: int): int
    decreases |options|
  {
    if options == [] then default
    else if options[|options| - 1].MaxTries? then options[|options| - 1].tries
    else LastMaxTries(options[..|options| - 1], default)
  }

  /** Value of the last Retryer in `options`, or `default` if there is none. */
  function LastRetryer<E>(options: seq<RetryOption<E>>, default: ErrorPredicate<E>): ErrorPredicate<E>
    decreases |options|
  {
    if options == [] then default
    else if options[|options| - 1].Retryer? then options[|options| - 1].retryer
    else LastRetryer(options[..|options| - 1], default)
  }

  /** Value of the last Sleep in `options`, or `default` if there is none. */
  function LastSleep<E>(options: seq<RetryOption<E>>, default: Duration): Duration
    decreases |options|
  {
    if options == [] then default
    else if options[|options| - 1].Sleep? then options[|options| - 1].sleep
    else LastSleep(options[..|options| - 1], default)
  }

  /** Every field ends up with the last value written to it, or keeps its start value. */
  lemma {:induction false} AppliedFields<E>(state: RetryOptions<E>, options: seq<RetryOption<E>>)
    ensures Applied(state, options).timeout == LastTimeout(options, state.timeout)
    ensures Applied(state, options).maxTries == LastMaxTries(options, state.maxTries)
    ensures Applied(state, options).retryer == LastRetryer(options, state.retryer)
    ensures Applied(state, options).sleep == LastSleep(options, state.sleep)
    decreases |options|
  {
    if options != [] {
      AppliedFields(state, options[..|options| - 1]);
    }
  }

  /** Two setters of the same field: the second one's value survives. */
  lemma LastWriteWins<E>(state: RetryOptions<E>, first: RetryOption<E>, second: RetryOption<E>)
    requires FieldOf(first) == FieldOf(second)
    ensures Apply(Apply(state, first), second) == Apply(state, second)
  {
  }

  /** Setters of different fields commute. */
  lemma SettersCommute<E>(state: RetryOptions<E>, a: RetryOption<E>, b: RetryOption<E>)
    requires FieldOf(a) != FieldOf(b)
    ensures Apply(Apply(state, a), b) == Apply(Apply(state, b), a)
  {
  }

  /** newRetryOptions: start from the defaults and run every setter in order. */
  method NewRetryOptions<E>(options: seq<RetryOption<E>>) returns (state: RetryOptions<E>)
    ensures state == Applied(Defaults(), options)
    ensures state.timeout == LastTimeout(options, DefaultTimeout)
    ensures state.maxTries == LastMaxTries(options, DefaultMaxTries)
    ensures state.retryer == LastRetryer(options, Func(Any))
    ensures state.sleep == LastSleep(options, 0)
    ensures options == [] ==> state.timeout == 15 * Second && state.maxTries == 3 && state.sleep == 0
    ensures options == [] ==> forall err: E :: Retryable(state.retryer, err)
  {
    state := Defaults();
    for i := 0 to |options|
      invariant state == Applied(Defaults(), options[..i])
    {
      assert options[..i + 1][..i] == options[..i];
      state := Apply(state, options[i]);
    }
    assert options[..|options|] == options;
    AppliedFields(Defaults(), options);
  }

  // ---------------------------------------------------------------------------
  // The retry loop
  // ---------------------------------------------------------------------------

  /** What one call of op() returns: nil or an error. */
  datatype Outcome<E> = Ok | Err(error: E)

  /**
   * The `time.After(options.Timeout)` channel as seen by the non-blocking
   * select at the top of each iteration. Once it has fired it stays fired
   * (the channel buffers its one value), so the oracle is monotone:
   * `FiresAfter(n)` is seen as expired at every check made after n or more
   * calls of op() have started.
   */
  datatype Timer = Silent | FiresAfter(started: nat)

  predicate Expired(timer: Timer, started: nat) {
    timer.FiresAfter? && started >= timer.started
  }

  /**
   * The error `retry` returns, as a tagged value:
   *  - Timeout: errgo.Mask(TimeoutError);
   *  - Exhausted: errgo.WithCausef(lastError, MaxRetriesReached, "Tries %d > %d", ...),
   *    keeping the last error and both counts;
   *  - Propagated: errgo.Mask(lastError), the operation's own error.
   */
  datatype RetryResult<E> =
    | Success
    | Timeout
    | Exhausted(last: E, tries: int, maxTries: int)
    | Propagated(error: E)

  /** The result of a run, with the number of op() calls and of sleeps it made. */
  datatype Trace<E> = Trace(result: RetryResult<E>, calls: nat, sleeps: nat)

  function Max(a: int, b: int): int { if a < b then b else a }

  /** Termination measure of the loop: tries left before the budget is spent. */
  function Budget(maxTries: int, tryCounter: nat): nat {
    if tryCounter < maxTries then maxTries - tryCounter else 0
  }

  /**
   * The loop of `retry` from the top of an iteration, with `tryCounter` calls
   * already made and `sleeps` sleeps already taken.
   */
  function Loop<E>(options: RetryOptions<E>, op: nat -> Outcome<E>, timer: Timer,
                   tryCounter: nat, sleeps: nat): Trace<E>
    decreases Budget(options.maxTries, tryCounter)
  {
    if Expired(timer, tryCounter) then Trace(Timeout, tryCounter, sleeps)
    else
      var n := tryCounter + 1;
      match op(n)
      case Ok => Trace(Success, n, sleeps)
      case Err(e) =>
        if !Retryable(options.retryer, e) then Trace(Propagated(e), n, sleeps)
        else if n >= options.maxTries then Trace(Exhausted(e, n, options.maxTries), n, sleeps)
        else Loop(options, op, timer, n, if options.sleep > 0 then sleeps + 1 else sleeps)
  }

  /** What `retry(op, options...)` does. */
  function RetrySpec<E>(op: nat -> Outcome<E>, timer: Timer, options: seq<RetryOption<E>>): Trace<E> {
    Loop(Applied(Defaults(), options), op, timer, 0, 0)
  }

  // ---------------------------------------------------------------------------
  // An independent description of every run
  // ---------------------------------------------------------------------------

  /** Call n starts before the deadline, fails retryably, and leaves budget for another call. */
  ghost predicate Continues<E>(options: RetryOptions<E>, op: nat -> Outcome<E>, timer: Timer, n: nat) {
    && n >= 1
    && !Expired(timer, n - 1)
    && op(n).Err?
    && Retryable(options.retryer, op(n).error)
    && n < options.maxTries
  }

  /** After `calls` calls, `result` is what ends the run. */
  ghost predicate Ends<E>(options: RetryOptions<E>, op: nat -> Outcome<E>, timer: Timer,
                          calls: nat, result: RetryResult<E>) {
    match result
    case Timeout =>
      Expired(timer, calls)
    case Success =>
      calls >= 1 && !Expired(timer, calls - 1) && op(calls).Ok?
    case Propagated(e) =>
      calls >= 1 && !Expired(timer, calls - 1) && op(calls) == Err(e) && !Retryable(options.retryer, e)
    case Exhausted(e, tries, maxTries) =>
      && calls >= 1 && !Expired(timer, calls - 1) && op(calls) == Err(e) && Retryable(options.retryer, e)
      && tries == calls && maxTries == options.maxTries && calls >= options.maxTries
  }

  /** Sleeps happen after exactly the continuing calls, and only when Sleep > 0. */
  function SleepsAfter<E>(options: RetryOptions<E>, result: RetryResult<E>, calls: nat): int {
    if options.sleep <= 0 then 0
    else if result.Timeout? then calls
    else calls - 1
  }

  /**
   * `trace` is the run of the loop on these inputs: every call before the
   * last continued the loop, the last step ended it with `trace.result`, and
   * one sleep followed each continuing call when Sleep > 0.
   */
  ghost predicate Explains<E>(options: RetryOptions<E>, op: nat -> Outcome<E>, timer: Timer, trace: Trace<E>) {
    && (forall n :: 1 <= n < trace.calls ==> Continues(options, op, timer, n))
    && (trace.result.Timeout? && trace.calls >= 1 ==> Continues(options, op, timer, trace.calls))
    && Ends(options, op, timer, trace.calls, trace.result)
    && trace.sleeps == SleepsAfter(options, trace.result, trace.calls)
  }

  /** The same description, for the part of a run that starts after `tryCounter` calls. */
  lemma {:induction false} LoopFrom<E>(options: RetryOptions<E>, op: nat -> Outcome<E>, timer: Timer,
                                       tryCounter: nat, sleeps: nat)
    ensures var t := Loop(options, op, timer, tryCounter, sleeps);
      && tryCounter <= t.calls
      && (forall n :: tryCounter < n < t.calls ==> Continues(options, op, timer, n))
      && (t.result.Timeout? && t.calls > tryCounter ==> Continues(options, op, timer, t.calls))
      && Ends(options, op, timer, t.calls, t.result)
      && t.sleeps == sleeps + (if options.sleep <= 0 then 0
                               else if t.result.Timeout? then t.calls - tryCounter
                               else t.calls - tryCounter - 1)
    decreases Budget(options.maxTries, tryCounter)
  {
    if !Expired(timer, tryCounter) {
      var n := tryCounter + 1;
      if op(n).Err? && Retryable(options.retryer, op(n).error) && n < options.maxTries {
        LoopFrom(options, op, timer, n, if options.sleep > 0 then sleeps + 1 else sleeps);
      }
    }
  }

  /** Every run of the loop is explained by its calls. */
  lemma LoopExplained<E>(options: RetryOptions<E>, op: nat -> Outcome<E>, timer: Timer)
    ensures Explains(options, op, timer, Loop(options, op, timer, 0, 0))
  {
    LoopFrom(options, op, timer, 0, 0);
  }

  /** Only the run of the loop is explained by the calls: the description is exact. */
  lemma {:induction false} ExplainedFrom<E>(options: RetryOptions<E>, op: nat -> Outcome<E>, timer: Timer,
                                            tryCounter: nat, sleeps: nat, trace: Trace<E>)
    requires tryCounter <= trace.calls
    requires !trace.result.Timeout? ==> tryCounter < trace.calls
    requires forall n :: tryCounter < n < trace.calls ==> Continues(options, op, timer, n)
    requires trace.result.Timeout? && trace.calls > tryCounter ==> Continues(options, op, timer, trace.calls)
    requires Ends(options, op, timer, trace.calls, trace.result)
    requires trace.sleeps == sleeps + (if options.sleep <= 0 then 0
                                       else if trace.result.Timeout? then trace.calls - tryCounter
                                       else trace.calls - tryCounter - 1)
    ensures Loop(options, op, timer, tryCounter, sleeps) == trace
    decreases trace.calls - tryCounter
  {
    var n := tryCounter + 1;
    if tryCounter < trace.calls {
      if !(trace.result.Timeout? && trace.calls == n) && n == trace.calls {
        // the call that ends the run
        assert !Expired(timer, tryCounter);
      } else {
        assert Continues(options, op, timer, n);
        ExplainedFrom(options, op, timer, n, if options.sleep > 0 then sleeps + 1 else sleeps, trace);
      }
    }
  }

  /** A trace is the loop's run if and only if the calls explain it. */
  lemma RunIffExplained<E>(options: RetryOptions<E>, op: nat -> Outcome<E>, timer: Timer, trace: Trace<E>)
    ensures Loop(options, op, timer, 0, 0) == trace <==> Explains(options, op, timer, trace)
  {
    LoopExplained(options, op, timer);
    if Explains(options, op, timer, trace) {
      ExplainedFrom(options, op, timer, 0, 0, trace);
    }
  }

  // ---------------------------------------------------------------------------
  // Consequences
  // ---------------------------------------------------------------------------

  /** op() is called at most max(1, MaxTries) times. */
  lemma CallBound<E>(options: RetryOptions<E>, op: nat -> Outcome<E>, timer: Timer)
    ensures Loop(options, op, timer, 0, 0).calls <= Max(1, options.maxTries)
  {
    var t := Loop(options, op, timer, 0, 0);
    LoopExplained(options, op, timer);
    if t.calls > 1 {
      assert Continues(options, op, timer, t.calls - 1);
    }
  }

  /** A timer that has fired before the first check: no call, Timeout. */
  lemma ExpiredAtStart<E>(options: RetryOptions<E>, op: nat -> Outcome<E>, timer: Timer)
    requires Expired(timer, 0)
    ensures Loop(options, op, timer, 0, 0) == Trace(Timeout, 0, 0)
  {
  }

  /** A first error the predicate rejects (or a nil predicate) is returned after that one call. */
  lemma NotRetryable<E>(options: RetryOptions<E>, op: nat -> Outcome<E>, timer: Timer, e: E)
    requires !Expired(timer, 0)
    requires op(1) == Err(e)
    requires !Retryable(options.retryer, e)
    ensures Loop(options, op, timer, 0, 0) == Trace(Propagated(e), 1, 0)
  {
  }

  /**
   * An op whose calls 1..N all fail retryably (with any errors), MaxTries = N >= 1
   * and no timeout: exhausted after exactly N calls, keeping the N-th (last) error.
   */
  lemma AlwaysFailing<E>(options: RetryOptions<E>, op: nat -> Outcome<E>)
    requires options.maxTries >= 1
    requires forall n :: 1 <= n <= options.maxTries ==> op(n).Err? && Retryable(options.retryer, op(n).error)
    ensures var N := options.maxTries;
      Loop(options, op, Silent, 0, 0)
        == Trace(Exhausted(op(N).error, N, N), N, if options.sleep > 0 then N - 1 else 0)
  {
    var N := options.maxTries;
    var trace := Trace(Exhausted(op(N).error, N, N), N, if options.sleep > 0 then N - 1 else 0);
    assert forall n :: 1 <= n < N ==> Continues(options, op, Silent, n);
    RunIffExplained(options, op, Silent, trace);
  }

  /** k-1 retryable failures, then success on call k <= MaxTries, timer not fired: success after k calls. */
  lemma SucceedsOnCall<E>(options: RetryOptions<E>, op: nat -> Outcome<E>, timer: Timer, k: nat)
    requires 1 <= k <= Max(1, options.maxTries)
    requires forall n :: 1 <= n < k ==> op(n).Err? && Retryable(options.retryer, op(n).error)
    requires op(k).Ok?
    requires !Expired(timer, k - 1)
    ensures Loop(options, op, timer, 0, 0)
      == Trace(Success, k, if options.sleep > 0 then k - 1 else 0)
  {
    var trace := Trace(Success, k, if options.sleep > 0 then k - 1 else 0);
    assert forall n :: 1 <= n < k ==> Continues(options, op, timer, n);
    RunIffExplained(options, op, timer, trace);
  }

  /** With only Sleep(d), d > 0, the timer silent, and an op failing twice then succeeding: three calls, two sleeps. */
  lemma TwoFailuresThenSuccess<E>(op: nat -> Outcome<E>, d: Duration)
    requires d > 0
    requires op(1).Err? && op(2).Err? && op(3).Ok?
    ensures RetrySpec(op, Silent, [Sleep(d)]) == Trace(Success, 3, 2)
  {
    var setters: seq<RetryOption<E>> := [Sleep(d)];
    assert setters[..0] == [];
    assert Applied(Defaults(), setters[..0]) == Defaults();
    var options := Applied(Defaults(), setters);
    assert options == Apply(Defaults(), Sleep(d));
    assert options.maxTries == 3 && options.retryer == Func(Any);
    SucceedsOnCall(options, op, Silent, 3);
  }

  /**
   * retry: build the options, then loop. Each iteration checks the deadline,
   * calls op() once, and then returns or (after an optional sleep) loops.
   */
  method Retry<E>(op: nat -> Outcome<E>, timer: Timer, retryOptions: seq<RetryOption<E>>)
    returns (result: RetryResult<E>, calls: nat, sleeps: nat)
    ensures Trace(result, calls, sleeps) == RetrySpec(op, timer, retryOptions)
    ensures Explains(Applied(Defaults(), retryOptions), op, timer, Trace(result, calls, sleeps))
    ensures calls <= Max(1, LastMaxTries(retryOptions, DefaultMaxTries))
  {
    var options := NewRetryOptions(retryOptions);
    LoopExplained(options, op, timer);
    CallBound(options, op, timer);

    var tryCounter: nat := 0;
    sleeps := 0;
    while true
      invariant Loop(options, op, timer, tryCounter, sleeps) == Loop(options, op, timer, 0, 0)
      decreases Budget(options.maxTries, tryCounter)
    {
      if Expired(timer, tryCounter) {
        return Timeout, tryCounter, sleeps;
      }

      tryCounter := tryCounter + 1;
      var lastError := op(tryCounter);

      if lastError.Err? {
        if Retryable(options.retryer, lastError.error) {
          if tryCounter >= options.maxTries {
            return Exhausted(lastError.error, tryCounter, options.maxTries), tryCounter, sleeps;
          }
          if options.sleep > 0 {
            sleeps := sleeps + 1;
          }
          continue;
        }
        return Propagated(lastError.error), tryCounter, sleeps;
      }
      return Success, tryCounter, sleeps;
    }
  }
}
