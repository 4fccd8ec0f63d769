/**
 * The options builder of options.go (Go package `retry`): the setters
 * Timeout, MaxTries, RetryChecker and Sleep, the options record whose
 * predicate field is `Checker`, and `newRetryOptions`.
 *
 * The default constants and errgo.Any are the ones of retry.go; the record
 * is retry.go's with its predicate field named `Checker`.
 */
module Options {
  import Service

  type Duration = Service.Duration
  type ErrorPredicate<!E> = Service.ErrorPredicate<E>

  datatype RetryOptions<!E> = RetryOptions(
    timeout: Duration,
    maxTries: int,
    checker: ErrorPredicate<E>,
    sleep: Duration)

  /** A RetryOption closure, as the one field it writes and the value written. */
  datatype RetryOption<!E> =
    | Timeout(timeout: Duration)
    | MaxTries(tries: int)
    | RetryChecker(checker: ErrorPredicate<E>)
    | Sleep(sleep: Duration)

  /** The record `newRetryOptions` starts from: default timeout and tries, errgo.Any, no sleep. */
  function Defaults<E>(): (r: RetryOptions<E>)
    ensures ToServiceOptions(r) == Service.Defaults()
    ensures r.checker == Service.Func(Service.Any)
  {
    RetryOptions(Service.DefaultTimeout, Service.DefaultMaxTries, Service.Func(Service.Any), 0)
  }

  /** Running one setter closure: its own field takes the option's value, the others keep theirs. */
  function Apply<E>(state: RetryOptions<E>, option: RetryOption<E>): (r: RetryOptions<E>)
    ensures r.timeout == (if option.Timeout? then option.timeout else state.timeout)
    ensures r.maxTries == (if option.MaxTries? then option.tries else state.maxTries)
    ensures r.checker == (if option.RetryChecker? then option.checker else state.checker)
    ensures r.sleep == (if option.Sleep? then option.sleep else state.sleep)
  {
    match option
    case Timeout(d) => state.(timeout := d)
    case MaxTries(n) => state.(maxTries := n)
    case RetryChecker(c) => state.(checker := c)
    case Sleep(d) => state.(sleep := d)
  }

  /** The setters run left to right over `state`. */
  function Applied<E>(state: RetryOptions<E>, options: seq<RetryOption<E>>): RetryOptions<E>
    decreases |options|
  {
    if options == [] then state
    else Apply(Applied(state, options[..|options| - 1]), options[|options| - 1])
  }

  /** The same setter in retry.go's vocabulary. */
  function ToService<E>(option: RetryOption<E>): Service.RetryOption<E> {
    match option
    case Timeout(d) => Service.RetryTimeout(d)
    case MaxTries(n) => Service.MaxTries(n)
    case RetryChecker(c) => Service.Retryer(c)
    case Sleep(d) => Service.Sleep(d)
  }

  function ToServiceAll<E>(options: seq<RetryOption<E>>): seq<Service.RetryOption<E>> {
    seq(|options|, i requires 0 <= i < |options| => ToService(options[i]))
  }

  /** The same record in retry.go's vocabulary (Checker becomes Retryer). */
  function ToServiceOptions<E>(state: RetryOptions<E>): Service.RetryOptions<E> {
    Service.RetryOptions(state.timeout, state.maxTries, state.checker, state.sleep)
  }

  /** Both builders compute the same record from the same setters. */
  lemma {:induction false} AppliedAgrees<E>(state: RetryOptions<E>, options: seq<RetryOption<E>>)
    ensures ToServiceOptions(Applied(state, options))
         == Service.Applied(ToServiceOptions(state), ToServiceAll(options))
    decreases |options|
  {
    if options != [] {
      var init := options[..|options| - 1];
      AppliedAgrees(state, init);
      assert ToServiceAll(options)[..|options| - 1] == ToServiceAll(init);
    }
  }

  /** Every field ends up with the last value written to it, or keeps its start value. */
  lemma AppliedFields<E>(state: RetryOptions<E>, options: seq<RetryOption<E>>)
    ensures Applied(state, options).timeout == Service.LastTimeout(ToServiceAll(options), state.timeout)
    ensures Applied(state, options).maxTries == Service.LastMaxTries(ToServiceAll(options), state.maxTries)
    ensures Applied(state, options).checker == Service.LastRetryer(ToServiceAll(options), state.checker)
    ensures Applied(state, options).sleep == Service.LastSleep(ToServiceAll(options), state.sleep)
  {
    AppliedAgrees(state, options);
    Service.AppliedFields(ToServiceOptions(state), ToServiceAll(options));
  }

  /** Setters of different fields commute; a later setter of the same field overrides. */
  lemma SettersCompose<E>(state: RetryOptions<E>, a: RetryOption<E>, b: RetryOption<E>)
    ensures Service.FieldOf(ToService(a)) != Service.FieldOf(ToService(b))
      ==> Apply(Apply(state, a), b) == Apply(Apply(state, b), a)
    ensures Service.FieldOf(ToService(a)) == Service.FieldOf(ToService(b))
      ==> Apply(Apply(state, a), b) == Apply(state, b)
  {
  }

  /** newRetryOptions: start from the defaults and run every setter in order. */
  method NewRetryOptions<E>(options: seq<RetryOption<E>>) returns (state: RetryOptions<E>)
    ensures state == Applied(Defaults(), options)
    ensures ToServiceOptions(state) == Service.Applied(Service.Defaults(), ToServiceAll(options))
    ensures state.timeout == Service.LastTimeout(ToServiceAll(options), Service.DefaultTimeout)
    ensures state.maxTries == Service.LastMaxTries(ToServiceAll(options), Service.DefaultMaxTries)
    ensures state.checker == Service.LastRetryer(ToServiceAll(options), Service.Func(Service.Any))
    ensures state.sleep == Service.LastSleep(ToServiceAll(options), 0)
    ensures options == [] ==> state.timeout == 15 * Service.Second && state.maxTries == 3 && state.sleep == 0
    ensures options == [] ==> forall err: E :: Service.Retryable(state.checker, err)
  {
    state := Defaults();
    for i := 0 to |options|
      invariant state == Applied(Defaults(), options[..i])
    {
      assert options[..i + 1][..i] == options[..i];
      state := Apply(state, options[i]);
    }
    assert options[..|options|] == options;
    AppliedAgrees(Defaults(), options);
    AppliedFields(Defaults(), options);
  }
}
