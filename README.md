# retry-go: a Dafny model of the fixed-delay retry driver

The repository is a small Go helper. `retry(op, options...)` calls a fallible
operation `op` again and again. It stops on success, on an error the retry
predicate rejects, when the attempt budget `MaxTries` is spent, or when the
timeout fires. Options are functional setters applied over a default record
(timeout 15 s, 3 tries, every error retryable, no sleep).

Two modules, one per Go file:

- `Service` (`service.dfy`) models retry.go (Go package `service`). It holds
  the default constants and the options record with its setters
  `RetryTimeout`/`MaxTries`/`Retryer`/`Sleep`. It also holds `newRetryOptions`
  (the method `NewRetryOptions`) and the `retry` loop (the method `Retry`).
- `Options` (`options.dfy`) models options.go (Go package `retry`). It holds
  the second builder, whose setters are `Timeout`/`MaxTries`/`RetryChecker`/`Sleep`
  and whose predicate field is `Checker`. A simulation lemma proves that this
  builder computes retry.go's record under the renaming `Checker` ↔ `Retryer`.

How the environment is represented:

- **The operation** is a total function `op: nat -> Outcome<E>`. `op(n)` is what
  the n-th call returns: `Ok` (nil) or `Err(e)`. Calls are numbered from 1.
- **The timer** `time.After(options.Timeout)` is an oracle `Timer`. `Silent` never
  fires. `FiresAfter(n)` is seen as expired by every deadline check made once n or
  more calls have started. This oracle is monotone because the channel keeps its
  one value until it is received.
- **The retry predicate** is `ErrorPredicate<E> = Nil | Func(accepts)`, a Go
  `func(error) bool` that may be nil. `errgo.Any` is `Any`, which always returns true.
- **The result** is `RetryResult<E>`. `Success` is nil. `Timeout` is the masked
  `TimeoutError`. `Exhausted(last, tries, maxTries)` is
  `WithCausef(lastError, MaxRetriesReached, "Tries %d > %d", ...)`: it keeps the
  last error and both counts. `Propagated(e)` is the masked original error.
- **A run** is `Trace(result, calls, sleeps)`: the result, the number of `op()`
  calls and the number of `time.Sleep` calls.

The loop is the imperative method `Service.Retry`. It has the source's
`tryCounter`, its deadline check, one call per iteration, and returns from inside
the loop. The method is proved against the recursive function `Service.Loop`.
The predicate `Service.Explains` describes a run independently of the loop:

- every call before the last one started before the deadline, failed with a
  retryable error and left budget;
- the last step ends the run with the result it names;
- a sleep followed exactly the calls that continued the loop, and only when
  `Sleep > 0`.

`Service.RunIffExplained` proves that a trace is the loop's run if and only if
it is explained this way. The scenario lemmas follow from it.

The doc comment of `retry` (retry.go:77) says MaxRetries defaults to 5. The code
uses `DefaultMaxTries = 3` (retry.go:10, retry.go:56), and the model follows the code.
options.go does not compile as written. Its literal sets a `Retryer` field that its
struct calls `Checker`. It also uses `errgo` and the default constants without
declaring them. The model takes the evident intent: `Checker` is the predicate
field, it defaults to `errgo.Any`, and the defaults are retry.go's constants.

## Model

| member | source | states |
|---|---|---|
| `Service.Defaults` | retry.go:54-58 | the starting record: Timeout 15 s, MaxTries 3, Sleep 0, and the predicate errgo.Any |
| `Service.Retryable` | retry.go:99 | the retry guard: a nil predicate never retries, and errgo.Any retries every error |
| `Service.Applied` | retry.go:60-62 | the setters run left to right over a record; a definition without a contract, whose properties are stated by `Service.AppliedFields` |
| `Service.Loop` | retry.go:86-114 | the loop from the top of an iteration, as a recursive function; a definition without a contract, which `Service.Retry` is proved against and which `Service.RunIffExplained` characterises |
| `Service.Apply` | retry.go:28-51 | each setter writes the value it carries into its own field and leaves every other field unchanged |
| `Service.AppliedFields` | retry.go:60-62 | after the setters run left to right, each field holds the value of the last setter for that field, or its starting value if no setter touched it |
| `Service.LastWriteWins` | retry.go:28-51 | two setters of the same field in a row: the second one's value is what remains |
| `Service.SettersCommute` | retry.go:28-51 | setters of different fields can be applied in either order with the same record as result |
| `Service.NewRetryOptions` | retry.go:53-64 | the loop over the options yields the defaults overridden field by field by the last setter of each field; with no options: Timeout 15 s, MaxTries 3, every error retryable, Sleep 0 |
| `Service.LoopFrom` | retry.go:86-114 | from any iteration, the rest of the run consists of continuing calls and then one ending step, with one sleep per continuing call when Sleep > 0 |
| `Service.LoopExplained` | retry.go:81-115 | every run of the loop is explained by its calls: earlier calls were retryable failures within budget before the deadline, and the last step gives the result |
| `Service.ExplainedFrom` | retry.go:86-114 | a trace explained by the calls from some iteration onward is the loop's run from that iteration |
| `Service.RunIffExplained` | retry.go:81-115 | a trace is the loop's run if and only if the calls, the timer and the predicate explain it: the outcome of every input is exactly determined |
| `Service.CallBound` | retry.go:95-103 | op() is called at most max(1, MaxTries) times |
| `Service.ExpiredAtStart` | retry.go:87-92 | when the timer is seen as fired at the first check, the result is Timeout after zero calls |
| `Service.NotRetryable` | retry.go:98-111 | a first error that the predicate rejects, or any error when the predicate is nil, is returned unchanged after exactly one call and no sleep |
| `Service.AlwaysFailing` | retry.go:99-103 | an op whose calls 1..N all fail with retryable errors (any errors, possibly different on every call), with MaxTries = N >= 1 and no timeout, ends Exhausted after exactly N calls; it keeps the N-th, last, error and the counts N and N, and it has slept N-1 times when Sleep > 0 |
| `Service.SucceedsOnCall` | retry.go:95-113 | k-1 retryable failures then success, with k <= max(1, MaxTries) and the timer not fired before call k: Success after exactly k calls, with k-1 sleeps when Sleep > 0 |
| `Service.TwoFailuresThenSuccess` | retry.go:105-108 | with only the Sleep(d) option, d > 0 and the timer silent, an op failing twice then succeeding is called 3 times and sleeps twice |
| `Service.Retry` | retry.go:81-115 | the imperative loop's result, call count and sleep count are the run of the loop on the built options, are explained by the calls, and the call count is at most max(1, MaxTries) |
| `Options.Defaults` | options.go:45-49 | the starting record is retry.go's defaults (default timeout, default tries, Sleep 0) with errgo.Any as the Checker |
| `Options.Applied` | options.go:51-53 | the setters run left to right over a record; a definition without a contract, whose properties are stated by `Options.AppliedAgrees` and `Options.AppliedFields` |
| `Options.Apply` | options.go:11-35 | each setter writes the value it carries into its own field (Timeout, MaxTries, Checker or Sleep) and leaves the other three unchanged |
| `Options.AppliedAgrees` | options.go:44-55 | this builder computes retry.go's record from the same setters, with the Checker field renamed to Retryer |
| `Options.AppliedFields` | options.go:51-53 | after the setters run left to right, each field holds the value of the last setter for that field, or its starting value |
| `Options.SettersCompose` | options.go:11-35 | setters of different fields commute; of two setters of the same field the later one wins |
| `Options.NewRetryOptions` | options.go:44-55 | the loop over the options yields the defaults overridden field by field by the last setter; with no options: default timeout and tries, always-true Checker, Sleep 0 |

## Left out

- Real time: `time.After`, the non-blocking `select` and `time.Sleep` are not modelled. The deadline is the `Timer` oracle, which is not tied to the `Timeout` field's value, and a sleep is only counted. So nothing is claimed about how long a run takes, and nothing says that `Timeout = 0` gives zero calls, because the first `select` may run before `time.After(0)` has fired.
- The operation's effects: `op` is given only by the outcomes of its calls.
- errgo: masking, stack annotation and the message text `"Tries %d > %d"` are left out. The tagged result keeps the error and the counts that the message would show.
- Integer width: `tryCounter` and `MaxTries` are unbounded integers. Go's `int` cannot overflow here, because `tryCounter` never exceeds max(1, MaxTries).
- Durations are integers of nanoseconds. Only `Sleep > 0` affects the loop.
- Concurrency: a call shares no state with other calls, so there is nothing to model.
