# SharedError in Dafny

A model of the Go package `sharederror`, whose single type `SharedError` lets
several goroutines report failures into one shared value. The value keeps an
ordered, append-only list of Go `error`s behind a mutex. It is itself an
`error`: its `Error()` method renders every stored error into one message.

The model treats each method as one atomic step on the list. In Go, `Error`,
`Triggered` and `Errors` hold the mutex for their whole body. `Store` and
`Storef` take it after checking their argument (a nil error, an empty format),
a check that touches no shared state and returns without locking. `Has`,
`HasOnly` and `Err` hold it only inside the `Errors()` or `Triggered()` call
they make, then work on what that call returned. Appends
never rewrite the elements already stored, so the slice `Errors()` returned is
a prefix of the list, and reading it after the lock is released gives the
answer it gave under the lock.

- `error_values.dfy` (module `ErrorValues`) holds a non-nil Go error as
  `ErrorValue(msg, id)`. `msg` is what its `Error()` renders and `id` is its
  identity. A possibly-nil `error` (the argument of `Store`, the target of
  `Has` and `HasOnly`) is an `Option<ErrorValue>`. `errors.Is` is `Is`: false
  for a nil target, and otherwise an abstract `Matcher` relation that the
  queries take as a parameter.
  `AnyMatch` and `AllMatch` are the reference meanings of `Has` and `HasOnly`.
- `rendering.dfy` (module `Rendering`) holds `Combined`, the message
  `Error()` returns. It is empty for no errors and the bare message for one.
  For two or more, it is `error <i>: <msg>` for each error, in storage order,
  joined by `" / "`. `Decimal` is what `%d` prints. `Join` and `Entries` give an
  independent front-to-back definition of the numbered form, and lemmas prove
  that `Combined` agrees with it.
- `shared_error.dfy` (module `SharedErrors`) holds the class `SharedError`
  with one field, `errs: seq<ErrorValue>`. Its methods are the Go methods.
  `Error()` keeps the string-accumulating loop and is proved equal to
  `Combined`. `Has` and `HasOnly` keep the early-exit loops and are proved
  equal to `AnyMatch` and `AllMatch`.
- `scenarios.dfy` (module `Scenarios`) holds client methods that use a fresh
  `SharedError` the way the package's tests do. Each proves what every
  observation must be.

Where the package's tests and its code disagree, the model follows the code:

- The code names the matching queries `Has` and `HasOnly`. The tests call
  them `IsAny` and `IsAll`.
- `HasOnly` on an empty list returns true, because its loop never runs. The
  test of `IsAll` expects false there. The model keeps the vacuous truth
  (`SharedErrors.SharedError.HasOnly`, `Scenarios.HasOnlyAfterStores`).
- There is no `Reset` in `shared_error.go`, so none is modelled.

## Model

| member | source | states |
|---|---|---|
| `SharedErrors.SharedError.constructor` | shared_error.go:23-26 | a new shared error holds no errors |
| `SharedErrors.SharedError.Error` | shared_error.go:28-52 | the accumulating loop returns exactly `Combined(errs)` (empty, bare message, or numbered entries joined by " / ") |
| `SharedErrors.SharedError.Triggered` | shared_error.go:54-64 | true iff at least one error is stored |
| `SharedErrors.SharedError.Store` | shared_error.go:66-76 | nil leaves the list unchanged; a non-nil error is appended at the end, earlier entries and their order untouched |
| `SharedErrors.SharedError.Storef` | shared_error.go:78-88 | an empty format leaves the list unchanged; otherwise exactly one new error, with the formatted message and an identity unlike every stored one, is appended at the end |
| `SharedErrors.SharedError.Err` | shared_error.go:90-97 | returns the aggregator itself when triggered and nil otherwise |
| `SharedErrors.SharedError.Errors` | shared_error.go:99-105 | returns the stored errors in storage order |
| `SharedErrors.SharedError.Has` | shared_error.go:107-115 | true iff some stored error matches the target under `errors.Is`; a nil target matches nothing |
| `SharedErrors.SharedError.HasOnly` | shared_error.go:117-125 | true iff every stored error matches the target, so true when nothing is stored |
| `ErrorValues.EmptyMatches` | shared_error.go:108-125 | on an empty list nothing matches (`Has` false) and everything matches (`HasOnly` true) |
| `ErrorValues.AnyMatchAppend` | shared_error.go:108-115 | after one more error, a match exists iff one did before or the new error matches |
| `ErrorValues.AllMatchAppend` | shared_error.go:118-125 | after one more error, all match iff all did before and the new error matches; one mismatch makes it false for good |
| `ErrorValues.AllMatchImpliesAnyMatch` | shared_error.go:108-125 | on a non-empty list, `HasOnly` true implies `Has` true |
| `ErrorValues.NilTargetMatches` | shared_error.go:107-125 | with a nil target, `Has` is always false and `HasOnly` is true exactly when nothing is stored |
| `Rendering.Decimal` | shared_error.go:48 | `%d` of an index is a non-empty string of decimal digits, with no leading zero except for 0, one digit exactly below 10 |
| `Rendering.DecimalRoundTrip` | shared_error.go:48 | reading the printed digits back gives the index again |
| `Rendering.DecimalInjective` | shared_error.go:48 | distinct indices print differently, so each entry's number identifies its position |
| `Rendering.JoinLength` | shared_error.go:43-49 | joining n parts adds exactly n-1 separators |
| `Rendering.NumberedListIsJoin` | shared_error.go:41-51 | the left-to-right accumulation equals the entries joined front to back by " / " |
| `Rendering.CombinedRendering` | shared_error.go:33-51 | the message is "" for no errors, the bare message for one, and otherwise the entries in storage order with n-1 separators |
| `Rendering.NumberedListStartsWithFirstEntry` | shared_error.go:41-49 | a multi-error message begins with `error 0: ` and the first error's message |
| `Rendering.CombinedAppend` | shared_error.go:41-51 | with two or more errors stored, storing another keeps the old message as a prefix and appends " / error n: msg" |
| `Rendering.CombinedSecond` | shared_error.go:37-51 | one error renders bare; adding a second gives "error 0: a / error 1: b" |
| `Scenarios.TriggeredAfterStore` | shared_error_test.go:24-37 | a new shared error is not triggered and is triggered after one store |
| `Scenarios.ErrAfterStore` | shared_error_test.go:39-52 | `Err()` is nil on a new shared error and non-nil after one store |
| `Scenarios.CountAfterStores` | shared_error_test.go:54-72 | after n non-nil stores on a new shared error, `Errors()` holds exactly n errors |
| `Scenarios.HasAfterStores` | shared_error_test.go:80-99 | `Has` is false initially, stays false after a non-matching store and is true after a matching one |
| `Scenarios.HasOnlyAfterStores` | shared_error_test.go:101-125 | `HasOnly` is true initially (vacuously), stays true over matching stores and is false after a non-matching one |
| `Scenarios.MessagesAfterStores` | shared_error.go:29-51 | the message goes from "" to the bare first message to "error 0: a / error 1: b" |
| `Scenarios.StorefTwice` | shared_error.go:79-88 | two `Storef` calls with the same format and arguments store two distinct errors with the same message |
| `Scenarios.NilTarget` | shared_error.go:107-125 | with a nil target, `Has` is false before and after a store, and `HasOnly` is true only before it |

## Left out

- Mutex locking and goroutine safety: each method is one atomic step. The order of concurrent `Store` calls is whatever order the lock grants, and the model does not capture it.
- `fmt.Errorf(format, args...)` in `Storef`: the message is the parameter `sprintf` applied to the format and arguments, and the new error's identity is the parameter `id`, required to differ from every stored error's. Printf formatting and allocation belong to Go's standard library; `%w` wrapping is left to the abstract `errors.Is`.
- `errors.Is` and its unwrap chain are the abstract parameter `errorsIs`. The matching rules belong to Go's standard library.
- Aliasing of the slice that `Errors()` returns: a Dafny `seq` is a value, so a caller cannot see later appends through it.
- The test that `SharedError` satisfies the `error` interface is a Go type-system check. It has no behaviour to model.
- `IsAny`, `IsAll` and `Reset` are called only by the tests. They have no implementation in `shared_error.go`.
- Rendering.Combined and Rendering.Entry: a stored error's message is a fixed string, and `%v` is taken to print what `Error()` returns. A `fmt.Formatter` implementation, a panicking `Error()` method (which `%v` turns into `%!v(PANIC=...)` text), a stored shared error whose message changes as it fills, and the deadlock of storing a shared error into itself and then calling `Error()` are not modelled.
- The width of Go's `int` for the loop index: it cannot overflow for any list that fits in memory, so the model uses an unbounded `nat`.
