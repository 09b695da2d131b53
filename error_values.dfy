/**
 * Go error values as the shared-error aggregator sees them: an opaque value
 * with a rendered message, which may also be absent (a nil `error`), and the
 * `errors.Is` matching relation, which the aggregator only ever calls.
 */
module ErrorValues {

  /** A non-nil Go `error`: the text its `Error()` method renders, and an
      identity that tells apart two distinct instances with the same text
      (two calls of `fmt.Errorf("x")` give two different pointers). */
  datatype ErrorValue = ErrorValue(msg: string, id: nat)

  /** A Go `error` interface value, which may be nil. */
  datatype Option<+T> = None | Some(value: T)

  /** `errors.Is(err, target)` for a non-nil target. The unwrap-chain semantics
      live in Go's standard library, so the relation is a parameter of every
      query. */
  type Matcher = (ErrorValue, ErrorValue) -> bool

  /** `errors.Is(err, target)` for a stored (so non-nil) `err` and a target that
      may be nil: with a nil target `errors.Is` answers `err == target`, which is
      false for a non-nil `err`; otherwise the library relation decides. */
  predicate Is(err: ErrorValue, target: Option<ErrorValue>, errorsIs: Matcher)
  {
    match target
    case None => false
    case Some(t) => errorsIs(err, t)
  }

  /** Some stored error matches `target`. */
  predicate AnyMatch(errs: seq<ErrorValue>, target: Option<ErrorValue>, errorsIs: Matcher)
  {
    exists i :: 0 <= i < |errs| && Is(errs[i], target, errorsIs)
  }

  /** Every stored error matches `target` (vacuously so when none is stored). */
  predicate AllMatch(errs: seq<ErrorValue>, target: Option<ErrorValue>, errorsIs: Matcher)
  {
    forall i :: 0 <= i < |errs| ==> Is(errs[i], target, errorsIs)
  }

  /** Nothing matches in an empty collection, while everything does. */
  lemma EmptyMatches(target: Option<ErrorValue>, errorsIs: Matcher)
    ensures !AnyMatch([], target, errorsIs)
    ensures AllMatch([], target, errorsIs)
  {
  }

  /** A nil target matches no stored error: `Has(nil)` is always false, and
      `HasOnly(nil)` is true exactly when nothing is stored. */
  lemma NilTargetMatches(errs: seq<ErrorValue>, errorsIs: Matcher)
    ensures !AnyMatch(errs, None, errorsIs)
    ensures AllMatch(errs, None, errorsIs) <==> errs == []
  {
    if errs != [] {
      assert !Is(errs[0], None, errorsIs);
    }
  }

  /** Appending one error: a match exists afterwards iff one existed before or
      the new error matches. */
  lemma AnyMatchAppend(errs: seq<ErrorValue>, e: ErrorValue, target: Option<ErrorValue>, errorsIs: Matcher)
    ensures AnyMatch(errs + [e], target, errorsIs) <==> AnyMatch(errs, target, errorsIs) || Is(e, target, errorsIs)
  {
    var all := errs + [e];
    if AnyMatch(errs, target, errorsIs) {
      var i :| 0 <= i < |errs| && Is(errs[i], target, errorsIs);
      assert all[i] == errs[i];
    }
    if Is(e, target, errorsIs) {
      assert all[|errs|] == e;
    }
    if AnyMatch(all, target, errorsIs) && !Is(e, target, errorsIs) {
      var i :| 0 <= i < |all| && Is(all[i], target, errorsIs);
      assert i < |errs| && all[i] == errs[i];
    }
  }

  /** Appending one error: all match afterwards iff all matched before and the
      new error matches too; one non-matching error spoils `AllMatch` for good. */
  lemma AllMatchAppend(errs: seq<ErrorValue>, e: ErrorValue, target: Option<ErrorValue>, errorsIs: Matcher)
    ensures AllMatch(errs + [e], target, errorsIs) <==> AllMatch(errs, target, errorsIs) && Is(e, target, errorsIs)
  {
    var all := errs + [e];
    if AllMatch(all, target, errorsIs) {
      assert all[|errs|] == e;
      forall i | 0 <= i < |errs| ensures Is(errs[i], target, errorsIs) {
        assert all[i] == errs[i];
      }
    }
  }

  /** On a non-empty collection, "all match" implies "some match"; on the empty
      one it does not, which is where `HasOnly` and `Has` part ways. */
  lemma AllMatchImpliesAnyMatch(errs: seq<ErrorValue>, target: Option<ErrorValue>, errorsIs: Matcher)
    requires errs != []
    requires AllMatch(errs, target, errorsIs)
    ensures AnyMatch(errs, target, errorsIs)
  {
    assert Is(errs[0], target, errorsIs);
  }
}
