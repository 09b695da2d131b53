/**
 * Client programs that exercise a fresh shared error the way the package's
 * tests do, with what each observation is proved to be.
 */
module Scenarios {
  import opened ErrorValues
  import opened Rendering
  import opened SharedErrors

  /** A new shared error is not triggered; after storing one error it is. */
  method TriggeredAfterStore(e: ErrorValue) returns (before: bool, after: bool)
    ensures !before && after
  {
    var s := new SharedError();
    before := s.Triggered();
    s.Store(Some(e));
    after := s.Triggered();
  }

  /** `Err()` is nil on a new shared error and non-nil after one store. */
  method ErrAfterStore(e: ErrorValue) returns (before: SharedError?, after: SharedError?)
    ensures before == null && after != null
  {
    var s := new SharedError();
    before := s.Err();
    s.Store(Some(e));
    after := s.Err();
  }

  /** Storing `n` non-nil errors into a new shared error leaves exactly `n`. */
  method CountAfterStores(n: nat, e: ErrorValue) returns (initial: nat, count: nat)
    ensures initial == 0 && count == n
  {
    var s := new SharedError();
    var errs := s.Errors();
    initial := |errs|;
    for i := 0 to n
      invariant |s.errs| == i
    {
      s.Store(Some(e));
    }
    errs := s.Errors();
    count := |errs|;
  }

  /** `Has` is false on a new shared error, stays false after a non-matching
      store, and becomes true once a matching error is stored. */
  method HasAfterStores(other: ErrorValue, target: ErrorValue, errorsIs: Matcher)
    returns (initial: bool, afterOther: bool, afterTarget: bool)
    requires !errorsIs(other, target) && errorsIs(target, target)
    ensures !initial && !afterOther && afterTarget
  {
    var s := new SharedError();
    initial := s.Has(Some(target), errorsIs);
    s.Store(Some(other));
    afterOther := s.Has(Some(target), errorsIs);
    assert s.errs == [other];
    s.Store(Some(target));
    afterTarget := s.Has(Some(target), errorsIs);
    assert s.errs[1] == target;
  }

  /** `HasOnly` is true on a new shared error (vacuously), stays true while
      only matching errors are stored, and turns false at the first
      non-matching one. */
  method HasOnlyAfterStores(n: nat, target: ErrorValue, other: ErrorValue, errorsIs: Matcher)
    returns (initial: bool, afterTargets: bool, afterOther: bool)
    requires errorsIs(target, target) && !errorsIs(other, target)
    ensures initial && afterTargets && !afterOther
  {
    var s := new SharedError();
    initial := s.HasOnly(Some(target), errorsIs);
    for i := 0 to n
      invariant forall j :: 0 <= j < |s.errs| ==> s.errs[j] == target
    {
      s.Store(Some(target));
    }
    afterTargets := s.HasOnly(Some(target), errorsIs);
    s.Store(Some(other));
    afterOther := s.HasOnly(Some(target), errorsIs);
    assert s.errs[|s.errs| - 1] == other;
  }

  /** One stored error renders as its bare message; a second switches the
      message to the numbered, " / "-separated form. */
  method MessagesAfterStores(first: ErrorValue, second: ErrorValue)
    returns (empty: string, one: string, two: string)
    ensures empty == ""
    ensures one == first.msg
    ensures two == "error 0: " + first.msg + " / error 1: " + second.msg
  {
    var s := new SharedError();
    empty := s.Error();
    s.Store(Some(first));
    one := s.Error();
    s.Store(Some(second));
    two := s.Error();
    assert s.errs == [first, second];
    CombinedSecond(first, second);
  }

  /** Two `Storef` calls with the same format and arguments store two
      distinct errors with the same message, as two `fmt.Errorf` calls do. */
  method StorefTwice<A>(format: string, args: seq<A>, sprintf: (string, seq<A>) -> string, id1: nat, id2: nat)
    returns (stored: seq<ErrorValue>)
    requires format != "" && id1 != id2
    ensures |stored| == 2
    ensures stored[0].msg == stored[1].msg == sprintf(format, args)
    ensures stored[0] != stored[1]
  {
    var s := new SharedError();
    s.Storef(format, args, sprintf, id1);
    s.Storef(format, args, sprintf, id2);
    stored := s.Errors();
  }

  /** With a nil target, `Has` is false and `HasOnly` holds only while
      nothing is stored. */
  method NilTarget(e: ErrorValue, errorsIs: Matcher)
    returns (hasBefore: bool, onlyBefore: bool, hasAfter: bool, onlyAfter: bool)
    ensures !hasBefore && onlyBefore && !hasAfter && !onlyAfter
  {
    var s := new SharedError();
    hasBefore := s.Has(None, errorsIs);
    onlyBefore := s.HasOnly(None, errorsIs);
    s.Store(Some(e));
    hasAfter := s.Has(None, errorsIs);
    onlyAfter := s.HasOnly(None, errorsIs);
    NilTargetMatches(s.errs, errorsIs);
  }
}
