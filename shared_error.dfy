/**
 * The shared error: an ordered, append-only list of Go errors that several
 * goroutines report into and that is itself usable as an `error`. Each method
 * here is one atomic step on the list. In Go, `Error`, `Triggered` and
 * `Errors` hold the mutex for their whole body; `Store` and `Storef` take it
 * after checking their argument, which touches no shared state; `Has`,
 * `HasOnly` and `Err` hold it only inside the `Errors` or `Triggered` call they
 * make and then work on what that call returned. Appends never rewrite the
 * elements already stored, so that snapshot is a prefix of the list, and
 * reading it after the lock is released gives the answer it would have given
 * under the lock.
 */
module SharedErrors {
  import opened ErrorValues
  import opened Rendering

  class SharedError {
    /** The stored errors, in the order they were stored. No nil is ever stored. */
    var errs: seq<ErrorValue>

    /** `NewSharedError()`; the zero value is the same empty aggregator. */
    constructor ()
      ensures errs == []
    {
      errs := [];
    }

    /** `Error()`: the combined message, built by the same accumulating loop. */
    method Error() returns (r: string)
      ensures r == Combined(errs)
    {
      if |errs| == 0 {
        return "";
      }
      if |errs| == 1 {
        return errs[0].msg;
      }
      var errorStr := "";
      for i := 0 to |errs|
        invariant i == 0 ==> errorStr == ""
        invariant i > 0 ==> errorStr == NumberedList(errs[..i])
      {
        if i != 0 {
          errorStr := errorStr + Separator;
        }
        errorStr := errorStr + Entry(i, errs[i]);
        assert errs[..i + 1][..i] == errs[..i];
      }
      assert errs[..|errs|] == errs;
      return errorStr;
    }

    /** `Triggered()`: whether anything has been stored. */
    method Triggered() returns (t: bool)
      ensures t <==> errs != []
    {
      if |errs| == 0 {
        return false;
      }
      return true;
    }

    /** `Store(err)`: a nil error is ignored; any other is appended at the end,
        leaving the earlier entries and their order as they were. */
    method Store(err: Option<ErrorValue>)
      modifies this
      ensures err.None? ==> errs == old(errs)
      ensures err.Some? ==> errs == old(errs) + [err.value]
    {
      if err.None? {
        return;
      }
      errs := errs + [err.value];
    }

    /** `Storef(format, args...)`: an empty format is ignored; otherwise
        `fmt.Errorf` makes a new error, whose message `sprintf` gives for the
        format and arguments and whose identity `id` is fresh, that is, unlike
        that of every error already stored; it is appended at the end. */
    method Storef<A>(format: string, args: seq<A>, sprintf: (string, seq<A>) -> string, id: nat)
      requires format != "" ==> forall e :: e in errs ==> e.id != id
      modifies this
      ensures format == "" ==> errs == old(errs)
      ensures format != "" ==> errs == old(errs) + [ErrorValue(sprintf(format, args), id)]
      ensures format != "" ==> forall e :: e in old(errs) ==> e != errs[|errs| - 1]
    {
      if format == "" {
        return;
      }
      errs := errs + [ErrorValue(sprintf(format, args), id)];
    }

    /** `Err()`: the aggregator itself as an error once triggered, else nil. */
    method Err() returns (r: SharedError?)
      ensures errs != [] ==> r == this
      ensures errs == [] ==> r == null
    {
      var triggered := Triggered();
      if triggered {
        r := this;
      } else {
        r := null;
      }
    }

    /** `Errors()`: the stored errors, in storage order. */
    method Errors() returns (r: seq<ErrorValue>)
      ensures r == errs
    {
      return errs;
    }

    /** `Has(target)`: some stored error matches `target` under `errors.Is`;
        a nil target matches nothing. */
    method Has(target: Option<ErrorValue>, errorsIs: Matcher) returns (found: bool)
      ensures found <==> AnyMatch(errs, target, errorsIs)
    {
      var all := Errors();
      for i := 0 to |all|
        invariant forall j :: 0 <= j < i ==> !Is(all[j], target, errorsIs)
      {
        if Is(all[i], target, errorsIs) {
          return true;
        }
      }
      return false;
    }

    /** `HasOnly(target)`: every stored error matches `target` under
        `errors.Is`; with nothing stored the loop never runs and the answer is
        true. */
    method HasOnly(target: Option<ErrorValue>, errorsIs: Matcher) returns (only: bool)
      ensures only <==> AllMatch(errs, target, errorsIs)
      ensures errs == [] ==> only
    {
      var all := Errors();
      for i := 0 to |all|
        invariant forall j :: 0 <= j < i ==> Is(all[j], target, errorsIs)
      {
        if !Is(all[i], target, errorsIs) {
          return false;
        }
      }
      return true;
    }
  }
}
