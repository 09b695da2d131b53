/**
 * The combined message of a shared error: empty when nothing is stored, the
 * single error's own message when one is, and otherwise every entry numbered
 * from 0 as `error <i>: <message>` and joined by " / ".
 */
module Rendering {
  import opened ErrorValues

  /** The separator placed between numbered entries. */
  const Separator := " / "

  predicate IsDigit(c: char)
  {
    '0' <= c <= '9'
  }

  predicate AllDigits(s: string)
  {
    forall i :: 0 <= i < |s| ==> IsDigit(s[i])
  }

  function DigitChar(d: nat): (c: char)
    requires d < 10
    ensures IsDigit(c) && c as int - '0' as int == d
  {
    ('0' as int + d) as char
  }

  /** What `%d` prints for a non-negative int: decimal digits, most significant
      first, with no leading zero except for 0 itself. */
  function Decimal(n: nat): (s: string)
    ensures |s| >= 1 && AllDigits(s)
    ensures s[0] == '0' <==> n == 0
    ensures n < 10 <==> |s| == 1
  {
    if n < 10 then [DigitChar(n)] else Decimal(n / 10) + [DigitChar(n % 10)]
  }

  /** The number a string of decimal digits denotes. */
  function DigitsValue(s: string): nat
    requires AllDigits(s)
  {
    if s == [] then 0
    else DigitsValue(s[..|s| - 1]) * 10 + (s[|s| - 1] as int - '0' as int)
  }

  /** Reading back what `Decimal` printed gives the number again. */
  lemma {:induction false} DecimalRoundTrip(n: nat)
    ensures DigitsValue(Decimal(n)) == n
  {
    var s := Decimal(n);
    if n >= 10 {
      DecimalRoundTrip(n / 10);
      assert s[..|s| - 1] == Decimal(n / 10);
    }
  }

  /** Distinct positions are printed differently. */
  lemma DecimalInjective(m: nat, n: nat)
    requires m != n
    ensures Decimal(m) != Decimal(n)
  {
    DecimalRoundTrip(m);
    DecimalRoundTrip(n);
  }

  /** `fmt.Sprintf("error %d: %v", i, err)`, taking `%v` of a stored error to
      print the fixed message its `Error()` renders. */
  function Entry(i: nat, e: ErrorValue): string
  {
    "error " + Decimal(i) + ": " + e.msg
  }

  /** The numbered entries of the loop in `Error()`, accumulated left to right
      as the loop does: entry 0 alone, then " / " and entry i for each later i. */
  function NumberedList(errs: seq<ErrorValue>): string
    requires errs != []
  {
    if |errs| == 1 then Entry(0, errs[0])
    else NumberedList(errs[..|errs| - 1]) + Separator + Entry(|errs| - 1, errs[|errs| - 1])
  }

  /** The message `Error()` returns for the stored errors `errs`. */
  function Combined(errs: seq<ErrorValue>): string
  {
    if |errs| == 0 then ""
    else if |errs| == 1 then errs[0].msg
    else NumberedList(errs)
  }

  // ----- an independent reference rendering -----

  /** `parts` joined by `sep`, front to back: `sep` between neighbours only. */
  function Join(parts: seq<string>, sep: string): string
  {
    if |parts| == 0 then ""
    else if |parts| == 1 then parts[0]
    else parts[0] + sep + Join(parts[1..], sep)
  }

  /** The entry of every stored error, at its storage position. */
  function Entries(errs: seq<ErrorValue>): (r: seq<string>)
    ensures |r| == |errs|
    ensures forall i :: 0 <= i < |errs| ==> r[i] == Entry(i, errs[i])
  {
    seq(|errs|, i requires 0 <= i < |errs| => Entry(i, errs[i]))
  }

  /** Total length of a list of strings. */
  function TotalLength(parts: seq<string>): nat
  {
    if parts == [] then 0 else |parts[0]| + TotalLength(parts[1..])
  }

  lemma {:induction false} JoinSnoc(parts: seq<string>, x: string, sep: string)
    requires parts != []
    ensures Join(parts + [x], sep) == Join(parts, sep) + sep + x
  {
    if |parts| == 1 {
      assert (parts + [x])[1..] == [x];
    } else {
      assert (parts + [x])[1..] == parts[1..] + [x];
      JoinSnoc(parts[1..], x, sep);
    }
  }

  /** A join of n parts is as long as the parts together plus n-1 separators. */
  lemma {:induction false} JoinLength(parts: seq<string>, sep: string)
    requires parts != []
    ensures |Join(parts, sep)| == TotalLength(parts) + (|parts| - 1) * |sep|
  {
    if |parts| == 1 {
      assert TotalLength(parts) == |parts[0]| + TotalLength([]);
    } else {
      JoinLength(parts[1..], sep);
    }
  }

  /** The left-to-right accumulation equals the join of the numbered entries. */
  lemma {:induction false} NumberedListIsJoin(errs: seq<ErrorValue>)
    requires errs != []
    ensures NumberedList(errs) == Join(Entries(errs), Separator)
  {
    var n := |errs|;
    if n == 1 {
      assert Entries(errs) == [Entry(0, errs[0])];
    } else {
      var init := errs[..n - 1];
      NumberedListIsJoin(init);
      assert Entries(errs) == Entries(init) + [Entry(n - 1, errs[n - 1])];
      JoinSnoc(Entries(init), Entry(n - 1, errs[n - 1]), Separator);
    }
  }

  /** The rendering rule of `Error()`, case by case: empty, the bare message of
      a single error, or the numbered entries in storage order joined by " / ",
      which puts exactly n-1 separators between n entries. */
  lemma CombinedRendering(errs: seq<ErrorValue>)
    ensures errs == [] ==> Combined(errs) == ""
    ensures |errs| == 1 ==> Combined(errs) == errs[0].msg
    ensures |errs| >= 2 ==> Combined(errs) == Join(Entries(errs), Separator)
    ensures |errs| >= 2 ==>
      |Combined(errs)| == TotalLength(Entries(errs)) + (|errs| - 1) * |Separator|
  {
    if |errs| >= 2 {
      NumberedListIsJoin(errs);
      JoinLength(Entries(errs), Separator);
    }
  }

  /** The numbered list opens with entry 0, the first stored error. */
  lemma {:induction false} NumberedListStartsWithFirstEntry(errs: seq<ErrorValue>)
    requires errs != []
    ensures |Entry(0, errs[0])| <= |NumberedList(errs)|
    ensures NumberedList(errs)[..|Entry(0, errs[0])|] == Entry(0, errs[0])
  {
    if |errs| > 1 {
      var init := errs[..|errs| - 1];
      NumberedListStartsWithFirstEntry(init);
      assert init[0] == errs[0];
    }
  }

  /** Storing one more error after at least two extends the message: the old
      message is kept as a prefix and " / error n: msg" is added. */
  lemma CombinedAppend(errs: seq<ErrorValue>, e: ErrorValue)
    requires |errs| >= 2
    ensures Combined(errs + [e]) == Combined(errs) + Separator + Entry(|errs|, e)
  {
    assert (errs + [e])[..|errs|] == errs;
  }

  /** Storing a second error replaces the bare message by the numbered form. */
  lemma CombinedSecond(first: ErrorValue, second: ErrorValue)
    ensures Combined([first]) == first.msg
    ensures Combined([first, second]) == "error 0: " + first.msg + " / error 1: " + second.msg
  {
    var both := [first, second];
    assert both[..1] == [first];
    assert NumberedList(both) == Entry(0, first) + Separator + Entry(1, second);
    assert Entry(0, first) == "error " + [DigitChar(0)] + ": " + first.msg;
    assert Entry(1, second) == "error " + [DigitChar(1)] + ": " + second.msg;
    assert "error " + [DigitChar(0)] + ": " == "error 0: ";
    assert "error " + [DigitChar(1)] + ": " == "error 1: ";
  }
}
