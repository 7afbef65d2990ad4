/** Shared vocabulary of the back end: optional values, business errors, the
    status constants, the clock unit and Java's decimal rendering of integers. */
module Common {

  datatype Option<T> = None | Some(value: T) {
    function GetOr(default: T): T {
      match this
      case Some(v) => v
      case None => default
    }
  }

  /** The business exceptions thrown by the services, named after their
      message constants, plus the two runtime failures the code can hit. */
  datatype Error =
    | AddressBookIsNull
    | ShoppingCartIsNull
    | OrderNotFound
    | OrderStatusError
    | DishOnSale
    | DishBeRelatedBySetmeal
    | SetmealOnSale
    | SetmealEnableFailed
    | AccountNotFound
    | PasswordError
    | AccountLocked
    | NullReference        // a NullPointerException from dereferencing a missing row
    | TooManyResults       // a single-row select that matched several rows
    | MissingSetter        // the RuntimeException wrapping a failed reflective lookup
    | DateOutOfRange       // java.time.DateTimeException past LocalDate.MAX

  datatype Result<T> = Ok(value: T) | Err(error: Error)

  datatype Outcome = Pass | Fail(error: Error)

  /** Sale / account status shared by dishes, set-meals and employees. */
  const ENABLE: int := 1
  const DISABLE: int := 0

  /** Clock values are nanoseconds since the epoch, the resolution of LocalDateTime. */
  const NANOS_PER_MINUTE: int := 60_000_000_000
  const NANOS_PER_DAY: int := 86_400_000_000_000

  // ---------------------------------------------------------------------------
  // Decimal rendering, as String.valueOf / string concatenation of a Long.

  predicate IsDigit(c: char) {
    '0' <= c <= '9'
  }

  function DigitChar(d: nat): (c: char)
    requires d < 10
    ensures IsDigit(c)
  {
    ('0' as int + d) as char
  }

  function DigitValue(c: char): nat
    requires IsDigit(c)
  {
    c as int - '0' as int
  }

  function NatToString(n: nat): (s: string)
    ensures |s| > 0
    ensures forall k :: 0 <= k < |s| ==> IsDigit(s[k])
    decreases n
  {
    if n < 10 then [DigitChar(n)] else NatToString(n / 10) + [DigitChar(n % 10)]
  }

  function IntToString(i: int): string {
    if i < 0 then "-" + NatToString(-i) else NatToString(i)
  }

  /** Reads a string of digits back, most significant digit first. */
  function ParseNat(s: string): nat
    requires forall k :: 0 <= k < |s| ==> IsDigit(s[k])
  {
    if s == [] then 0 else ParseNat(s[..|s| - 1]) * 10 + DigitValue(s[|s| - 1])
  }

  /** A rendered integer: an optional minus sign, then digits. */
  predicate IsIntText(t: string) {
    && |t| > 0
    && (t[0] == '-' || IsDigit(t[0]))
    && forall k :: 1 <= k < |t| ==> IsDigit(t[k])
  }

  function ParseInt(s: string): int
    requires IsIntText(s)
  {
    if s[0] == '-' then -(ParseNat(s[1..]) as int) else ParseNat(s)
  }

  lemma {:induction false} NatToStringRoundTrip(n: nat)
    ensures ParseNat(NatToString(n)) == n
    decreases n
  {
    if n >= 10 {
      var s := NatToString(n);
      assert s[..|s| - 1] == NatToString(n / 10);
      NatToStringRoundTrip(n / 10);
    }
  }

  /** The decimal rendering is the inverse of parsing, so it never maps two
      numbers to the same text. */
  lemma IntToStringRoundTrip(i: int)
    ensures |IntToString(i)| > 0
    ensures IsIntText(IntToString(i)) && ParseInt(IntToString(i)) == i
  {
    IntToStringChars(i);
    if i < 0 {
      var t := NatToString(-i);
      assert ("-" + t)[1..] == t;
      NatToStringRoundTrip(-i);
    } else {
      NatToStringRoundTrip(i);
    }
  }

  lemma IntToStringInjective(a: int, b: int)
    requires IntToString(a) == IntToString(b)
    ensures a == b
  {
    IntToStringRoundTrip(a);
    IntToStringRoundTrip(b);
  }

  /** A rendered integer is a minus sign or a digit followed by digits only. */
  lemma IntToStringChars(i: int)
    ensures |IntToString(i)| > 0
    ensures IntToString(i)[0] == '-' || IsDigit(IntToString(i)[0])
    ensures forall k :: 1 <= k < |IntToString(i)| ==> IsDigit(IntToString(i)[k])
  {
  }

  lemma IntToStringIsIntText(i: int)
    ensures IsIntText(IntToString(i))
    ensures '*' !in IntToString(i) && ';' !in IntToString(i) && ',' !in IntToString(i)
  {
    IntToStringChars(i);
  }

  // ---------------------------------------------------------------------------
  // Searching text.

  /** The position of the first occurrence of `c`, as `String.indexOf`. */
  function IndexOf(s: string, c: char): (r: Option<nat>)
    ensures r.Some? ==> r.value < |s| && s[r.value] == c && c !in s[..r.value]
    ensures r.None? <==> c !in s
  {
    if s == [] then None
    else if s[0] == c then Some(0)
    else match IndexOf(s[1..], c)
      case None => None
      case Some(i) =>
        assert s[..i + 1] == [s[0]] + s[1..][..i];
        Some(i + 1)
  }

  /** The first `c` of `a + [c] + b` is the one after `a` when `a` has none. */
  lemma IndexOfAfter(a: string, c: char, b: string)
    requires c !in a
    ensures IndexOf(a + [c] + b, c) == Some(|a|)
  {
    var s := a + [c] + b;
    assert s[|a|] == c;
    assert s[..|a|] == a;
  }
}
