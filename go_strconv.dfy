/** strconv.Atoi as the configuration loader uses it, on a 64-bit platform
    where Go's `int` is 64 bits wide, with strconv.FormatInt as its inverse. */
module GoStrconv {
  import opened Wrappers

  /** Go's `int` (and `time.Duration`) on a 64-bit platform. */
  newtype Int64 = x: int | -0x8000_0000_0000_0000 <= x < 0x8000_0000_0000_0000

  predicate IsDigit(c: char)
  {
    '0' <= c <= '9'
  }

  predicate AllDigits(ds: string)
  {
    forall i :: 0 <= i < |ds| ==> IsDigit(ds[i])
  }

  /** The value of a string of decimal digits, most significant first. */
  function DecimalValue(ds: string): (n: nat)
    requires AllDigits(ds)
  {
    if ds == [] then 0
    else 10 * DecimalValue(ds[..|ds| - 1]) + ((ds[|ds| - 1] as int) - ('0' as int))
  }

  /** strconv.Atoi: an optional '+' or '-' followed by one or more decimal
      digits whose value fits in 64 bits. Everything else fails: the empty
      string, a lone sign, spaces, underscores, base prefixes, overflow. */
  function Atoi(s: string): (r: Option<Int64>)
    ensures r.Some? ==> s != [] && forall i :: 0 < i < |s| ==> IsDigit(s[i])
    ensures r.Some? && s[0] == '-' ==> r.value <= 0
    ensures r.Some? && s[0] != '-' ==> r.value >= 0
  {
    if s == [] then None
    else
      var digits := if s[0] == '-' || s[0] == '+' then s[1..] else s;
      if digits == [] || !AllDigits(digits) then None
      else
        var n: int := if s[0] == '-' then 0 - DecimalValue(digits) else DecimalValue(digits);
        if -0x8000_0000_0000_0000 <= n < 0x8000_0000_0000_0000 then Some(n as Int64) else None
  }

  /** The decimal digits of `n`, without leading zeros. */
  function Digits(n: nat): (ds: string)
    ensures ds != [] && AllDigits(ds) && DecimalValue(ds) == n
    ensures |ds| > 1 ==> ds[0] != '0'
  {
    var d := [(('0' as int) + n % 10) as char];
    if n < 10 then d
    else
      var prefix := Digits(n / 10);
      assert (prefix + d)[..|prefix + d| - 1] == prefix;
      prefix + d
  }

  /** strconv.FormatInt(n, 10). */
  function FormatInt(n: int): (s: string)
  {
    if n < 0 then "-" + Digits(-n) else Digits(n)
  }

  /** Atoi reads back every 64-bit integer that FormatInt writes. */
  lemma AtoiFormatInt(n: Int64)
    ensures Atoi(FormatInt(n as int)) == Some(n)
  {
  }

  /** An explicit '+' sign is accepted. */
  lemma AtoiPlusSign(n: Int64)
    requires n >= 0
    ensures Atoi("+" + FormatInt(n as int)) == Some(n)
  {
  }

  /** What Atoi rejects: anything that is not a plain decimal numeral,
      including surrounding spaces and digit separators. */
  lemma AtoiRejects()
    ensures Atoi("") == None
    ensures Atoi("-") == None
    ensures Atoi("not_a_number") == None
    ensures Atoi(" 50") == None
    ensures Atoi("1_000") == None
  {
  }

  /** A negative numeral is accepted like any other. */
  lemma AtoiNegative()
    ensures Atoi("-5") == Some(-5)
  {
    assert "-5"[1..] == "5" && "5"[..0] == "";
    assert DecimalValue("5") == 5;
  }

  /** Numerals beyond the 64-bit range are rejected. */
  lemma AtoiRejectsOverflow(n: int)
    requires n < -0x8000_0000_0000_0000 || n >= 0x8000_0000_0000_0000
    ensures Atoi(FormatInt(n)) == None
  {
  }
}
