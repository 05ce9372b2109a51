/** Shared value types. */
module Prelude {
  datatype Option<+T> = None | Some(value: T)

  /** A set of keys removed from a map. */
  function Without<K, V>(m: map<K, V>, keys: set<K>): (r: map<K, V>)
    ensures r.Keys == m.Keys - keys
    ensures forall k :: k in r ==> r[k] == m[k]
  {
    m - keys
  }
}

/** Decimal numbers as `%d`, `FormatInt` and `ParseInt` print and read them: timestamps in
    annotations, seconds in job names and positions in volume names. */
module Decimal {
  import opened Prelude

  const INT64_LIMIT := 0x8000_0000_0000_0000

  predicate IsDigit(c: char) {
    '0' <= c <= '9'
  }

  predicate AllDigits(s: string) {
    forall i :: 0 <= i < |s| ==> IsDigit(s[i])
  }

  function DigitOf(n: nat): (c: char)
    requires n < 10
    ensures IsDigit(c)
  {
    ('0' as int + n) as char
  }

  function Format(n: nat): (s: string)
    ensures |s| > 0 && AllDigits(s)
  {
    if n < 10 then [DigitOf(n)] else Format(n / 10) + [DigitOf(n % 10)]
  }

  function Number(s: string): nat
    requires AllDigits(s)
  {
    if s == [] then 0 else 10 * Number(s[..|s| - 1]) + (s[|s| - 1] as int - '0' as int)
  }

  /** `strconv.ParseInt(s, 10, 64)`: an optional sign, at least one digit, 64-bit range. */
  function ParseInt(s: string): Option<int> {
    var signed := s != [] && (s[0] == '-' || s[0] == '+');
    var body := if signed then s[1..] else s;
    if body == [] || !AllDigits(body) then None
    else
      var n: int := if signed && s[0] == '-' then -(Number(body) as int) else Number(body);
      if -INT64_LIMIT <= n < INT64_LIMIT then Some(n) else None
  }

  lemma {:induction false} NumberOfFormat(n: nat)
    ensures Number(Format(n)) == n
  {
    if n < 10 {
      assert Format(n)[..0] == [];
    } else {
      NumberOfFormat(n / 10);
      assert Format(n)[..|Format(n)| - 1] == Format(n / 10);
    }
  }

  /** What is printed is read back. */
  lemma ParseAfterFormat(n: nat)
    requires n < INT64_LIMIT
    ensures ParseInt(Format(n)) == Some(n)
  {
    NumberOfFormat(n);
    assert IsDigit(Format(n)[0]);
  }

  /** Printing loses nothing. */
  lemma FormatInjective(m: nat, n: nat)
    requires Format(m) == Format(n)
    ensures m == n
  {
    NumberOfFormat(m);
    NumberOfFormat(n);
  }

  /** The digits stand in the usual order. */
  lemma DigitsInOrder(n: nat, d: nat)
    requires 0 < n && d < 10
    ensures Format(10 * n + d) == Format(n) + Format(d) && Format(d) == ["0123456789"[d]]
  {
    assert (10 * n + d) / 10 == n && (10 * n + d) % 10 == d;
  }

  /** A sign may precede them, nothing else. */
  lemma SignsAreRead(n: nat)
    requires n < INT64_LIMIT
    ensures ParseInt("-" + Format(n)) == Some(0 - n as int) && ParseInt("+" + Format(n)) == Some(n as int)
    ensures ParseInt("") == None && ParseInt("-") == None
  {
    NumberOfFormat(n);
    assert ("-" + Format(n))[1..] == Format(n) && ("+" + Format(n))[1..] == Format(n);
  }
}
