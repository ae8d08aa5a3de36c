/** Decimal numbers in text, printed and read as the standard library does. */
module Numbers {
  predicate IsDigit(c: char) { '0' <= c <= '9' }

  predicate IsSpace(c: char) { c == ' ' || 9 <= c as int <= 13 }

  /** The white space of the C locale: tab, line feed, vertical tab, form feed, carriage return and space. */
  lemma SpaceCodes(c: char)
    ensures IsSpace(c) <==> c as int in {9, 10, 11, 12, 13, 32}
  {
    assert ' ' as int == 32;
    assert c as int == 32 ==> c == ' ';
  }

  /** The value of the digits at the front of a text, after those already read. */
  function DigitsValue(s: string, read: nat): (n: nat)
    ensures n >= read
  {
    if s == "" || !IsDigit(s[0]) then read else DigitsValue(s[1..], 10 * read + (s[0] as int - 48))
  }

  /** The standard library's `atoi`: white space, a sign, then digits up to the first other character. */
  function Atoi(s: string): (n: int) {
    if s == "" then 0
    else if IsSpace(s[0]) then Atoi(s[1..])
    else if s[0] == '-' then -(DigitsValue(s[1..], 0) as int)
    else if s[0] == '+' then DigitsValue(s[1..], 0)
    else DigitsValue(s, 0)
  }

  function Decimal(n: nat): (r: string)
    ensures r != "" && forall i :: 0 <= i < |r| ==> IsDigit(r[i])
  {
    (if n < 10 then "" else Decimal(n / 10)) + [(48 + n % 10) as char]
  }

  lemma {:induction false} DigitsValueAppend(a: string, b: string, read: nat)
    requires forall i :: 0 <= i < |a| ==> IsDigit(a[i])
    ensures DigitsValue(a + b, read) == DigitsValue(b, DigitsValue(a, read))
  {
    if a == "" {
      assert a + b == b;
    } else {
      assert (a + b)[1..] == a[1..] + b;
      DigitsValueAppend(a[1..], b, 10 * read + (a[0] as int - 48));
    }
  }

  lemma {:induction false} DecimalReadsBack(n: nat)
    ensures DigitsValue(Decimal(n), 0) == n
  {
    var last := [(48 + n % 10) as char];
    if n < 10 {
      assert Decimal(n) == last;
      assert last[1..] == "";
    } else {
      DecimalReadsBack(n / 10);
      DigitsValueAppend(Decimal(n / 10), last, 0);
      assert last[1..] == "";
    }
  }

  lemma AtoiDecimal(n: nat)
    ensures Atoi(Decimal(n)) == n
  {
    DecimalReadsBack(n);
    assert IsDigit(Decimal(n)[0]);
  }

  /** A sign, and white space before it. */
  lemma AtoiSigned(n: nat, s: string)
    ensures Atoi("-" + Decimal(n)) == -(n as int) && Atoi("+" + Decimal(n)) == n
    ensures s != "" && IsSpace(s[0]) ==> Atoi(s) == Atoi(s[1..])
  {
    hide Decimal;
    AtoiDecimal(n);
    assert ("-" + Decimal(n))[1..] == Decimal(n) && ("+" + Decimal(n))[1..] == Decimal(n);
  }
}
