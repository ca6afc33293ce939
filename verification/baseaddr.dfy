/**
 * The two strings that tie a parport number to a base address: the line
 * the emulator returns for /proc/sys/dev/parport/parportN/base-addr, and
 * the device path CARD_REGISTER opens for a base address. Numbers are
 * printed as `%d` and `%lu` print a non-negative number: decimal digits, no
 * sign, no leading zeros.
 */
module BaseAddr {

  predicate IsDigit(c: char) {
    '0' <= c <= '9'
  }

  predicate AllDigits(s: string) {
    forall i :: 0 <= i < |s| ==> IsDigit(s[i])
  }

  function DigitChar(d: nat): (c: char)
    requires d < 10
    ensures IsDigit(c)
  {
    (d + '0' as int) as char
  }

  function DigitValue(c: char): (d: nat)
    requires IsDigit(c)
    ensures d < 10
  {
    (c as int - '0' as int) as nat
  }

  /** The decimal representation of n. */
  function Decimal(n: nat): (s: string)
    ensures |s| > 0 && AllDigits(s)
    ensures s[0] == '0' ==> n == 0
  {
    if n < 10 then [DigitChar(n)]
    else Decimal(n / 10) + [DigitChar(n % 10)]
  }

  function ParseDecimal(s: string): nat
    requires AllDigits(s)
  {
    if s == [] then 0
    else ParseDecimal(s[..|s| - 1]) * 10 + DigitValue(s[|s| - 1])
  }

  lemma {:induction false} ParseDecimalOfDecimal(n: nat)
    ensures ParseDecimal(Decimal(n)) == n
  {
    var s := Decimal(n);
    if n >= 10 {
      ParseDecimalOfDecimal(n / 10);
      assert s[..|s| - 1] == Decimal(n / 10);
    }
  }

  /** Decimal is one-to-one, so the path names a single port. */
  lemma {:induction false} DecimalInjective(m: nat, n: nat)
    requires Decimal(m) == Decimal(n)
    ensures m == n
  {
    ParseDecimalOfDecimal(m);
    ParseDecimalOfDecimal(n);
  }

  /** The device CARD_REGISTER opens for the base address of Item[0]: one
      parport per 0x10 of address. */
  function ParportPath(addr: nat): string {
    "/dev/parport" + Decimal(addr / 0x10)
  }

  /** The base-addr line for parport N: its SPP base N * 0x10 and its ECP
      base 0x400 above, tab-separated, newline-terminated. */
  function BaseAddrLine(num: nat): string {
    Decimal(num * 0x10) + "\t" + Decimal(num * 0x10 + 0x400) + "\n"
  }

  /** The leading run of digits of a line: the first number on it. */
  function LeadingNumber(s: string): (r: string)
    ensures AllDigits(r) && r <= s
  {
    if s == [] || !IsDigit(s[0]) then [] else [s[0]] + LeadingNumber(s[1..])
  }

  lemma {:induction false} LeadingNumberOf(ds: string, rest: string)
    requires AllDigits(ds) && |rest| > 0 && !IsDigit(rest[0])
    ensures LeadingNumber(ds + rest) == ds
  {
    if ds == [] {
      assert ds + rest == rest;
    } else {
      assert (ds + rest)[1..] == ds[1..] + rest;
      LeadingNumberOf(ds[1..], rest);
    }
  }

  /** The first number of the base-addr line for parport N is its base
      address N * 0x10. */
  lemma {:induction false} BaseAddrFirstNumber(num: nat)
    ensures AllDigits(LeadingNumber(BaseAddrLine(num)))
    ensures ParseDecimal(LeadingNumber(BaseAddrLine(num))) == num * 0x10
  {
    var rest := "\t" + Decimal(num * 0x10 + 0x400) + "\n";
    assert BaseAddrLine(num) == Decimal(num * 0x10) + rest;
    LeadingNumberOf(Decimal(num * 0x10), rest);
    ParseDecimalOfDecimal(num * 0x10);
  }

  /** Registering the base address read from parport N's base-addr line
      opens parport N again, and every address inside its 0x10 window does
      the same. */
  lemma {:induction false} BaseAddrRoundTrip(num: nat, offset: nat)
    requires offset < 0x10
    ensures ParportPath(ParseDecimal(LeadingNumber(BaseAddrLine(num))) + offset)
         == "/dev/parport" + Decimal(num)
  {
    BaseAddrFirstNumber(num);
    WindowPath(num, ParseDecimal(LeadingNumber(BaseAddrLine(num))), offset);
  }

  /** Every address in parport N's 0x10 window names parport N. */
  lemma {:induction false} WindowPath(num: nat, base: nat, offset: nat)
    requires base == num * 0x10 && offset < 0x10
    ensures ParportPath(base + offset) == "/dev/parport" + Decimal(num)
  {
    assert (base + offset) / 0x10 == num;
  }
}
