/** Strings as the source compares, prints and splits them. */
module Text {
  import opened Wrappers

  /** Byte order of two strings, as `str::cmp` decides it. */
  predicate Less(a: string, b: string) {
    if b == "" then false
    else if a == "" then true
    else a[0] < b[0] || (a[0] == b[0] && Less(a[1..], b[1..]))
  }

  lemma {:induction false} LessConcat(x: string, restX: string, y: string, restY: string)
    requires |x| == |y|
    ensures Less(x + restX, y + restY) <==> Less(x, y) || (x == y && Less(restX, restY))
  {
    if x == "" {
      assert x + restX == restX && y + restY == restY;
    } else {
      assert (x + restX)[1..] == x[1..] + restX;
      assert (y + restY)[1..] == y[1..] + restY;
      LessConcat(x[1..], restX, y[1..], restY);
      assert x == y <==> x[0] == y[0] && x[1..] == y[1..] by {
        assert x == [x[0]] + x[1..];
        assert y == [y[0]] + y[1..];
      }
    }
  }

  lemma {:induction false} LessTotal(a: string, b: string)
    ensures Less(a, b) ==> !Less(b, a)
    ensures !Less(a, b) && !Less(b, a) <==> a == b
  {
    if a != "" && b != "" {
      LessTotal(a[1..], b[1..]);
      assert a == [a[0]] + a[1..];
      assert b == [b[0]] + b[1..];
    }
  }

  lemma {:induction false} LessTransitive(a: string, b: string, c: string)
    requires !Less(b, a) && !Less(c, b)
    ensures !Less(c, a)
  {
    if a != "" && b != "" && c != "" && a[0] == b[0] == c[0] {
      LessTransitive(a[1..], b[1..], c[1..]);
    }
  }

  // ----- decimal numbers

  const DIGITS := "0123456789"

  function Decimal(n: nat): string {
    if n < 10 then [DIGITS[n]] else Decimal(n / 10) + [DIGITS[n % 10]]
  }

  function Zeros(n: nat): string {
    if n == 0 then "" else "0" + Zeros(n - 1)
  }

  /** A number printed with at least `width` digits. */
  function Pad(n: nat, width: nat): string {
    var text := Decimal(n);
    if |text| >= width then text else Zeros(width - |text|) + text
  }

  function Pow10(n: nat): nat {
    if n == 0 then 1 else 10 * Pow10(n - 1)
  }

  /** The last `width` digits of a number. */
  function Fixed(n: nat, width: nat): (text: string)
    ensures |text| == width
  {
    if width == 0 then "" else Fixed(n / 10, width - 1) + [DIGITS[n % 10]]
  }

  lemma {:induction false} ZerosFixed(width: nat)
    ensures Fixed(0, width) == Zeros(width) && |Zeros(width)| == width
    ensures Zeros(width) + "0" == "0" + Zeros(width)
  {
    if width > 0 {
      ZerosFixed(width - 1);
    }
  }

  lemma {:induction false} PadFixed(n: nat, width: nat)
    requires n < Pow10(width) && width > 0
    ensures Pad(n, width) == Fixed(n, width) && |Decimal(n)| <= width
  {
    if n < 10 {
      ZerosFixed(width - 1);
    } else {
      assert n / 10 < Pow10(width - 1);
      assert width > 1;
      PadFixed(n / 10, width - 1);
      var short := Decimal(n / 10);
      if |short| < width - 1 {
        assert Pad(n, width) == Pad(n / 10, width - 1) + [DIGITS[n % 10]];
      }
    }
  }

  lemma {:induction false} FixedOrder(a: nat, b: nat, width: nat)
    requires a < Pow10(width) && b < Pow10(width)
    ensures Less(Fixed(a, width), Fixed(b, width)) <==> a < b
    ensures Fixed(a, width) == Fixed(b, width) <==> a == b
  {
    if width > 0 {
      FixedOrder(a / 10, b / 10, width - 1);
      var x, y := [DIGITS[a % 10]], [DIGITS[b % 10]];
      LessConcat(Fixed(a / 10, width - 1), x, Fixed(b / 10, width - 1), y);
      assert x[1..] == "" && y[1..] == "";
      assert Less(x, y) <==> a % 10 < b % 10;
      assert Fixed(a, width)[..width - 1] == Fixed(a / 10, width - 1);
      assert Fixed(b, width)[..width - 1] == Fixed(b / 10, width - 1);
      assert Fixed(a, width)[width - 1] == DIGITS[a % 10];
      assert Fixed(b, width)[width - 1] == DIGITS[b % 10];
    }
  }

  /** Two records that start with a padded number are ordered by it, then by the rest. */
  lemma PaddedFieldOrder(a: nat, restA: string, b: nat, restB: string, width: nat)
    requires 0 < width && a < Pow10(width) && b < Pow10(width)
    ensures Less(Pad(a, width) + restA, Pad(b, width) + restB)
            <==> a < b || (a == b && Less(restA, restB))
  {
    PadFixed(a, width);
    PadFixed(b, width);
    FixedOrder(a, b, width);
    LessConcat(Fixed(a, width), restA, Fixed(b, width), restB);
  }

  // ----- reading digits

  function DigitValue(c: char): Option<nat> {
    if '0' <= c <= '9' then Some((c - '0') as nat) else None
  }

  function ParseDigits(s: string): Option<nat> {
    if s == "" then Some(0)
    else
      match (ParseDigits(s[..|s| - 1]), DigitValue(s[|s| - 1]))
      case (Some(high), Some(low)) => Some(10 * high + low)
      case _ => None
  }

  lemma {:induction false} ParseDecimal(n: nat)
    ensures ParseDigits(Decimal(n)) == Some(n)
    ensures Decimal(n) != "" && forall c :: c in Decimal(n) ==> '0' <= c <= '9'
  {
    var text := Decimal(n);
    assert DigitValue(DIGITS[n % 10]) == Some(n % 10);
    if n >= 10 {
      ParseDecimal(n / 10);
      assert text[..|text| - 1] == Decimal(n / 10);
      assert text[|text| - 1] == DIGITS[n % 10];
    } else {
      assert text[..0] == "";
    }
  }

  /** A field of fixed width reads back as its number. */
  lemma {:induction false} ParseFixed(n: nat, width: nat)
    requires n < Pow10(width)
    ensures ParseDigits(Fixed(n, width)) == Some(n)
  {
    if width > 0 {
      ParseFixed(n / 10, width - 1);
      var text := Fixed(n, width);
      assert text[..|text| - 1] == Fixed(n / 10, width - 1);
      assert text[|text| - 1] == DIGITS[n % 10];
      assert DigitValue(DIGITS[n % 10]) == Some(n % 10);
    }
  }
}
