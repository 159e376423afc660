/** Integer helpers the kernels use at compile time: ceiling division,
    greatest common divisor, least common multiple, maximum, rounding up. */
module Arith {

  /** `a` is a multiple of `d`. */
  predicate Divides(d: nat, a: int)
    requires d > 0
  {
    a % d == 0
  }

  lemma DivModUnique(n: int, d: int, q: int, r: int)
    requires d > 0 && 0 <= r < d && n == q * d + r
    ensures n / d == q && n % d == r
  {
    var k := q - n / d;
    assert k * d == n % d - r;
    MulSign(k, d);
  }

  /** A non-zero multiple of a positive `d` is at least `d` away from 0. */
  lemma MulSign(k: int, d: int)
    requires d > 0
    ensures k >= 1 ==> k * d >= d
    ensures k <= -1 ==> k * d <= -d
  {
    if k >= 1 {
      assert k * d == (k - 1) * d + d;
    } else if k <= -1 {
      assert k * d == (k + 1) * d - d;
    }
  }

  lemma MulAtLeast(k: int, d: int)
    requires k >= 1 && d >= 0
    ensures k * d >= d
  {
    assert k * d == (k - 1) * d + d;
  }

  /** `d * m` is a multiple of `d`, and dividing gives `m` back. */
  lemma MulDivides(d: nat, m: int)
    requires d > 0
    ensures (m * d) / d == m && Divides(d, m * d)
  {
    DivModUnique(m * d, d, m, 0);
  }

  /** A multiple of `d` is `d` times its quotient. */
  lemma DividesQuotient(d: nat, a: int)
    requires d > 0 && Divides(d, a)
    ensures a == (a / d) * d
  {
  }

  /** Multiples of `d` are closed under `k * a + b`. */
  lemma DividesCombination(d: nat, a: int, b: int, k: int)
    requires d > 0 && Divides(d, a) && Divides(d, b)
    ensures Divides(d, k * a + b)
  {
    var p, q := a / d, b / d;
    assert a == p * d && b == q * d;
    assert k * a + b == (k * p + q) * d;
    MulDivides(d, k * p + q);
  }

  /** `integer_divide_ceil(a, b)`: the fewest b-sized pieces that cover `a`. */
  function DivCeil(a: nat, b: nat): (r: nat)
    requires b > 0
    ensures r * b >= a
    ensures r == 0 || (r - 1) * b < a
  {
    var n := a + b - 1;
    assert n == (n / b) * b + n % b;
    assert (n / b - 1) * b == (n / b) * b - b;
    n / b
  }

  /** Something non-empty needs at least one piece. */
  lemma DivCeilPositive(a: nat, b: nat)
    requires a > 0 && b > 0
    ensures DivCeil(a, b) > 0
  {
  }

  /** When `b` divides `a`, the ceiling division is the exact quotient. */
  lemma DivCeilExact(a: nat, b: nat)
    requires b > 0 && Divides(b, a)
    ensures DivCeil(a, b) == a / b
    ensures DivCeil(a, b) * b == a
  {
    var r, q := DivCeil(a, b), a / b;
    assert a == q * b;
    // r * b >= q * b and (r - 1) * b < q * b pin r down to q
    assert (r - q) * b >= 0;
    assert (r - q - 1) * b < 0;
    MulSign(r - q, b);
    MulSign(r - q - 1, b);
  }

  /** `a` rounded up to the next multiple of `align`. */
  function RoundUp(a: nat, align: nat): (r: nat)
    requires align > 0
    ensures r >= a && Divides(align, r)
    ensures r < a + align
  {
    var q := DivCeil(a, align);
    MulDivides(align, q);
    assert q > 0 ==> q * align == (q - 1) * align + align;
    q * align
  }

  /** A multiple of `align` is already rounded up. */
  lemma RoundUpExact(a: nat, align: nat)
    requires align > 0 && Divides(align, a)
    ensures RoundUp(a, align) == a
  {
    DivCeilExact(a, align);
  }

  /** The last two factors of a product commute. */
  lemma MulSwap(a: int, b: int, c: int)
    ensures (a * b) * c == (a * c) * b
  {
  }

  /** A non-zero factor cancels. */
  lemma MulLeftCancel(a: int, x: int, y: int)
    requires a > 0
    ensures a * x == a * y <==> x == y
  {
    if a * x == a * y {
      assert a * (x - y) == 0;
      if x - y >= 1 {
        MulSign(x - y, a);
      } else if x - y <= -1 {
        MulSign(x - y, a);
      }
    }
  }

  /** Greatest common divisor by Euclid's algorithm (subtractive form). */
  function Gcd(x: nat, y: nat): (g: nat)
    ensures g > 0 <==> x > 0 || y > 0
    ensures g > 0 ==> Divides(g, x) && Divides(g, y)
    decreases x + y
  {
    if x == y || x == 0 then y
    else if y == 0 then x
    else if x > y then
      var g := Gcd(x - y, y);
      DividesCombination(g, y, x - y, 1);
      g
    else
      var g := Gcd(x, y - x);
      DividesCombination(g, x, y - x, 1);
      g
  }

  /** Least common multiple: `(x * y) / gcd(x, y)`. */
  function Lcm(x: nat, y: nat): (m: nat)
    requires x > 0 && y > 0
    ensures m > 0 && Divides(x, m) && Divides(y, m)
    ensures m <= x * y
  {
    var g := Gcd(x, y);
    LcmIsCommonMultiple(x, y, g);
    (x * y) / g
  }

  lemma LcmIsCommonMultiple(x: nat, y: nat, g: nat)
    requires x > 0 && y > 0 && g > 0 && Divides(g, x) && Divides(g, y)
    ensures var m := (x * y) / g;
      m > 0 && Divides(x, m) && Divides(y, m) && m <= x * y
  {
    var a, b := x / g, y / g;
    assert x == a * g && y == b * g;
    var m := a * y;
    assert a * y == b * x by {
      calc {
        a * y;
        a * (b * g);
        b * (a * g);
        b * x;
      }
    }
    assert x * y == m * g by {
      calc {
        x * y;
        (a * g) * y;
        (a * y) * g;
      }
    }
    MulDivides(g, m);
    assert (x * y) / g == m;
    assert a > 0 by { MulSign(a, g); }
    MulAtLeast(a, y);
    MulAtLeast(g, m);
    MulDivides(y, a);
    MulDivides(x, b);
  }

  /** `math::lcm` over four operands, folded from the right. */
  function Lcm4(a: nat, b: nat, c: nat, d: nat): (m: nat)
    requires a > 0 && b > 0 && c > 0 && d > 0
    ensures m > 0
    ensures Divides(a, m) && Divides(b, m) && Divides(c, m) && Divides(d, m)
  {
    var cd := Lcm(c, d);
    var bcd := Lcm(b, cd);
    var m := Lcm(a, bcd);
    DividesTransitive(cd, bcd, c);
    DividesTransitive(cd, bcd, d);
    DividesTransitive(bcd, m, b);
    DividesTransitive(bcd, m, c);
    DividesTransitive(bcd, m, d);
    m
  }

  /** Divisibility is transitive. */
  lemma DividesTransitive(m: nat, n: nat, d: nat)
    requires m > 0 && d > 0 && Divides(m, n) && Divides(d, m)
    ensures Divides(d, n)
  {
    assert n == (n / m) * m;
    assert m == (m / d) * d;
    assert n == ((n / m) * (m / d)) * d;
    MulDivides(d, (n / m) * (m / d));
  }

  /** `math::max` over two operands. */
  function Max(a: nat, b: nat): (m: nat)
    ensures m >= a && m >= b
    ensures m == a || m == b
  {
    if a >= b then a else b
  }

  /** Of two powers of two, the larger is a multiple of both. */
  lemma MaxOfTwoPowersOfTwo(a: nat, b: nat)
    requires PowerOfTwo(a) && PowerOfTwo(b)
    ensures Max(a, b) > 0 && Divides(a, Max(a, b)) && Divides(b, Max(a, b))
  {
    var m := Max(a, b);
    assert PowerOfTwo(m);
    PowerOfTwoDivides(a, m);
    PowerOfTwoDivides(b, m);
  }

  /** `math::max` over four operands. */
  function Max4(a: nat, b: nat, c: nat, d: nat): (m: nat)
    ensures m >= a && m >= b && m >= c && m >= d
    ensures m == a || m == b || m == c || m == d
  {
    var cd := if c >= d then c else d;
    var bcd := if b >= cd then b else cd;
    if a >= bcd then a else bcd
  }

  /** `n` is 1, 2, 4, 8, ... */
  predicate PowerOfTwo(n: nat)
    decreases n
  {
    n == 1 || (n > 1 && n % 2 == 0 && PowerOfTwo(n / 2))
  }

  /** Of two powers of two, the larger is a multiple of the smaller. */
  lemma {:induction false} PowerOfTwoDivides(a: nat, b: nat)
    requires PowerOfTwo(a) && PowerOfTwo(b) && a <= b
    ensures Divides(a, b)
    decreases b
  {
    if a == b {
    } else if a == 1 {
    } else {
      assert a > 1 && b > 1;
      PowerOfTwoDivides(a / 2, b / 2);
      var q := (b / 2) / (a / 2);
      assert b / 2 == q * (a / 2);
      assert b == q * a;
      MulDivides(a, q);
    }
  }

  /** When all four access widths are powers of two, the maximum of them is
      already a common multiple, which is why a maximum can stand in for the
      least common multiple as a buffer alignment. */
  lemma MaxOfPowersOfTwoIsCommonMultiple(a: nat, b: nat, c: nat, d: nat)
    requires PowerOfTwo(a) && PowerOfTwo(b) && PowerOfTwo(c) && PowerOfTwo(d)
    ensures var m := Max4(a, b, c, d);
      m > 0 && Divides(a, m) && Divides(b, m) && Divides(c, m) && Divides(d, m)
  {
    var m := Max4(a, b, c, d);
    assert PowerOfTwo(m);
    PowerOfTwoDivides(a, m);
    PowerOfTwoDivides(b, m);
    PowerOfTwoDivides(c, m);
    PowerOfTwoDivides(d, m);
  }
}
