/** Place-value decomposition: the specification of `break_down`. */
module PlaceValue {

  /** 10 to the power i. */
  function Pow10(i: nat): (r: nat)
    ensures r >= 1
  {
    if i == 0 then 1 else 10 * Pow10(i - 1)
  }

  /** The decimal digit of n at position i (0 = units). */
  function Digit(n: nat, i: nat): (d: nat)
    ensures d <= 9
  {
    if i == 0 then n % 10 else Digit(n / 10, i - 1)
  }

  /** The number of decimal digits of a positive n. */
  function DigitCount(n: nat): (k: nat)
    requires n > 0
    ensures k >= 1 && Pow10(k - 1) <= n < Pow10(k)
  {
    if n < 10 then 1
    else
      var k' := DigitCount(n / 10);
      assert Pow10(k') == 10 * Pow10(k' - 1);
      assert 10 * (n / 10) <= n < 10 * (n / 10 + 1);
      1 + k'
  }

  /** What `break_down` returns: the int 0 for zero, otherwise a tuple of place values. */
  datatype Decomposition =
    | BareZero                       // `return 0` for a zero number, not a tuple
    | Terms(components: seq<nat>)    // least-significant place first

  /** The place values `digit * 10**power` the while-loop appends, starting at power p
      and with c still to be split. */
  function PlaceValues(c: nat, p: nat): (r: seq<nat>)
    ensures r == [] <==> c == 0
  {
    if c == 0 then [] else [(c % 10) * Pow10(p)] + PlaceValues(c / 10, p + 1)
  }

  /** The decomposition of n: zero short-circuits, a negative n never enters the loop. */
  function Decompose(n: int): (r: Decomposition)
    ensures r == BareZero <==> n == 0
    ensures n < 0 ==> r == Terms([])
    ensures n > 0 ==> r.Terms? && r.components != []
  {
    if n == 0 then BareZero
    else if n < 0 then Terms([])
    else Terms(PlaceValues(n, 0))
  }

  function Sum(s: seq<int>): (t: int)
  {
    if s == [] then 0 else s[0] + Sum(s[1..])
  }

  lemma Regroup(d: int, q: int, p: int)
    ensures d * p + q * (10 * p) == (d + 10 * q) * p
  {
  }

  lemma {:induction false} PlaceValuesSum(c: nat, p: nat)
    ensures Sum(PlaceValues(c, p)) == c * Pow10(p)
    decreases c
  {
    if c > 0 {
      var s := PlaceValues(c, p);
      var d, q := c % 10, c / 10;
      assert s[1..] == PlaceValues(q, p + 1);
      PlaceValuesSum(q, p + 1);
      assert Sum(s) == d * Pow10(p) + q * Pow10(p + 1);
      assert Pow10(p + 1) == 10 * Pow10(p);
      Regroup(d, q, Pow10(p));
      assert d + 10 * q == c;
    }
  }

  /** The components of a positive number sum to that number. */
  lemma DecomposeSum(n: int)
    requires n > 0
    ensures Decompose(n).Terms? && Sum(Decompose(n).components) == n
  {
    PlaceValuesSum(n, 0);
  }

  lemma MulLe(x: int, y: int, z: int)
    requires x <= y && z >= 0
    ensures x * z <= y * z
  {
  }

  lemma SmallMultiple(k: int, d: int)
    requires d > 0 && -d < k * d < d
    ensures k == 0
  {
    if k >= 1 {
      MulLe(1, k, d);
    } else if k <= -1 {
      MulLe(k, -1, d);
    }
  }

  lemma DivUnique(a: int, d: int, q: int, r: int)
    requires d > 0 && a == d * q + r && 0 <= r < d
    ensures a / d == q && a % d == r
  {
    var q', r' := a / d, a % d;
    assert a == d * q' + r';
    assert (q - q') * d == r' - r;
    SmallMultiple(q - q', d);
  }

  lemma DivDiv(a: nat, b: nat, c: nat)
    requires b > 0 && c > 0
    ensures a / (b * c) == (a / b) / c
  {
    var q, r := a / b, a % b;
    var q2, r2 := q / c, q % c;
    assert b * q == (b * c) * q2 + b * r2 by {
      assert q == c * q2 + r2;
      assert b * (c * q2 + r2) == b * (c * q2) + b * r2;
      assert b * (c * q2) == (b * c) * q2;
    }
    assert a == (b * c) * q2 + (b * r2 + r);
    assert b * r2 + r < b * c by {
      MulLe(r2, c - 1, b);
      assert (c - 1) * b == b * c - b;
    }
    DivUnique(a, b * c, q2, b * r2 + r);
  }

  /** The digit at position i is the quotient by 10^i, taken modulo 10. */
  lemma {:induction false} DigitFormula(n: nat, i: nat)
    ensures Digit(n, i) == (n / Pow10(i)) % 10
  {
    if i > 0 {
      DigitFormula(n / 10, i - 1);
      DivDiv(n, 10, Pow10(i - 1));
    }
  }

  lemma {:induction false} PlaceValuesShape(c: nat, p: nat)
    requires c > 0
    ensures |PlaceValues(c, p)| == DigitCount(c)
    ensures forall i :: 0 <= i < |PlaceValues(c, p)| ==>
      PlaceValues(c, p)[i] == Digit(c, i) * Pow10(p + i)
    decreases c
  {
    var s := PlaceValues(c, p);
    if c < 10 {
      assert c / 10 == 0;
      assert s == [c * Pow10(p)];
    } else {
      PlaceValuesShape(c / 10, p + 1);
      forall i | 0 <= i < |s|
        ensures s[i] == Digit(c, i) * Pow10(p + i)
      {
        if i > 0 {
          assert s[i] == PlaceValues(c / 10, p + 1)[i - 1];
        }
      }
    }
  }

  lemma ComponentBounds(d: nat, p: nat)
    requires d <= 9 && p >= 1
    ensures (d * p) % p == 0 && d * p < 10 * p
  {
    DivUnique(d * p, p, d, 0);
    MulLe(d, 9, p);
  }

  /** The most significant digit of a positive number is not zero. */
  lemma {:induction false} TopDigitNonzero(n: nat)
    requires n > 0
    ensures Digit(n, DigitCount(n) - 1) != 0
  {
    if n >= 10 {
      TopDigitNonzero(n / 10);
    }
  }

  lemma DecomposeDigits(n: int)
    requires n > 0
    ensures Decompose(n).Terms?
    ensures |Decompose(n).components| == DigitCount(n)
    ensures forall i :: 0 <= i < DigitCount(n) ==>
      Decompose(n).components[i] == Digit(n, i) * Pow10(i)
  {
    PlaceValuesShape(n, 0);
  }

  lemma DecomposeDigitAt(n: int, i: nat)
    requires n > 0 && i < DigitCount(n)
    ensures Decompose(n).Terms? && |Decompose(n).components| == DigitCount(n)
    ensures Decompose(n).components[i] == Digit(n, i) * Pow10(i)
  {
    DecomposeDigits(n);
  }

  lemma {:induction false} ComponentsBounded(n: int)
    requires n > 0
    ensures Decompose(n).Terms?
    ensures |Decompose(n).components| == DigitCount(n)
    ensures forall i :: 0 <= i < DigitCount(n) ==>
      Decompose(n).components[i] % Pow10(i) == 0 && Decompose(n).components[i] < Pow10(i + 1)
  {
    DecomposeDigits(n);
    var cs := Decompose(n).components;
    forall i | 0 <= i < DigitCount(n)
      ensures cs[i] % Pow10(i) == 0 && cs[i] < Pow10(i + 1)
    {
      ComponentBounds(Digit(n, i), Pow10(i));
    }
  }

  lemma {:induction false} TopComponentNonzero(n: int)
    requires n > 0
    ensures Decompose(n).Terms?
    ensures |Decompose(n).components| == DigitCount(n)
    ensures Decompose(n).components[DigitCount(n) - 1] != 0
  {
    DecomposeDigits(n);
    var k := DigitCount(n);
    TopDigitNonzero(n);
    MulLe(1, Digit(n, k - 1), Pow10(k - 1));
  }

  /** For a k-digit number, break_down yields exactly k components; component i is the
      digit at position i times 10^i, hence a multiple of 10^i below 10^(i+1); the most
      significant component is nonzero. */
  lemma DecomposeShape(n: int)
    requires n > 0
    ensures Decompose(n).Terms?
    ensures |Decompose(n).components| == DigitCount(n)
    ensures forall i :: 0 <= i < DigitCount(n) ==>
      Decompose(n).components[i] == Digit(n, i) * Pow10(i)
    ensures forall i :: 0 <= i < DigitCount(n) ==>
      Decompose(n).components[i] % Pow10(i) == 0 && Decompose(n).components[i] < Pow10(i + 1)
    ensures Decompose(n).components[DigitCount(n) - 1] != 0
  {
    DecomposeDigits(n);
    ComponentsBounded(n);
    TopComponentNonzero(n);
  }
}
