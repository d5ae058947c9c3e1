/** Fixed-length positional notation, most significant digit first, and powers of a base. */
module Radix {

  function Pow(base: nat, n: nat): nat {
    if n == 0 then 1 else base * Pow(base, n - 1)
  }

  function Value(digits: seq<nat>, base: nat): nat {
    if digits == [] then 0 else Value(digits[..|digits| - 1], base) * base + digits[|digits| - 1]
  }

  function Quot(v: nat, base: nat): (q: nat)
    requires base > 0
  {
    v / base
  }

  function Rem(v: nat, base: nat): (r: nat)
    requires base > 0
    ensures r < base
  {
    v % base
  }

  lemma QuotRem(v: nat, base: nat)
    requires base > 0
    ensures v == Quot(v, base) * base + Rem(v, base)
  {
  }

  /** The last `n` digits of `v`. */
  function Digits(v: nat, n: nat, base: nat): (r: seq<nat>)
    requires base > 0
    ensures |r| == n && forall i :: 0 <= i < n ==> r[i] < base
    decreases n
  {
    if n == 0 then [] else Digits(Quot(v, base), n - 1, base) + [Rem(v, base)]
  }

  // -- products -----------------------------------------------------------

  lemma MulAtLeast(k: int, base: nat)
    requires k >= 1
    ensures k * base >= base
  {
    assert k * base == base + (k - 1) * base;
  }

  lemma MulMono(a: nat, b: nat, c: nat)
    requires a <= b
    ensures a * c <= b * c
  {
    assert b * c == a * c + (b - a) * c;
  }

  lemma MulAssoc(a: nat, b: nat, c: nat)
    ensures a * (b * c) == a * b * c
  {
  }

  /** Quotient and remainder are unique. */
  lemma DivisionUnique(v: nat, base: nat, q: nat, r: nat)
    requires r < base && v == q * base + r
    ensures Quot(v, base) == q && Rem(v, base) == r
  {
    var q', r' := Quot(v, base), Rem(v, base);
    QuotRem(v, base);
    assert (q' - q) * base == q' * base - q * base;
    assert (q - q') * base == q * base - q' * base;
    if q' > q {
      MulAtLeast(q' - q, base);
    } else if q' < q {
      MulAtLeast(q - q', base);
    }
  }

  lemma ValueAppend(digits: seq<nat>, d: nat, base: nat)
    ensures Value(digits + [d], base) == Value(digits, base) * base + d
  {
    assert (digits + [d])[..|digits|] == digits;
  }

  /** Digits are determined by their value and their number. */
  lemma {:induction false} DigitsOfValue(digits: seq<nat>, base: nat)
    requires base > 0 && forall i :: 0 <= i < |digits| ==> digits[i] < base
    ensures Digits(Value(digits, base), |digits|, base) == digits
  {
    if digits != [] {
      var rest, d := digits[..|digits| - 1], digits[|digits| - 1];
      DigitsOfValue(rest, base);
      DivisionUnique(Value(digits, base), base, Value(rest, base), d);
      assert digits == rest + [d];
    }
  }

  lemma QuotBelow(v: nat, base: nat, p: nat)
    requires base > 0 && v < p * base
    ensures Quot(v, base) < p
  {
    QuotRem(v, base);
    if p <= Quot(v, base) {
      MulMono(p, Quot(v, base), base);
      assert false;
    }
  }

  lemma {:induction false} ValueOfDigits(v: nat, n: nat, base: nat)
    requires base > 0 && v < Pow(base, n)
    ensures Value(Digits(v, n, base), base) == v
    decreases n
  {
    if n > 0 {
      assert Pow(base, n) == Pow(base, n - 1) * base;
      QuotBelow(v, base, Pow(base, n - 1));
      ValueOfDigits(Quot(v, base), n - 1, base);
      ValueAppend(Digits(Quot(v, base), n - 1, base), Rem(v, base), base);
      QuotRem(v, base);
    }
  }

  lemma {:induction false} ValueBelow(digits: seq<nat>, base: nat)
    requires forall i :: 0 <= i < |digits| ==> digits[i] < base
    ensures Value(digits, base) < Pow(base, |digits|)
  {
    if digits != [] {
      var rest, d := digits[..|digits| - 1], digits[|digits| - 1];
      ValueBelow(rest, base);
      var v, p := Value(rest, base), Pow(base, |digits| - 1);
      MulMono(v + 1, p, base);
      assert (v + 1) * base == v * base + base;
    }
  }

  lemma {:induction false} PowAdds(base: nat, m: nat, n: nat)
    ensures Pow(base, m + n) == Pow(base, m) * Pow(base, n)
  {
    if m > 0 {
      PowAdds(base, m - 1, n);
      MulAssoc(base, Pow(base, m - 1), Pow(base, n));
    }
  }

  lemma {:induction false} PowPositive(base: nat, n: nat)
    requires base > 0
    ensures Pow(base, n) > 0
  {
    if n > 0 {
      PowPositive(base, n - 1);
      MulAtLeast(base, Pow(base, n - 1));
    }
  }
}
