/** Division facts used by the index arithmetic: a quotient and a remainder are
    determined by the equation they satisfy. */
module Arithmetic {

  lemma MulMonotone(x: nat, y: nat, d: nat)
    requires x <= y
    ensures x * d <= y * d
  {
    assert y * d == x * d + (y - x) * d;
  }

  lemma MulStep(x: nat, d: nat)
    ensures (x + 1) * d == x * d + d
  {
  }

  lemma DivModUnique(n: nat, d: nat, q: nat, r: nat)
    requires 0 < d && r < d && n == q * d + r
    ensures n / d == q && n % d == r
  {
    var q' := n / d;
    assert n == q' * d + n % d;
    MulStep(q, d);
    MulStep(q', d);
    if q < q' {
      MulMonotone(q + 1, q', d);
    } else if q' < q {
      MulMonotone(q' + 1, q, d);
    }
  }

  lemma DivModParts(n: nat, d: nat)
    requires 0 < d
    ensures n == n / d * d + n % d && 0 <= n % d < d && 0 <= n / d
  {
  }

  lemma DivLess(n: nat, d: nat, l: nat)
    requires 0 < d && n < l * d
    ensures n / d < l
  {
    assert n == n / d * d + n % d;
    if l <= n / d {
      MulMonotone(l, n / d, d);
    }
  }

  lemma MulAddLess(q: nat, r: nat, l: nat, d: nat)
    requires q < l && r < d
    ensures q * d + r < l * d
  {
    MulMonotone(q + 1, l, d);
    MulStep(q, d);
  }

  lemma MulPositive(l: nat, w: nat)
    ensures 0 < l && 0 < w <==> 0 < l * w
  {
    if 0 < l && 0 < w {
      MulMonotone(1, l, w);
    }
  }

  lemma QuotientOfShift(k: nat, r: nat, w: nat)
    requires 0 < w
    ensures k * w + r >= 0 && (k * w + r) / w == k + r / w
  {
    var q := r / w;
    assert r == q * w + r % w;
    assert (k + q) * w == k * w + q * w;
    DivModUnique(k * w + r, w, k + q, r % w);
  }

  lemma RemainderOfShift(k: nat, a: nat, l: nat)
    requires 0 < l
    ensures (k * l + a) % l == a % l
  {
    var q := a / l;
    assert a == q * l + a % l;
    assert (k + q) * l == k * l + q * l;
    DivModUnique(k * l + a, l, k + q, a % l);
  }

  lemma MulAssociates(q: nat, l: nat, w: nat)
    ensures q * (l * w) == (q * l) * w
  {
  }

  /** A digit of weight `w` and radix `l` does not see multiples of `l * w`. */
  lemma DigitOfMod(n: nat, l: nat, w: nat)
    requires 0 < l && 0 < w
    ensures 0 < l * w
    ensures (n % (l * w)) / w % l == n / w % l
  {
    MulPositive(l, w);
    var m := l * w;
    var q, r := n / m, n % m;
    assert n == q * m + r;
    MulAssociates(q, l, w);
    QuotientOfShift(q * l, r, w);
    RemainderOfShift(q, r / w, l);
  }

  lemma HornerExpand(k: nat, q: nat, d: nat, e: nat, l: nat, w: nat)
    requires k == q * l + d
    ensures k * w + e == q * (l * w) + (d * w + e)
  {
    assert k * w == (q * l) * w + d * w;
    MulAssociates(q, l, w);
  }

  lemma HornerOf(n: nat, k: nat, q: nat, d: nat, e: nat, l: nat, w: nat)
    requires n == k * w + e && k == q * l + d && d < l && e < w
    ensures 0 < l * w && n % (l * w) == d * w + e
  {
    MulPositive(l, w);
    HornerExpand(k, q, d, e, l, w);
    MulAddLess(d, e, l, w);
    DivModUnique(n, l * w, q, d * w + e);
  }

  /** A digit and the digits below it make up the value modulo their joint volume. */
  lemma HornerStep(n: nat, l: nat, w: nat)
    requires 0 < l && 0 < w
    ensures 0 < l * w && n / w % l * w + n % w == n % (l * w)
  {
    HornerOf(n, n / w, n / w / l, n / w % l, n % w, l, w);
  }

  /** Full tiles of size `s` followed by a tail of size `t` cut a range of length `l` exactly. */
  lemma TileRange(l: nat, s: nat, q: nat, t: nat, o: nat, i: nat)
    requires l == q * s + t && t < s
    ensures o < q + (if 0 < t then 1 else 0) && i < (if o < q then s else t)
       <==> i < s && o * s + i < l
  {
    if o < q {
      if i < s { MulAddLess(o, i, q, s); }
    } else if q < o {
      MulMonotone(q + 1, o, s);
      MulStep(q, s);
    }
  }
}
