/** Facts about remainders and set sizes that several models use. */
module Arithmetic {

  lemma Multiples(m: int, d: int)
    requires m > 0
    ensures d >= 1 ==> m * d >= m
    ensures d <= -1 ==> m * d <= -m
  {
    if d >= 1 { assert m * d == m + m * (d - 1); }
    if d <= -1 { assert m * d == -m - m * (-d - 1); }
  }

  lemma ModUnique(v: int, q: int, r: int, m: int)
    requires 0 <= r < m && v == m * q + r
    ensures v % m == r
  {
    var d := q - v / m;
    assert m * d == v % m - r by { assert m * d == m * q - m * (v / m); }
    Multiples(m, d);
  }

  lemma MultipleMod(q: nat, m: nat)
    requires m > 0
    ensures (q * m) % m == 0
  {
    ModUnique(q * m, q, 0, m);
  }

  lemma {:induction false} SubsetSize<T>(a: set<T>, b: set<T>)
    requires a <= b
    ensures |a| <= |b|
  {
    if a == {} {
    } else {
      var x :| x in a;
      SubsetSize(a - {x}, b - {x});
    }
  }
}
