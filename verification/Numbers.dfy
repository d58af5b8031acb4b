/** Arithmetic shared by the other modules. */
module Numbers {
  type byte = x: int | 0 <= x < 256

  function Min(a: int, b: int): int {
    if a < b then a else b
  }

  function Pow2(n: nat): (p: nat)
    ensures p > 0
  {
    if n == 0 then 1 else 2 * Pow2(n - 1)
  }

  lemma TimesGrows(a: int, b: int, c: int, d: int)
    requires 0 <= a <= b && 0 <= c <= d
    ensures a * c <= b * d
  {
    assert a * c <= b * c <= b * d;
  }

  lemma QuotientGrows(n: nat, room: nat, less: nat)
    requires 0 < less <= room
    ensures n / room <= n / less
  {
    var q, p := n / room, n / less;
    TimesGrows(q, q, less, room);
    assert q * room <= n && n < p * less + less == (p + 1) * less;
    if p < q {
      TimesGrows(p + 1, q, less, less);
    }
  }
}
