/** Quotients and remainders are unique. */
module Division {
  lemma Remainder(n: nat, full: nat, over: nat, count: nat)
    requires count > 0 && over < count && n == full * count + over
    ensures n % count == over
  {
    OnlyQuotient(n / count, n % count, full, over, count);
  }

  lemma OnlyQuotient(p: int, r: int, q: int, s: int, count: int)
    requires 0 <= r < count && 0 <= s < count && p * count + r == q * count + s
    ensures p == q && r == s
  {
    if p > q { AtLeastOnce(p - q, count); Distributes(p, q, count); }
    if p < q { AtLeastOnce(q - p, count); Distributes(p, q, count); }
  }

  lemma AtLeastOnce(d: int, count: int)
    requires d >= 1 && count > 0
    ensures d * count >= count
  {
  }

  lemma Distributes(p: int, q: int, count: int)
    ensures (p - q) * count == p * count - q * count && (q - p) * count == q * count - p * count
  {
  }

  lemma MinusOne(n: nat, count: nat)
    requires count > 0 && n >= count
    ensures n % count == (n - count) % count
  {
    var p, s := (n - count) / count, (n - count) % count;
    Distributes(p + 1, p, count);
    OnlyQuotient(n / count, n % count, p + 1, s, count);
  }
}
