/** From the requested amount of an Epay top-up to the stored amount and the quota credited later. */
module TopUpAmounts {
  import opened Basics
  import opened OrderLocks

  /** getMinTopup: in token display mode the minimum is scaled to tokens. */
  function MinTopup(minTopUp: int, tokens: bool, quotaPerUnit: real): int {
    if tokens then UnitsQuota(minTopUp as real, quotaPerUnit) else minTopUp
  }

  /** RequestEpay stores units; in token display mode the request is divided down to them. */
  function StoredAmount(request: int, tokens: bool, quotaPerUnit: real): int
    requires quotaPerUnit != 0.0
  {
    if tokens then Truncate(request as real / quotaPerUnit) else request
  }

  /** Integer division rounding toward zero. */
  function Quotient(a: int, q: int): int
    requires q > 0
  {
    if a >= 0 then a / q else -((-a) / q)
  }

  lemma FloorOfQuotient(a: int, q: int)
    requires a >= 0 && q > 0
    ensures (a as real / q as real).Floor == a / q
  {
    var f, r := a / q, a % q;
    assert a == f * q + r;
    var x := a as real / q as real;
    assert a as real == f as real * q as real + r as real;
    assert x == f as real + r as real / q as real;
    assert 0.0 <= r as real / q as real < 1.0;
  }

  lemma StoredIsQuotient(request: int, q: int)
    requires q > 0
    ensures StoredAmount(request, true, q as real) == Quotient(request, q)
  {
    if request >= 0 {
      FloorOfQuotient(request, q);
      assert request as real / q as real >= 0.0;
    } else {
      FloorOfQuotient(-request, q);
      assert -(request as real / q as real) == (-request) as real / q as real;
    }
  }

  lemma ProductIsExact(a: int, q: int)
    ensures UnitsQuota(a as real, q as real) == a * q
  {
    assert a as real * q as real == (a * q) as real;
  }

  lemma QuotientBounds(a: int, q: int)
    requires q > 0
    ensures a >= 0 ==> Quotient(a, q) * q <= a < Quotient(a, q) * q + q
    ensures a < 0 ==> Quotient(a, q) * q - q < a <= Quotient(a, q) * q
  {
    var b := if a >= 0 then a else -a;
    assert b == (b / q) * q + b % q;
  }

  lemma ProductOrder(m: int, n: int, q: int)
    requires q > 0 && m > n
    ensures m * q >= n * q + q
  {
    assert (m - n - 1) * q >= 0;
    assert m * q == n * q + q + (m - n - 1) * q;
  }

  lemma MultipleIsQuotient(a: int, c: int, q: int)
    requires q > 0 && a == c * q
    ensures Quotient(a, q) == c
  {
    QuotientBounds(a, q);
    if Quotient(a, q) > c { ProductOrder(Quotient(a, q), c, q); }
    if Quotient(a, q) < c { ProductOrder(c, Quotient(a, q), q); }
  }

  // ---------------------------------------------------------------- which requests are accepted

  /** The settings behind the price: the unit price, the user group's ratio and the discount of the
      requested amount, if any is configured. */
  datatype Pricing = Pricing(minTopUp: int, price: real, groupRatio: real, discount: Option<real>)

  /** getPayMoney: a missing group ratio counts as one, and so does a discount that is not positive. */
  function PayMoney(p: Pricing, request: int, tokens: bool, quotaPerUnit: real): real
    requires quotaPerUnit != 0.0
  {
    var units := if tokens then request as real / quotaPerUnit else request as real;
    units * p.price * GroupRatio(p) * Discount(p)
  }

  function GroupRatio(p: Pricing): real {
    if p.groupRatio == 0.0 then 1.0 else p.groupRatio
  }

  function Discount(p: Pricing): real {
    if p.discount.Some? && p.discount.value > 0.0 then p.discount.value else 1.0
  }

  /** RequestEpay goes on to create an order. */
  predicate Accepted(p: Pricing, request: int, tokens: bool, quotaPerUnit: real)
    requires quotaPerUnit != 0.0
  {
    request >= MinTopup(p.minTopUp, tokens, quotaPerUnit) && PayMoney(p, request, tokens, quotaPerUnit) >= 0.01
  }

  /** What the user pays for one unit. */
  function UnitPrice(p: Pricing): real {
    p.price * GroupRatio(p) * Discount(p)
  }

  /** The price of a unit is the configured one, times the group's ratio unless that is zero, times the discount
      if there is a positive one. */
  lemma UnitPriceIs(p: Pricing)
    ensures p.groupRatio == 0.0 && (p.discount.None? || p.discount.value <= 0.0) ==> UnitPrice(p) == p.price
    ensures p.groupRatio != 0.0 && (p.discount.None? || p.discount.value <= 0.0) ==>
      UnitPrice(p) == p.price * p.groupRatio
    ensures p.groupRatio == 0.0 && p.discount.Some? && p.discount.value > 0.0 ==>
      UnitPrice(p) == p.price * p.discount.value
    ensures p.groupRatio != 0.0 && p.discount.Some? && p.discount.value > 0.0 ==>
      UnitPrice(p) == p.price * p.groupRatio * p.discount.value
  {
  }

  /** Exactly the requests of at least the minimum that cost at least a cent are accepted: in units, or in
      tokens of which `q` make a unit. */
  lemma AcceptedIff(p: Pricing, request: int, q: int)
    requires q > 0
    ensures Accepted(p, request, false, q as real) <==>
      request >= p.minTopUp && request as real * UnitPrice(p) >= 0.01
    ensures Accepted(p, request, true, q as real) <==>
      request >= p.minTopUp * q && request as real * UnitPrice(p) >= 0.01 * q as real
  {
    ProductIsExact(p.minTopUp, q);
    var factor := UnitPrice(p);
    var units := request as real / q as real;
    assert PayMoney(p, request, true, q as real) == units * factor;
    assert PayMoney(p, request, false, q as real) == request as real * factor;
    assert units * q as real == request as real;
    ScaledBound(units, factor, q as real, request as real);
  }

  lemma ScaledBound(units: real, factor: real, q: real, request: real)
    requires q > 0.0 && units * q == request
    ensures units * factor >= 0.01 <==> request * factor >= 0.01 * q
  {
    var money := units * factor;
    assert request * factor == money * q;
    OrderScales(money, 0.01, q);
  }

  lemma OrderScales(x: real, y: real, q: real)
    requires q > 0.0
    ensures x >= y <==> x * q >= y * q
  {
    assert x * q - y * q == (x - y) * q;
    if x < y { assert (y - x) * q > 0.0; }
    if x >= y { assert (x - y) * q >= 0.0; }
  }

  /** With positive prices the lower bound on the payment refuses every request that is not positive. */
  lemma AcceptedIsPositive(p: Pricing, request: int, tokens: bool, q: int)
    requires q > 0 && p.price > 0.0 && p.groupRatio >= 0.0 && Accepted(p, request, tokens, q as real)
    ensures request > 0
  {
    var units := if tokens then request as real / q as real else request as real;
    var factor := p.price * GroupRatio(p) * Discount(p);
    PositiveProduct(p.price, GroupRatio(p));
    PositiveProduct(p.price * GroupRatio(p), Discount(p));
    assert PayMoney(p, request, tokens, q as real) == units * factor;
    if request <= 0 {
      if tokens {
        NotPositiveQuotient(request, q);
      }
      NotPositiveProduct(units, factor);
    }
  }

  lemma PositiveProduct(x: real, y: real)
    requires x > 0.0 && y > 0.0
    ensures x * y > 0.0
  {
  }

  lemma NotPositiveProduct(x: real, y: real)
    requires x <= 0.0 && y > 0.0
    ensures x * y <= 0.0
  {
  }

  lemma NotPositiveQuotient(a: int, q: int)
    requires a <= 0 && q > 0
    ensures a as real / q as real <= 0.0
  {
  }

  /** Token display mode, integer QuotaPerUnit q, whatever the request: one that passes the minimum is
      stored as at least MinTopUp units, and the quota credited later is the largest multiple of q not
      above the request - so less than one unit is lost - exactly when the request is not negative or
      is itself a multiple of q. */
  lemma TokenTopUpIff(request: int, minTopUp: int, q: int)
    requires q > 0
    ensures request >= MinTopup(minTopUp, true, q as real) ==> StoredAmount(request, true, q as real) >= minTopUp
    ensures var c := UnitsQuota(StoredAmount(request, true, q as real) as real, q as real);
      (c <= request < c + q) <==> (request >= 0 || exists n :: request == n * q)
    ensures exists n :: UnitsQuota(StoredAmount(request, true, q as real) as real, q as real) == n * q
  {
    var stored := StoredAmount(request, true, q as real);
    StoredIsQuotient(request, q);
    ProductIsExact(stored, q);
    ProductIsExact(minTopUp, q);
    QuotientBounds(request, q);
    if request >= minTopUp * q && stored < minTopUp {
      ProductOrder(minTopUp, stored, q);
    }
    var c := UnitsQuota(stored as real, q as real);
    assert c == stored * q;
    if request < 0 {
      if n :| request == n * q {
        MultipleIsQuotient(request, n, q);
      }
    }
  }

  /** Every accepted request in token display mode is stored as at least MinTopUp units and credited
      the largest multiple of q not above it. */
  lemma TokenTopUp(p: Pricing, request: int, q: int)
    requires q > 0 && p.price > 0.0 && p.groupRatio >= 0.0 && Accepted(p, request, true, q as real)
    ensures StoredAmount(request, true, q as real) >= p.minTopUp
    ensures var c := UnitsQuota(StoredAmount(request, true, q as real) as real, q as real);
      c <= request < c + q && exists n :: c == n * q
  {
    AcceptedIsPositive(p, request, true, q);
    TokenTopUpIff(request, p.minTopUp, q);
  }

  /** In every other display mode the amount is stored as requested and credited in full. */
  lemma UnitTopUp(p: Pricing, request: int, q: int)
    requires q > 0
    ensures Accepted(p, request, false, q as real) ==> StoredAmount(request, false, q as real) >= p.minTopUp
    ensures UnitsQuota(StoredAmount(request, false, q as real) as real, q as real) == request * q
  {
    ProductIsExact(request, q);
  }
}
