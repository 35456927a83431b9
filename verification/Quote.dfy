/** Transfer kinds, limits and fees. */
module Quote {

  datatype Kind = Internal | AchIn | AchOut | WireIn | WireOut | P2p

  datatype WireScope = Domestic | International

  /** The service's configured limits and prices. */
  datatype Limits = Limits(
    minCents: int,
    maxCents: int,
    wireMaxCents: int,
    feeBps: int,
    feeMinCents: int,
    reviewThresholdCents: int)
  {
    /** Signs the deployment is expected to respect: a configured price or floor is never negative. */
    predicate Sane() {
      0 <= minCents && 0 <= feeBps && 0 <= feeMinCents
    }
  }

  datatype Refusal = BelowMinimum | AboveMaximum | InstantUnavailable
  datatype Quote = Priced(feeCents: int) | Unavailable(reason: Refusal)

  /** Division of big integers truncates toward zero. */
  function Truncated(n: int, d: int): int
    requires d > 0
  {
    if n >= 0 then n / d else -(-n / d)
  }

  function Ceiling(l: Limits, kind: Kind): int {
    if kind.WireOut? then l.wireMaxCents else l.maxCents
  }

  function Price(l: Limits, kind: Kind, cents: int, instant: bool, scope: WireScope): Quote {
    if cents < l.minCents then Unavailable(BelowMinimum)
    else if cents > Ceiling(l, kind) then Unavailable(AboveMaximum)
    else if instant && kind.Internal? then Unavailable(InstantUnavailable)
    else if instant then
      var share := Truncated(cents * l.feeBps, 10000);
      Priced(if share > l.feeMinCents then share else l.feeMinCents)
    else if kind.WireOut? then Priced(if scope.International? then 460 else 350)
    else Priced(0)
  }

  /** The amount is within the limits of its kind. */
  ghost predicate WithinLimits(l: Limits, kind: Kind, cents: int) {
    l.minCents <= cents && cents <= if kind == WireOut then l.wireMaxCents else l.maxCents
  }

  /** An instant transfer costs the whole cents of its share, or the minimum where that is more; any other costs nothing,
      but for a wire's flat $3.50, or $4.60 abroad. */
  ghost predicate FeeIs(l: Limits, kind: Kind, cents: int, instant: bool, scope: WireScope, fee: int) {
    if instant then
      && fee >= l.feeMinCents && cents * l.feeBps < (fee + 1) * 10000
      && (fee == l.feeMinCents || fee * 10000 <= cents * l.feeBps)
    else fee == if kind != WireOut then 0 else if scope == International then 460 else 350
  }

  /** A transfer is priced if and only if it is within its limits and not both instant and internal, and then at the fee
      its speed, kind and reach name, which is never negative. */
  lemma PricedTransfersAreWithinLimits(l: Limits, kind: Kind, cents: int, instant: bool, scope: WireScope)
    requires l.Sane()
    ensures var q := Price(l, kind, cents, instant, scope);
            && (q.Priced? <==> WithinLimits(l, kind, cents) && !(instant && kind == Internal))
            && (q.Priced? ==> 0 <= q.feeCents && FeeIs(l, kind, cents, instant, scope, q.feeCents))
  {
    var share := cents * l.feeBps;
    if cents >= l.minCents {
      assert 0 <= share;
      assert share / 10000 * 10000 <= share < (share / 10000 + 1) * 10000;
    }
  }

  /** Sending more never costs less. */
  lemma FeesAreMonotone(l: Limits, kind: Kind, x: int, y: int, instant: bool, scope: WireScope)
    requires l.Sane() && x <= y
    requires Price(l, kind, x, instant, scope).Priced? && Price(l, kind, y, instant, scope).Priced?
    ensures Price(l, kind, x, instant, scope).feeCents <= Price(l, kind, y, instant, scope).feeCents
  {
    if instant {
      ShareMonotone(x, y, l.feeBps);
    }
  }

  /** Between two amounts that are priced every amount is priced, at a fee between theirs: the accepted amounts have no
      gaps, and no fee along them jumps back. */
  lemma BetweenPricedAmounts(l: Limits, kind: Kind, x: int, y: int, z: int, instant: bool, scope: WireScope)
    requires l.Sane() && x <= y <= z
    requires Price(l, kind, x, instant, scope).Priced? && Price(l, kind, z, instant, scope).Priced?
    ensures Price(l, kind, y, instant, scope).Priced?
    ensures Price(l, kind, x, instant, scope).feeCents <= Price(l, kind, y, instant, scope).feeCents
            <= Price(l, kind, z, instant, scope).feeCents
  {
    hide Price;
    PricedTransfersAreWithinLimits(l, kind, x, instant, scope);
    PricedTransfersAreWithinLimits(l, kind, y, instant, scope);
    PricedTransfersAreWithinLimits(l, kind, z, instant, scope);
    FeesAreMonotone(l, kind, x, y, instant, scope);
    FeesAreMonotone(l, kind, y, z, instant, scope);
  }

  lemma ShareMonotone(x: int, y: int, bps: int)
    requires 0 <= x <= y && 0 <= bps
    ensures Truncated(x * bps, 10000) <= Truncated(y * bps, 10000)
  {
    var p, q := x * bps, (y - x) * bps;
    assert p >= 0 && q >= 0 && y * bps == p + q;
    QuotientMonotone(p, p + q);
  }

  lemma QuotientMonotone(p: int, q: int)
    requires 0 <= p <= q
    ensures Truncated(p, 10000) <= Truncated(q, 10000)
  {
  }

  /** Held for an admin: every outbound wire and linked-account transfer, and payments from the threshold up. */
  predicate NeedsReview(l: Limits, kind: Kind, cents: int) {
    kind.WireOut? || kind.AchOut? || (kind.P2p? && cents >= l.reviewThresholdCents)
  }

  predicate Inflow(kind: Kind) {
    kind.AchIn? || kind.WireIn?
  }
}
