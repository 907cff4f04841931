// The automatic listing price (apps/products/pricing.py), in exact arithmetic.
module Pricing {
  import opened Common

  // ---- rounding ----

  // Decimal.quantize("0.01", ROUND_HALF_UP): ties go away from zero.
  function HalfUp(x: real): real {
    Cents(x) as real / 100.0
  }

  function Cents(x: real): int {
    if x >= 0.0 then (x * 100.0 + 0.5).Floor else -(-x * 100.0 + 0.5).Floor
  }

  function Abs(x: real): real {
    if x >= 0.0 then x else -x
  }

  predicate WholeCents(x: real) {
    (x * 100.0).Floor as real == x * 100.0
  }

  lemma FloorOfInt(n: int, x: real)
    requires x == n as real
    ensures x.Floor == n
  {
  }

  lemma HalfUpIsNearest(x: real)
    ensures WholeCents(HalfUp(x)) && Abs(HalfUp(x) - x) <= 0.005
  {
    FloorOfInt(Cents(x), HalfUp(x) * 100.0);
    assert Abs(Cents(x) as real - x * 100.0) <= 0.5;
  }

  // Half a cent goes away from zero.
  lemma HalfCentGoesAway(x: real)
    ensures Abs(HalfUp(x) - x) == 0.005 ==> Abs(HalfUp(x)) == Abs(x) + 0.005
  {
    var c := Cents(x);
    assert HalfUp(x) * 100.0 == c as real;
    if x >= 0.0 {
      assert c as real > x * 100.0 + 0.5 - 1.0;
    } else {
      assert -c as real > -x * 100.0 + 0.5 - 1.0;
    }
  }

  lemma HalfUpMonotone(x: real, y: real)
    requires x <= y
    ensures HalfUp(x) <= HalfUp(y)
  {
    CentsMonotone(x, y);
    CentsDivide(Cents(x), Cents(y));
  }

  lemma FloorMonotone(x: real, y: real)
    requires x <= y
    ensures x.Floor <= y.Floor
  {
  }

  lemma CentsMonotone(x: real, y: real)
    requires x <= y
    ensures Cents(x) <= Cents(y)
  {
    if x >= 0.0 {
      FloorMonotone(x * 100.0 + 0.5, y * 100.0 + 0.5);
    } else if y < 0.0 {
      FloorMonotone(-y * 100.0 + 0.5, -x * 100.0 + 0.5);
    } else {
      FloorMonotone(0.5, -x * 100.0 + 0.5);
      FloorMonotone(0.5, y * 100.0 + 0.5);
    }
  }

  lemma CentsDivide(a: int, b: int)
    requires a <= b
    ensures a as real / 100.0 <= b as real / 100.0
  {
  }

  // Positive whole amounts that end in 49 or 99.
  predicate Pretty(n: int) {
    n > 0 && (n % 100 == 49 || n % 100 == 99)
  }

  predicate Closer(amount: real, n: int, m: int) {
    Abs(n as real - amount) < Abs(m as real - amount) || (Abs(n as real - amount) == Abs(m as real - amount) && n >= m)
  }

  // The nearest of all pretty amounts; the larger one on a tie.
  ghost predicate NearestPretty(amount: real, n: int) {
    Pretty(n) && forall m | Pretty(m) :: Closer(amount, n, m)
  }

  function PrettySteps(amount: real): int {
    var k := ((amount + 26.0) / 50.0).Floor;
    if k < 1 then 1 else k
  }

  function ClosestPretty(amount: real): int {
    50 * PrettySteps(amount) - 1
  }

  lemma PrettyIsStep(n: int)
    ensures Pretty(n) <==> n >= 49 && (n + 1) % 50 == 0
  {
  }

  lemma ClosestIsNearest(amount: real)
    requires amount > 0.0
    ensures NearestPretty(amount, ClosestPretty(amount))
  {
    var n := ClosestPretty(amount);
    PrettyIsStep(n);
    forall m | Pretty(m) ensures Closer(amount, n, m) {
      PrettyIsStep(m);
      StepCloser(amount, PrettySteps(amount), (m + 1) / 50);
    }
  }

  lemma StepCloser(amount: real, k: int, j: int)
    requires amount > 0.0 && k == PrettySteps(amount) && j >= 1
    ensures Closer(amount, 50 * k - 1, 50 * j - 1)
  {
    var low := 50.0 * (k as real);
    assert (amount + 26.0) / 50.0 < k as real + 1.0;
    assert amount + 26.0 < low + 50.0;
    if j < k {
      assert k >= 2;
      assert low <= amount + 26.0;
      assert 50.0 * (j as real) <= low - 50.0;
    } else if j > k {
      assert 50.0 * (j as real) >= low + 50.0;
    }
  }

  function RoundedPrice(amount: real): real {
    if amount <= 0.0 then 0.99 else ClosestPretty(amount) as real
  }

  lemma RoundingIsClose(amount: real)
    requires amount >= 24.0
    ensures Abs(RoundedPrice(amount) - amount) <= 25.0
  {
  }

  lemma RoundingIsMonotone(a: real, b: real)
    requires a <= b
    ensures RoundedPrice(a) <= RoundedPrice(b)
  {
    if a > 0.0 {
      FloorMonotone((a + 26.0) / 50.0, (b + 26.0) / 50.0);
      assert PrettySteps(a) <= PrettySteps(b);
    } else if b > 0.0 {
      assert PrettySteps(b) >= 1;
    }
  }

  predicate Candidate(amount: real, n: int) {
    var base := amount.Floor / 100 * 100;
    Pretty(n) && base - 100 <= n < base + 300
  }

  lemma ClosestIsCandidate(amount: real)
    requires amount > 0.0
    ensures Candidate(amount, ClosestPretty(amount))
  {
    PrettyIsStep(ClosestPretty(amount));
    var base := amount.Floor / 100 * 100;
    assert base as real <= amount < base as real + 100.0;
  }

  method Candidates(amount: real) returns (candidates: seq<int>)
    requires amount > 0.0
    ensures forall n :: n in candidates <==> Candidate(amount, n)
  {
    var base := amount.Floor / 100 * 100;
    candidates := [];
    for i := -1 to 3
      invariant forall n :: n in candidates <==> Pretty(n) && base - 100 <= n < base + 100 * i
    {
      var hundreds := base + 100 * i;
      if hundreds < 0 {
        continue;
      }
      for e := 0 to 2
        invariant forall n :: n in candidates <==> Pretty(n) && base - 100 <= n < base + 100 * i + 50 * e
      {
        var candidate := hundreds + if e == 0 then 49 else 99;
        if candidate > 0 {
          candidates := candidates + [candidate];
        }
      }
    }
  }

  // round_to_49_or_99 searches four hundreds, and finds the nearest of all.
  method RoundTo49Or99(amount: real) returns (price: real)
    ensures price == RoundedPrice(amount)
    ensures amount > 0.0 ==> exists n :: price == n as real && NearestPretty(amount, n)
  {
    if amount <= 0.0 {
      return 0.99;
    }
    var candidates := Candidates(amount);
    ClosestIsCandidate(amount);
    ClosestIsNearest(amount);
    var best := candidates[0];
    for i := 1 to |candidates|
      invariant best in candidates && forall j | 0 <= j < i :: Closer(amount, best, candidates[j])
    {
      if !Closer(amount, best, candidates[i]) {
        best := candidates[i];
      }
    }
    assert Closer(amount, best, ClosestPretty(amount)) && Closer(amount, ClosestPretty(amount), best);
    price := best as real;
  }

  // ---- volume and delivery ----

  datatype Box = Box(width: real, height: real, length: real) {
    function Cbm(): real {
      width * height * length / 1000000.0
    }
  }

  function LargestCbm(variants: seq<Box>): real
    requires variants != []
  {
    var last := variants[|variants| - 1].Cbm();
    if |variants| == 1 then last
    else
      var before := LargestCbm(variants[..|variants| - 1]);
      if last > before then last else before
  }

  function PartsCbm(parts: seq<Box>): real {
    if parts == [] then 0.0 else PartsCbm(parts[..|parts| - 1]) + parts[|parts| - 1].Cbm()
  }

  method PackedCbm(variants: seq<Box>, parts: seq<Box>) returns (cbm: Option<real>)
    ensures cbm == if variants == [] then None else Some(LargestCbm(variants) + PartsCbm(parts))
  {
    if variants == [] {
      return None;
    }
    var total := variants[0].Cbm();
    for i := 1 to |variants|
      invariant total == LargestCbm(variants[..i])
    {
      assert variants[..i + 1][..i] == variants[..i];
      if variants[i].Cbm() > total {
        total := variants[i].Cbm();
      }
    }
    assert variants[..|variants|] == variants;
    var main := total;
    for i := 0 to |parts|
      invariant total == main + PartsCbm(parts[..i])
    {
      assert parts[..i + 1][..i] == parts[..i];
      total := total + parts[i].Cbm();
    }
    assert parts[..|parts|] == parts;
    cbm := Some(total);
  }

  lemma {:induction false} LargestIsMaximum(variants: seq<Box>)
    requires variants != []
    ensures forall v | v in variants :: v.Cbm() <= LargestCbm(variants)
    ensures exists v | v in variants :: v.Cbm() == LargestCbm(variants)
  {
    if |variants| == 1 {
      assert variants[0] in variants && variants[0].Cbm() == LargestCbm(variants);
    }
    if |variants| > 1 {
      var front := variants[..|variants| - 1];
      LargestIsMaximum(front);
      var v :| v in front && v.Cbm() == LargestCbm(front);
      var last := variants[|variants| - 1];
      assert last in variants && v in variants;
      assert LargestCbm(variants) == if last.Cbm() > v.Cbm() then last.Cbm() else v.Cbm();
      forall w | w in variants ensures w.Cbm() <= LargestCbm(variants) {
        assert w in front || w == variants[|variants| - 1];
      }
    }
  }

  datatype Tier = Tier(min: real, max: real, price: real)

  predicate Contains(t: Tier, cbm: real) {
    t.min <= cbm <= t.max
  }

  function DeliveryPrice(cbm: real, tiers: seq<Tier>): Option<real> {
    if tiers == [] then None
    else if Contains(tiers[0], cbm) then Some(tiers[0].price)
    else DeliveryPrice(cbm, tiers[1..])
  }

  method DeDeliveryEur(cbm: real, tiers: seq<Tier>) returns (price: Option<real>)
    ensures price == DeliveryPrice(cbm, tiers)
    ensures price.None? <==> forall t | t in tiers :: cbm < t.min || t.max < cbm
    ensures price.Some? ==> exists i | 0 <= i < |tiers| ::
              && tiers[i].min <= cbm <= tiers[i].max && price.value == tiers[i].price
              && forall j | 0 <= j < i :: cbm < tiers[j].min || tiers[j].max < cbm
  {
    for i := 0 to |tiers|
      invariant forall j | 0 <= j < i :: !Contains(tiers[j], cbm)
      invariant DeliveryPrice(cbm, tiers) == DeliveryPrice(cbm, tiers[i..])
    {
      if Contains(tiers[i], cbm) {
        return Some(tiers[i].price);
      }
      assert tiers[i..][1..] == tiers[i + 1..];
    }
    price := None;
  }

  // ---- the listing price ----

  datatype Currency = Eur | Try | Usd

  datatype Rates = Rates(usd: Option<real>, lira: Option<real>)

  datatype Fx = Fx(usd: real, lira: real)

  datatype Catalog = Catalog(margin: real, advFee: real, vat: real, tiers: seq<Tier>, tariffs: map<string, real>)

  datatype PricedProduct = PricedProduct(
    unitPrice: real, currency: Currency, city: string, variants: seq<Box>, parts: seq<Box>,
    overrides: Rates, fixedPrice: Option<real>)

  datatype ListingPrice = Price(eur: real) | NoRate | Error

  function Or<T>(a: Option<T>, b: Option<T>): Option<T> {
    if a.Some? then a else b
  }

  // `eur_to_usd or 1`: an absent rate and a zero rate both become 1.
  function OrOne(x: Option<real>): real {
    if x.None? || x.value == 0.0 then 1.0 else x.value
  }

  function ResolvedRate(p: PricedProduct, live: Option<Fx>): Option<Fx> {
    var lira := Or(p.overrides.lira, if live.Some? then Some(live.value.lira) else None);
    var usd := Or(p.overrides.usd, if live.Some? then Some(live.value.usd) else None);
    if p.currency == Eur then Some(Fx(OrOne(usd), OrOne(lira)))
    else if lira.None? || usd.None? then None
    else Some(Fx(usd.value, lira.value))
  }

  // None is a division by zero.
  function PurchaseEur(p: PricedProduct, fx: Fx): Option<real> {
    match p.currency
    case Eur => Some(p.unitPrice)
    case Try => if fx.lira == 0.0 then None else Some(HalfUp(p.unitPrice / fx.lira))
    case Usd => if fx.usd == 0.0 then None else Some(HalfUp(p.unitPrice / fx.usd))
  }

  function PercentFactor(c: Catalog): real {
    1.0 + c.margin + c.advFee + c.vat
  }

  // Freight and delivery; None is a product without variants, an unknown city or no size tier.
  function Shipping(city: string, variants: seq<Box>, parts: seq<Box>, c: Catalog): Option<real> {
    if variants == [] || city !in c.tariffs then None
    else
      var cbm := LargestCbm(variants) + PartsCbm(parts);
      match DeliveryPrice(cbm, c.tiers)
      case None => None
      case Some(delivery) => Some(c.tariffs[city] * cbm + delivery)
  }

  // The whole cost marked up, in whole cents, rounded.
  function PriceOfCost(purchase: real, rest: real, factor: real): real {
    RoundedPrice(HalfUp(WithPercent(purchase + rest, factor)))
  }

  function WithPercent(cost: real, factor: real): (total: real)
    ensures total == cost * factor
  {
    cost * factor
  }

  function ListingPriceEur(p: PricedProduct, live: Option<Fx>, c: Catalog): ListingPrice {
    if p.fixedPrice.Some? then Price(p.fixedPrice.value)
    else
      match ResolvedRate(p, live)
      case None => NoRate
      case Some(fx) =>
        var purchase, rest := PurchaseEur(p, fx), Shipping(p.city, p.variants, p.parts, c);
        if purchase.None? || rest.None? then Error
        else Price(PriceOfCost(purchase.value, rest.value, PercentFactor(c)))
  }

  // The rate of a currency: the product's own one, else the live one.
  function RateOf(own: Option<real>, live: Option<real>): Option<real> {
    if own.Some? then own else live
  }

  // The volume of the largest variant and all pieces, in cubic metres.
  predicate PackedInto(variants: seq<Box>, parts: seq<Box>, cbm: real) {
    && variants != []
    && cbm == LargestCbm(variants) + PartsCbm(parts)
  }

  // Purchase, freight and delivery with margin, advertising fee and tax on all of it, in whole cents.
  function TotalCost(purchase: real, freight: real, delivery: real, c: Catalog): real {
    HalfUp(WithPercent(purchase + freight + delivery, 1.0 + c.margin + c.advFee + c.vat))
  }

  ghost predicate PrettyPrice(price: real, total: real) {
    if total <= 0.0 then price == 0.99 else exists n :: price == n as real && NearestPretty(total, n)
  }

  lemma RoundedIsPretty(total: real)
    ensures PrettyPrice(RoundedPrice(total), total)
  {
    if total > 0.0 {
      ClosestIsNearest(total);
      assert RoundedPrice(total) == ClosestPretty(total) as real;
    }
  }

  lemma ShippingSays(p: PricedProduct, c: Catalog, cbm: real, freight: real, delivery: real)
    requires p.city in c.tariffs && PackedInto(p.variants, p.parts, cbm)
    requires freight == c.tariffs[p.city] * cbm && DeliveryPrice(cbm, c.tiers) == Some(delivery)
    ensures Shipping(p.city, p.variants, p.parts, c).Some? && Shipping(p.city, p.variants, p.parts, c).value == freight + delivery
  {
  }

  lemma PriceWithShipping(p: PricedProduct, live: Option<Fx>, c: Catalog, freight: real, delivery: real)
    requires p.fixedPrice.None?
    requires Shipping(p.city, p.variants, p.parts, c).Some? && Shipping(p.city, p.variants, p.parts, c).value == freight + delivery
    ensures var fx := ResolvedRate(p, live);
            if fx.None? then ListingPriceEur(p, live, c) == NoRate
            else if PurchaseEur(p, fx.value).None? then ListingPriceEur(p, live, c) == Error
            else ListingPriceEur(p, live, c).Price?
                 && PrettyPrice(ListingPriceEur(p, live, c).eur, TotalCost(PurchaseEur(p, fx.value).value, freight, delivery, c))
  {
    var fx := ResolvedRate(p, live);
    if fx.Some? && PurchaseEur(p, fx.value).Some? {
      CostSays(PurchaseEur(p, fx.value).value, freight, delivery, c);
    }
  }

  lemma CostSays(purchase: real, freight: real, delivery: real, c: Catalog)
    ensures PrettyPrice(PriceOfCost(purchase, freight + delivery, PercentFactor(c)), TotalCost(purchase, freight, delivery, c))
  {
    assert purchase + (freight + delivery) == purchase + freight + delivery;
    RoundedIsPretty(TotalCost(purchase, freight, delivery, c));
  }

  // The unit price in its own rate, in whole cents when it is converted.
  function Purchase(unitPrice: real, currency: Currency, dollar: real, lira: real): real
    requires (currency == Try ==> lira != 0.0) && (currency == Usd ==> dollar != 0.0)
  {
    if currency == Eur then unitPrice else if currency == Try then HalfUp(unitPrice / lira) else HalfUp(unitPrice / dollar)
  }

  // The price in full: purchase, the freight of the city for the packed volume and the delivery of
  // the first size tier that contains it, marked up and rounded to the nearest 49 or 99. A product
  // that is not priced in euros needs both rates.
  lemma PriceSays(p: PricedProduct, live: Option<Fx>, c: Catalog, cbm: real, freight: real, delivery: real)
    requires p.fixedPrice.None? && p.city in c.tariffs && PackedInto(p.variants, p.parts, cbm)
    requires freight == c.tariffs[p.city] * cbm && DeliveryPrice(cbm, c.tiers) == Some(delivery)
    ensures var lira := RateOf(p.overrides.lira, if live.Some? then Some(live.value.lira) else None);
            var dollar := RateOf(p.overrides.usd, if live.Some? then Some(live.value.usd) else None);
            var price := ListingPriceEur(p, live, c);
            if p.currency == Eur then price.Price? && PrettyPrice(price.eur, TotalCost(p.unitPrice, freight, delivery, c))
            else if lira.None? || dollar.None? then price == NoRate
            else if (if p.currency == Try then lira.value else dollar.value) == 0.0 then price == Error
            else
              price.Price?
              && PrettyPrice(price.eur, TotalCost(Purchase(p.unitPrice, p.currency, dollar.value, lira.value), freight, delivery, c))
  {
    ShippingSays(p, c, cbm, freight, delivery);
    PriceWithShipping(p, live, c, freight, delivery);
  }

  // A fixed price wins, and without freight or delivery there is none.
  lemma PriceWithoutCost(p: PricedProduct, live: Option<Fx>, c: Catalog)
    ensures p.fixedPrice.Some? ==> ListingPriceEur(p, live, c) == Price(p.fixedPrice.value)
    ensures p.fixedPrice.None? && (p.variants == [] || p.city !in c.tariffs) ==> !ListingPriceEur(p, live, c).Price?
    ensures p.fixedPrice.None? && p.variants != [] && DeliveryPrice(LargestCbm(p.variants) + PartsCbm(p.parts), c.tiers).None? ==>
              !ListingPriceEur(p, live, c).Price?
  {
  }

  lemma BoxSays(b: Box)
    ensures b.Cbm() * 1000000.0 == b.width * b.height * b.length
  {
  }

  lemma PartsAddUp(parts: seq<Box>, more: Box)
    ensures PartsCbm([]) == 0.0 && PartsCbm(parts + [more]) == PartsCbm(parts) + more.Cbm()
  {
    assert (parts + [more])[..|parts|] == parts;
  }

  predicate PositiveRates(r: Rates, live: Option<Fx>) {
    && (r.usd.Some? ==> r.usd.value > 0.0) && (r.lira.Some? ==> r.lira.value > 0.0)
    && (live.Some? ==> live.value.usd > 0.0 && live.value.lira > 0.0)
  }

  lemma DivisionMonotone(a: real, b: real, rate: real)
    requires a <= b && rate > 0.0
    ensures a / rate <= b / rate
  {
    assert b / rate - a / rate == (b - a) / rate;
  }

  lemma ScalingMonotone(a: real, b: real, factor: real)
    requires a <= b && factor >= 0.0
    ensures a * factor <= b * factor
  {
  }

  lemma PurchaseMonotone(p: PricedProduct, q: PricedProduct, fx: Fx)
    requires q == p.(unitPrice := q.unitPrice) && p.unitPrice <= q.unitPrice && fx.usd > 0.0 && fx.lira > 0.0
    ensures PurchaseEur(p, fx).Some? && PurchaseEur(q, fx).Some? && PurchaseEur(p, fx).value <= PurchaseEur(q, fx).value
  {
    match p.currency
    case Eur =>
    case Try =>
      DivisionMonotone(p.unitPrice, q.unitPrice, fx.lira);
      HalfUpMonotone(p.unitPrice / fx.lira, q.unitPrice / fx.lira);
    case Usd =>
      DivisionMonotone(p.unitPrice, q.unitPrice, fx.usd);
      HalfUpMonotone(p.unitPrice / fx.usd, q.unitPrice / fx.usd);
  }

  lemma CostMonotone(low: real, high: real, rest: real, factor: real)
    requires low <= high && factor >= 0.0
    ensures PriceOfCost(low, rest, factor) <= PriceOfCost(high, rest, factor)
  {
    var a, b := WithPercent(low + rest, factor), WithPercent(high + rest, factor);
    ScalingMonotone(low + rest, high + rest, factor);
    HalfUpMonotone(a, b);
    RoundingIsMonotone(HalfUp(a), HalfUp(b));
  }

  // A dearer product is never listed cheaper, through both quantizations and the rounding; and
  // whether there is a price at all does not depend on the unit price.
  lemma ListingPriceMonotone(p: PricedProduct, q: PricedProduct, live: Option<Fx>, c: Catalog)
    requires q == p.(unitPrice := q.unitPrice) && p.unitPrice <= q.unitPrice
    requires PositiveRates(p.overrides, live) && c.margin >= 0.0 && c.advFee >= 0.0 && c.vat >= 0.0
    ensures var cheap, dear := ListingPriceEur(p, live, c), ListingPriceEur(q, live, c);
            if cheap.Price? then dear.Price? && cheap.eur <= dear.eur else dear == cheap
  {
    var fx := ResolvedRate(p, live);
    assert ResolvedRate(q, live) == fx;
    if p.fixedPrice.None? && fx.Some? && Shipping(p.city, p.variants, p.parts, c).Some? {
      PurchaseMonotone(p, q, fx.value);
      CostMonotone(PurchaseEur(p, fx.value).value, PurchaseEur(q, fx.value).value, Shipping(p.city, p.variants, p.parts, c).value, PercentFactor(c));
    }
  }

  // A price in lira also needs the dollar rate, which its computation never uses.
  lemma LiraPriceNeedsBothRates(p: PricedProduct, live: Option<Fx>, c: Catalog)
    requires p.currency == Try && p.fixedPrice.None? && p.overrides.lira.Some?
    ensures ListingPriceEur(p, live, c) == NoRate <==> p.overrides.usd.None? && live.None?
  {
  }
}
