/** The browser-side ledger of the user data context: its linear eco-impact
    estimator, the initial state and the three state transitions. */
module UserData {
  import opened Wrappers
  import opened EcoImpact
  import opened Users
  import opened FrontItem

  /** The browser's multiplier table: eight entries, no Fashion. */
  function FrontMultiplier(category: string): (b: Option<Base>)
  {
    match category
    case "Electronics" => Some(Base(15, 100))
    case "Clothing" => Some(Base(8, 2500))
    case "Furniture" => Some(Base(25, 150))
    case "Books" => Some(Base(2, 10))
    case "Sports" => Some(Base(5, 50))
    case "Home & Garden" => Some(Base(10, 200))
    case "Toys" => Some(Base(3, 75))
    case "Other" => Some(Base(5, 100))
    case _ => None
  }

  const OtherMultiplier: Base := Base(5, 100)

  /** The multiplier used: the tabled one, or Other's for any other category. */
  function MultiplierFor(category: string): (b: Base)
    ensures FrontMultiplier(category).Some? ==> b == FrontMultiplier(category).value
    ensures FrontMultiplier(category).None? ==> b == OtherMultiplier
  {
    FrontMultiplier(category).GetOr(OtherMultiplier)
  }

  /** `Math.round`: the nearest integer, halves rounded up. */
  function Round(x: real): (r: int)
    ensures r as real <= x + 0.5 < r as real + 1.0
  {
    (x + 0.5).Floor
  }

  /** `Math.max(1, price / 1000)`. */
  function PriceFactor(price: int): (f: real)
    ensures f >= 1.0 && f >= price as real / 1000.0
    ensures f == 1.0 || f == price as real / 1000.0
  {
    if price as real / 1000.0 > 1.0 then price as real / 1000.0 else 1.0
  }

  /** One multiplier scaled by the price factor and rounded. */
  function ScaleRound(m: nat, price: int): (v: int)
    ensures v >= 0
  {
    Round(m as real * PriceFactor(price))
  }

  /** The browser's `calculateEcoImpact`. */
  function FrontEstimate(category: string, price: int): (r: Impact)
    ensures r.co2Saved >= 0 && r.waterSaved >= 0
  {
    var b := MultiplierFor(category);
    Impact(ScaleRound(b.co2, price), ScaleRound(b.water, price))
  }

  lemma RoundOfInteger(n: int)
    ensures Round(n as real) == n
  {
  }

  lemma RoundMono(x: real, y: real)
    requires x <= y
    ensures Round(x) <= Round(y)
  {
  }

  /** A category outside the table, Fashion included, is priced as Other. */
  lemma FrontEstimateFallback(category: string, price: int)
    requires FrontMultiplier(category).None?
    ensures FrontEstimate(category, price) == FrontEstimate("Other", price)
    ensures FrontEstimate("Fashion", price) == FrontEstimate("Other", price)
  {
  }

  /** Up to a price of 1000 the factor is 1 and the multipliers come out unchanged. */
  lemma FrontEstimateAtMostThousand(category: string, price: int)
    requires price <= 1000
    ensures FrontEstimate(category, price) == Impact(MultiplierFor(category).co2, MultiplierFor(category).water)
  {
    var b := MultiplierFor(category);
    ScaleRoundAtMostThousand(b.co2, price);
    ScaleRoundAtMostThousand(b.water, price);
  }

  lemma ScaleRoundAtMostThousand(m: nat, price: int)
    requires price <= 1000
    ensures ScaleRound(m, price) == m
  {
    assert PriceFactor(price) == 1.0;
    RoundOfInteger(m);
  }

  lemma ScaleRoundLinear(m: nat, k: int)
    requires k >= 1
    ensures ScaleRound(m, 1000 * k) == m * k
  {
    assert (1000 * k) as real / 1000.0 == k as real;
    assert PriceFactor(1000 * k) == k as real;
    assert m as real * k as real == (m * k) as real;
    RoundOfInteger(m * k);
  }

  /** A price of 1000·k with k ≥ 1 scales the multipliers by exactly k. */
  lemma FrontEstimateLinear(category: string, k: int)
    requires k >= 1
    ensures FrontEstimate(category, 1000 * k) ==
            Impact(MultiplierFor(category).co2 * k, MultiplierFor(category).water * k)
  {
    var b := MultiplierFor(category);
    ScaleRoundLinear(b.co2, k);
    ScaleRoundLinear(b.water, k);
  }

  lemma PriceFactorMono(p1: int, p2: int)
    requires p1 <= p2
    ensures PriceFactor(p1) <= PriceFactor(p2)
  {
    assert p1 as real / 1000.0 <= p2 as real / 1000.0;
  }

  lemma ScaleRoundMono(m: nat, p1: int, p2: int)
    requires p1 <= p2
    ensures ScaleRound(m, p1) <= ScaleRound(m, p2)
  {
    var f1, f2 := PriceFactor(p1), PriceFactor(p2);
    PriceFactorMono(p1, p2);
    assert m as real * f2 - m as real * f1 == m as real * (f2 - f1);
    RoundMono(m as real * f1, m as real * f2);
  }

  /** For a fixed category a higher price never lowers the estimate. */
  lemma FrontEstimateMonotone(category: string, p1: int, p2: int)
    requires p1 <= p2
    ensures FrontEstimate(category, p1).co2Saved <= FrontEstimate(category, p2).co2Saved
    ensures FrontEstimate(category, p1).waterSaved <= FrontEstimate(category, p2).waterSaved
  {
    var b := MultiplierFor(category);
    ScaleRoundMono(b.co2, p1, p2);
    ScaleRoundMono(b.water, p1, p2);
  }

  /** The persisted ledger. */
  datatype LocalData = LocalData(soldProducts: seq<Item>, purchasedProducts: seq<Item>, ecoStats: EcoStats)

  /** A first visit: no products, zero counters and 850 points. */
  const Initial: LocalData := LocalData([], [], EcoStats(0, 0, 0, 0, 850))

  /** `addSoldProduct`: the listing is stamped, marked listed with no views and
      its impact recomputed; it is appended and the stats credited. */
  function AddSoldProduct(d: LocalData, product: Item, id: int, now: int): (r: (LocalData, Item))
    ensures var item := r.1;
      && item.id == id && item.dated == now && item.status == "listed" && item.views == 0
      && item.ecoImpact == FrontEstimate(product.category, product.price)
      && SameListing(item, product)
    ensures r.0.soldProducts == d.soldProducts + [r.1]
    ensures r.0.purchasedProducts == d.purchasedProducts
    ensures r.0.ecoStats == d.ecoStats.(
      totalItemsSold := d.ecoStats.totalItemsSold + 1,
      totalCO2Saved := d.ecoStats.totalCO2Saved + r.1.ecoImpact.co2Saved,
      totalWaterSaved := d.ecoStats.totalWaterSaved + r.1.ecoImpact.waterSaved,
      ecoPoints := d.ecoStats.ecoPoints + 50)
  {
    var item := product.(id := id, dated := now, status := "listed", views := 0,
                         ecoImpact := FrontEstimate(product.category, product.price));
    var s := d.ecoStats;
    (d.(soldProducts := d.soldProducts + [item],
        ecoStats := s.(totalItemsSold := s.totalItemsSold + 1,
                       totalCO2Saved := s.totalCO2Saved + item.ecoImpact.co2Saved,
                       totalWaterSaved := s.totalWaterSaved + item.ecoImpact.waterSaved,
                       ecoPoints := s.ecoPoints + 50)),
     item)
  }

  /** `addPurchasedProduct`: the purchase is stamped, marked purchased and its
      impact recomputed, whatever impact it arrived with; views are carried over. */
  function AddPurchasedProduct(d: LocalData, product: Item, id: int, now: int): (r: (LocalData, Item))
    ensures var item := r.1;
      && item.id == id && item.dated == now && item.status == "purchased" && item.views == product.views
      && item.ecoImpact == FrontEstimate(product.category, product.price)
      && SameListing(item, product)
    ensures r.0.purchasedProducts == d.purchasedProducts + [r.1]
    ensures r.0.soldProducts == d.soldProducts
    ensures r.0.ecoStats == d.ecoStats.(
      totalItemsBought := d.ecoStats.totalItemsBought + 1,
      totalCO2Saved := d.ecoStats.totalCO2Saved + r.1.ecoImpact.co2Saved,
      totalWaterSaved := d.ecoStats.totalWaterSaved + r.1.ecoImpact.waterSaved,
      ecoPoints := d.ecoStats.ecoPoints + 30)
  {
    var item := product.(id := id, dated := now, status := "purchased",
                         ecoImpact := FrontEstimate(product.category, product.price));
    var s := d.ecoStats;
    (d.(purchasedProducts := d.purchasedProducts + [item],
        ecoStats := s.(totalItemsBought := s.totalItemsBought + 1,
                       totalCO2Saved := s.totalCO2Saved + item.ecoImpact.co2Saved,
                       totalWaterSaved := s.totalWaterSaved + item.ecoImpact.waterSaved,
                       ecoPoints := s.ecoPoints + 30)),
     item)
  }

  /** The incoming ecoImpact of a purchase plays no part. */
  lemma PurchaseIgnoresIncomingImpact(d: LocalData, product: Item, other: Impact, id: int, now: int)
    ensures AddPurchasedProduct(d, product.(ecoImpact := other), id, now) == AddPurchasedProduct(d, product, id, now)
  {
  }

  /** The status of every entry whose id matches is replaced; the rest stay. */
  function SetStatus(s: seq<Item>, productId: int, newStatus: string): (r: seq<Item>)
    ensures |r| == |s|
    ensures forall i :: 0 <= i < |s| ==>
      r[i] == if s[i].id == productId then s[i].(status := newStatus) else s[i]
  {
    if s == [] then []
    else [if s[0].id == productId then s[0].(status := newStatus) else s[0]]
         + SetStatus(s[1..], productId, newStatus)
  }

  /** `updateProductStatus`; `kind` is the optional third argument, `'sold'` when omitted. */
  function UpdateProductStatus(d: LocalData, productId: int, newStatus: string, kind: Option<string>): (r: LocalData)
    ensures kind.Some? && kind.value != "sold" ==> r == d
    ensures kind.None? || kind.value == "sold" ==>
      r == d.(soldProducts := SetStatus(d.soldProducts, productId, newStatus))
  {
    if kind.GetOr("sold") == "sold" then d.(soldProducts := SetStatus(d.soldProducts, productId, newStatus))
    else d
  }

  /** The summed impact of a list of records. */
  function ImpactTotal(s: seq<Item>): (t: Impact)
  {
    if s == [] then Impact(0, 0)
    else
      var rest := ImpactTotal(s[1..]);
      Impact(s[0].ecoImpact.co2Saved + rest.co2Saved, s[0].ecoImpact.waterSaved + rest.waterSaved)
  }

  lemma {:induction false} ImpactTotalAppend(s: seq<Item>, x: Item)
    ensures ImpactTotal(s + [x]) ==
      Impact(ImpactTotal(s).co2Saved + x.ecoImpact.co2Saved, ImpactTotal(s).waterSaved + x.ecoImpact.waterSaved)
  {
    if s != [] {
      assert (s + [x])[1..] == s[1..] + [x];
      ImpactTotalAppend(s[1..], x);
    }
  }

  lemma {:induction false} SetStatusKeepsTotal(s: seq<Item>, productId: int, newStatus: string)
    ensures ImpactTotal(SetStatus(s, productId, newStatus)) == ImpactTotal(s)
  {
    if s != [] {
      SetStatusKeepsTotal(s[1..], productId, newStatus);
    }
  }

  /** The stats are exactly what the two lists account for, starting from the initial state. */
  predicate Accounted(d: LocalData)
  {
    var sold, bought := ImpactTotal(d.soldProducts), ImpactTotal(d.purchasedProducts);
    && d.ecoStats.totalItemsSold == |d.soldProducts|
    && d.ecoStats.totalItemsBought == |d.purchasedProducts|
    && d.ecoStats.totalCO2Saved == sold.co2Saved + bought.co2Saved
    && d.ecoStats.totalWaterSaved == sold.waterSaved + bought.waterSaved
    && d.ecoStats.ecoPoints == 850 + 50 * |d.soldProducts| + 30 * |d.purchasedProducts|
  }

  lemma InitialAccounted()
    ensures Accounted(Initial)
  {
  }

  lemma AddSoldKeepsAccounted(d: LocalData, product: Item, id: int, now: int)
    requires Accounted(d)
    ensures Accounted(AddSoldProduct(d, product, id, now).0)
  {
    ImpactTotalAppend(d.soldProducts, AddSoldProduct(d, product, id, now).1);
  }

  lemma AddPurchasedKeepsAccounted(d: LocalData, product: Item, id: int, now: int)
    requires Accounted(d)
    ensures Accounted(AddPurchasedProduct(d, product, id, now).0)
  {
    ImpactTotalAppend(d.purchasedProducts, AddPurchasedProduct(d, product, id, now).1);
  }

  lemma UpdateStatusKeepsAccounted(d: LocalData, productId: int, newStatus: string, kind: Option<string>)
    requires Accounted(d)
    ensures Accounted(UpdateProductStatus(d, productId, newStatus, kind))
  {
    SetStatusKeepsTotal(d.soldProducts, productId, newStatus);
  }
}
