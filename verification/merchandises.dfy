/**
 Merchandise identities and the quantity/price algebra of merchandise loads
 (src/gameplay/train/merchandises.cpp). A load is a quantity of one
 merchandise bought at an average unit price; adding to it averages the
 price (rounded down), splitting it keeps the price.
 */
module Merchandises {
  import opened Outcomes

  datatype MerchType = Null | Box | Drinkable | Toxic | Vegetal

  /** A catalog entry. Only `id` takes part in identity. */
  datatype Merch = Merch(id: nat, name: string, mtype: MerchType)

  /** The placeholder merchandise of a default-constructed load. */
  const NullMerch := Merch(0, "null", Null)

  /** `MerchLoad()`: the placeholder merchandise, no quantity, no price. */
  const DefaultLoad := MerchLoad(NullMerch, 0, 0)

  /**
   The defaults carry id 0, so they are unequal to every catalogued
   merchandise, and a default load takes nothing out.
   */
  lemma DefaultsAreBlank(m: Merch, q: nat)
    requires m.id != 0
    ensures NotEqual(m, NullMerch) && !Equal(NullMerch, m)
    ensures DefaultLoad.quantity == 0 && DefaultLoad.price == 0
    ensures Split(DefaultLoad, q).Ok? <==> q == 0
  {
  }

  /** `Merch::operator==`. */
  predicate Equal(a: Merch, b: Merch) {
    a.id == b.id
  }

  /** `Merch::operator!=`, written on its own in the source. */
  predicate NotEqual(a: Merch, b: Merch) {
    a.id != b.id
  }

  lemma EqualIgnoresNameAndType(a: Merch, b: Merch, n: string, t: MerchType)
    ensures Equal(a, b) <==> Equal(a.(name := n, mtype := t), b)
    ensures Equal(a, b) <==> a.id == b.id
  {
  }

  lemma NotEqualIsNegation(a: Merch, b: Merch)
    ensures NotEqual(a, b) <==> !Equal(a, b)
  {
  }

  datatype MerchLoad = MerchLoad(merch: Merch, quantity: nat, price: nat)

  /** `MerchLoad::hasSameMerch`: the two loads carry the same merchandise. */
  function HasSameMerch(load: MerchLoad, other: MerchLoad): (r: bool)
    ensures r <==> load.merch.id == other.merch.id
  {
    Equal(load.merch, other.merch)
  }

  function Min(a: int, b: int): (m: int) { if a <= b then a else b }
  function Max(a: int, b: int): (m: int) { if a <= b then b else a }

  /**
   `add(quantity, price)`: merge `q` units bought at `p`. The new price is the
   weighted average rounded down. The source divides by the new quantity, so
   that quantity must not be zero.
   */
  function AddQuantity(load: MerchLoad, q: nat, p: nat): (r: MerchLoad)
    requires load.quantity + q > 0
    ensures r.merch == load.merch
    ensures r.quantity == load.quantity + q
    // the new price is the floor of total value over total quantity
    ensures r.price * r.quantity <= load.quantity * load.price + q * p
    ensures load.quantity * load.price + q * p < (r.price + 1) * r.quantity
  {
    MerchLoad(load.merch, load.quantity + q,
              (load.quantity * load.price + q * p) / (load.quantity + q))
  }

  /** The averaged price never leaves the range of the two prices merged. */
  lemma AddPriceBetween(load: MerchLoad, q: nat, p: nat)
    requires load.quantity + q > 0
    ensures Min(load.price, p) <= AddQuantity(load, q, p).price <= Max(load.price, p)
  {
    var r := AddQuantity(load, q, p);
    var lo := Min(load.price, p);
    var hi := Max(load.price, p);
    WeightedSumBetween(load.quantity, load.price, q, p, lo, hi);
    FloorBetween(load.quantity + q, load.quantity * load.price + q * p, r.price, lo, hi);
  }

  /** A weighted sum of two values lies between the weight times either bound. */
  lemma WeightedSumBetween(a: nat, pa: int, b: nat, pb: int, lo: int, hi: int)
    requires lo <= pa <= hi && lo <= pb <= hi
    ensures (a + b) * lo <= a * pa + b * pb <= (a + b) * hi
  {
    MulMono(a, lo, pa);
    MulMono(b, lo, pb);
    MulMono(a, pa, hi);
    MulMono(b, pb, hi);
    assert (a + b) * lo == a * lo + b * lo;
    assert (a + b) * hi == a * hi + b * hi;
  }

  /** A floor quotient of a total between `s * lo` and `s * hi` lies between `lo` and `hi`. */
  lemma FloorBetween(s: int, total: int, f: int, lo: int, hi: int)
    requires s > 0 && s * lo <= total <= s * hi
    requires f * s <= total < (f + 1) * s
    ensures lo <= f <= hi
  {
    assert s * lo < s * (f + 1);
    MulCancel(s, lo, f + 1);
    MulCancelLe(s, f, hi);
  }

  lemma MulMono(k: int, a: int, b: int)
    requires k >= 0
    requires a <= b
    ensures k * a <= k * b
  {
  }

  /** From `s * a < s * b` with `s > 0` infer `a < b`. */
  lemma MulCancel(s: int, a: int, b: int)
    requires s > 0 && s * a < s * b
    ensures a < b
  {
    if a >= b {
      MulMono(s, b, a);
    }
  }

  /** From `a * s <= s * b` with `s > 0` infer `a <= b`. */
  lemma MulCancelLe(s: int, a: int, b: int)
    requires s > 0 && a * s <= s * b
    ensures a <= b
  {
    if a > b {
      MulStrict(s, b, a);
    }
  }

  lemma MulStrict(k: int, a: int, b: int)
    requires k > 0 && a < b
    ensures k * a < k * b
  {
    MulMono(k, a, b - 1);
    assert k * (b - 1) == k * b - k;
  }

  /** Adding at the load's own price keeps the price. */
  lemma AddAtSamePrice(load: MerchLoad, q: nat)
    requires load.quantity + q > 0
    ensures AddQuantity(load, q, load.price).price == load.price
  {
    AddPriceBetween(load, q, load.price);
  }

  /** `add(other)`: merge another load of the same merchandise. */
  function AddLoad(load: MerchLoad, other: MerchLoad): (r: Result<MerchLoad>)
    requires HasSameMerch(load, other) ==> load.quantity + other.quantity > 0
    ensures r.Ok? <==> load.merch.id == other.merch.id
    ensures r.Err? ==> r.error == NotSameMerch
    ensures r.Ok? ==> r.value == AddQuantity(load, other.quantity, other.price)
  {
    if !HasSameMerch(load, other) then Err(NotSameMerch)
    else Ok(AddQuantity(load, other.quantity, other.price))
  }

  /**
   `split(quantity)`: take `q` units out into a new load. The pair holds the
   receiver after the call and the piece taken out.
   */
  function Split(load: MerchLoad, q: nat): (r: Result<(MerchLoad, MerchLoad)>)
    ensures r.Ok? <==> q <= load.quantity
    ensures r.Err? ==> r.error == NotEnoughLoad
    // no merchandise is created or destroyed
    ensures r.Ok? ==> r.value.0.quantity + r.value.1.quantity == load.quantity
    ensures r.Ok? ==> r.value.1.quantity == q
    // both pieces keep the merchandise and the unit price
    ensures r.Ok? ==> r.value.0.merch == load.merch && r.value.1.merch == load.merch
    ensures r.Ok? ==> r.value.0.price == load.price && r.value.1.price == load.price
  {
    if q > load.quantity then Err(NotEnoughLoad)
    else Ok((load.(quantity := load.quantity - q), MerchLoad(load.merch, q, load.price)))
  }

  /** `split(other)`: split out as much as `other` holds, after the identity check. */
  function SplitLoad(load: MerchLoad, other: MerchLoad): (r: Result<(MerchLoad, MerchLoad)>)
    ensures r.Ok? <==> load.merch.id == other.merch.id && other.quantity <= load.quantity
    ensures r.Err? ==> r.error == (if load.merch.id != other.merch.id then NotSameMerch else NotEnoughLoad)
    ensures r.Ok? ==> r == Split(load, other.quantity)
  {
    if !HasSameMerch(load, other) then Err(NotSameMerch)
    else Split(load, other.quantity)
  }

  /** `substract(quantity)`: a split whose piece is thrown away. */
  function Substract(load: MerchLoad, q: nat): (r: Result<MerchLoad>)
    ensures r.Ok? <==> Split(load, q).Ok?
    ensures r.Ok? ==> r.value == Split(load, q).value.0
    ensures r.Err? ==> r.error == Split(load, q).error
  {
    var s :- Split(load, q);
    Ok(s.0)
  }

  /** `substract(other)`: a split by load whose piece is thrown away. */
  function SubstractLoad(load: MerchLoad, other: MerchLoad): (r: Result<MerchLoad>)
    ensures r.Ok? <==> SplitLoad(load, other).Ok?
    ensures r.Ok? ==> r.value == SplitLoad(load, other).value.0
    ensures r.Err? ==> r.error == SplitLoad(load, other).error
  {
    var s :- SplitLoad(load, other);
    Ok(s.0)
  }

  /**
   Splitting a non-empty load and adding the piece back gives back the very
   same load: quantity and price.
   */
  lemma SplitThenAddRestores(load: MerchLoad, q: nat)
    requires 0 < load.quantity && q <= load.quantity
    ensures Split(load, q).Ok?
    ensures AddLoad(Split(load, q).value.0, Split(load, q).value.1) == Ok(load)
  {
    var rest := Split(load, q).value.0;
    var piece := Split(load, q).value.1;
    var total := rest.quantity * rest.price + piece.quantity * piece.price;
    assert total == load.quantity * load.price by {
      assert rest.quantity * load.price + q * load.price == (rest.quantity + q) * load.price;
    }
    assert rest.quantity + piece.quantity == load.quantity;
    DivExact(load.price, load.quantity);
  }

  lemma DivExact(a: nat, b: nat)
    requires b > 0
    ensures (b * a) / b == a
  {
    var d := (b * a) / b;
    var m := (b * a) % b;
    assert b * a == b * d + m && 0 <= m < b;
    assert b * (a - d) == m;
    if a - d >= 1 {
      MulMono(b, 1, a - d);
    } else if a - d <= -1 {
      MulMono(b, a - d, -1);
    }
  }

  /** tests/test_merchandises.cpp: 10 at 100 plus 10 at 50, then 20 more at 75. */
  lemma AdditionScenario()
    ensures var lumber := Merch(1, "lumber", Box);
            var a := AddLoad(MerchLoad(lumber, 10, 100), MerchLoad(lumber, 10, 50));
            a == Ok(MerchLoad(lumber, 20, 75))
            && AddQuantity(a.value, 20, 75) == MerchLoad(lumber, 40, 75)
  {
  }

  /** tests/test_merchandises.cpp: different merchandise cannot be merged or subtracted. */
  lemma DifferentMerchScenario()
    ensures var lumber := MerchLoad(Merch(1, "lumber", Box), 10, 100);
            var fish := MerchLoad(Merch(2, "fish", Box), 10, 50);
            AddLoad(lumber, fish) == Err(NotSameMerch)
            && SubstractLoad(lumber, fish) == Err(NotSameMerch)
  {
  }
}
