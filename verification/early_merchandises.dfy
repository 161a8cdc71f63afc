/**
 The earlier merchandise algebra (src/merchandises.cpp). Loads hold their
 merchandise by value and count in `std::size_t`; `substract` has no bounds
 check, so taking more than a load holds wraps around modulo 2^64. The
 record shapes are those of `Merchandises`; the early `none` type is
 `MerchType.Null`.
 */
module EarlyMerchandises {
  import opened Outcomes
  import M = Merchandises

  /** `std::size_t` arithmetic is modulo 2^64. */
  const SizeMod: nat := 0x1_0000_0000_0000_0000

  /** `Merch()`: id 0, empty name, type `none`. */
  const DefaultMerch := M.Merch(0, "", M.Null)

  /** `MerchLoad()`: the default merchandise, no quantity, no price. */
  const DefaultLoad := M.MerchLoad(DefaultMerch, 0, 0)

  lemma DefaultLoadIsBlank()
    ensures DefaultLoad.merch.id == 0 && DefaultLoad.quantity == 0 && DefaultLoad.price == 0
  {
  }

  /** `Merch::operator==`. */
  predicate Equal(a: M.Merch, b: M.Merch) {
    a.id == b.id
  }

  /** `Merch::operator!=`, defined as the negation of `==`. */
  predicate NotEqual(a: M.Merch, b: M.Merch) {
    !Equal(a, b)
  }

  /** Both versions compare merchandise the same way. */
  lemma EqualityAgrees(a: M.Merch, b: M.Merch)
    ensures Equal(a, b) == M.Equal(a, b)
    ensures NotEqual(a, b) == M.NotEqual(a, b)
  {
  }

  /** `hasSameMerch`: the early version compares through the early `==`. */
  function HasSameMerch(load: M.MerchLoad, other: M.MerchLoad): (r: bool)
    ensures r <==> load.merch.id == other.merch.id
    ensures r == M.HasSameMerch(load, other)
  {
    Equal(load.merch, other.merch)
  }

  /** `add(quantity, price)`: the same weighted average as the later version. */
  function Add(load: M.MerchLoad, q: nat, p: nat): (r: M.MerchLoad)
    requires load.quantity + q > 0
    ensures r == M.AddQuantity(load, q, p)
  {
    load.(quantity := load.quantity + q,
          price := (load.quantity * load.price + q * p) / (load.quantity + q))
  }

  /** `add(other)`: refused across different merchandise. */
  function AddLoad(load: M.MerchLoad, other: M.MerchLoad): (r: Result<M.MerchLoad>)
    requires HasSameMerch(load, other) ==> load.quantity + other.quantity > 0
    ensures r == M.AddLoad(load, other)
  {
    if !HasSameMerch(load, other) then Err(NotSameMerch)
    else Ok(Add(load, other.quantity, other.price))
  }

  /** `substract(quantity)`: unchecked `size_t` subtraction. */
  function Substract(load: M.MerchLoad, q: nat): (r: M.MerchLoad)
    requires load.quantity < SizeMod && q < SizeMod
    ensures r.merch == load.merch && r.price == load.price && r.quantity < SizeMod
    ensures q <= load.quantity ==> r.quantity == load.quantity - q
    // taking too much leaves a huge quantity instead of failing
    ensures q > load.quantity ==> r.quantity == SizeMod - (q - load.quantity)
  {
    load.(quantity := (load.quantity - q) % SizeMod)
  }

  /** `substract(other)`: identity check, then the unchecked subtraction. */
  function SubstractLoad(load: M.MerchLoad, other: M.MerchLoad): (r: Result<M.MerchLoad>)
    requires load.quantity < SizeMod && other.quantity < SizeMod
    ensures r.Ok? <==> load.merch.id == other.merch.id
    ensures r.Err? ==> r.error == NotSameMerch
    ensures r.Ok? ==> r.value == Substract(load, other.quantity)
  {
    if !HasSameMerch(load, other) then Err(NotSameMerch)
    else Ok(Substract(load, other.quantity))
  }

  /** Where the early subtraction does not wrap, it is the later checked one. */
  lemma SubstractAgreesWhenEnough(load: M.MerchLoad, q: nat)
    requires load.quantity < SizeMod && q <= load.quantity
    ensures M.Substract(load, q) == Ok(Substract(load, q))
  {
  }

  /** Where it wraps, the later version refuses with `NotEnoughLoad`. */
  lemma SubstractWrapsWhereLaterRefuses(load: M.MerchLoad, q: nat)
    requires load.quantity < q < SizeMod
    ensures M.Substract(load, q) == Err(NotEnoughLoad)
    ensures Substract(load, q).quantity >= SizeMod - q
  {
  }
}
