/**
 The earlier cars (src/cars.cpp). A load car always holds a merchandise
 load by value and an explicit `empty` flag says whether it counts; `unLoad`
 returns nothing, `getMerchLoad` answers on an empty car, and `load` never
 checks that the source load holds what it gives.
 */
module EarlyCars {
  import opened Outcomes
  import M = Merchandises
  import E = EarlyMerchandises
  import C = Cars

  const MaxHealth: int := 100

  datatype Car =
    | NormalCar(id: nat, name: string, health: int, weight: int)
    | LoadCar(id: nat, name: string, health: int, weight: int,
              maxQuantity: nat, merchType: M.MerchType, empty: bool, load: M.MerchLoad)

  /** `isDestroyed`: no health left. */
  function IsDestroyed(c: Car): (r: bool)
    ensures r <==> c.health <= 0
  {
    c.health <= 0
  }

  /** `takeDammage`: ignored once destroyed, unclamped otherwise. */
  function TakeDammage(c: Car, attack: int): (r: Car)
    ensures IsDestroyed(c) ==> r == c
    ensures !IsDestroyed(c) ==> r.health == c.health - attack
    ensures r == c.(health := r.health)
  {
    if IsDestroyed(c) then c else c.(health := c.health - attack)
  }

  /** `repair`: back to full health, refused for a destroyed car. */
  function Repair(c: Car): (r: Result<Car>)
    ensures r.Ok? <==> c.health > 0
    ensures r.Err? ==> r.error == DestroyedCar
    ensures r.Ok? ==> r.value == c.(health := MaxHealth)
  {
    if IsDestroyed(c) then Err(DestroyedCar) else Ok(c.(health := MaxHealth))
  }

  /** `LoadCar()`: id 0, no name, full health, no weight, no room, type `none`. */
  const DefaultLoadCar := LoadCar(0, "", MaxHealth, 0, 0, M.Null, true, E.DefaultLoad)

  /** A default load car is live, empty, weightless and has no room at all. */
  lemma DefaultLoadCarHasNoRoom(src: M.MerchLoad)
    ensures Valid(DefaultLoadCar) && !IsDestroyed(DefaultLoadCar)
    ensures IsEmpty(DefaultLoadCar) == Ok(true) && IsFull(DefaultLoadCar) == Ok(false)
    ensures GetRemainingQuantity(DefaultLoadCar) == Ok(0) && GetWeight(DefaultLoadCar) == 0
    ensures src.quantity > 0 && src.quantity < E.SizeMod ==>
              Load(DefaultLoadCar, src, src.quantity).Err?
  {
  }

  /**
   The class invariant: the held load fits, an empty car holds 0 units, and
   the capacity is a `size_t`.
   */
  predicate Valid(c: Car) {
    && c.LoadCar?
    && c.maxQuantity < E.SizeMod
    && c.load.quantity <= c.maxQuantity
    && (c.empty ==> c.load.quantity == 0)
  }

  /** `setMerchLoad`: ignore a zero load, refuse one above capacity, else store it. */
  function SetMerchLoad(c: Car, load: M.MerchLoad): (r: Result<Car>)
    requires c.LoadCar?
    ensures r.Ok? <==> load.quantity <= c.maxQuantity
    ensures r.Err? ==> r.error == NotEnoughSpace
    // a zero-quantity load leaves the flag as it was
    ensures load.quantity == 0 ==> r == Ok(c)
    ensures r.Ok? && load.quantity > 0 ==> r.value == c.(load := load, empty := false)
    ensures r.Ok? && Valid(c) ==> Valid(r.value)
  {
    if load.quantity == 0 then Ok(c)
    else if load.quantity > c.maxQuantity then Err(NotEnoughSpace)
    else Ok(c.(load := load, empty := false))
  }

  /** The `LoadCar` constructors: start empty, then `setMerchLoad` the initial load if any. */
  function NewLoadCar(id: nat, name: string, health: int, weight: int, maxQuantity: nat,
                      merchType: M.MerchType, initial: Option<M.MerchLoad>): (r: Result<Car>)
    requires maxQuantity < E.SizeMod
    ensures r.Ok? <==> initial.None? || initial.value.quantity <= maxQuantity
    ensures r.Err? ==> r.error == NotEnoughSpace
    ensures r.Ok? ==> Valid(r.value) && r.value.id == id && r.value.health == health
                      && r.value.maxQuantity == maxQuantity && r.value.merchType == merchType
    ensures r.Ok? ==> r.value.name == name && r.value.weight == weight
    ensures r.Ok? ==> (r.value.empty <==> initial.None? || initial.value.quantity == 0)
    ensures r.Ok? && !r.value.empty ==> r.value.load == initial.value
    ensures r.Ok? && r.value.empty ==> r.value.load == E.DefaultLoad
  {
    var empty := LoadCar(id, name, health, weight, maxQuantity, merchType, true, E.DefaultLoad);
    if initial.None? then Ok(empty) else SetMerchLoad(empty, initial.value)
  }

  function GetMaxQuantity(c: Car): (r: Result<nat>)
    requires c.LoadCar?
    ensures r.Ok? <==> !IsDestroyed(c)
    ensures r.Err? ==> r.error == DestroyedCar
    ensures r.Ok? ==> r.value == c.maxQuantity
  {
    if IsDestroyed(c) then Err(DestroyedCar) else Ok(c.maxQuantity)
  }

  function GetMerchType(c: Car): (r: Result<M.MerchType>)
    requires c.LoadCar?
    ensures r.Ok? <==> !IsDestroyed(c)
    ensures r.Err? ==> r.error == DestroyedCar
    ensures r.Ok? ==> r.value == c.merchType
  {
    if IsDestroyed(c) then Err(DestroyedCar) else Ok(c.merchType)
  }

  /** `getWeight`: base weight, plus the load when live and not empty. */
  function GetWeight(c: Car): (r: int)
    ensures c.NormalCar? ==> r == c.weight
    ensures c.LoadCar? ==> r == c.weight + (if IsDestroyed(c) || c.empty then 0 else c.load.quantity)
  {
    match c
    case NormalCar(_, _, _, w) => w
    case LoadCar(_, _, _, w, _, _, empty, load) =>
      if IsDestroyed(c) then w
      else if empty then w
      else w + load.quantity
  }

  function GetRemainingQuantity(c: Car): (r: Result<nat>)
    requires Valid(c)
    ensures r.Ok? <==> !IsDestroyed(c)
    ensures r.Err? ==> r.error == DestroyedCar
    ensures r.Ok? ==> r.value + c.load.quantity == c.maxQuantity
  {
    if IsDestroyed(c) then Err(DestroyedCar)
    else if c.empty then Ok(c.maxQuantity)
    else Ok(c.maxQuantity - c.load.quantity)
  }

  /** `getMerchLoad`: unlike the later version, an empty car answers too. */
  function GetMerchLoad(c: Car): (r: Result<M.MerchLoad>)
    requires c.LoadCar?
    ensures r.Ok? <==> !IsDestroyed(c)
    ensures r.Err? ==> r.error == DestroyedCar
    ensures r.Ok? ==> r.value == c.load
  {
    if IsDestroyed(c) then Err(DestroyedCar) else Ok(c.load)
  }

  function IsEmpty(c: Car): (r: Result<bool>)
    requires c.LoadCar?
    ensures r.Ok? <==> !IsDestroyed(c)
    ensures r.Err? ==> r.error == DestroyedCar
    ensures r.Ok? ==> r.value == c.empty
  {
    if IsDestroyed(c) then Err(DestroyedCar) else Ok(c.empty)
  }

  function IsFull(c: Car): (r: Result<bool>)
    requires Valid(c)
    ensures r.Ok? <==> !IsDestroyed(c)
    ensures r.Err? ==> r.error == DestroyedCar
    ensures r.Ok? ==> (r.value <==> !c.empty && c.load.quantity == c.maxQuantity)
  {
    if IsDestroyed(c) then Err(DestroyedCar)
    else if c.empty then Ok(false)
    else Ok(GetRemainingQuantity(c).value <= 0)
  }

  /** `canLoad`: the later decision order, driven by the `empty` flag. */
  function CanLoad(c: Car, src: M.MerchLoad): (r: bool)
    requires Valid(c)
    ensures r <==> !IsDestroyed(c) && src.merch.mtype == c.merchType
                   && (c.empty || (c.load.quantity < c.maxQuantity && c.load.merch.id == src.merch.id))
  {
    if IsDestroyed(c) then false
    else if src.merch.mtype != c.merchType then false
    else if c.empty then true
    else if IsFull(c).value then false
    else E.Equal(c.load.merch, src.merch)
  }

  /** Loading `q` units would average into a non-empty car holding 0 units: a zero divisor. */
  predicate AddsToZeroLoad(c: Car, src: M.MerchLoad, q: nat)
    requires Valid(c)
  {
    q == 0 && !c.empty && c.load.quantity == 0 && CanLoad(c, src)
  }

  /**
   `load(src, quantity)`: checks destroyed, `canLoad` and space, then takes
   `q` from `src` without checking it holds them, then starts the load at
   the price of `src` or averages into it.
   */
  function Load(c: Car, src: M.MerchLoad, q: nat): (r: Result<(Car, M.MerchLoad)>)
    requires Valid(c)
    requires src.quantity < E.SizeMod && q < E.SizeMod
    requires !AddsToZeroLoad(c, src, q)
    ensures r.Ok? <==> CanLoad(c, src) && q + c.load.quantity <= c.maxQuantity
    ensures r.Err? ==> r.error == (if IsDestroyed(c) then DestroyedCar
                                   else if !CanLoad(c, src) then CannotLoad
                                   else NotEnoughSpace)
    ensures r.Ok? ==> Valid(r.value.0) && !r.value.0.empty
    ensures r.Ok? ==> r.value.0 == c.(load := r.value.0.load, empty := r.value.0.empty)
    ensures r.Ok? ==> r.value.0.load.quantity == c.load.quantity + q
    ensures r.Ok? ==> r.value.1 == E.Substract(src, q)
    ensures r.Ok? && c.empty ==> r.value.0.load == M.MerchLoad(src.merch, q, src.price)
    ensures r.Ok? && !c.empty ==> r.value.0.load == M.AddQuantity(c.load, q, src.price)
  {
    if IsDestroyed(c) then Err(DestroyedCar)
    else if !CanLoad(c, src) then Err(CannotLoad)
    else if GetRemainingQuantity(c).value < q then Err(NotEnoughSpace)
    else
      var rest := E.Substract(src, q);
      if c.empty then
        Ok((c.(load := M.MerchLoad(rest.merch, q, rest.price), empty := false), rest))
      else
        Ok((c.(load := E.Add(c.load, q, rest.price)), rest))
  }

  /** `load(src)`: load everything `src` holds. */
  function LoadAll(c: Car, src: M.MerchLoad): (r: Result<(Car, M.MerchLoad)>)
    requires Valid(c) && src.quantity < E.SizeMod
    requires !AddsToZeroLoad(c, src, src.quantity)
    ensures r.Ok? <==> CanLoad(c, src) && src.quantity + c.load.quantity <= c.maxQuantity
    ensures r.Err? ==> r.error == (if IsDestroyed(c) then DestroyedCar
                                   else if !CanLoad(c, src) then CannotLoad
                                   else NotEnoughSpace)
    ensures r.Ok? ==> Valid(r.value.0) && r.value.1.quantity == 0
                      && r.value.0.load.quantity == c.load.quantity + src.quantity
    ensures r.Ok? && c.empty ==> r.value.0.load == src
    ensures r.Ok? && !c.empty ==> r.value.0.load == M.AddQuantity(c.load, src.quantity, src.price)
    ensures r == Load(c, src, src.quantity)
  {
    Load(c, src, src.quantity)
  }

  /**
   `unLoad(quantity)`: refuse more than the load holds, subtract, and mark
   the car empty once nothing is left. Nothing is handed back.
   */
  function UnLoad(c: Car, q: nat): (r: Result<Car>)
    requires Valid(c)
    ensures r.Ok? <==> !IsDestroyed(c) && q <= c.load.quantity
    ensures r.Err? ==> r.error == (if IsDestroyed(c) then DestroyedCar else NotEnoughInCar)
    ensures r.Ok? ==> Valid(r.value) && r.value.load.quantity + q == c.load.quantity
    ensures r.Ok? ==> r.value == c.(load := r.value.load, empty := r.value.empty)
    ensures r.Ok? ==> (r.value.empty <==> c.empty || q == c.load.quantity)
    ensures r.Ok? ==> r.value.load.merch == c.load.merch && r.value.load.price == c.load.price
  {
    if IsDestroyed(c) then Err(DestroyedCar)
    else if q > c.load.quantity then Err(NotEnoughInCar)
    else
      var load := E.Substract(c.load, q);
      Ok(c.(load := load, empty := c.empty || load.quantity == 0))
  }

  // ------------------------------------------------- agreement with Cars

  /** An early load car and a later one in the same observable state. */
  predicate Corresponds(e: Car, c: C.Car) {
    && Valid(e) && c.LoadCar?
    && e.id == c.id && e.name == c.name && e.health == c.health && e.weight == c.weight
    && e.maxQuantity == c.maxQuantity && e.merchType == c.merchType
    && (e.empty <==> c.slot.None?)
    && (!e.empty ==> c.slot.value == e.load)
  }

  lemma CorrespondingCarsAgreeOnState(e: Car, c: C.Car)
    requires Corresponds(e, c)
    ensures C.Valid(c)
    ensures C.Held(c) == e.load.quantity
    ensures C.GetWeight(c) == GetWeight(e)
    ensures C.GetRemainingQuantity(c) == GetRemainingQuantity(e)
    ensures C.IsEmpty(c) == IsEmpty(e) && C.IsFull(c) == IsFull(e)
  {
  }

  /** Health rules are the same in both versions. */
  lemma HealthAgrees(e: Car, c: C.Car, attack: int)
    requires Corresponds(e, c)
    ensures Corresponds(TakeDammage(e, attack), C.TakeDammage(c, attack))
    ensures Repair(e).Ok? == C.Repair(c).Ok?
    ensures Repair(e).Ok? ==> Corresponds(Repair(e).value, C.Repair(c).value)
  {
  }

  /** Both versions decide `canLoad` alike. */
  lemma CanLoadAgrees(e: Car, c: C.Car, src: M.MerchLoad)
    requires Corresponds(e, c)
    ensures CanLoad(e, src) == C.CanLoad(c, src)
  {
  }

  /**
   When `src` holds what is asked, both versions load alike: same error or
   corresponding cars and the same remainder of `src`.
   */
  lemma LoadAgreesWhenSourceSuffices(e: Car, c: C.Car, src: M.MerchLoad, q: nat)
    requires Corresponds(e, c)
    requires q <= src.quantity < E.SizeMod
    requires !AddsToZeroLoad(e, src, q)
    ensures C.Valid(c) && !C.AddsToZeroSlot(c, src, q)
    ensures Load(e, src, q).Ok? == C.Load(c, src, q).Ok?
    ensures Load(e, src, q).Err? ==> Load(e, src, q).error == C.Load(c, src, q).error
    ensures Load(e, src, q).Ok? ==>
              Corresponds(Load(e, src, q).value.0, C.Load(c, src, q).value.0)
              && Load(e, src, q).value.1 == C.Load(c, src, q).value.1
  {
  }

  /**
   Both versions unload alike wherever the later one is defined; an empty
   car unloading 0 units is fine here and stays empty.
   */
  lemma UnLoadAgrees(e: Car, c: C.Car, q: nat)
    requires Corresponds(e, c)
    ensures C.Valid(c)
    ensures !C.UnLoadsFromNothing(c, q) ==>
              UnLoad(e, q).Ok? == C.UnLoad(c, q).Ok?
              && (UnLoad(e, q).Err? ==> UnLoad(e, q).error == C.UnLoad(c, q).error)
              && (UnLoad(e, q).Ok? ==> Corresponds(UnLoad(e, q).value, C.UnLoad(c, q).value.0))
    ensures C.UnLoadsFromNothing(c, q) ==> UnLoad(e, q) == Ok(e)
  {
  }

  /**
   Loading more than `src` holds goes through: `src` wraps to a quantity
   near 2^64 while the car still receives the full amount.
   */
  lemma LoadWrapsSource()
    ensures var cargo := LoadCar(1, "cargo", MaxHealth, 100, 25, M.Box, true, E.DefaultLoad);
            var src := M.MerchLoad(C.Lumber, 5, 100);
            var r := Load(cargo, src, 10);
            r.Ok? && r.value.0.load.quantity == 10
            && r.value.1.quantity == E.SizeMod - 5
  {
  }

  /** The later version refuses that same call and keeps the books balanced. */
  lemma LaterLoadRefusesShortSource()
    ensures var cargo := C.NewLoadCar(1, "cargo", C.MaxHealth, 100, 25, M.Box, None).value;
            C.Load(cargo, M.MerchLoad(C.Lumber, 5, 100), 10) == Err(NotEnoughLoad)
  {
  }
}
