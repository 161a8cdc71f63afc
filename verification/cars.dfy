/**
 Rolling stock (src/gameplay/train/cars.cpp): health and damage for every
 car, and the single-slot capacity protocol of load cars. A load car accepts
 one merchandise type, holds at most one merchandise load and never more
 than `maxQuantity` units; a destroyed car (health <= 0) answers no capacity
 question.
 */
module Cars {
  import opened Outcomes
  import opened Merchandises

  /** `Car::maxHealth`. */
  const MaxHealth: int := 100

  /**
   The car kinds of the source. `SpecialCar` declares no weight of its own;
   the slot of a `LoadCar` is the shared pointer of the source, `None` when null.
   */
  datatype Car =
    | NormalCar(id: nat, name: string, health: int, weight: int)
    | SpecialCar(id: nat, name: string, health: int, weight: int)
    | LoadCar(id: nat, name: string, health: int, weight: int,
              maxQuantity: nat, merchType: MerchType, slot: Option<MerchLoad>)

  /** `isDestroyed`: no health left. */
  function IsDestroyed(c: Car): (r: bool)
    ensures r <==> c.health <= 0
  {
    c.health <= 0
  }

  /** `takeDammage`: no clamping, and nothing happens to a destroyed car. */
  function TakeDammage(c: Car, attack: int): (r: Car)
    ensures IsDestroyed(c) ==> r == c
    ensures !IsDestroyed(c) ==> r.health == c.health - attack
    ensures r == c.(health := r.health)
    ensures !IsDestroyed(c) ==> (IsDestroyed(r) <==> attack >= c.health)
  {
    if IsDestroyed(c) then c else c.(health := c.health - attack)
  }

  /** `repair`: back to full health, refused for a destroyed car. */
  function Repair(c: Car): (r: Result<Car>)
    ensures r.Ok? <==> c.health > 0
    ensures r.Err? ==> r.error == DestroyedCar
    ensures r.Ok? ==> r.value == c.(health := MaxHealth) && !IsDestroyed(r.value)
  {
    if IsDestroyed(c) then Err(DestroyedCar) else Ok(c.(health := MaxHealth))
  }

  /** Once destroyed, a car stays destroyed and further damage is ignored. */
  lemma DestroyedIsAbsorbing(c: Car, attack: int)
    requires IsDestroyed(c)
    ensures TakeDammage(c, attack) == c
    ensures Repair(c) == Err(DestroyedCar)
  {
  }

  /** tests/gameplay/train/test_cars.cpp testDammage and testRepair. */
  lemma HealthScenario()
    ensures var c := NormalCar(1, "cargo", MaxHealth, 100);
            var c1 := TakeDammage(c, 60);
            var c2 := TakeDammage(c1, 60);
            c1.health == 40 && !IsDestroyed(c1) && c2.health == -20 && IsDestroyed(c2)
            && TakeDammage(c2, 100) == c2
    ensures var d := NormalCar(1, "cargo", 10, 100);
            Repair(d) == Ok(NormalCar(1, "cargo", MaxHealth, 100))
            && Repair(TakeDammage(Repair(d).value, 200)) == Err(DestroyedCar)
  {
  }

  // ---------------------------------------------------------------- load cars

  /** The class invariant of a load car: the slot never exceeds capacity. */
  predicate Valid(c: Car) {
    c.LoadCar? && (c.slot.Some? ==> c.slot.value.quantity <= c.maxQuantity)
  }

  /** Units in the slot, 0 when there is none. */
  function Held(c: Car): (n: nat)
    requires c.LoadCar?
  {
    if c.slot.None? then 0 else c.slot.value.quantity
  }

  /**
   `setMerchLoad`: a zero-quantity load is ignored, one above capacity is
   refused, anything else becomes the slot.
   */
  function SetMerchLoad(c: Car, load: MerchLoad): (r: Result<Car>)
    requires c.LoadCar?
    ensures r.Ok? <==> load.quantity <= c.maxQuantity
    ensures r.Err? ==> r.error == NotEnoughSpace
    ensures load.quantity == 0 ==> r == Ok(c)
    ensures r.Ok? && load.quantity > 0 ==> r.value == c.(slot := Some(load))
    ensures r.Ok? && Valid(c) ==> Valid(r.value)
  {
    if load.quantity == 0 then Ok(c)
    else if load.quantity > c.maxQuantity then Err(NotEnoughSpace)
    else Ok(c.(slot := Some(load)))
  }

  /**
   The `LoadCar` constructors: an empty car, then `setMerchLoad` with the
   initial load when one is given. The overloads without a health pass
   `MaxHealth`.
   */
  function NewLoadCar(id: nat, name: string, health: int, weight: int, maxQuantity: nat,
                      merchType: MerchType, initial: Option<MerchLoad>): (r: Result<Car>)
    ensures r.Ok? <==> initial.None? || initial.value.quantity <= maxQuantity
    ensures r.Err? ==> r.error == NotEnoughSpace
    ensures r.Ok? ==> Valid(r.value)
    ensures r.Ok? ==> r.value.id == id && r.value.name == name && r.value.health == health
                      && r.value.weight == weight && r.value.maxQuantity == maxQuantity
                      && r.value.merchType == merchType
    ensures r.Ok? ==> Held(r.value) == (if initial.None? then 0 else initial.value.quantity)
    // a zero-quantity initial load leaves the car empty; any other becomes the slot
    ensures r.Ok? ==> (r.value.slot.None? <==> initial.None? || initial.value.quantity == 0)
    ensures r.Ok? && initial.Some? && initial.value.quantity > 0 ==> r.value.slot == Some(initial.value)
  {
    var empty := LoadCar(id, name, health, weight, maxQuantity, merchType, None);
    if initial.None? then Ok(empty) else SetMerchLoad(empty, initial.value)
  }

  function GetMaxQuantity(c: Car): (r: Result<nat>)
    requires c.LoadCar?
    ensures r.Ok? <==> !IsDestroyed(c)
    ensures r.Err? ==> r.error == DestroyedCar
    ensures r.Ok? ==> r.value == c.maxQuantity
  {
    if IsDestroyed(c) then Err(DestroyedCar) else Ok(c.maxQuantity)
  }

  function GetMerchType(c: Car): (r: Result<MerchType>)
    requires c.LoadCar?
    ensures r.Ok? <==> !IsDestroyed(c)
    ensures r.Err? ==> r.error == DestroyedCar
    ensures r.Ok? ==> r.value == c.merchType
  {
    if IsDestroyed(c) then Err(DestroyedCar) else Ok(c.merchType)
  }

  /** `isEmpty`: no slot. A zero-quantity slot counts as not empty. */
  function IsEmpty(c: Car): (r: Result<bool>)
    requires c.LoadCar?
    ensures r.Ok? <==> !IsDestroyed(c)
    ensures r.Err? ==> r.error == DestroyedCar
    ensures r.Ok? ==> (r.value <==> c.slot.None?)
  {
    if IsDestroyed(c) then Err(DestroyedCar) else Ok(c.slot.None?)
  }

  function GetQuantity(c: Car): (r: Result<nat>)
    requires c.LoadCar?
    ensures r.Ok? <==> !IsDestroyed(c)
    ensures r.Err? ==> r.error == DestroyedCar
    ensures r.Ok? && c.slot.None? ==> r.value == 0
    ensures r.Ok? && c.slot.Some? ==> r.value == c.slot.value.quantity
  {
    if IsDestroyed(c) then Err(DestroyedCar)
    else if c.slot.None? then Ok(0)
    else Ok(c.slot.value.quantity)
  }

  function GetRemainingQuantity(c: Car): (r: Result<nat>)
    requires Valid(c)
    ensures r.Ok? <==> !IsDestroyed(c)
    ensures r.Err? ==> r.error == DestroyedCar
    ensures r.Ok? ==> r.value + Held(c) == c.maxQuantity
  {
    if IsDestroyed(c) then Err(DestroyedCar)
    else if c.slot.None? then Ok(c.maxQuantity)
    else Ok(c.maxQuantity - c.slot.value.quantity)
  }

  /** `getMerchLoad`: the slot, refused on a destroyed and on an empty car. */
  function GetMerchLoad(c: Car): (r: Result<MerchLoad>)
    requires c.LoadCar?
    ensures r.Ok? <==> !IsDestroyed(c) && c.slot.Some?
    ensures r.Err? ==> r.error == (if IsDestroyed(c) then DestroyedCar else EmptyCar)
    ensures r.Ok? ==> Some(r.value) == c.slot
  {
    if IsDestroyed(c) then Err(DestroyedCar)
    else if c.slot.None? then Err(EmptyCar)
    else Ok(c.slot.value)
  }

  /** `isFull`: not empty and no room left (an unsigned `<= 0`). */
  function IsFull(c: Car): (r: Result<bool>)
    requires Valid(c)
    ensures r.Ok? <==> !IsDestroyed(c)
    ensures r.Err? ==> r.error == DestroyedCar
    ensures r.Ok? ==> (r.value <==> c.slot.Some? && c.slot.value.quantity == c.maxQuantity)
  {
    if IsDestroyed(c) then Err(DestroyedCar)
    else if c.slot.None? then Ok(false)
    else Ok(c.maxQuantity - c.slot.value.quantity <= 0)
  }

  /**
   `getWeight`: one unit of weight per unit of merchandise on top of the base
   weight, except on a destroyed car. A special car has no weight.
   */
  function GetWeight(c: Car): (r: int)
    requires !c.SpecialCar?
    ensures c.NormalCar? ==> r == c.weight
    ensures c.LoadCar? ==> r == c.weight + (if IsDestroyed(c) then 0 else Held(c))
  {
    match c
    case NormalCar(_, _, _, w) => w
    case LoadCar(_, _, _, w, _, _, slot) =>
      if IsDestroyed(c) then w
      else if slot.None? then w
      else w + slot.value.quantity
  }

  /**
   `canLoad`, in the source's order: destroyed, wrong type, empty, full, and
   last whether the car already holds the same merchandise.
   */
  function CanLoad(c: Car, src: MerchLoad): (r: bool)
    requires Valid(c)
    ensures r <==> !IsDestroyed(c) && src.merch.mtype == c.merchType
                   && (c.slot.None?
                       || (c.slot.value.quantity < c.maxQuantity && c.slot.value.merch.id == src.merch.id))
  {
    if IsDestroyed(c) then false
    else if src.merch.mtype != GetMerchType(c).value then false
    else if IsEmpty(c).value then true
    else if IsFull(c).value then false
    else Equal(c.slot.value.merch, src.merch)
  }

  /** A full car refuses everything; an empty one takes any load of its type. */
  lemma FullRefusesEmptyAccepts(c: Car, src: MerchLoad)
    requires Valid(c) && !IsDestroyed(c)
    ensures IsFull(c) == Ok(true) ==> !CanLoad(c, src)
    ensures IsEmpty(c) == Ok(true) ==> (CanLoad(c, src) <==> src.merch.mtype == c.merchType)
    ensures CanLoad(c, src) && c.slot.Some? ==> HasSameMerch(c.slot.value, src)
  {
  }

  /**
   Loading `q` units would merge into a slot that holds 0 units: the source
   then averages the price with divisor 0.
   */
  predicate AddsToZeroSlot(c: Car, src: MerchLoad, q: nat)
    requires Valid(c)
  {
    q == 0 && c.slot.Some? && c.slot.value.quantity == 0 && CanLoad(c, src)
  }

  /**
   `load(src, quantity)`: every check comes before any change. On success the
   pair holds the car and what is left of `src`.
   */
  function Load(c: Car, src: MerchLoad, q: nat): (r: Result<(Car, MerchLoad)>)
    requires Valid(c)
    requires !AddsToZeroSlot(c, src, q)
    ensures r.Ok? <==> CanLoad(c, src) && q <= c.maxQuantity - Held(c) && q <= src.quantity
    ensures r.Err? ==> r.error == (if IsDestroyed(c) then DestroyedCar
                                   else if !CanLoad(c, src) then CannotLoad
                                   else if q > c.maxQuantity - Held(c) then NotEnoughSpace
                                   else NotEnoughLoad)
    ensures r.Ok? ==> Valid(r.value.0) && r.value.0 == c.(slot := r.value.0.slot)
    ensures r.Ok? ==> Held(r.value.0) == Held(c) + q && r.value.0.slot.Some?
    ensures r.Ok? ==> r.value.1 == src.(quantity := src.quantity - q)
    ensures r.Ok? && c.slot.None? ==> r.value.0.slot == Some(MerchLoad(src.merch, q, src.price))
    ensures r.Ok? && c.slot.Some? ==>
              r.value.0.slot.value.merch == c.slot.value.merch
              && r.value.0.slot.value.price == AddQuantity(c.slot.value, q, src.price).price
  {
    if IsDestroyed(c) then Err(DestroyedCar)
    else if !CanLoad(c, src) then Err(CannotLoad)
    else if GetRemainingQuantity(c).value < q then Err(NotEnoughSpace)
    else
      var s :- Split(src, q);
      var rest := s.0;
      var piece := s.1;
      if IsEmpty(c).value then Ok((c.(slot := Some(piece)), rest))
      else
        var merged := AddLoad(c.slot.value, piece).value;
        Ok((c.(slot := Some(merged)), rest))
  }

  /** `load(src)`: load everything `src` holds. */
  function LoadAll(c: Car, src: MerchLoad): (r: Result<(Car, MerchLoad)>)
    requires Valid(c)
    requires !AddsToZeroSlot(c, src, src.quantity)
    ensures r.Ok? <==> CanLoad(c, src) && src.quantity <= c.maxQuantity - Held(c)
    ensures r.Err? ==> r.error == (if IsDestroyed(c) then DestroyedCar
                                   else if !CanLoad(c, src) then CannotLoad
                                   else NotEnoughSpace)
    ensures r.Ok? ==> Valid(r.value.0) && r.value.1.quantity == 0
                      && Held(r.value.0) == Held(c) + src.quantity
    // the whole of `src` moves: into an empty car as it is, else merged at its price
    ensures r.Ok? && c.slot.None? ==> r.value.0.slot == Some(src)
    ensures r.Ok? && c.slot.Some? ==>
              r.value.0.slot == Some(AddQuantity(c.slot.value, src.quantity, src.price))
    ensures r == Load(c, src, src.quantity)
  {
    Load(c, src, src.quantity)
  }

  /** Loading moves merchandise; it neither creates nor destroys any. */
  lemma LoadConserves(c: Car, src: MerchLoad, q: nat)
    requires Valid(c) && !AddsToZeroSlot(c, src, q)
    requires Load(c, src, q).Ok?
    ensures Held(Load(c, src, q).value.0) + Load(c, src, q).value.1.quantity == Held(c) + src.quantity
  {
  }

  /**
   `unLoad(quantity)` on an empty live car with quantity 0 passes both checks
   and splits through a null pointer in the source.
   */
  predicate UnLoadsFromNothing(c: Car, q: nat)
    requires c.LoadCar?
  {
    !IsDestroyed(c) && c.slot.None? && q == 0
  }

  /**
   `unLoad(quantity)`: split `q` units out of the slot and hand them back;
   the slot is dropped when nothing is left in it.
   */
  function UnLoad(c: Car, q: nat): (r: Result<(Car, MerchLoad)>)
    requires Valid(c)
    requires !UnLoadsFromNothing(c, q)
    ensures r.Ok? <==> !IsDestroyed(c) && q <= Held(c)
    ensures r.Err? ==> r.error == (if IsDestroyed(c) then DestroyedCar else NotEnoughInCar)
    ensures r.Ok? ==> Valid(r.value.0) && r.value.0 == c.(slot := r.value.0.slot)
    ensures r.Ok? ==> Held(r.value.0) + q == Held(c)
    ensures r.Ok? ==> (r.value.0.slot.None? <==> q == Held(c))
    ensures r.Ok? ==> c.slot.Some? && r.value.1 == MerchLoad(c.slot.value.merch, q, c.slot.value.price)
    ensures r.Ok? && r.value.0.slot.Some? ==>
              r.value.0.slot.value.merch == c.slot.value.merch
              && r.value.0.slot.value.price == c.slot.value.price
  {
    if IsDestroyed(c) then Err(DestroyedCar)
    else if q > GetQuantity(c).value then Err(NotEnoughInCar)
    else
      var s := Split(c.slot.value, q).value;
      var car := if s.0.quantity == 0 then c.(slot := None) else c.(slot := Some(s.0));
      Ok((car, s.1))
  }

  /**
   Unloading what was just loaded gives back the remaining capacity and the
   weight; a car that was empty comes back exactly as it was.
   */
  lemma LoadThenUnLoadRestores(c: Car, src: MerchLoad, q: nat)
    requires Valid(c) && !AddsToZeroSlot(c, src, q)
    requires Load(c, src, q).Ok?
    ensures var car := Load(c, src, q).value.0;
            !UnLoadsFromNothing(car, q)
            && UnLoad(car, q).Ok?
            && GetRemainingQuantity(UnLoad(car, q).value.0) == GetRemainingQuantity(c)
            && GetWeight(UnLoad(car, q).value.0) == GetWeight(c)
            && UnLoad(car, q).value.1.quantity == q
            && UnLoad(car, q).value.1.merch.id == src.merch.id
            && (c.slot.None? ==> UnLoad(car, q).value.0 == c)
  {
    var car := Load(c, src, q).value.0;
    assert car.slot.Some?;
    var back := UnLoad(car, q).value.0;
    assert Held(back) == Held(c);
    if c.slot.None? {
      assert back.slot.None?;
    }
  }

  /** A destroyed car answers no capacity question and refuses every load. */
  lemma DestroyedCarAnswersNothing(c: Car, src: MerchLoad, q: nat)
    requires Valid(c) && IsDestroyed(c)
    ensures GetMaxQuantity(c) == Err(DestroyedCar) && GetQuantity(c) == Err(DestroyedCar)
    ensures GetRemainingQuantity(c) == Err(DestroyedCar) && GetMerchType(c) == Err(DestroyedCar)
    ensures GetMerchLoad(c) == Err(DestroyedCar)
    ensures IsEmpty(c) == Err(DestroyedCar) && IsFull(c) == Err(DestroyedCar)
    ensures !CanLoad(c, src) && GetWeight(c) == c.weight
    ensures Load(c, src, q) == Err(DestroyedCar) && UnLoad(c, q) == Err(DestroyedCar)
  {
  }

  /** The template of `LoadCarModel`: everything but health and content. */
  datatype LoadCarModel = LoadCarModel(id: nat, name: string, weight: int,
                                       maxQuantity: nat, merchType: MerchType)

  /**
   `LoadCarModel::operator()`: a fresh load car with the template's fields;
   `health` defaults to `MaxHealth` and `initial` to no load.
   */
  function Manufacture(m: LoadCarModel, health: Option<int>, initial: Option<MerchLoad>): (r: Result<Car>)
    ensures r.Ok? <==> initial.None? || initial.value.quantity <= m.maxQuantity
    ensures r.Err? ==> r.error == NotEnoughSpace
    ensures r.Ok? ==> Valid(r.value) && r.value.id == m.id && r.value.name == m.name
                      && r.value.weight == m.weight && r.value.maxQuantity == m.maxQuantity
                      && r.value.merchType == m.merchType
    ensures r.Ok? ==> r.value.health == (if health.Some? then health.value else MaxHealth)
    ensures r.Ok? ==> (r.value.slot.None? <==> initial.None? || initial.value.quantity == 0)
    ensures r.Ok? && initial.Some? && initial.value.quantity > 0 ==> r.value.slot == Some(initial.value)
  {
    NewLoadCar(m.id, m.name, if health.Some? then health.value else MaxHealth,
               m.weight, m.maxQuantity, m.merchType, initial)
  }

  // ------------------------------------------------------------ test scenarios

  const Lumber := Merch(100, "lumber", Box)
  const Fish := Merch(101, "fish", Box)
  const Oil := Merch(102, "oil", Toxic)

  /** test_cars.cpp testLoad: capacity 25, base weight 100, 10 units at a time. */
  lemma LoadScenario()
    ensures var cargo := NewLoadCar(1, "cargo", MaxHealth, 100, 25, Box, None).value;
            var city := MerchLoad(Lumber, 50, 100);
            var first := Load(cargo, city, 10).value;
            var second := Load(first.0, first.1, 10).value;
            Load(cargo, MerchLoad(Oil, 50, 100), 10) == Err(CannotLoad)
            && GetQuantity(first.0) == Ok(10) && GetRemainingQuantity(first.0) == Ok(15)
            && GetWeight(first.0) == 110 && first.1.quantity == 40
            && GetQuantity(second.0) == Ok(20) && GetRemainingQuantity(second.0) == Ok(5)
            && GetWeight(second.0) == 120 && second.1.quantity == 30
            && Load(second.0, second.1, 10) == Err(NotEnoughSpace)
            // `-10` as an unsigned 32-bit quantity
            && Load(second.0, second.1, 0x1_0000_0000 - 10) == Err(NotEnoughSpace)
  {
  }

  /** test_cars.cpp testUnLoad: a full car of 25 units unloaded 10 at a time. */
  lemma UnLoadScenario()
    ensures var cargo := NewLoadCar(1, "cargo", MaxHealth, 100, 25, Box,
                                    Some(MerchLoad(Lumber, 25, 40))).value;
            var city := MerchLoad(Lumber, 50, 100);
            var first := UnLoad(cargo, 10).value;
            var second := UnLoad(first.0, 10).value;
            IsFull(cargo) == Ok(true) && !CanLoad(cargo, city) && GetWeight(cargo) == 125
            && IsFull(first.0) == Ok(false) && CanLoad(first.0, city)
            && GetRemainingQuantity(first.0) == Ok(10) && GetWeight(first.0) == 115
            && first.1.quantity == 10
            && GetRemainingQuantity(second.0) == Ok(20) && GetWeight(second.0) == 105
            && second.1.quantity == 10
            && UnLoad(second.0, 10) == Err(NotEnoughInCar)
            && UnLoad(second.0, 0x1_0000_0000 - 10) == Err(NotEnoughInCar)
  {
  }

  /** test_cars.cpp testCanLoad. */
  lemma CanLoadScenario()
    ensures var empty := NewLoadCar(1, "cargo", MaxHealth, 100, 25, Box, None).value;
            var partial := NewLoadCar(2, "cargo", MaxHealth, 100, 25, Box, Some(MerchLoad(Lumber, 10, 40))).value;
            var full := NewLoadCar(3, "cargo", MaxHealth, 100, 10, Box, Some(MerchLoad(Lumber, 10, 40))).value;
            var destroyed := NewLoadCar(4, "cargo", 0, 100, 25, Box, None).value;
            var lumber := MerchLoad(Lumber, 50, 100);
            var fish := MerchLoad(Fish, 30, 10);
            var oil := MerchLoad(Oil, 60, 50);
            CanLoad(empty, lumber) && CanLoad(empty, fish) && !CanLoad(empty, oil)
            && CanLoad(partial, lumber) && !CanLoad(partial, fish) && !CanLoad(partial, oil)
            && !CanLoad(full, lumber) && !CanLoad(full, fish) && !CanLoad(full, oil)
            && !CanLoad(destroyed, lumber) && !CanLoad(destroyed, fish) && !CanLoad(destroyed, oil)
  {
  }

  /** test_cars.cpp testGetters: an initial load above capacity is refused. */
  lemma ConstructorScenario()
    ensures NewLoadCar(3, "cargo", MaxHealth, 150, 10, Box, Some(MerchLoad(Lumber, 100, 100)))
            == Err(NotEnoughSpace)
    ensures var c := NewLoadCar(1, "dummy", 50, 100, 50, Box, Some(MerchLoad(Lumber, 10, 100))).value;
            GetWeight(c) == 110 && GetRemainingQuantity(c) == Ok(40)
            && IsEmpty(c) == Ok(false) && IsFull(c) == Ok(false)
  {
  }

  // ------------------------------------------------------------------ findings

  /**
   Loading 0 units into an empty car stores a slot of 0 units, so the car is
   no longer empty; loading 0 units again then merges into that slot and the
   source divides by 0 when it averages the price.
   */
  lemma LoadZeroTwiceDividesByZero()
    ensures var cargo := NewLoadCar(1, "cargo", MaxHealth, 100, 25, Box, None).value;
            var src := MerchLoad(Lumber, 50, 100);
            var once := Load(cargo, src, 0);
            once.Ok? && once.value.0.slot == Some(MerchLoad(Lumber, 0, 100))
            && IsEmpty(once.value.0) == Ok(false)
            && AddsToZeroSlot(once.value.0, once.value.1, 0)
  {
  }

  /** No slot holds 0 units: `Valid`, plus the emptiness `setMerchLoad` already enforces. */
  predicate Sound(c: Car) {
    Valid(c) && (c.slot.Some? ==> c.slot.value.quantity > 0)
  }

  /**
   `load` as evidently intended: loading 0 units into an empty car leaves it
   empty, as `setMerchLoad` does with a zero-quantity load. Every other call
   behaves as `Load`, and no call can reach a zero divisor.
   */
  function LoadKeepingEmpty(c: Car, src: MerchLoad, q: nat): (r: Result<(Car, MerchLoad)>)
    requires Sound(c)
    ensures r.Ok? ==> Sound(r.value.0)
    ensures !AddsToZeroSlot(c, src, q)
    ensures r.Ok? <==> Load(c, src, q).Ok?
    ensures r.Err? ==> r == Load(c, src, q)
    ensures q > 0 || c.slot.Some? ==> r == Load(c, src, q)
    ensures r.Ok? ==> Held(r.value.0) == Held(c) + q && r.value.1.quantity + q == src.quantity
    // a zero load into an empty car changes nothing at all
    ensures r.Ok? && q == 0 && c.slot.None? ==> r.value == (c, src)
  {
    var l := Load(c, src, q);
    if l.Ok? && q == 0 && c.slot.None? then Ok((c, src)) else l
  }

  /** An empty live car passes both checks of `unLoad(0)`. */
  lemma UnLoadZeroFromEmptyPassesChecks(c: Car)
    requires Valid(c) && !IsDestroyed(c) && c.slot.None?
    ensures IsDestroyed(c) == false && !(0 > GetQuantity(c).value)
    ensures UnLoadsFromNothing(c, 0)
  {
  }

  /**
   `unLoad` as evidently intended: an empty car has nothing to hand back and
   answers `EmptyCar`, as `getMerchLoad` does. Total on valid cars, and equal
   to `UnLoad` wherever the source is defined.
   */
  function UnLoadChecked(c: Car, q: nat): (r: Result<(Car, MerchLoad)>)
    requires Valid(c)
    ensures UnLoadsFromNothing(c, q) ==> r == Err(EmptyCar)
    ensures !UnLoadsFromNothing(c, q) ==> r == UnLoad(c, q)
    ensures r.Ok? ==> Held(r.value.0) + r.value.1.quantity == Held(c)
    ensures r.Ok? && Sound(c) ==> Sound(r.value.0)
  {
    if UnLoadsFromNothing(c, q) then Err(EmptyCar) else UnLoad(c, q)
  }

  /** A freshly built car is sound. */
  lemma NewLoadCarIsSound(id: nat, name: string, health: int, weight: int, maxQuantity: nat,
                          merchType: MerchType, initial: Option<MerchLoad>)
    requires NewLoadCar(id, name, health, weight, maxQuantity, merchType, initial).Ok?
    ensures Sound(NewLoadCar(id, name, health, weight, maxQuantity, merchType, initial).value)
  {
  }
}
