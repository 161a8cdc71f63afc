# Cargo accounting of Transarctica Rebirth, in Dafny

This project models the cargo bookkeeping of the train game in Dafny 4.11:

- merchandise loads: a quantity of one merchandise at an average unit price;
- load cars: cars with health that carry at most one load of one accepted merchandise type, up to a capacity;
- the train: an ordered sequence of cars.

It also models an earlier version of the loads and cars, so that the two versions can be compared.

The C++ classes mutate their receivers in place. In this model every operation returns the new value instead:

- a load operation returns the receiver after the call, and the split-off piece when there is one;
- a car operation returns the car after the call, plus the remainder of the source load for `load`, or the unloaded piece for the later `unLoad`.

Each exception becomes an `Err` of the `Outcomes.Error` enum. Every `load` and `unLoad` runs all of its checks before it changes anything (src/gameplay/train/cars.cpp:251-260 and 273-279). So on an `Err` the caller keeps its old value.

| module | file | models |
|---|---|---|
| `Outcomes` | outcomes.dfy | `Option`, `Result`, and one error per exception class the core throws (the three train error classes are declared but never thrown, their checks being TODOs); the two classes named `NotEnoughLoadError` are `NotEnoughLoad` (merchandises) and `NotEnoughInCar` (cars) |
| `Merchandises` | merchandises.dfy | src/gameplay/train/merchandises.cpp |
| `Cars` | cars.dfy | src/gameplay/train/cars.cpp |
| `Trains` | trains.dfy | src/gameplay/train/train.cpp |
| `EarlyMerchandises` | early_merchandises.dfy | src/merchandises.cpp |
| `EarlyCars` | early_cars.dfy | src/cars.cpp |

Three behaviours of the code are easy to misread:

- A load car is empty when it has no slot (a null pointer). It is not empty just because its slot holds 0 units. So `load(src, 0)` into an empty car leaves a 0-unit slot, and `isEmpty()` then answers false. The model keeps this behaviour; see Findings.
- The train does not report an unknown id, a position out of range, or an attempt to remove a special car. The code leaves all three as TODOs. The first two are preconditions of `GetCar`, `RemoveCar` and `MoveCar`; the scan `FindCar` answers `None` for an unknown id. The third has no counterpart, so `RemoveCar` and `MoveCar` accept any kind of car.
- Train lookup compares `Car::getId()`, the catalogue id that cars built from the same template share. It does not use the per-instance `getCarId()`.

## Model

| member | source | states |
|---|---|---|
| Merchandises.EqualIgnoresNameAndType | src/gameplay/train/merchandises.cpp:10-12 | merch equality holds exactly when the ids are equal; renaming or retyping a merch does not change it |
| Merchandises.NotEqualIsNegation | src/gameplay/train/merchandises.cpp:14-16 | `!=` is the exact negation of `==` |
| Merchandises.HasSameMerch | src/gameplay/train/merchandises.cpp:60-71 | two loads hold the same merch exactly when the merch ids are equal; the three overloads in one |
| Merchandises.AddQuantity | src/gameplay/train/merchandises.cpp:73-78 | the quantity becomes the sum; the price times the new quantity is at most the total value, and the price plus one times it is more (the floor of the weighted average); the merchandise is kept; the total quantity must be non-zero |
| Merchandises.AddPriceBetween | src/gameplay/train/merchandises.cpp:76 | the averaged price lies between the smaller and the larger of the two prices merged |
| Merchandises.AddAtSamePrice | src/gameplay/train/merchandises.cpp:76 | adding units at the load's own price leaves the price unchanged |
| Merchandises.AddLoad | src/gameplay/train/merchandises.cpp:80-85 | succeeds exactly when the merch ids match, and then adds the other load's quantity at its price; otherwise fails with `NotSameMerch` |
| Merchandises.Split | src/gameplay/train/merchandises.cpp:95-102 | succeeds exactly when `q` does not exceed the quantity, otherwise `NotEnoughLoad`; the piece holds `q` units; the receiver and piece together hold the old quantity; both keep the merchandise and the unit price |
| Merchandises.SplitLoad | src/gameplay/train/merchandises.cpp:104-109 | checks merch identity first (`NotSameMerch`), then splits out the other load's quantity (`NotEnoughLoad` if too many) |
| Merchandises.Substract | src/gameplay/train/merchandises.cpp:87-89 | has exactly the success condition, error and receiver result of `Split` with the same quantity |
| Merchandises.SubstractLoad | src/gameplay/train/merchandises.cpp:91-93 | has exactly the success condition, errors and receiver result of `SplitLoad` |
| Merchandises.SplitThenAddRestores | src/gameplay/train/merchandises.cpp:73-102 | splitting a non-empty load and adding the piece back restores the original load, quantity and price |
| Merchandises.AdditionScenario | tests/test_merchandises.cpp:80-96 | 10 at 100 plus 10 at 50 gives 20 at 75; adding 20 at 75 gives 40 at 75 |
| Merchandises.DifferentMerchScenario | tests/test_merchandises.cpp:122-134 | lumber and fish loads cannot be added or subtracted |
| Cars.IsDestroyed | src/gameplay/train/cars.cpp:40-42 | a car is destroyed exactly when its health is at most 0 |
| Cars.TakeDammage | src/gameplay/train/cars.cpp:44-48 | a destroyed car is unchanged; otherwise health drops by the attack with no clamping, and the car becomes destroyed exactly when the attack reaches its health |
| Cars.Repair | src/gameplay/train/cars.cpp:50-55 | succeeds exactly on a live car and sets health to exactly 100; a destroyed car gives `DestroyedCar` |
| Cars.DestroyedIsAbsorbing | src/gameplay/train/cars.cpp:40-55 | damage leaves a destroyed car as it is, and repairing it fails |
| Cars.HealthScenario | tests/gameplay/train/test_cars.cpp:39-73 | 100 -60 gives 40, -60 more gives -20 and destroyed; a car at health 10 repairs to 100, and after 200 damage it cannot be repaired |
| Cars.SetMerchLoad | src/gameplay/train/cars.cpp:130-139 | a zero-quantity load changes nothing; a load above capacity fails with `NotEnoughSpace`; otherwise it becomes the slot and the capacity invariant is kept |
| Cars.NewLoadCar | src/gameplay/train/cars.cpp:61-124 | the car gets the given fields; a zero initial load leaves it empty; an initial load above capacity fails with `NotEnoughSpace`; any other initial load becomes the slot exactly, and otherwise it holds that load within capacity |
| Cars.NewLoadCarIsSound | src/gameplay/train/cars.cpp:130-139 | a freshly built car never holds a 0-unit slot |
| Cars.GetMaxQuantity | src/gameplay/train/cars.cpp:153-158 | the capacity, or `DestroyedCar` |
| Cars.GetMerchType | src/gameplay/train/cars.cpp:179-184 | the accepted type, or `DestroyedCar` |
| Cars.IsEmpty | src/gameplay/train/cars.cpp:195-200 | true exactly when there is no slot, or `DestroyedCar` |
| Cars.GetQuantity | src/gameplay/train/cars.cpp:160-168 | 0 without a slot, else the slot's quantity, or `DestroyedCar` |
| Cars.GetRemainingQuantity | src/gameplay/train/cars.cpp:170-177 | remaining plus held equals capacity, or `DestroyedCar` |
| Cars.GetMerchLoad | src/gameplay/train/cars.cpp:186-193 | the slot, `DestroyedCar` on a destroyed car, `EmptyCar` on an empty one |
| Cars.IsFull | src/gameplay/train/cars.cpp:202-209 | true exactly when a slot is present and holds the full capacity, or `DestroyedCar` |
| Cars.GetWeight | src/gameplay/train/cars.cpp:141-151 | base weight, plus one unit per unit held when the car is live |
| Cars.CanLoad | src/gameplay/train/cars.cpp:216-231 | true exactly when the car is live, the merch type matches, and the car is either empty or not full and holding the same merch id |
| Cars.FullRefusesEmptyAccepts | src/gameplay/train/cars.cpp:216-231 | a full car refuses every load; an empty car accepts exactly the loads of its type; a partly loaded car accepts only the same merchandise |
| Cars.Load | src/gameplay/train/cars.cpp:237-269 | fails with `DestroyedCar`, `CannotLoad`, `NotEnoughSpace` or `NotEnoughLoad` (the merchandise error `split` throws), checked in that order; on success the car holds `q` more units within capacity, the source holds `q` fewer, an empty car starts at the source's merch and price, and a loaded one keeps its merch and averages the price; nothing but the slot changes |
| Cars.LoadAll | src/gameplay/train/cars.cpp:233-235 | is `load(src, src.quantity)`: succeeds exactly when the car accepts `src` and it fits, else `DestroyedCar`, `CannotLoad` or `NotEnoughSpace` in that order; the source is left with 0 units; an empty car then holds `src` itself, a loaded one the merge of `src` at its price |
| Cars.LoadConserves | src/gameplay/train/cars.cpp:237-269 | units held by the car plus units left in the source are the same before and after a load |
| Cars.UnLoad | src/gameplay/train/cars.cpp:271-285 | fails with `DestroyedCar`, then `NotEnoughInCar` (the car error) when `q` exceeds the held quantity; on success returns `q` units at the slot's merch and price, holds `q` fewer, and drops the slot exactly when nothing is left |
| Cars.LoadThenUnLoadRestores | src/gameplay/train/cars.cpp:237-285 | unloading what was just loaded succeeds, returns `q` units of the loaded merch, and restores remaining capacity and weight; a car that was empty comes back identical |
| Cars.DestroyedCarAnswersNothing | src/gameplay/train/cars.cpp:141-231 | on a destroyed car every capacity getter fails with `DestroyedCar`, `canLoad` is false, the weight is the base weight, and load and unload fail with `DestroyedCar` |
| Cars.Manufacture | src/gameplay/train/cars.cpp:287-302 | the new car copies the template's id, name, weight, capacity and type; health defaults to 100; a non-zero initial load within capacity becomes the slot exactly; the initial load follows the constructor's rules |
| Cars.LoadScenario | tests/gameplay/train/test_cars.cpp:186-225 | capacity 25, base 100: oil refused; 10 lumber gives 10/15/110 and leaves 40 in the source; 10 more gives 20/5/120 and 30; 10 more, or `-10` read as an unsigned 32-bit quantity, fails with `NotEnoughSpace` |
| Cars.UnLoadScenario | tests/gameplay/train/test_cars.cpp:227-261 | full car of 25 at base 100: unload 10 gives 10 remaining and weight 115, then 20 remaining and 105; a third unload of 10, or of `-10` read as an unsigned 32-bit quantity, fails with `NotEnoughInCar` |
| Cars.CanLoadScenario | tests/gameplay/train/test_cars.cpp:144-184 | the empty, partly loaded, full and destroyed cars accept exactly the loads the test expects |
| Cars.ConstructorScenario | tests/gameplay/train/test_cars.cpp:79-142 | 100 units into a capacity of 10 fails with `NotEnoughSpace`; 10 units in a capacity of 50 weigh 110 and leave 40 |
| Cars.LoadZeroTwiceDividesByZero | src/gameplay/train/cars.cpp:248-269 | after loading 0 units into an empty car, the car holds a 0-unit slot, is not empty, and a second zero load would average with divisor 0 |
| Cars.LoadKeepingEmpty | src/gameplay/train/cars.cpp:248-269 | a corrected load: never reaches a zero divisor, keeps every slot non-zero, and agrees with `Load` on errors and on every call except a zero load into an empty car, which returns the car and the source unchanged |
| Cars.UnLoadZeroFromEmptyPassesChecks | src/gameplay/train/cars.cpp:271-279 | on a live empty car, unloading 0 units passes both of the source's checks |
| Cars.UnLoadChecked | src/gameplay/train/cars.cpp:271-285 | a corrected unload: defined on every valid car, answers `EmptyCar` where the source would dereference null, equals `UnLoad` elsewhere, and keeps slots non-zero |
| Trains.FirstIndex | src/gameplay/train/train.cpp:28-41 | the position of a car with the id, and no earlier car has that id |
| Trains.FindCar | src/gameplay/train/train.cpp:28-41 | the front-to-back scan finds a position exactly when some car has the id; it is the first match and the same position `FirstIndex` gives; no match gives `None` |
| Trains.FindAgreesWithFirstIndex | src/gameplay/train/train.cpp:30-38 | a match with no earlier match is exactly the position `FirstIndex` returns |
| Trains.AddCar | src/gameplay/train/train.cpp:5-7 | the car goes at the tail, and every existing car keeps its index |
| Trains.GetCar | src/gameplay/train/train.cpp:18-20 | returns a car with the id, and no car before it has that id |
| Trains.RemoveCar | src/gameplay/train/train.cpp:9-16 | returns the car `GetCar` finds; the train is one shorter; cars before it keep their index and cars after move up by one; removed car plus remainder is the old multiset; no check on the car's kind |
| Trains.MoveCar | src/gameplay/train/train.cpp:22-26 | same length and multiset of cars; the moved car is at `position`; the other cars keep their relative order |
| Trains.AddCarKeepsLookup | src/gameplay/train/train.cpp:5-20 | appending a car does not change which car an existing id finds |
| Trains.MoveKeepsLookup | src/gameplay/train/train.cpp:22-40 | with unique ids, after a move the id still finds the same car |
| Trains.MoveScenario | src/gameplay/train/train.cpp:5-26 | cars 1 and 2; moving car 2 to position 0 gives [2, 1], and id 2 still finds car 2 |
| Merchandises.DefaultsAreBlank | src/gameplay/train/merchandises.cpp:3-5 | the null merchandise (id 0) is unequal to every catalogued one; the default load of `MerchLoad()` (lines 32-33) has quantity and price 0, and only a split of 0 succeeds on it |
| EarlyMerchandises.DefaultLoadIsBlank | src/merchandises.cpp:29-30 | a default load has merch id 0, quantity 0 and price 0 |
| EarlyMerchandises.EqualityAgrees | src/merchandises.cpp:9-15 | the early `==` and `!=` compare ids exactly as the later version does |
| EarlyMerchandises.HasSameMerch | src/merchandises.cpp:48-54 | two loads hold the same merch exactly when the merch ids are equal, agreeing with the later `hasSameMerch` |
| EarlyMerchandises.Add | src/merchandises.cpp:57-61 | the same weighted-average formula as the later `add` |
| EarlyMerchandises.AddLoad | src/merchandises.cpp:63-68 | the same result and error as the later `add(other)` |
| EarlyMerchandises.Substract | src/merchandises.cpp:70-72 | keeps merch and price; subtracts exactly when it can; otherwise wraps to 2^64 minus the shortfall |
| EarlyMerchandises.SubstractLoad | src/merchandises.cpp:74-79 | `NotSameMerch` exactly on a different merch id, else the unchecked subtraction of the other's quantity |
| EarlyMerchandises.SubstractAgreesWhenEnough | src/merchandises.cpp:70-72 | without wrap-around, the early subtraction equals the later checked one |
| EarlyMerchandises.SubstractWrapsWhereLaterRefuses | src/merchandises.cpp:70-72 | where the early subtraction wraps, the later one fails with `NotEnoughLoad` |
| EarlyCars.IsDestroyed | src/cars.cpp:27-29 | a car is destroyed exactly when its health is at most 0 |
| EarlyCars.TakeDammage | src/cars.cpp:31-35 | ignored once destroyed; otherwise health drops by the attack, unclamped |
| EarlyCars.Repair | src/cars.cpp:37-42 | health 100 on a live car, `DestroyedCar` otherwise |
| EarlyCars.HealthAgrees | src/cars.cpp:27-42 | damage and repair act on corresponding early and later cars alike |
| EarlyCars.SetMerchLoad | src/cars.cpp:79-90 | a zero load leaves the car and its `empty` flag as they were; a load above capacity fails with `NotEnoughSpace`; otherwise the load is stored and the car is not empty |
| EarlyCars.NewLoadCar | src/cars.cpp:52-90 | the car gets the given id, name, health, weight, capacity and type; it is empty and holds the default load unless a non-zero initial load within capacity is given, which it then holds exactly; a load above capacity fails with `NotEnoughSpace` |
| EarlyCars.DefaultLoadCarHasNoRoom | src/cars.cpp:52-54 | the default load car is live, empty, weighs 0, has no remaining room, is not full, and refuses every non-empty load |
| EarlyCars.GetWeight | src/cars.cpp:92-102 | base weight, plus the held quantity when the car is live and not flagged empty |
| EarlyCars.GetMaxQuantity | src/cars.cpp:104-109 | the capacity, or `DestroyedCar` |
| EarlyCars.GetRemainingQuantity | src/cars.cpp:111-118 | remaining plus held equals capacity, or `DestroyedCar` |
| EarlyCars.GetMerchType | src/cars.cpp:120-125 | the accepted type, or `DestroyedCar` |
| EarlyCars.GetMerchLoad | src/cars.cpp:127-134 | the held load even when the car is empty; `DestroyedCar` only on a destroyed car |
| EarlyCars.IsEmpty | src/cars.cpp:136-141 | the `empty` flag, or `DestroyedCar` |
| EarlyCars.IsFull | src/cars.cpp:143-150 | true exactly when the car is not flagged empty and holds the capacity |
| EarlyCars.CanLoad | src/cars.cpp:152-167 | the same closed form as the later `canLoad`, with the `empty` flag in place of slot absence |
| EarlyCars.Load | src/cars.cpp:173-198 | fails with `DestroyedCar`, `CannotLoad`, then `NotEnoughSpace`; never checks the source; on success only the load and the `empty` flag change, the car holds `q` more units, is not empty, and starts at the source's merch and price or averages; the source goes through the unchecked subtraction |
| EarlyCars.LoadAll | src/cars.cpp:169-171 | is `load(src, src.quantity)`: the same three errors in the same order; on success the source is left at 0, an empty car holds `src` itself and a loaded one the merge of `src` at its price |
| EarlyCars.UnLoad | src/cars.cpp:200-212 | `DestroyedCar`, then `NotEnoughInCar` when `q` exceeds the held quantity; otherwise only the load and the flag change, the car holds `q` fewer units and is flagged empty exactly when it was empty or reaches 0 |
| EarlyCars.CorrespondingCarsAgreeOnState | src/cars.cpp:92-150 | corresponding early and later cars report the same weight, remaining capacity, emptiness and fullness |
| EarlyCars.CanLoadAgrees | src/cars.cpp:152-167 | both versions of `canLoad` give the same answer on corresponding cars |
| EarlyCars.LoadAgreesWhenSourceSuffices | src/cars.cpp:173-198 | when the source holds enough, both versions fail with the same error or produce corresponding cars and equal source remainders |
| EarlyCars.UnLoadAgrees | src/cars.cpp:200-212 | both versions unload alike where the later one is defined; the early one lets an empty car unload 0 units and stay as it is |
| EarlyCars.LoadWrapsSource | src/cars.cpp:173-198 | loading 10 units from a source of 5 succeeds, putting 10 in the car and leaving the source at 2^64 - 5 |
| EarlyCars.LaterLoadRefusesShortSource | src/gameplay/train/cars.cpp:248-269 | the later version refuses the same call with `NotEnoughLoad` |

## Findings

| source | as written | input that shows it | evidently intended | confidence | as-written member | corrected member |
|---|---|---|---|---|---|---|
| src/gameplay/train/cars.cpp:248-269 | loading 0 units into an empty car stores a 0-unit slot; a second zero load then reaches `add`, which divides by the total quantity, 0 (merchandises.cpp:76) | empty box car of capacity 25, lumber source of 50 at 100, `load(src, 0)` twice | a zero load leaves an empty car empty, as `setMerchLoad` does with a zero load | not executed; high | Cars.LoadZeroTwiceDividesByZero | Cars.LoadKeepingEmpty |
| src/gameplay/train/cars.cpp:271-285 | `unLoad(0)` on a live empty car passes both checks and calls `split` through a null `merchLoad` | any live empty load car, quantity 0 | report the empty car, as `getMerchLoad` does with `IsEmptyError` | not executed; high that the call is undefined, medium on the intended answer | Cars.UnLoadZeroFromEmptyPassesChecks | Cars.UnLoadChecked |
| src/cars.cpp:173-198 | `load` never checks that the source holds `quantity` units; the unchecked `size_t` subtraction wraps | empty car of capacity 25, source of 5 units, `load(src, 10)` | refuse with `NotEnoughLoad` and move no units, as the later version does | not executed; high | EarlyCars.LoadWrapsSource | Cars.Load |

## Left out

- Global id counters (`Car::carId` and `MerchLoad::loadId`) are left out. They are hidden process-wide mutable state, and ids are plain fields here.
- `shared_ptr` and reference aliasing are left out. The model uses value semantics: a loaded source and a car never share a load record.
- `float` weight is modelled as `int`: fractional base weights and the float rounding of `weight + getQuantity()` (exact only below 2^24) are left out, like the other width limits.
- Fixed-width overflow is left out. This covers the `unsigned short` price, the `unsigned int` quantity, the `short` health, and the products in the weighted average (`unsigned int` in the later version, where the `unsigned short` price is promoted, and `size_t` in the early one). The early `substract` is the exception: it wraps in ordinary use, so it is modelled modulo 2^64. The tests' negative quantities are huge unsigned values, so here they are simply large `nat` inputs.
- Merchandises.AddQuantity: requires a non-zero total quantity, because the source divides by it.
- Cars.Load: requires `!AddsToZeroSlot`, because that call divides by zero in the source (first finding).
- Cars.LoadAll: requires the same as `Load`, for the same reason.
- Merchandises.AddLoad: requires a non-zero total when the merch ids match, as `AddQuantity`, because the source divides by it.
- EarlyMerchandises.Add: requires a non-zero total quantity, as `AddQuantity`, for the same zero divisor.
- EarlyMerchandises.AddLoad: requires a non-zero total when the merch ids match, for the same zero divisor.
- EarlyCars.LoadAll: requires the same as `EarlyCars.Load`, for the same reasons.
- Cars.UnLoad: requires `!UnLoadsFromNothing`, because that call dereferences a null pointer in the source (second finding).
- EarlyCars.Load: requires `!AddsToZeroLoad` for the same zero divisor, and `size_t`-sized inputs.
- Cars.GetWeight: requires a normal car or a load car. `SpecialCar` leaves `getWeight` pure virtual.
- Trains.FindCar: returns `None` where the source's `getCarIterator` falls off the end of a non-void function, which is undefined behaviour; `None` stands for that fall-through.
- Trains.GetCar: requires that some car has the id. The source's lookup falls off the end of a non-void function otherwise.
- Trains.RemoveCar: requires that some car has the id, as `getCar`; the special-car protection the source leaves as a TODO is absent.
- Trains.MoveCar: requires a known id and `position < |cars|`. The source checks neither, and inserting past the end is undefined.
- The declared but unimplemented train operations are left out: `buy`, `canBuy`, `sell`, `canSell`, `getMerchLoads` and `getCars`.
- Plain accessors are left out: `getId`, `getCarId`, `getName`, `getHealth`, `getMaxHealth`, `getLoadId`, and the `MerchLoad` getters. They are the record fields.
- The three `hasSameMerch` overloads collapse into one. They differ only in how the other merchandise is passed.
- The preset car and merchandise tables are left out; the scenarios use the merchandise the test files define (`Cars.Lumber`, `Fish`, `Oil`). The `what()` strings and the test framework are left out.
