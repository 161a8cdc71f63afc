/**
 A train (src/gameplay/train/train.cpp): an ordered sequence of cars, looked
 up by `Car.id`. The source leaves three checks as TODOs: an unknown id, a
 target position out of range, and special cars that must not be removed.
 The first two are preconditions of the lookups (the scan `FindCar` answers
 `None` instead); the third is absent, so any kind of car can be removed or
 moved.
 */
module Trains {
  import opened Outcomes
  import opened Cars

  datatype Train = Train(cars: seq<Car>)

  /** Some car of the sequence has this id. */
  predicate HasCar(cars: seq<Car>, id: nat) {
    exists i :: 0 <= i < |cars| && cars[i].id == id
  }

  /** No two cars share an id. */
  predicate UniqueIds(cars: seq<Car>) {
    forall i, j :: 0 <= i < j < |cars| ==> cars[i].id != cars[j].id
  }

  /** `getCarIterator`: the position of the first car with this id. */
  function FirstIndex(cars: seq<Car>, id: nat): (i: nat)
    requires HasCar(cars, id)
    ensures i < |cars| && cars[i].id == id
    ensures forall j :: 0 <= j < i ==> cars[j].id != id
  {
    if cars[0].id == id then 0
    else
      assert HasCar(cars[1..], id) by {
        var k :| 0 <= k < |cars| && cars[k].id == id;
        assert cars[1..][k - 1] == cars[k];
      }
      var i := FirstIndex(cars[1..], id);
      assert forall j :: 1 <= j < i + 1 ==> cars[j] == cars[1..][j - 1];
      i + 1
  }

  /**
   `getCarIterator` as the scan it is: walk the cars front to back and stop
   at the first id match. Falling off the end (a TODO in the source) is `None`.
   */
  method FindCar(cars: seq<Car>, id: nat) returns (r: Option<nat>)
    ensures r.Some? <==> HasCar(cars, id)
    ensures r.Some? ==> r.value < |cars| && cars[r.value].id == id
    ensures r.Some? ==> forall j :: 0 <= j < r.value ==> cars[j].id != id
    // the scan and the recursive lookup find the same car
    ensures r.Some? ==> r.value == FirstIndex(cars, id)
  {
    var k := 0;
    while k < |cars|
      invariant k <= |cars|
      invariant forall j :: 0 <= j < k ==> cars[j].id != id
    {
      if cars[k].id == id {
        FindAgreesWithFirstIndex(cars, id, k);
        return Some(k);
      }
      k := k + 1;
    }
    return None;
  }

  /** A first match is what `FirstIndex` returns: the first match is unique. */
  lemma FindAgreesWithFirstIndex(cars: seq<Car>, id: nat, i: nat)
    requires i < |cars| && cars[i].id == id
    requires forall j :: 0 <= j < i ==> cars[j].id != id
    ensures HasCar(cars, id) && FirstIndex(cars, id) == i
  {
    assert HasCar(cars, id);
    var f := FirstIndex(cars, id);
    assert !(f < i) && !(i < f);
  }

  /** `addCar`: append at the tail. */
  function AddCar(t: Train, c: Car): (r: Train)
    ensures |r.cars| == |t.cars| + 1 && r.cars[|t.cars|] == c
    ensures forall i :: 0 <= i < |t.cars| ==> r.cars[i] == t.cars[i]
  {
    Train(t.cars + [c])
  }

  /** `getCar`: the earliest car with this id. */
  function GetCar(t: Train, id: nat): (c: Car)
    requires HasCar(t.cars, id)
    ensures c.id == id
    ensures exists i :: 0 <= i < |t.cars| && t.cars[i] == c
                        && forall j :: 0 <= j < i ==> t.cars[j].id != id
  {
    t.cars[FirstIndex(t.cars, id)]
  }

  /**
   `removeCar`: take the earliest car with this id out of the sequence and
   hand it back; the other cars keep their order.
   */
  function RemoveCar(t: Train, id: nat): (r: (Train, Car))
    requires HasCar(t.cars, id)
    ensures r.1 == GetCar(t, id)
    ensures |r.0.cars| == |t.cars| - 1
    ensures forall k :: 0 <= k < FirstIndex(t.cars, id) ==> r.0.cars[k] == t.cars[k]
    ensures forall k :: FirstIndex(t.cars, id) <= k < |r.0.cars| ==> r.0.cars[k] == t.cars[k + 1]
    ensures multiset(r.0.cars) + multiset{r.1} == multiset(t.cars)
  {
    var i := FirstIndex(t.cars, id);
    assert t.cars == t.cars[..i] + [t.cars[i]] + t.cars[i + 1..];
    (Train(t.cars[..i] + t.cars[i + 1..]), t.cars[i])
  }

  /**
   `moveCar`: remove the car, then insert it at `position` of what is left.
   The vector insertion needs `position <= |cars| - 1`.
   */
  function MoveCar(t: Train, id: nat, position: nat): (r: Train)
    requires HasCar(t.cars, id)
    requires position < |t.cars|
    ensures |r.cars| == |t.cars|
    ensures r.cars[position] == GetCar(t, id)
    ensures multiset(r.cars) == multiset(t.cars)
    // every other car keeps its place relative to the others
    ensures r.cars[..position] + r.cars[position + 1..] == RemoveCar(t, id).0.cars
  {
    var removed := RemoveCar(t, id);
    var rest := removed.0.cars;
    var r := rest[..position] + [removed.1] + rest[position..];
    assert rest == rest[..position] + rest[position..];
    assert r[..position] == rest[..position];
    assert r[position + 1..] == rest[position..];
    Train(r)
  }

  /** Appending a car does not change which car an existing id finds. */
  lemma AddCarKeepsLookup(t: Train, c: Car, id: nat)
    requires HasCar(t.cars, id)
    ensures HasCar(AddCar(t, c).cars, id)
    ensures GetCar(AddCar(t, c), id) == GetCar(t, id)
  {
    var a := AddCar(t, c).cars;
    var i := FirstIndex(t.cars, id);
    assert a[i] == t.cars[i];
    assert FirstIndex(a, id) <= i;
  }

  /** With unique ids, a moved car is still the one its id finds. */
  lemma MoveKeepsLookup(t: Train, id: nat, position: nat)
    requires UniqueIds(t.cars)
    requires HasCar(t.cars, id) && position < |t.cars|
    ensures HasCar(MoveCar(t, id, position).cars, id)
    ensures GetCar(MoveCar(t, id, position), id) == GetCar(t, id)
  {
    var m := MoveCar(t, id, position).cars;
    var i := FirstIndex(t.cars, id);
    var rest := RemoveCar(t, id).0.cars;
    assert m[position].id == id;
    forall j | 0 <= j < position
      ensures m[j].id != id
    {
      assert m[j] == (m[..position] + m[position + 1..])[j];
      assert m[j] == rest[j];
      if j < i {
        assert rest[j] == t.cars[j];
      } else {
        assert rest[j] == t.cars[j + 1];
      }
    }
    var k := FirstIndex(m, id);
    assert k <= position;
  }

  /** Two cars with ids 1 and 2; moving car 2 to the front. */
  lemma MoveScenario()
    ensures var one := NormalCar(1, "first", MaxHealth, 10);
            var two := NormalCar(2, "second", MaxHealth, 20);
            var t := AddCar(AddCar(Train([]), one), two);
            t.cars == [one, two]
            && MoveCar(t, 2, 0).cars == [two, one]
            && GetCar(MoveCar(t, 2, 0), 2) == two
  {
    var one := NormalCar(1, "first", MaxHealth, 10);
    var two := NormalCar(2, "second", MaxHealth, 20);
    var t := AddCar(AddCar(Train([]), one), two);
    assert t.cars == [one, two];
    assert t.cars[1].id == 2;
    assert FirstIndex(t.cars, 2) == 1;
    assert RemoveCar(t, 2).0.cars == [one];
    MoveKeepsLookup(t, 2, 0);
  }
}
