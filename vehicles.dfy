/**
 * The car-OO class exercise: vehicles that validate their constructor
 * arguments, cars and motorcycles with a fixed number of wheels, and a
 * garage that takes vehicles up to its capacity.
 */
module Vehicles {
  import opened Wrappers
  import opened Text

  /** A JavaScript argument, as far as the constructor's checks tell values apart. */
  datatype JsValue = JsString(s: string) | JsNumber(n: int) | NonFinite | OtherValue

  /** Which of the three classes was constructed: `Vehicle` itself, `Car` or `Motorcycle`. */
  datatype Kind = PlainVehicle | Car | Motorcycle

  const InvalidInput: string := "Invalid Input!"

  /**
   * The check at the top of the `Vehicle` constructor: `year` must be a finite
   * number and `make` and `model` strings, or the constructor throws.
   */
  function CheckArgs(make: JsValue, model: JsValue, year: JsValue): (r: Result<(string, string, int), string>)
    ensures r.Success? <==> make.JsString? && model.JsString? && year.JsNumber?
    ensures r.Failure? ==> r.error == InvalidInput
    ensures r.Success? ==> r.value == (make.s, model.s, year.n)
  {
    if !year.JsNumber? || !make.JsString? || !model.JsString? then Failure(InvalidInput)
    else Success((make.s, model.s, year.n))
  }

  /** The `numWheels` field each class sets; a plain `Vehicle` has none. */
  function Wheels(kind: Kind): (w: Option<nat>)
    ensures w == None <==> kind == PlainVehicle
    ensures w == Some(4) <==> kind == Car
    ensures w == Some(2) <==> kind == Motorcycle
  {
    match kind
    case PlainVehicle => None
    case Car => Some(4)
    case Motorcycle => Some(2)
  }

  const DescriptionPrefix: string := "This vehivle is a "

  class Vehicle {
    const kind: Kind
    const make: string
    const model: string
    const year: int
    const numWheels: Option<nat>

    /** The field assignments of the constructors, once the arguments have passed `CheckArgs`. */
    constructor (kind: Kind, make: string, model: string, year: int)
      ensures this.kind == kind && this.make == make && this.model == model && this.year == year
      ensures kind == PlainVehicle ==> numWheels == None
      ensures kind == Car ==> numWheels == Some(4)
      ensures kind == Motorcycle ==> numWheels == Some(2)
    {
      this.kind := kind;
      this.make := make;
      this.model := model;
      this.year := year;
      this.numWheels := Wheels(kind);
    }

    /** Every vehicle honks the same way. */
    function Honk(): (sound: string)
      ensures sound == "Beep."
    {
      "Beep."
    }

    /** `toString()`, misspelling included. */
    function ToString(): (s: string)
      ensures |s| > |DescriptionPrefix| && s[..|DescriptionPrefix|] == DescriptionPrefix
      ensures |s| >= |IntToString(year)| && s[|s| - |IntToString(year)|..] == IntToString(year)
      ensures |s| > |DescriptionPrefix| + |make|
      ensures s[|DescriptionPrefix|..|DescriptionPrefix| + |make|] == make
      ensures s[|DescriptionPrefix| + |make|..] == " " + model + " from " + IntToString(year)
    {
      var tail := " " + model + " from " + IntToString(year);
      Pieces(DescriptionPrefix, make, tail);
      DescriptionPrefix + make + tail
    }

    /** Only a motorcycle has `revEngine`. */
    function RevEngine(): (sound: string)
      requires kind == Motorcycle
      ensures sound == "VROOM!!!"
    {
      "VROOM!!!"
    }
  }

  /**
   * `new Vehicle(make, model, year)`, `new Car(...)` or `new Motorcycle(...)`:
   * the invalid-argument error, or a fresh object holding the arguments.
   */
  method NewVehicle(kind: Kind, make: JsValue, model: JsValue, year: JsValue) returns (r: Result<Vehicle, string>)
    ensures r.Failure? <==> CheckArgs(make, model, year).Failure?
    ensures r.Failure? ==> r.error == InvalidInput
    ensures r.Success? ==> fresh(r.value) && r.value.kind == kind && r.value.numWheels == Wheels(kind)
    ensures r.Success? ==> (r.value.make, r.value.model, r.value.year) == CheckArgs(make, model, year).value
  {
    var args := CheckArgs(make, model, year);
    if args.Failure? {
      return Failure(args.error);
    }
    var v := new Vehicle(kind, args.value.0, args.value.1, args.value.2);
    r := Success(v);
  }

  /** Two vehicles of the same make and model describe themselves alike only if they share a year. */
  lemma ToStringTellsYears(v: Vehicle, w: Vehicle)
    requires v.make == w.make && v.model == w.model
    requires v.ToString() == w.ToString()
    ensures v.year == w.year
  {
    var head := DescriptionPrefix + v.make + " " + v.model + " from ";
    assert v.ToString() == head + IntToString(v.year);
    assert w.ToString() == head + IntToString(w.year);
    assert IntToString(v.year) == v.ToString()[|head|..];
    assert IntToString(w.year) == w.ToString()[|head|..];
    IntToStringInjective(v.year, w.year);
  }

  /** What is handed to `Garage.add`: a vehicle, or a value (not null or undefined) with no truthy `honk`. */
  datatype Entry = VehicleEntry(vehicle: Vehicle) | NotAVehicle

  const OnlyVehicles: string := "Only vehicles are allowed in here!"
  const VehicleAdded: string := "Vehicle Added!"
  const GarageFull: string := "Sorry, we're full."

  /** The vehicles parked and the message returned after one `add`. */
  function Admit(capacity: int, parked: seq<Vehicle>, e: Entry): (r: (seq<Vehicle>, string))
    ensures r.1 == VehicleAdded <==> e.VehicleEntry? && |parked| < capacity
    ensures r.1 == VehicleAdded ==> r.0 == parked + [e.vehicle]
    ensures r.1 != VehicleAdded ==> r.0 == parked
    ensures |parked| <= capacity ==> |r.0| <= capacity
    ensures e.NotAVehicle? ==> r.1 == OnlyVehicles
    ensures e.VehicleEntry? && |parked| >= capacity ==> r.1 == GarageFull
  {
    if e.NotAVehicle? then (parked, OnlyVehicles)
    else if capacity > |parked| then (parked + [e.vehicle], VehicleAdded)
    else (parked, GarageFull)
  }

  class Garage {
    const capacity: int
    var vehicles: seq<Vehicle>

    /** The garage never holds more vehicles than its capacity. */
    ghost predicate Valid()
      reads this
    {
      |vehicles| <= capacity
    }

    constructor (capacity: int)
      ensures this.capacity == capacity && vehicles == []
      ensures capacity >= 0 ==> Valid()
    {
      this.capacity := capacity;
      vehicles := [];
    }

    /** `add(vehicle)`: refuse a non-vehicle, park a vehicle while there is room, else report full. */
    method Add(e: Entry) returns (msg: string)
      modifies this
      ensures (vehicles, msg) == Admit(capacity, old(vehicles), e)
      ensures e.NotAVehicle? ==> msg == OnlyVehicles && vehicles == old(vehicles)
      ensures e.VehicleEntry? && |old(vehicles)| < capacity ==>
        msg == VehicleAdded && vehicles == old(vehicles) + [e.vehicle]
      ensures e.VehicleEntry? && |old(vehicles)| >= capacity ==>
        msg == GarageFull && vehicles == old(vehicles)
      ensures old(Valid()) ==> Valid()
    {
      if e.NotAVehicle? {
        return OnlyVehicles;
      } else if capacity > |vehicles| {
        vehicles := vehicles + [e.vehicle];
        return VehicleAdded;
      } else {
        return GarageFull;
      }
    }
  }

  /** The vehicles parked after a series of `add` calls. */
  function AddAll(capacity: int, parked: seq<Vehicle>, es: seq<Entry>): seq<Vehicle>
    decreases |es|
  {
    if es == [] then parked else AddAll(capacity, Admit(capacity, parked, es[0]).0, es[1..])
  }

  /** The vehicles among the entries, in order. */
  function VehiclesIn(es: seq<Entry>): (vs: seq<Vehicle>)
    ensures |vs| <= |es|
    decreases |es|
  {
    if es == [] then []
    else (if es[0].VehicleEntry? then [es[0].vehicle] else []) + VehiclesIn(es[1..])
  }

  function Min(a: int, b: int): int {
    if a <= b then a else b
  }

  /**
   * A series of `add` calls parks the earliest vehicles that arrive, as many
   * as there is room for, and nothing else.
   */
  lemma {:induction false} AddAllParksFirstArrivals(capacity: int, parked: seq<Vehicle>, es: seq<Entry>)
    requires |parked| <= capacity
    ensures Min(capacity - |parked|, |VehiclesIn(es)|) >= 0
    ensures AddAll(capacity, parked, es) == parked + VehiclesIn(es)[..Min(capacity - |parked|, |VehiclesIn(es)|)]
    decreases |es|
  {
    if es != [] {
      var next := Admit(capacity, parked, es[0]).0;
      AddAllParksFirstArrivals(capacity, next, es[1..]);
      var rest := VehiclesIn(es[1..]);
      if es[0].VehicleEntry? && capacity > |parked| {
        assert VehiclesIn(es) == [es[0].vehicle] + rest;
        var k := Min(capacity - |next|, |rest|);
        assert VehiclesIn(es)[..k + 1] == [es[0].vehicle] + rest[..k];
      } else if es[0].VehicleEntry? {
        assert capacity - |parked| == 0;
      } else {
        assert VehiclesIn(es) == rest;
      }
    }
  }
}
