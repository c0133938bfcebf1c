/** VehicleService: vehicle lookups and registration on the vehicles collection. */
module VehicleRegistry {
  import opened Common
  import opened Sequences
  import opened Model
  import opened Repository

  /** The plate that registration checks for uniqueness: a non-empty one. */
  predicate HasPlate(v: Vehicle)
  {
    v.licensePlate.Some? && v.licensePlate.value != ""
  }

  /** No two stored vehicles share a non-empty licence plate. */
  ghost predicate PlatesUnique(t: Table<Vehicle>)
  {
    forall k1, k2 | k1 in t.rows && k2 in t.rows && k1 != k2 && HasPlate(t.rows[k1]) ::
      t.rows[k1].licensePlate != t.rows[k2].licensePlate
  }

  /** Each stored vehicle carries the id it is stored under. */
  ghost predicate IdsMatch(t: Table<Vehicle>)
  {
    forall k | k in t.rows :: t.rows[k].id == Some(k)
  }

  /** Creating a vehicle under its own id, whose plate is empty or not on
      file, keeps ids matching and plates unique. */
  lemma InsertKeepsRegistry(t: Table<Vehicle>, id: Id, v: Vehicle)
    requires Repository.Valid(t) && id !in t.rows && v.id == Some(id)
    requires HasPlate(v) ==> forall k | k in t.rows :: t.rows[k].licensePlate != v.licensePlate
    ensures IdsMatch(t) ==> IdsMatch(Insert(t, id, v))
    ensures PlatesUnique(t) ==> PlatesUnique(Insert(t, id, v))
  {
    assert Insert(t, id, v).rows == t.rows[id := v];
  }

  class VehicleService {
    /** The vehicles collection. */
    var table: Table<Vehicle>

    /** The store is well formed and each vehicle carries the id it is stored under. */
    ghost predicate Valid()
      reads this
    {
      Repository.Valid(table) && IdsMatch(table)
    }

    /** No two stored vehicles share a non-empty licence plate. */
    ghost predicate UniquePlates()
      reads this
    {
      PlatesUnique(table)
    }

    constructor (t: Table<Vehicle>)
      requires Repository.Valid(t) && forall k | k in t.rows :: t.rows[k].id == Some(k)
      ensures Valid() && table == t
    {
      table := t;
    }

    /** getByClientId: the vehicles of one client. */
    function GetByClientId(clientId: Id): (r: seq<Vehicle>)
      reads this
      requires Valid()
      ensures forall v :: v in r <==> v in All(table) && v.clientId == Some(clientId)
    {
      FindBy(table, (v: Vehicle) => v.clientId == Some(clientId))
    }

    /** findByLicensePlate: the first vehicle with this plate. */
    function FindByLicensePlate(plate: string): (r: Option<Vehicle>)
      reads this
      requires Valid()
      ensures r.Some? ==> r.value in All(table) && r.value.licensePlate == Some(plate)
    {
      FindOneBy(table, (v: Vehicle) => v.licensePlate == Some(plate))
    }

    predicate LicensePlateExists(plate: string)
      reads this
      requires Valid()
    {
      ExistsBy(table, (v: Vehicle) => v.licensePlate == Some(plate))
    }

    /** licensePlateExists agrees with findByLicensePlate. */
    lemma PlateExistsIffFindable(plate: string)
      requires Valid()
      ensures LicensePlateExists(plate) <==> FindByLicensePlate(plate).Some?
    {
      ExistsIffFound(table, (v: Vehicle) => v.licensePlate == Some(plate));
    }

    /** getByMake: exact match on the make. */
    function GetByMake(make: string): (r: seq<Vehicle>)
      reads this
      requires Valid()
      ensures forall v :: v in r <==> v in All(table) && v.make == make
    {
      FindBy(table, (v: Vehicle) => v.make == make)
    }

    /** getByModel: exact match on the model. */
    function GetByModel(model: string): (r: seq<Vehicle>)
      reads this
      requires Valid()
      ensures forall v :: v in r <==> v in All(table) && v.model == model
    {
      FindBy(table, (v: Vehicle) => v.model == model)
    }

    /** getByYear: exact match on the year. */
    function GetByYear(year: int): (r: seq<Vehicle>)
      reads this
      requires Valid()
      ensures forall v :: v in r <==> v in All(table) && v.year == year
    {
      FindBy(table, (v: Vehicle) => v.year == year)
    }

    /** getByYearRange: the vehicles built from `startYear` to `endYear`, both included. */
    function GetByYearRange(startYear: int, endYear: int): (r: seq<Vehicle>)
      reads this
      requires Valid()
      ensures forall v :: v in r <==> v in All(table) && startYear <= v.year <= endYear
    {
      FindBy(table, (v: Vehicle) => startYear <= v.year <= endYear)
    }

    /** registerVehicle: a non-empty plate already on file is refused; a null
        or empty plate skips the check; otherwise the vehicle is created under
        the id the backend assigns. */
    method RegisterVehicle(vehicle: Vehicle, newId: Id) returns (r: Result<Vehicle>)
      requires Valid() && newId !in table.rows
      modifies this
      ensures Valid()
      ensures HasPlate(vehicle) && old(LicensePlateExists(vehicle.licensePlate.value)) ==>
        r == Failure(IllegalArgument("License plate already exists")) && table == old(table)
      ensures !(HasPlate(vehicle) && old(LicensePlateExists(vehicle.licensePlate.value))) ==>
        && r == Success(vehicle.(id := Some(newId)))
        && table == Insert(old(table), newId, vehicle.(id := Some(newId)))
      ensures old(UniquePlates()) ==> UniquePlates()
    {
      if vehicle.licensePlate.Some? && vehicle.licensePlate.value != "" && LicensePlateExists(vehicle.licensePlate.value) {
        return Failure(IllegalArgument("License plate already exists"));
      }
      if HasPlate(vehicle) {
        NotFoundNowhere(table, (v: Vehicle) => v.licensePlate == vehicle.licensePlate);
      }
      var created := vehicle.(id := Some(newId));
      InsertKeepsRegistry(table, newId, created);
      table := Insert(table, newId, created);
      r := Success(created);
    }
  }
}
