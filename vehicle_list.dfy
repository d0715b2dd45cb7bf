/**
 * The vehicle list: the technician list's freshness rules, plus a type icon
 * looked up by the vehicle's `type` with a fallback, and an in-use label.
 */
module VehicleList {
  import opened Js
  import opened Fleet
  import TechniciansList

  /** A vehicle, with the fields the list reads; `vtype` is the `type` field as received. */
  datatype Vehicle = Vehicle(
    id: string,
    name: string,
    plateNumber: Nullish<string>,
    vtype: string,
    isActive: bool,
    lastSeen: Nullish<LastSeen>)

  const Truck := "\U{1F69B}"
  const Van := "\U{1F690}"
  const Car := "\U{1F697}"
  const Motorcycle := "\U{1F3CD}"
  const OtherVehicle := "\U{1F699}"

  const TypeEmoji: map<string, string> := map[
    "truck" := Truck, "van" := Van, "car" := Car, "motorcycle" := Motorcycle, "other" := OtherVehicle]

  /** `TYPE_EMOJI[v.type] ?? "🚙"`. */
  function TypeIcon(vtype: string): (icon: string)
    ensures vtype == "truck" ==> icon == Truck
    ensures vtype == "van" ==> icon == Van
    ensures vtype == "car" ==> icon == Car
    ensures vtype == "motorcycle" ==> icon == Motorcycle
    ensures vtype !in {"truck", "van", "car", "motorcycle"} ==> icon == OtherVehicle
    ensures icon in {Truck, Van, Car, Motorcycle, OtherVehicle}
  {
    if vtype in TypeEmoji then TypeEmoji[vtype] else OtherVehicle
  }

  /** `v.lastSeen?.speed ?? 0`. */
  function VehicleSpeed(v: Vehicle): real {
    if v.lastSeen.Val? then CoalesceTo(v.lastSeen.v.speed, 0.0) else 0.0
  }

  datatype VehicleRow = VehicleRow(
    id: string,
    highlighted: bool,
    icon: string,
    name: string,
    plateNumber: Option<string>,
    speed: real,
    freshness: TechniciansList.Freshness,
    freshnessClass: string,
    activeLabel: string)

  function Row(v: Vehicle, selectedId: Option<string>, now: int, parseTime: string -> int): (row: VehicleRow)
    ensures row.id == v.id && row.name == v.name
    ensures row.highlighted <==> selectedId == Some(v.id)
    ensures row.icon == TypeIcon(v.vtype)
    ensures row.plateNumber.Some? <==> TruthyString(v.plateNumber)
    ensures row.plateNumber.Some? ==> row.plateNumber.value == v.plateNumber.v
    ensures row.speed == VehicleSpeed(v)
    ensures !v.lastSeen.Val? || !v.lastSeen.v.speed.Val? ==> row.speed == 0.0
    ensures row.freshness == TechniciansList.FreshnessLabel(TechniciansList.Age(v.lastSeen, now, parseTime))
    ensures row.freshnessClass == TechniciansList.FreshnessClass(TechniciansList.Age(v.lastSeen, now, parseTime))
    ensures row.activeLabel == (if v.isActive then "In Use" else "Not Active")
  {
    var age := TechniciansList.Age(v.lastSeen, now, parseTime);
    VehicleRow(
      v.id,
      selectedId == Some(v.id),
      TypeIcon(v.vtype),
      v.name,
      if TruthyString(v.plateNumber) then Some(v.plateNumber.v) else None,
      VehicleSpeed(v),
      TechniciansList.FreshnessLabel(age),
      TechniciansList.FreshnessClass(age),
      if v.isActive then "In Use" else "Not Active")
  }

  datatype VehicleListView = Placeholder(message: string) | Rows(rows: seq<VehicleRow>)

  /** The list: a placeholder for no vehicles, else one row per vehicle in order, row `i` read at `clock(i)`. */
  function View(vs: seq<Vehicle>, selectedId: Option<string>, clock: nat -> int, parseTime: string -> int): (view: VehicleListView)
    ensures view.Placeholder? <==> vs == []
    ensures view.Placeholder? ==> view.message == "No vehicles online"
    ensures view.Rows? ==> |view.rows| == |vs| && forall i :: 0 <= i < |vs| ==> view.rows[i].id == vs[i].id
    ensures view.Rows? ==> forall i :: 0 <= i < |vs| ==> view.rows[i] == Row(vs[i], selectedId, clock(i), parseTime)
  {
    if |vs| == 0 then Placeholder("No vehicles online")
    else
      var rows := seq(|vs|, i requires 0 <= i < |vs| => Row(vs[i], selectedId, clock(i), parseTime));
      assert forall i :: 0 <= i < |vs| ==> rows[i] == Row(vs[i], selectedId, clock(i), parseTime);
      Rows(rows)
  }

  /** A vehicle and a technician with the same last-seen block and clock get the same freshness label and colour. */
  lemma SameClassifierAsTechnicians(v: Vehicle, t: Technician, selectedId: Option<string>, now: int, parseTime: string -> int)
    requires v.lastSeen == t.lastSeen
    ensures Row(v, selectedId, now, parseTime).freshness == TechniciansList.Row(t, selectedId, now, parseTime).freshness
    ensures Row(v, selectedId, now, parseTime).freshnessClass == TechniciansList.Row(t, selectedId, now, parseTime).freshnessClass
    ensures VehicleSpeed(v) == Speed(t)
  {
  }
}
