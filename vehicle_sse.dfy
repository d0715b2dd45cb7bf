/**
 * The vehicle stream hook. Unlike the technician page it keeps untyped JSON
 * objects and merges an event with a shallow spread `{...prev[id], ...update}`:
 * keys the event carries win (a `null` included), keys it lacks keep their
 * prior values, and an event for an unknown `vehicleId` creates the entry.
 */
module VehicleSse {
  import opened Js
  import opened Records
  import opened EventStream

  /**
   * A JSON value. A number is held as its canonical JavaScript string form
   * (`String(n)`), which is all the hook ever does with one.
   */
  datatype Json =
    | JNull
    | JBool(b: bool)
    | JNum(text: string)
    | JStr(s: string)
    | JArr(items: seq<Json>)
    | JObj(fields: map<string, Json>)

  /** A vehicle state or update: the own fields of a parsed JSON object. */
  type VehicleState = map<string, Json>

  /** `String(v)`: the property key JavaScript makes of a value. */
  function ToPropertyKey(v: Json): (k: string)
    ensures v.JStr? ==> k == v.s
    ensures v.JNum? ==> k == v.text
    ensures v.JNull? ==> k == "null"
    ensures v.JBool? ==> k == (if v.b then "true" else "false")
    ensures v.JObj? ==> k == "[object Object]"
    ensures v == JArr([]) ==> k == ""
    decreases v, 1
  {
    match v
    case JNull => "null"
    case JBool(b) => if b then "true" else "false"
    case JNum(text) => text
    case JStr(s) => s
    case JArr(items) => Join(items)
    case JObj(_) => "[object Object]"
  }

  /** `items.join(",")`, where `null` items print as empty. */
  function Join(items: seq<Json>): string
    decreases items, 0
  {
    if items == [] then ""
    else
      var first := if items[0] == JNull then "" else ToPropertyKey(items[0]);
      if |items| == 1 then first else first + "," + Join(items[1..])
  }

  /** The key `map[v.vehicleId]` assigns under; a missing field is the key `"undefined"`. */
  function VehicleKey(v: VehicleState): (k: string)
    ensures "vehicleId" !in v ==> k == "undefined"
    ensures "vehicleId" in v && v["vehicleId"].JStr? ==> k == v["vehicleId"].s
    ensures "vehicleId" in v && v["vehicleId"].JNum? ==> k == v["vehicleId"].text
  {
    if "vehicleId" in v then ToPropertyKey(v["vehicleId"]) else "undefined"
  }

  /** The updater `prev => ({...prev, [id]: {...prev[id], ...update}})`. */
  function ApplyVehicleUpdate(prev: map<string, VehicleState>, update: VehicleState): (r: map<string, VehicleState>)
    ensures r.Keys == prev.Keys + {VehicleKey(update)}
    // an unknown id gets an entry equal to the update's own fields
    ensures VehicleKey(update) !in prev ==> r[VehicleKey(update)] == update
    // for a known id the update's keys win and the other keys keep their values
    ensures VehicleKey(update) in prev ==>
              && r[VehicleKey(update)].Keys == prev[VehicleKey(update)].Keys + update.Keys
              && (forall f :: f in update ==> r[VehicleKey(update)][f] == update[f])
              && (forall f :: f in prev[VehicleKey(update)] && f !in update ==>
                               r[VehicleKey(update)][f] == prev[VehicleKey(update)][f])
    // every other vehicle is untouched
    ensures forall k :: k in prev && k != VehicleKey(update) ==> r[k] == prev[k]
  {
    var key := VehicleKey(update);
    var base: VehicleState := if key in prev then prev[key] else map[];
    prev[key := base + update]
  }

  /** The same event applied twice gives what applying it once gives. */
  lemma ApplyVehicleUpdateIdempotent(prev: map<string, VehicleState>, update: VehicleState)
    ensures ApplyVehicleUpdate(ApplyVehicleUpdate(prev, update), update) == ApplyVehicleUpdate(prev, update)
  {
    var key := VehicleKey(update);
    var once := ApplyVehicleUpdate(prev, update);
    assert once[key] + update == once[key];
  }

  /** A spread copies `null` too: an explicit `null` in an event erases the stored value. */
  lemma NullOverwrites(prev: map<string, VehicleState>, update: VehicleState, f: string)
    requires f in update && update[f] == JNull
    ensures ApplyVehicleUpdate(prev, update)[VehicleKey(update)][f] == JNull
  {
  }

  /** The snapshot loop `data.forEach(v => map[v.vehicleId] = v)`. */
  method BuildSnapshot(data: seq<VehicleState>) returns (m: map<string, VehicleState>)
    ensures m == IndexBy(data, VehicleKey)
    ensures forall v :: v in data ==> VehicleKey(v) in m
    ensures forall k :: k in m ==> VehicleKey(m[k]) == k
  {
    m := map[];
    var i := 0;
    while i < |data|
      invariant 0 <= i <= |data|
      invariant m == IndexBy(data[..i], VehicleKey)
    {
      assert data[..i + 1][..i] == data[..i];
      m := m[VehicleKey(data[i]) := data[i]];
      i := i + 1;
    }
    assert data[..|data|] == data;
  }

  /** The hook's state: the vehicle dictionary and the stream status. */
  class VehicleFeed {
    var vehicles: map<string, VehicleState>
    var status: SseStatus
    ghost var signals: seq<Signal>

    ghost predicate Valid()
      reads this
    {
      status == StatusAfter(signals)
    }

    constructor ()
      ensures Valid()
      ensures vehicles == map[] && status == Connecting
    {
      vehicles := map[];
      status := Connecting;
      signals := [];
    }

    /** The initial fetch once it settles; `None` is a failure caught by `console.error`. */
    method LoadSnapshot(fetched: Option<seq<VehicleState>>)
      requires Valid()
      modifies this
      ensures Valid()
      ensures fetched.None? ==> vehicles == old(vehicles)
      ensures fetched.Some? ==> vehicles == IndexBy(fetched.value, VehicleKey)
      ensures status == old(status) && signals == old(signals)
    {
      if fetched.Some? {
        vehicles := BuildSnapshot(fetched.value);
      }
    }

    method OnOpen()
      requires Valid()
      modifies this
      ensures Valid()
      ensures status == Live && signals == old(signals) + [Opened] && vehicles == old(vehicles)
    {
      status := Transition(status, Opened);
      signals := signals + [Opened];
    }

    method OnError()
      requires Valid()
      modifies this
      ensures Valid()
      ensures status == Error && signals == old(signals) + [Failed] && vehicles == old(vehicles)
    {
      status := Transition(status, Failed);
      signals := signals + [Failed];
    }

    /** `es.onmessage`; `parse` is `JSON.parse`, `None` where it throws. */
    method OnMessage(data: string, parse: string -> Option<VehicleState>)
      requires Valid()
      modifies this
      ensures Valid()
      ensures IsContentFree(data) || parse(data).None? ==> vehicles == old(vehicles)
      ensures !IsContentFree(data) && parse(data).Some? ==>
                vehicles == ApplyVehicleUpdate(old(vehicles), parse(data).value)
      ensures status == old(status) && signals == old(signals)
    {
      if IsContentFree(data) {
        return;
      }
      var parsed := parse(data);
      if parsed.Some? {
        vehicles := ApplyVehicleUpdate(vehicles, parsed.value);
      }
    }
  }
}
