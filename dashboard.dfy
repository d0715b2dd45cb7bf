/**
 * The live technician dashboard page: it loads a snapshot of all technicians
 * into a record keyed by `_id`, then merges each flat stream event into the
 * nested technician it names. Only non-null fields of an event overwrite,
 * `lastSeen` is merged field by field, and events for unknown technicians
 * are dropped. The array handed to the map, list and statistics is set from
 * the snapshot only; stream merges change the record alone.
 */
module Dashboard {
  import opened Js
  import opened Fleet
  import opened Records
  import opened EventStream

  /** One parsed stream event: flat, every field optional. Field names follow the payload. */
  datatype TechnicianUpdate = TechnicianUpdate(
    technicianId: Nullish<string>,
    Name: Nullish<string>,
    vehicleemployeeId: Nullish<string>,
    userId: Nullish<User>,
    inUse: Nullish<bool>,
    lat: Nullish<real>,
    lng: Nullish<real>,
    speed: Nullish<real>,
    heading: Nullish<real>,
    timestamp: Nullish<string>)

  /** The property name JavaScript looks up for `prev[update.technicianId]`. */
  function RecordKey(id: Nullish<string>): (k: string)
    ensures id.Val? ==> k == id.v
    ensures id.Null? ==> k == "null"
    ensures id.Undefined? ==> k == "undefined"
  {
    match id
    case Val(s) => s
    case Null => "null"
    case Undefined => "undefined"
  }

  /** `technician.lastSeen || {}`, read through `?.`: a missing block has all fields undefined. */
  function PriorLastSeen(t: Technician): LastSeen {
    if t.lastSeen.Val? then t.lastSeen.v
    else LastSeen(Undefined, Undefined, Undefined, Undefined, Undefined)
  }

  /** The merged technician built for a known id. */
  function Merge(t: Technician, u: TechnicianUpdate): (r: Technician)
    // fields the event cannot carry are kept
    ensures r.id == t.id && r.isActive == t.isActive
    // each mapped top-level field is replaced exactly when the event carries a non-null value
    ensures r.name == (if u.Name.Val? then u.Name.v else t.name)
    ensures r.employeeId == (if u.vehicleemployeeId.Val? then u.vehicleemployeeId.v else t.employeeId)
    ensures r.userId == (if u.userId.Val? then u.userId else t.userId)
    ensures r.inShift == (if u.inUse.Val? then u.inUse.v else t.inShift)
    // lastSeen becomes an object; each of its fields is replaced exactly when the event carries it
    ensures r.lastSeen.Val?
    ensures r.lastSeen.v.lat == (if u.lat.Val? then u.lat else PriorLastSeen(t).lat)
    ensures r.lastSeen.v.lng == (if u.lng.Val? then u.lng else PriorLastSeen(t).lng)
    ensures r.lastSeen.v.speed == (if u.speed.Val? then u.speed else PriorLastSeen(t).speed)
    ensures r.lastSeen.v.heading == (if u.heading.Val? then u.heading else PriorLastSeen(t).heading)
    ensures r.lastSeen.v.timestamp == (if u.timestamp.Val? then u.timestamp else PriorLastSeen(t).timestamp)
  {
    var prior := PriorLastSeen(t);
    t.(
      name := CoalesceTo(u.Name, t.name),
      employeeId := CoalesceTo(u.vehicleemployeeId, t.employeeId),
      userId := Coalesce(u.userId, t.userId),
      inShift := CoalesceTo(u.inUse, t.inShift),
      lastSeen := Val(LastSeen(
        Coalesce(u.lat, prior.lat),
        Coalesce(u.lng, prior.lng),
        Coalesce(u.speed, prior.speed),
        Coalesce(u.heading, prior.heading),
        Coalesce(u.timestamp, prior.timestamp))))
  }

  /** The `setTechnicians` updater for one event. */
  function ApplyUpdate(rec: map<string, Technician>, u: TechnicianUpdate): (r: map<string, Technician>)
    ensures RecordKey(u.technicianId) !in rec ==> r == rec
    ensures r.Keys == rec.Keys
    ensures forall k :: k in rec && k != RecordKey(u.technicianId) ==> r[k] == rec[k]
    ensures RecordKey(u.technicianId) in rec ==>
              r[RecordKey(u.technicianId)] == Merge(rec[RecordKey(u.technicianId)], u)
  {
    var key := RecordKey(u.technicianId);
    if key !in rec then rec else rec[key := Merge(rec[key], u)]
  }

  /** Every entry of the record is stored under its own `_id`. */
  predicate KeyedById(rec: map<string, Technician>) {
    forall k :: k in rec ==> rec[k].id == k
  }

  /** Merging keeps every entry under its own `_id`. */
  lemma ApplyUpdateKeepsKeying(rec: map<string, Technician>, u: TechnicianUpdate)
    requires KeyedById(rec)
    ensures KeyedById(ApplyUpdate(rec, u))
  {
  }

  /** The same event applied twice gives the same technician, and the same record, as once. */
  lemma MergeIdempotent(rec: map<string, Technician>, t: Technician, u: TechnicianUpdate)
    ensures Merge(Merge(t, u), u) == Merge(t, u)
    ensures ApplyUpdate(ApplyUpdate(rec, u), u) == ApplyUpdate(rec, u)
  {
    var key := RecordKey(u.technicianId);
    if key in rec {
      var once := Merge(rec[key], u);
      assert Merge(once, u) == once;
      assert ApplyUpdate(rec, u)[key := Merge(once, u)] == ApplyUpdate(rec, u);
    }
  }

  /**
   * `??` differs from `||`: an event carrying speed 0 and `inUse` false
   * overwrites a moving, in-shift technician.
   */
  lemma FalsyValuesOverwrite(t: Technician, u: TechnicianUpdate)
    requires u.speed == Val(0.0) && u.inUse == Val(false)
    ensures Merge(t, u).inShift == false
    ensures Speed(Merge(t, u)) == 0.0
  {
  }

  /**
   * A technician at (1, 1) with speed 0 and no heading or timestamp receives
   * `{technicianId, speed: 12}`: only the speed changes.
   */
  lemma SpeedOnlyScenario(t: Technician, u: TechnicianUpdate)
    requires t.lastSeen == Val(LastSeen(Val(1.0), Val(1.0), Val(0.0), Undefined, Undefined))
    requires u == TechnicianUpdate(Val(t.id), Undefined, Undefined, Undefined, Undefined,
                                   Undefined, Undefined, Val(12.0), Undefined, Undefined)
    ensures Merge(t, u) == t.(lastSeen := Val(LastSeen(Val(1.0), Val(1.0), Val(12.0), Undefined, Undefined)))
  {
  }

  /** The snapshot record: `Object.fromEntries(data.map(v => [v._id, v]))`. */
  function SnapshotRecord(data: seq<Technician>): (rec: map<string, Technician>)
    ensures KeyedById(rec)
    ensures forall t :: t in data ==> t.id in rec
    ensures forall k :: k in rec ==> rec[k] in data
  {
    IndexBy(data, IdOf)
  }

  /** In the snapshot record, a later technician with the same `_id` replaces an earlier one. */
  lemma SnapshotLaterDuplicateWins(data: seq<Technician>, j: nat)
    requires j < |data|
    requires forall j' :: j < j' < |data| ==> data[j'].id != data[j].id
    ensures SnapshotRecord(data)[data[j].id] == data[j]
  {
    IndexByLastWins(data, IdOf, j);
  }

  /** The snapshot array `Object.values(record)`: one technician per `_id`, in first-seen order. */
  function SnapshotList(data: seq<Technician>): (ts: seq<Technician>)
    ensures |ts| == |SnapshotRecord(data)|
    ensures forall i :: 0 <= i < |ts| ==> ts[i].id in SnapshotRecord(data) && SnapshotRecord(data)[ts[i].id] == ts[i]
    ensures forall i, j :: 0 <= i < j < |ts| ==> ts[i].id != ts[j].id
  {
    var ts := Values(data, IdOf);
    var ks := InsertionKeys(data, IdOf);
    var m := IndexBy(data, IdOf);
    assert m == SnapshotRecord(data);
    forall i | 0 <= i < |ts|
      ensures ts[i].id == ks[i] && ts[i].id in m && m[ts[i].id] == ts[i]
    {
      assert ks[i] in ks;
      assert ts[i] == m[ks[i]];
    }
    ts
  }

  /** The page's state cells: the technician record, the array passed to the views, and the stream status. */
  class DashboardState {
    var technicians: map<string, Technician>
    var toPassTechnicians: seq<Technician>
    var sseStatus: SseStatus
    ghost var signals: seq<Signal>

    ghost predicate Valid()
      reads this
    {
      && KeyedById(technicians)
      && sseStatus == StatusAfter(signals)
      && |toPassTechnicians| == |technicians|
      && (forall i :: 0 <= i < |toPassTechnicians| ==> toPassTechnicians[i].id in technicians)
      && (forall i, j :: 0 <= i < j < |toPassTechnicians| ==> toPassTechnicians[i].id != toPassTechnicians[j].id)
    }

    /** The page mounts with an empty record and the stream connecting. */
    constructor ()
      ensures Valid()
      ensures technicians == map[] && toPassTechnicians == [] && sseStatus == Connecting
    {
      technicians := map[];
      toPassTechnicians := [];
      sseStatus := Connecting;
      signals := [];
    }

    /**
     * `loadTechnicians` once the fetch settles: `None` is a failed request or
     * a body that is not an array, which is logged and leaves the state alone.
     */
    method LoadSnapshot(fetched: Option<seq<Technician>>)
      requires Valid()
      modifies this
      ensures Valid()
      ensures fetched.None? ==> technicians == old(technicians) && toPassTechnicians == old(toPassTechnicians)
      ensures fetched.Some? ==> technicians == SnapshotRecord(fetched.value)
      ensures fetched.Some? ==> toPassTechnicians == SnapshotList(fetched.value)
      ensures sseStatus == old(sseStatus) && signals == old(signals)
    {
      if fetched.Some? {
        var data := fetched.value;
        toPassTechnicians := SnapshotList(data);
        technicians := SnapshotRecord(data);
      }
    }

    /** `es.onopen`. */
    method OnOpen()
      requires Valid()
      modifies this
      ensures Valid()
      ensures sseStatus == Live && signals == old(signals) + [Opened]
      ensures technicians == old(technicians) && toPassTechnicians == old(toPassTechnicians)
    {
      sseStatus := Transition(sseStatus, Opened);
      signals := signals + [Opened];
    }

    /** `es.onerror`: the record is kept, stale data rather than a blank map. */
    method OnError()
      requires Valid()
      modifies this
      ensures Valid()
      ensures sseStatus == Error && signals == old(signals) + [Failed]
      ensures technicians == old(technicians) && toPassTechnicians == old(toPassTechnicians)
    {
      sseStatus := Transition(sseStatus, Failed);
      signals := signals + [Failed];
    }

    /**
     * `es.onmessage`. `parse` stands for `JSON.parse` with its fields read off
     * the result; `None` is a payload it rejects.
     */
    method OnMessage(data: string, parse: string -> Option<TechnicianUpdate>)
      requires Valid()
      modifies this
      ensures Valid()
      ensures IsContentFree(data) || parse(data).None? ==> technicians == old(technicians)
      ensures !IsContentFree(data) && parse(data).Some? ==>
                technicians == ApplyUpdate(old(technicians), parse(data).value)
      ensures toPassTechnicians == old(toPassTechnicians)
      ensures sseStatus == old(sseStatus) && signals == old(signals)
    {
      if IsContentFree(data) {
        return;
      }
      var parsed := parse(data);
      if parsed.Some? {
        ApplyUpdateKeepsKeying(technicians, parsed.value);
        technicians := ApplyUpdate(technicians, parsed.value);
      }
    }

    /** `selectedId ? technicians[selectedId] : null`: the side panel reads the record, not the array. */
    function SelectedTechnician(selectedId: Option<string>): (r: Option<Technician>)
      reads this
      ensures r.Some? <==> selectedId.Some? && selectedId.value != "" && selectedId.value in technicians
      ensures r.Some? ==> r.value == technicians[selectedId.value]
    {
      if selectedId.Some? && selectedId.value != "" && selectedId.value in technicians
      then Some(technicians[selectedId.value])
      else None
    }
  }
}
