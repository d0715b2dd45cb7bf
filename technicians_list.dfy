/**
 * The technician list: one row per technician with its speed, how long ago it
 * last reported, a freshness label and colour, and whether it is on shift.
 * "Now" is a parameter in milliseconds; `parseTime` stands for
 * `new Date(ts).getTime()`.
 */
module TechniciansList {
  import opened Js
  import opened Fleet

  // ---------------------------------------------------------------------------
  // Freshness classifier (shared with the vehicle list)
  // ---------------------------------------------------------------------------

  /** `lastSeen?.timestamp ? Math.floor((now - time(ts)) / 1000) : null`. */
  function Age(lastSeen: Nullish<LastSeen>, now: int, parseTime: string -> int): (age: Option<int>)
    ensures age.None? <==> !lastSeen.Val? || !TruthyString(lastSeen.v.timestamp)
    ensures age.Some? ==>
              var elapsed := now - parseTime(lastSeen.v.timestamp.v);
              age.value * 1000 <= elapsed < age.value * 1000 + 1000
  {
    if lastSeen.Val? && TruthyString(lastSeen.v.timestamp) then
      Some((now - parseTime(lastSeen.v.timestamp.v)) / 1000)
    else None
  }

  /** Stale: an age is known and is over two minutes. */
  predicate IsStale(age: Option<int>) {
    age.Some? && age.value > 120
  }

  datatype Freshness = NoData | SecondsAgo(seconds: int) | Stale

  /** The label: no data without an age, "STALE" from five minutes on, the age in seconds otherwise. */
  function FreshnessLabel(age: Option<int>): (f: Freshness)
    ensures f == NoData <==> age.None?
    ensures f == Stale <==> age.Some? && age.value >= 300
    ensures f.SecondsAgo? <==> age.Some? && age.value < 300
    ensures f.SecondsAgo? ==> f.seconds == age.value
  {
    if age.None? then NoData
    else if IsStale(age) then (if age.value < 300 then SecondsAgo(age.value) else Stale)
    else SecondsAgo(age.value)
  }

  const AmberClass := "text-amber-400"
  const EmeraldClass := "text-emerald-400"
  const SlateClass := "text-slate-500"

  /** The colour class of the freshness label. */
  function FreshnessClass(age: Option<int>): (c: string)
    ensures c == AmberClass <==> IsStale(age)
    ensures c == EmeraldClass <==> age.Some? && age.value <= 120
    ensures c == SlateClass <==> age.None?
  {
    if IsStale(age) then AmberClass else if age.Some? then EmeraldClass else SlateClass
  }

  /** A "STALE" label is always shown in amber; an amber label between two and five minutes still shows the seconds. */
  lemma StaleLabelIsAmber(age: Option<int>)
    ensures FreshnessLabel(age) == Stale ==> FreshnessClass(age) == AmberClass
    ensures FreshnessClass(age) == AmberClass && FreshnessLabel(age) != Stale ==> 120 < age.value < 300
  {
  }

  /** As the clock advances, a known age never decreases, so a stale row stays stale. */
  lemma AgeMonotone(lastSeen: Nullish<LastSeen>, now: int, later: int, parseTime: string -> int)
    requires now <= later
    ensures Age(lastSeen, now, parseTime).Some? <==> Age(lastSeen, later, parseTime).Some?
    ensures Age(lastSeen, now, parseTime).Some? ==>
              Age(lastSeen, now, parseTime).value <= Age(lastSeen, later, parseTime).value
    ensures IsStale(Age(lastSeen, now, parseTime)) ==> IsStale(Age(lastSeen, later, parseTime))
  {
    var a := Age(lastSeen, now, parseTime);
    var b := Age(lastSeen, later, parseTime);
    if a.Some? {
      // from the bounds Age states: a*1000 <= e1 <= e2 < b*1000 + 1000
      assert a.value * 1000 < b.value * 1000 + 1000;
    }
  }

  // ---------------------------------------------------------------------------
  // Rows
  // ---------------------------------------------------------------------------

  /** What a technician row shows, apart from markup. */
  datatype TechnicianRow = TechnicianRow(
    id: string,
    highlighted: bool,
    name: string,
    employeeId: Option<string>,
    device: Option<string>,
    speed: real,
    freshness: Freshness,
    freshnessClass: string,
    shiftLabel: string)

  /** `t.userId?.deviceId` when truthy; otherwise the row says no device is linked. */
  function DeviceOf(t: Technician): (d: Option<string>)
    ensures d.Some? <==> t.userId.Val? && t.userId.v.deviceId.Val? && t.userId.v.deviceId.v != ""
    ensures d.Some? ==> d.value == t.userId.v.deviceId.v
  {
    if t.userId.Val? && TruthyString(t.userId.v.deviceId) then Some(t.userId.v.deviceId.v) else None
  }

  function Row(t: Technician, selectedId: Option<string>, now: int, parseTime: string -> int): (row: TechnicianRow)
    ensures row.id == t.id && row.name == t.name
    ensures row.highlighted <==> selectedId == Some(t.id)
    ensures row.speed == Speed(t)
    ensures !t.lastSeen.Val? || !t.lastSeen.v.speed.Val? ==> row.speed == 0.0
    ensures row.employeeId == (if t.employeeId != "" then Some(t.employeeId) else None)
    ensures row.device == DeviceOf(t)
    ensures row.freshness == FreshnessLabel(Age(t.lastSeen, now, parseTime))
    ensures row.freshnessClass == FreshnessClass(Age(t.lastSeen, now, parseTime))
    ensures row.shiftLabel == (if t.inShift then "In-Shift" else "Not in Shift")
  {
    var age := Age(t.lastSeen, now, parseTime);
    TechnicianRow(
      t.id,
      selectedId == Some(t.id),
      t.name,
      if t.employeeId != "" then Some(t.employeeId) else None,
      DeviceOf(t),
      Speed(t),
      FreshnessLabel(age),
      FreshnessClass(age),
      if t.inShift then "In-Shift" else "Not in Shift")
  }

  datatype ListView = Placeholder(message: string) | Rows(rows: seq<TechnicianRow>)

  /**
   * The list: a placeholder exactly when there is nobody to show, else one row
   * per technician in order. Each row reads the clock itself; `clock(i)` is the
   * reading taken for row `i`.
   */
  function View(ts: seq<Technician>, selectedId: Option<string>, clock: nat -> int, parseTime: string -> int): (v: ListView)
    ensures v.Placeholder? <==> ts == []
    ensures v.Placeholder? ==> v.message == "No technicians online"
    ensures v.Rows? ==> |v.rows| == |ts| && forall i :: 0 <= i < |ts| ==> v.rows[i].id == ts[i].id
    ensures v.Rows? ==> forall i :: 0 <= i < |ts| ==> v.rows[i] == Row(ts[i], selectedId, clock(i), parseTime)
  {
    if |ts| == 0 then Placeholder("No technicians online")
    else
      var rows := seq(|ts|, i requires 0 <= i < |ts| => Row(ts[i], selectedId, clock(i), parseTime));
      assert forall i :: 0 <= i < |ts| ==> rows[i] == Row(ts[i], selectedId, clock(i), parseTime);
      Rows(rows)
  }

  /** With distinct ids, at most one row is highlighted, and none without a selection. */
  lemma AtMostOneHighlighted(ts: seq<Technician>, selectedId: Option<string>, clock: nat -> int, parseTime: string -> int)
    requires forall i, j :: 0 <= i < j < |ts| ==> ts[i].id != ts[j].id
    ensures var v := View(ts, selectedId, clock, parseTime);
            v.Rows? ==> forall i, j :: 0 <= i < |ts| && 0 <= j < |ts| && v.rows[i].highlighted && v.rows[j].highlighted ==> i == j
    ensures var v := View(ts, selectedId, clock, parseTime);
            v.Rows? && selectedId.None? ==> forall i :: 0 <= i < |ts| ==> !v.rows[i].highlighted
  {
  }
}
