/**
 * The shapes of the tracked entities as the dashboard receives them: a
 * technician with an optional device user and an optional last-seen position.
 * Only the fields the dashboard reads are kept.
 */
module Fleet {
  import opened Js

  /** The device user linked to a technician (the fields the dashboard shows). */
  datatype User = User(id: string, deviceId: Nullish<string>)

  /**
   * The last reported position. Every field is independently optional: the
   * snapshot may lack one, and the stream merge fills them one by one.
   */
  datatype LastSeen = LastSeen(
    lat: Nullish<real>,
    lng: Nullish<real>,
    speed: Nullish<real>,
    heading: Nullish<real>,
    timestamp: Nullish<string>)

  /** A technician; `id` is the record key `_id`. */
  datatype Technician = Technician(
    id: string,
    name: string,
    employeeId: string,
    userId: Nullish<User>,
    isActive: bool,
    inShift: bool,
    lastSeen: Nullish<LastSeen>)

  /** `t._id`, as a function value for keyed lookups. */
  function IdOf(t: Technician): string {
    t.id
  }

  /** `t.lastSeen?.speed ?? 0`. */
  function Speed(t: Technician): (s: real)
    ensures t.lastSeen.Val? && t.lastSeen.v.speed.Val? ==> s == t.lastSeen.v.speed.v
    ensures !t.lastSeen.Val? || !t.lastSeen.v.speed.Val? ==> s == 0.0
  {
    if t.lastSeen.Val? then CoalesceTo(t.lastSeen.v.speed, 0.0) else 0.0
  }

  /** `t.lastSeen?.heading ?? 0`. */
  function Heading(t: Technician): (h: real)
    ensures t.lastSeen.Val? && t.lastSeen.v.heading.Val? ==> h == t.lastSeen.v.heading.v
    ensures !t.lastSeen.Val? || !t.lastSeen.v.heading.Val? ==> h == 0.0
  {
    if t.lastSeen.Val? then CoalesceTo(t.lastSeen.v.heading, 0.0) else 0.0
  }

  /** `t.lastSeen?.lat && t.lastSeen?.lng`: both coordinates present and non-zero. */
  function HasPosition(t: Technician): (b: bool)
    ensures b <==> t.lastSeen.Val? && t.lastSeen.v.lat.Val? && t.lastSeen.v.lng.Val?
                   && t.lastSeen.v.lat.v != 0.0 && t.lastSeen.v.lng.v != 0.0
  {
    t.lastSeen.Val? && TruthyNumber(t.lastSeen.v.lat) && TruthyNumber(t.lastSeen.v.lng)
  }
}
