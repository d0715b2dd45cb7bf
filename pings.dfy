/**
 * One historical GPS sample, as the history endpoint returns it. The ISO
 * timestamp is held already converted to milliseconds since the epoch.
 */
module Pings {
  import opened Js

  datatype Ping = Ping(lat: real, lng: real, timestamp: int, speedKmh: Nullish<real>)

  /** `p.speedKmh ?? 0`. */
  function SpeedKmh(p: Ping): real {
    CoalesceTo(p.speedKmh, 0.0)
  }
}
