/**
 * The live map: a colour per technician from a 32-bit string hash, an icon
 * whose size marks the selection, and an effect that keeps a dictionary of
 * marker handles in step with the technician list: create a handle for a new
 * id, update an existing handle in place, delete handles whose technician is
 * gone. Handles are opaque; each is a number drawn from a counter, so that
 * "the same handle" can be stated as "the same number".
 */
module LiveMap {
  import opened Js
  import opened Seqs
  import opened Fleet

  // ---------------------------------------------------------------------------
  // Colour hash
  // ---------------------------------------------------------------------------

  const TwoTo31: int := 0x8000_0000
  const TwoTo32: int := 0x1_0000_0000

  /** JavaScript's ToInt32: the signed 32-bit integer congruent to `x` modulo 2^32. */
  function ToInt32(x: int): (r: int)
    ensures -TwoTo31 <= r < TwoTo31
    ensures (x - r) % TwoTo32 == 0
  {
    var m := x % TwoTo32;
    if m >= TwoTo31 then m - TwoTo32 else m
  }

  /** Two numbers congruent modulo 2^32 have the same ToInt32. */
  lemma ToInt32Congruent(a: int, b: int)
    requires (a - b) % TwoTo32 == 0
    ensures ToInt32(a) == ToInt32(b)
  {
    assert a % TwoTo32 == b % TwoTo32;
  }

  /** The hash of a string: start at 0 and fold each code unit `c` in as `ToInt32(31 * hash + c)`. */
  function StringHash(s: string): (h: int)
    ensures -TwoTo31 <= h < TwoTo31
  {
    if s == [] then 0
    else ToInt32(31 * StringHash(s[..|s| - 1]) + s[|s| - 1] as int)
  }

  /** `Math.abs(hash) % modulo`. */
  function HashIndex(s: string, modulo: int): (index: int)
    requires modulo > 0
    ensures 0 <= index < modulo
  {
    var h := StringHash(s);
    (if h < 0 then -h else h) % modulo
  }

  /** One loop step, `hash = (hash << 5) - hash + c; hash |= 0`, is the step `31 * hash + c` modulo 2^32. */
  lemma ShiftStep(hash: int, c: int)
    ensures ToInt32(ToInt32(hash * 32) - hash + c) == ToInt32(31 * hash + c)
  {
    var shifted := ToInt32(hash * 32);
    assert (hash * 32 - shifted) % TwoTo32 == 0;
    assert ((shifted - hash + c) - (31 * hash + c)) == -(hash * 32 - shifted);
    ToInt32Congruent(shifted - hash + c, 31 * hash + c);
  }

  /** `hashStringToIndex(str, modulo)`, its loop included. The only caller passes the palette length. */
  method HashStringToIndex(str: string, modulo: int) returns (index: int)
    requires modulo > 0
    ensures index == HashIndex(str, modulo)
    ensures 0 <= index < modulo
  {
    var hash := 0;
    var i := 0;
    while i < |str|
      invariant 0 <= i <= |str|
      invariant hash == StringHash(str[..i])
    {
      var prefix := str[..i + 1];
      assert prefix[..|prefix| - 1] == str[..i] && prefix[|prefix| - 1] == str[i];
      assert StringHash(prefix) == ToInt32(31 * hash + str[i] as int);
      ShiftStep(hash, str[i] as int);
      hash := ToInt32(ToInt32(hash * 32) - hash + str[i] as int);
      i := i + 1;
    }
    assert str[..|str|] == str;
    index := (if hash < 0 then -hash else hash) % modulo;
  }

  const TechnicianColors: seq<string> := [
    "#FF6B35", "#4ECDC4", "#38BDF8", "#A78BFA", "#22C55E",
    "#F97316", "#EC4899", "#EAB308", "#06B6D4", "#8B5CF6"
  ]

  /** `getTechnicianColor`: a palette entry chosen by the id's hash alone. */
  function TechnicianColor(id: string): (c: string)
    ensures c in TechnicianColors
    ensures c == TechnicianColors[HashIndex(id, 10)]
  {
    TechnicianColors[HashIndex(id, |TechnicianColors|)]
  }

  // ---------------------------------------------------------------------------
  // Icons
  // ---------------------------------------------------------------------------

  /** What `createTechnicianIcon` draws: colour, square size, arrow rotation, and whether the halo circle is shown. */
  datatype Icon = Icon(color: string, size: int, heading: real, halo: bool)

  function TechnicianIcon(t: Technician, selected: bool): (icon: Icon)
    ensures icon.size == (if selected then 44 else 36)
    ensures icon.halo <==> selected
    ensures icon.color in TechnicianColors
    ensures icon.color == TechnicianColor(t.id)
    ensures icon.heading == Heading(t)
    ensures !t.lastSeen.Val? || !t.lastSeen.v.heading.Val? ==> icon.heading == 0.0
  {
    Icon(TechnicianColor(t.id), if selected then 44 else 36, Heading(t), selected)
  }

  // ---------------------------------------------------------------------------
  // Marker synchronisation
  // ---------------------------------------------------------------------------

  datatype LatLng = LatLng(lat: real, lng: real)

  /**
   * A marker handle: its identity `handle`, its current position and icon, and
   * the id its click handler was bound to when it was created.
   */
  datatype Marker = Marker(handle: nat, position: LatLng, icon: Icon, clickTarget: string)

  function PositionOf(t: Technician): LatLng
    requires HasPosition(t)
  {
    LatLng(t.lastSeen.v.lat.v, t.lastSeen.v.lng.v)
  }

  /** `technician._id === selectedId`. */
  predicate IsSelected(t: Technician, selectedId: Option<string>) {
    selectedId == Some(t.id)
  }

  ghost function Ids(ts: seq<Technician>): set<string> {
    set t | t in ts :: t.id
  }

  ghost function PositionedIds(ts: seq<Technician>): set<string> {
    set t | t in ts && HasPosition(t) :: t.id
  }

  /** Handles are below the counter, pairwise distinct, and each is keyed by the id its click handler reports. */
  ghost predicate HandlesValid(ms: map<string, Marker>, next: nat) {
    && (forall k :: k in ms ==> ms[k].handle < next && ms[k].clickTarget == k)
    && (forall k1, k2 :: k1 in ms && k2 in ms && k1 != k2 ==> ms[k1].handle != ms[k2].handle)
  }

  /** One `forEach` step of the marker effect: skip, move in place, or create. */
  function Upsert(ms: map<string, Marker>, next: nat, t: Technician, selectedId: Option<string>): (res: (map<string, Marker>, nat))
    ensures res.0.Keys == ms.Keys + (if HasPosition(t) then {t.id} else {})
    ensures res.1 == (if HasPosition(t) && t.id !in ms then next + 1 else next)
    ensures forall k :: k in ms ==> res.0[k].handle == ms[k].handle && res.0[k].clickTarget == ms[k].clickTarget
    ensures forall k :: k in res.0 && k !in ms ==> res.0[k].handle == next && res.0[k].clickTarget == k
    ensures forall k :: k in ms && (k != t.id || !HasPosition(t)) ==> res.0[k] == ms[k]
    ensures HasPosition(t) ==> res.0[t.id].position == PositionOf(t) &&
                               res.0[t.id].icon == TechnicianIcon(t, IsSelected(t, selectedId))
  {
    if !HasPosition(t) then (ms, next)
    else
      var icon := TechnicianIcon(t, IsSelected(t, selectedId));
      if t.id in ms then (ms[t.id := ms[t.id].(position := PositionOf(t), icon := icon)], next)
      else (ms[t.id := Marker(next, PositionOf(t), icon, t.id)], next + 1)
  }

  lemma PositionedIdsSnoc(init: seq<Technician>, t: Technician)
    ensures PositionedIds(init + [t]) == PositionedIds(init) + (if HasPosition(t) then {t.id} else {})
  {
    var ts := init + [t];
    forall id | id in PositionedIds(ts)
      ensures id in PositionedIds(init) + (if HasPosition(t) then {t.id} else {})
    {
      var w :| w in ts && HasPosition(w) && w.id == id;
      if w != t { assert w in init; }
    }
    forall id | id in PositionedIds(init)
      ensures id in PositionedIds(ts)
    {
      var w :| w in init && HasPosition(w) && w.id == id;
      assert w in ts;
    }
    if HasPosition(t) {
      assert t in ts;
    }
  }

  /**
   * `m` and counter `n` come from `ms` and `next` by upserting the ids `P`:
   * the keys grew by `P`, old handles and bindings are kept, new handles are
   * drawn from `[next, n)`, and markers outside `P` are untouched.
   */
  ghost predicate Extends(ms: map<string, Marker>, next: nat, m: map<string, Marker>, n: nat, P: set<string>) {
    && m.Keys == ms.Keys + P
    && next <= n
    && (forall k :: k in ms ==> m[k].handle == ms[k].handle && m[k].clickTarget == ms[k].clickTarget)
    && (forall k :: k in m && k !in ms ==> next <= m[k].handle < n && m[k].clickTarget == k)
    && (forall k :: k in ms && k !in P ==> m[k] == ms[k])
  }

  /** One more upsert extends the relation by the technician's id when it has a position. */
  lemma UpsertExtends(ms: map<string, Marker>, next: nat, m: map<string, Marker>, n: nat, P: set<string>,
                      t: Technician, selectedId: Option<string>)
    requires Extends(ms, next, m, n, P)
    ensures var res := Upsert(m, n, t, selectedId);
            Extends(ms, next, res.0, res.1, P + (if HasPosition(t) then {t.id} else {}))
  {
  }

  /** The first loop of the effect over the whole list. */
  function UpsertAll(ms: map<string, Marker>, next: nat, ts: seq<Technician>, selectedId: Option<string>): (res: (map<string, Marker>, nat))
    // a marker exists afterwards exactly for the old keys and the positioned technicians; old handles
    // and click bindings are kept, new ones come from the counter, unpositioned markers are untouched
    ensures Extends(ms, next, res.0, res.1, PositionedIds(ts))
  {
    if ts == [] then (ms, next)
    else
      var init := ts[..|ts| - 1];
      var t := ts[|ts| - 1];
      assert ts == init + [t];
      PositionedIdsSnoc(init, t);
      var prev := UpsertAll(ms, next, init, selectedId);
      UpsertExtends(ms, next, prev.0, prev.1, PositionedIds(init), t, selectedId);
      Upsert(prev.0, prev.1, t, selectedId)
  }

  /** A single step keeps handles distinct. */
  lemma UpsertKeepsHandlesValid(ms: map<string, Marker>, next: nat, t: Technician, selectedId: Option<string>)
    requires HandlesValid(ms, next)
    ensures var res := Upsert(ms, next, t, selectedId); HandlesValid(res.0, res.1)
  {
  }

  /** The whole first loop keeps handles distinct. */
  lemma {:induction false} UpsertAllKeepsHandlesValid(ms: map<string, Marker>, next: nat, ts: seq<Technician>, selectedId: Option<string>)
    requires HandlesValid(ms, next)
    ensures var res := UpsertAll(ms, next, ts, selectedId); HandlesValid(res.0, res.1)
  {
    if ts != [] {
      var init := ts[..|ts| - 1];
      UpsertAllKeepsHandlesValid(ms, next, init, selectedId);
      var prev := UpsertAll(ms, next, init, selectedId);
      UpsertKeepsHandlesValid(prev.0, prev.1, ts[|ts| - 1], selectedId);
    }
  }

  /** A positioned technician's marker shows the position and icon of the last positioned entry with its id. */
  lemma {:induction false} UpsertAllLastPositionWins(ms: map<string, Marker>, next: nat, ts: seq<Technician>, selectedId: Option<string>, j: nat)
    requires j < |ts| && HasPosition(ts[j])
    requires forall j' :: j < j' < |ts| && HasPosition(ts[j']) ==> ts[j'].id != ts[j].id
    ensures var res := UpsertAll(ms, next, ts, selectedId);
            && ts[j].id in res.0
            && res.0[ts[j].id].position == PositionOf(ts[j])
            && res.0[ts[j].id].icon == TechnicianIcon(ts[j], IsSelected(ts[j], selectedId))
  {
    var init := ts[..|ts| - 1];
    var t := ts[|ts| - 1];
    var prev := UpsertAll(ms, next, init, selectedId);
    assert UpsertAll(ms, next, ts, selectedId) == Upsert(prev.0, prev.1, t, selectedId);
    if j < |ts| - 1 {
      assert init[j] == ts[j];
      UpsertAllLastPositionWins(ms, next, init, selectedId, j);
      assert t.id != ts[j].id || !HasPosition(t);
    }
  }

  /** The markers whose id still names a technician. */
  function Prune(ms: map<string, Marker>, ids: set<string>): (r: map<string, Marker>)
    ensures r.Keys == ms.Keys * ids
    ensures forall k :: k in r ==> r[k] == ms[k]
  {
    map k | k in ms && k in ids :: ms[k]
  }

  datatype LayerMode = MapMode | SatelliteMode | HybridMode

  /** A tile layer as configured: URL template, attribution (if any) and maximum zoom. */
  datatype TileLayer = TileLayer(url: string, attribution: Option<string>, maxZoom: int)

  const StreetTiles := TileLayer(
    "https://{s}.basemaps.cartocdn.com/rastertiles/voyager_labels_under/{z}/{x}/{y}{r}.png",
    Some("© OpenStreetMap, © CartoDB"), 19)
  const SatelliteTiles := TileLayer(
    "https://server.arcgisonline.com/ArcGIS/rest/services/World_Imagery/MapServer/tile/{z}/{y}/{x}",
    Some("© Esri, Maxar, Earthstar Geographics"), 19)
  const HybridBaseTiles := TileLayer(
    "https://server.arcgisonline.com/ArcGIS/rest/services/World_Imagery/MapServer/tile/{z}/{y}/{x}",
    Some("© Esri, © OpenStreetMap, © CartoDB"), 19)
  const HybridLabelTiles := TileLayer(
    "https://{s}.basemaps.cartocdn.com/rastertiles/voyager_only_labels/{z}/{x}/{y}{r}.png",
    None, 19)

  /** The base layer for a mode. */
  function BaseTiles(mode: LayerMode): (layer: TileLayer)
    ensures layer.maxZoom == 19 && layer.attribution.Some?
    ensures layer == StreetTiles <==> mode == MapMode
    ensures layer.url == SatelliteTiles.url <==> mode != MapMode
    ensures layer != HybridLabelTiles
  {
    match mode
    case MapMode => StreetTiles
    case SatelliteMode => SatelliteTiles
    case HybridMode => HybridBaseTiles
  }

  /** `flyTo([lat, lng], 15)`. */
  datatype FlyTo = FlyTo(target: LatLng, zoom: int)

  /** The effect's first loop: move or create a marker for every positioned technician. */
  method UpsertLoop(markers: map<string, Marker>, nextHandle: nat, technicians: seq<Technician>, selectedId: Option<string>)
    returns (ms: map<string, Marker>, n: nat)
    ensures (ms, n) == UpsertAll(markers, nextHandle, technicians, selectedId)
  {
    ms, n := markers, nextHandle;
    var i := 0;
    while i < |technicians|
      invariant 0 <= i <= |technicians|
      invariant (ms, n) == UpsertAll(markers, nextHandle, technicians[..i], selectedId)
    {
      var prefix := technicians[..i + 1];
      assert prefix[..|prefix| - 1] == technicians[..i] && prefix[|prefix| - 1] == technicians[i];
      assert UpsertAll(markers, nextHandle, prefix, selectedId) == Upsert(ms, n, technicians[i], selectedId);
      var next := Upsert(ms, n, technicians[i], selectedId);
      ms, n := next.0, next.1;
      i := i + 1;
    }
    assert technicians[..|technicians|] == technicians;
  }

  /** The effect's second loop: remove every marker whose id no listed technician has. */
  method RemoveMissing(markers: map<string, Marker>, technicians: seq<Technician>) returns (ms: map<string, Marker>)
    ensures ms == Prune(markers, Ids(technicians))
  {
    ms := markers;
    ghost var ids := Ids(technicians);
    var keys := markers.Keys;
    while keys != {}
      invariant keys <= markers.Keys
      invariant forall k :: k in ms <==> k in markers && (k in keys || k in ids)
      invariant forall k :: k in ms ==> ms[k] == markers[k]
      decreases keys
    {
      var id :| id in keys;
      var found := Find(technicians, (t: Technician) => t.id == id);
      if found.None? {
        forall t | t in technicians
          ensures t.id != id
        {
          var k :| 0 <= k < |technicians| && technicians[k] == t;
        }
        ms := ms - {id};
      } else {
        var k :| 0 <= k < |technicians| && technicians[k].id == id;
        assert technicians[k] in technicians;
      }
      keys := keys - {id};
    }
    assert ms == Prune(markers, ids);
  }

  /**
   * The map component's mutable references: whether the Leaflet map exists,
   * the marker dictionary, the handle counter, the layer mode and its layers.
   */
  class MarkerLayer {
    var mapReady: bool
    var markers: map<string, Marker>
    var nextHandle: nat
    var layerMode: LayerMode
    var baseLayer: Option<TileLayer>
    var labelLayer: Option<TileLayer>

    ghost predicate Valid()
      reads this
    {
      && HandlesValid(markers, nextHandle)
      && (!mapReady ==> markers == map[] && baseLayer.None? && labelLayer.None?)
      && (mapReady ==> baseLayer.Some?)
      && (labelLayer.Some? ==> labelLayer.value == HybridLabelTiles)
    }

    constructor ()
      ensures Valid()
      ensures !mapReady && markers == map[] && layerMode == MapMode
    {
      mapReady := false;
      markers := map[];
      nextHandle := 0;
      layerMode := MapMode;
      baseLayer := None;
      labelLayer := None;
    }

    /** The initialisation effect, once Leaflet has loaded: a map with the street tiles, whatever the mode. */
    method MapLoaded()
      requires Valid()
      modifies this
      ensures Valid()
      ensures mapReady
      ensures !old(mapReady) ==> baseLayer == Some(StreetTiles) && labelLayer.None?
      ensures old(mapReady) ==> baseLayer == old(baseLayer) && labelLayer == old(labelLayer)
      ensures markers == old(markers) && nextHandle == old(nextHandle) && layerMode == old(layerMode)
    {
      if mapReady {
        return;
      }
      mapReady := true;
      baseLayer := Some(StreetTiles);
      labelLayer := None;
    }

    /**
     * A layer button: the layer effect runs only when the mode changes, and
     * does nothing before the map exists. The label overlay exists exactly
     * in hybrid mode.
     */
    method SetLayerMode(mode: LayerMode)
      requires Valid()
      modifies this
      ensures Valid()
      ensures layerMode == mode
      ensures old(mapReady) && mode != old(layerMode) ==>
                baseLayer == Some(BaseTiles(mode)) && (labelLayer.Some? <==> mode == HybridMode)
      ensures !old(mapReady) || mode == old(layerMode) ==>
                baseLayer == old(baseLayer) && labelLayer == old(labelLayer)
      ensures mapReady == old(mapReady) && markers == old(markers) && nextHandle == old(nextHandle)
    {
      if mode == layerMode {
        return;
      }
      layerMode := mode;
      if !mapReady {
        return;
      }
      baseLayer := Some(BaseTiles(mode));
      labelLayer := if mode == HybridMode then Some(HybridLabelTiles) else None;
    }

    /** The marker effect. */
    method Sync(technicians: seq<Technician>, selectedId: Option<string>)
      requires Valid()
      modifies this
      ensures Valid()
      ensures !old(mapReady) ==> markers == old(markers) && nextHandle == old(nextHandle)
      ensures old(mapReady) ==>
                var res := UpsertAll(old(markers), old(nextHandle), technicians, selectedId);
                markers == Prune(res.0, Ids(technicians)) && nextHandle == res.1
      // every marker names a listed technician; every positioned technician has one;
      // a listed technician that lost its position keeps its marker
      ensures old(mapReady) ==> markers.Keys == (old(markers).Keys + PositionedIds(technicians)) * Ids(technicians)
      // surviving handles are the same objects, bound to the same id
      ensures forall k :: k in markers && k in old(markers) ==>
                markers[k].handle == old(markers)[k].handle && markers[k].clickTarget == old(markers)[k].clickTarget
      ensures mapReady == old(mapReady) && layerMode == old(layerMode)
      ensures baseLayer == old(baseLayer) && labelLayer == old(labelLayer)
    {
      if !mapReady {
        return;
      }
      var ms, n := UpsertLoop(markers, nextHandle, technicians, selectedId);
      UpsertAllKeepsHandlesValid(markers, nextHandle, technicians, selectedId);
      ms := RemoveMissing(ms, technicians);
      markers, nextHandle := ms, n;
    }

    /** The pan effect: fly only with a non-empty selection whose first listed technician has a position. */
    function FlyTarget(technicians: seq<Technician>, selectedId: Option<string>): (r: Option<FlyTo>)
      reads this
      ensures r.Some? ==> mapReady && selectedId.Some? && selectedId.value != ""
      ensures r.Some? ==> r.value.zoom == 15
      ensures r.Some? ==> exists k :: 0 <= k < |technicians| && technicians[k].id == selectedId.value &&
                                      HasPosition(technicians[k]) && r.value.target == PositionOf(technicians[k]) &&
                                      forall k' :: 0 <= k' < k ==> technicians[k'].id != selectedId.value
      ensures r.None? && mapReady && selectedId.Some? && selectedId.value != "" ==>
                forall k :: 0 <= k < |technicians| && technicians[k].id == selectedId.value ==>
                  (exists k' :: 0 <= k' < k && technicians[k'].id == selectedId.value) || !HasPosition(technicians[k])
    {
      if !mapReady || selectedId.None? || selectedId.value == "" then None
      else
        var found := Find(technicians, (t: Technician) => t.id == selectedId.value);
        if found.Some? && HasPosition(found.value) then Some(FlyTo(PositionOf(found.value), 15)) else None
    }
  }
}
