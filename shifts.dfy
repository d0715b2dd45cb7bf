/**
 * The shift-management page: the date and tab filters over the shift list,
 * the technicians offered for a manual shift start, the checks made before a
 * start request is sent, and what a shift row offers. `toIso` stands for
 * `new Date(s).toISOString()`.
 */
module Shifts {
  import opened Js
  import opened Seqs
  import opened Fleet

  /** A shift as the page reads it; `timeEnded` is `null` while the shift runs. */
  datatype Shift = Shift(id: string, isActive: bool, timeStarted: string, timeEnded: Nullish<string>)

  /** `s.split("T")[0]`: everything before the first "T", or all of `s` when it has none. */
  function DatePart(s: string): (d: string)
    ensures d <= s
    ensures 'T' !in d
    ensures |d| < |s| ==> s[|d|] == 'T'
  {
    if s == [] then []
    else if s[0] == 'T' then []
    else [s[0]] + DatePart(s[1..])
  }

  /** The date-filter test of one shift. */
  predicate PassesDate(shift: Shift, filterDate: string, toIso: string -> string) {
    filterDate == "" || DatePart(toIso(shift.timeStarted)) == filterDate
  }

  /** `filteredByDate`. */
  function FilteredByDate(shifts: seq<Shift>, filterDate: string, toIso: string -> string): (r: seq<Shift>)
    ensures filterDate == "" ==> r == shifts
    ensures forall x :: x in r <==> x in shifts && PassesDate(x, filterDate, toIso)
    ensures IsSubsequence(r, shifts)
  {
    var r := Filter(shifts, (x: Shift) => PassesDate(x, filterDate, toIso));
    FilterIsSubsequence(shifts, (x: Shift) => PassesDate(x, filterDate, toIso));
    if filterDate == "" then
      FilterAllKept(shifts, (x: Shift) => PassesDate(x, filterDate, toIso));
      r
    else r
  }

  datatype Tab = ActiveTab | AllTab

  predicate IsActiveShift(shift: Shift) {
    shift.isActive
  }

  /** `displayedShifts`: the active ones on the "active" tab, all on the "all" tab, after the date filter. */
  function DisplayedShifts(shifts: seq<Shift>, tab: Tab, filterDate: string, toIso: string -> string): (r: seq<Shift>)
    ensures forall x :: x in r <==> x in shifts && PassesDate(x, filterDate, toIso) && (tab == AllTab || x.isActive)
    ensures tab == AllTab ==> r == FilteredByDate(shifts, filterDate, toIso)
    ensures tab == ActiveTab ==> r == Filter(FilteredByDate(shifts, filterDate, toIso), IsActiveShift)
    ensures IsSubsequence(r, shifts)
  {
    var byDate := FilteredByDate(shifts, filterDate, toIso);
    if tab == ActiveTab then
      var r := Filter(byDate, IsActiveShift);
      FilterIsSubsequence(byDate, IsActiveShift);
      SubsequenceTransitive(r, byDate, shifts);
      r
    else
      assert tab == AllTab;
      byDate
  }

  /** With no date chosen, the "all" tab shows every shift in order and the "active" tab only running ones. */
  lemma NoDateFilter(shifts: seq<Shift>, toIso: string -> string)
    ensures DisplayedShifts(shifts, AllTab, "", toIso) == shifts
    ensures forall x :: x in DisplayedShifts(shifts, ActiveTab, "", toIso) <==> x in shifts && x.isActive
  {
  }

  /** The eligibility test: strictly not `null`, active, and not on shift. */
  predicate IsRegistered(t: Technician) {
    !t.userId.Null? && t.isActive && !t.inShift
  }

  /** `registeredTechnicians`, the technicians offered in the drop-down. */
  function RegisteredTechnicians(ts: seq<Technician>): (r: seq<Technician>)
    ensures forall t :: t in r <==> t in ts && IsRegistered(t)
    ensures IsSubsequence(r, ts)
  {
    FilterIsSubsequence(ts, IsRegistered);
    Filter(ts, IsRegistered)
  }

  /** The `!== null` test lets a technician without any `userId` field through. */
  lemma UndefinedUserIsOffered(ts: seq<Technician>, t: Technician)
    requires t in ts && t.userId.Undefined? && t.isActive && !t.inShift
    ensures t in RegisteredTechnicians(ts)
  {
  }

  /** The drop-down's `onChange`: the first technician (of the full list) with the chosen id. */
  function SelectTechnician(ts: seq<Technician>, value: string): (r: Option<Technician>)
    ensures r.None? <==> forall k :: 0 <= k < |ts| ==> ts[k].id != value
    ensures r.Some? ==> r.value.id == value && r.value in ts
    ensures r.Some? ==> exists k :: 0 <= k < |ts| && ts[k] == r.value && forall j :: 0 <= j < k ==> ts[j].id != value
  {
    Find(ts, (t: Technician) => t.id == value)
  }

  /** What pressing "Start Shift" does before any request. */
  datatype StartShiftOutcome = AlertNoSelection | AlertNotRegistered | RequestShift(employeeId: string)

  function StartShiftGuard(selected: Option<Technician>): (r: StartShiftOutcome)
    ensures r == AlertNoSelection <==> selected.None?
    ensures r == AlertNotRegistered <==> selected.Some? && selected.value.userId.IsNullish()
    ensures r.RequestShift? <==> selected.Some? && selected.value.userId.Val?
    ensures r.RequestShift? ==> r.employeeId == selected.value.employeeId
  {
    if selected.None? then AlertNoSelection
    else if !selected.value.userId.Val? then AlertNotRegistered
    else RequestShift(selected.value.employeeId)
  }

  /**
   * The offered list and the start guard disagree: a technician offered
   * because its `userId` is missing rather than `null` is refused on start.
   */
  lemma OfferedButRefused(ts: seq<Technician>, t: Technician)
    requires t in RegisteredTechnicians(ts) && t.userId.Undefined?
    ensures StartShiftGuard(Some(t)) == AlertNotRegistered
  {
  }

  /** The `to` bound handed to the trip history: none while the shift runs, else `timeEnded` (which may be `null`). */
  function HistoryTo(shift: Shift): (to: Nullish<string>)
    ensures shift.isActive ==> to.Undefined?
    ensures !shift.isActive ==> to == shift.timeEnded
  {
    if shift.isActive then Undefined else shift.timeEnded
  }

  /** What a shift row offers beyond its text. */
  datatype ShiftRow = ShiftRow(showsEnd: bool, showsEnded: bool)

  function RowOf(shift: Shift): (row: ShiftRow)
    ensures row.showsEnd <==> shift.isActive
    ensures row.showsEnded <==> !shift.isActive && TruthyString(shift.timeEnded)
    ensures !(row.showsEnd && row.showsEnded)
  {
    ShiftRow(shift.isActive, !shift.isActive && TruthyString(shift.timeEnded))
  }
}
