/**
 * The technician's vitals page (pages/t_vitals_entry.py): the clamp applied
 * to the duration inputs, the hours and minutes shown for a recorded onset,
 * the onset computed back from the entered duration, and the write of the
 * eight vitals and the onset.
 *
 * Times are integer seconds in one timebase; `now` is a parameter.
 */
module VitalsEntry {
  import opened Common
  import opened Records
  import opened VisitService

  /**
   * `_clamp(v, lo, hi)`: `max(lo, min(int(v), hi))`, or `lo` when `v` does
   * not convert to an integer (`None` here).
   */
  function Clamp(v: Option<int>, lo: int, hi: int): (r: int)
    ensures lo <= hi ==> lo <= r <= hi
    ensures v.None? ==> r == lo
    ensures v.Some? && lo <= v.value <= hi ==> r == v.value
    ensures v.Some? && lo <= hi && v.value < lo ==> r == lo
    ensures v.Some? && lo <= hi && v.value > hi ==> r == hi
  {
    match v
    case None => lo
    case Some(n) => Max(lo, Min(n, hi))
  }

  function Max(a: int, b: int): int { if a >= b then a else b }
  function Min(a: int, b: int): int { if a <= b then a else b }

  /** The duration inputs as they reach the Save handler: hours in 0..168, minutes in 0..59. */
  function DurationInputs(hours: Option<int>, minutes: Option<int>): (d: (int, int))
    ensures 0 <= d.0 <= 168 && 0 <= d.1 <= 59
  {
    (Clamp(hours, 0, 168), Clamp(minutes, 0, 59))
  }

  /**
   * `_default_duration_from_existing`: (0, 0) without an onset or for one in
   * the future; otherwise the whole minutes elapsed, as hours and minutes.
   */
  function DefaultDuration(onset: Option<int>, now: int): (d: (int, int))
    ensures onset.None? || onset.value > now ==> d == (0, 0)
    ensures onset.Some? && onset.value <= now ==>
      && 0 <= d.0 && 0 <= d.1 < 60
      && d.0 * 60 + d.1 == (now - onset.value) / 60
  {
    match onset
    case None => (0, 0)
    case Some(t) =>
      if t > now then (0, 0)
      else
        var totalMinutes := (now - t) / 60;
        (Max(totalMinutes / 60, 0), Max(totalMinutes % 60, 0))
  }

  /**
   * The Save handler's onset: `now` minus the entered duration when that
   * duration is positive, and no onset otherwise.
   */
  function OnsetFromDuration(hours: int, minutes: int, now: int): (onset: Option<int>)
    ensures hours * 60 + minutes > 0 ==> onset == Some(now - (hours * 60 + minutes) * 60)
    ensures hours * 60 + minutes <= 0 ==> onset.None?
    ensures onset.Some? ==> onset.value < now
  {
    var totalMinutes := hours * 60 + minutes;
    if totalMinutes > 0 then Some(now - totalMinutes * 60) else None
  }

  /** Entering 0 h 0 m saves no onset, which clears one already recorded. */
  lemma ZeroDurationClearsOnset(v: Visit, f: VitalsForm, now: int)
    ensures SavedVitals(v, f, OnsetFromDuration(0, 0, now)).onsetTime.None?
  {
  }

  /**
   * Round trip: at the same `now`, the duration shown for a saved onset is
   * the duration that was entered, for every input the page lets through.
   */
  lemma DurationRoundTrip(hours: int, minutes: int, now: int)
    requires 0 <= hours && 0 <= minutes < 60
    ensures DefaultDuration(OnsetFromDuration(hours, minutes, now), now) == (hours, minutes)
  {
    var total := hours * 60 + minutes;
    if total > 0 {
      assert (now - (now - total * 60)) / 60 == total;
      assert total / 60 == hours && total % 60 == minutes;
    }
  }

  /** The clamped inputs always satisfy the round trip's conditions. */
  lemma InputsRoundTrip(hours: Option<int>, minutes: Option<int>, now: int)
    ensures var d := DurationInputs(hours, minutes);
      DefaultDuration(OnsetFromDuration(d.0, d.1, now), now) == d
  {
    var d := DurationInputs(hours, minutes);
    DurationRoundTrip(d.0, d.1, now);
  }

  /** The values of the vitals inputs when Save is pressed. */
  datatype VitalsForm = VitalsForm(
    systolic: int, diastolic: int, heartRate: int, respiratoryRate: int,
    temperature: real, oxygen: int, glucose: real, inr: real)

  /** The nine keyword arguments the Save handler passes to `update_visit`. */
  function VitalsKwargs(f: VitalsForm, onset: Option<int>): seq<(AttrName, Value)> {
    [ (Col(SystolicBpCol), Int(f.systolic)),
      (Col(DiastolicBpCol), Int(f.diastolic)),
      (Col(HeartRateCol), Int(f.heartRate)),
      (Col(RespiratoryRateCol), Int(f.respiratoryRate)),
      (Col(TemperatureCol), Real(f.temperature)),
      (Col(OxygenSaturationCol), Int(f.oxygen)),
      (Col(GlucoseCol), Real(f.glucose)),
      (Col(InrCol), Real(f.inr)),
      (Col(OnsetTimeCol), if onset.Some? then Time(onset.value) else Null) ]
  }

  /** The columns the Save handler writes. */
  const VitalsColumns: set<Column> :=
    {SystolicBpCol, DiastolicBpCol, HeartRateCol, RespiratoryRateCol, TemperatureCol,
     OxygenSaturationCol, GlucoseCol, InrCol, OnsetTimeCol}

  /** The row after Save: the eight vitals and the onset replaced. */
  function SavedVitals(v: Visit, f: VitalsForm, onset: Option<int>): Visit {
    v.(systolicBp := Some(f.systolic), diastolicBp := Some(f.diastolic),
       heartRate := Some(f.heartRate), respiratoryRate := Some(f.respiratoryRate),
       temperature := Some(f.temperature), oxygenSaturation := Some(f.oxygen),
       glucose := Some(f.glucose), inr := Some(f.inr), onsetTime := onset)
  }

  /** The keyword call names nine distinct columns, each with a value of its type. */
  lemma VitalsKwargsWellFormed(f: VitalsForm, onset: Option<int>)
    ensures DistinctNames(VitalsKwargs(f, onset)) && KwargsFit(VitalsKwargs(f, onset))
  {
    var kw := VitalsKwargs(f, onset);
    forall i | 0 <= i < |kw| && kw[i].0.Col? ensures Fits(kw[i].0.column, kw[i].1) {
      if i == 0 { assert Fits(SystolicBpCol, kw[0].1); }
      else if i == 1 { assert Fits(DiastolicBpCol, kw[1].1); }
      else if i == 2 { assert Fits(HeartRateCol, kw[2].1); }
      else if i == 3 { assert Fits(RespiratoryRateCol, kw[3].1); }
      else if i == 4 { assert Fits(TemperatureCol, kw[4].1); }
      else if i == 5 { assert Fits(OxygenSaturationCol, kw[5].1); }
      else if i == 6 { assert Fits(GlucoseCol, kw[6].1); }
      else if i == 7 { assert Fits(InrCol, kw[7].1); }
      else { assert Fits(OnsetTimeCol, kw[8].1); }
    }
  }

  /** The assignments the nine keywords make, as one map. */
  function VitalsMap(f: VitalsForm, onset: Option<int>): map<Column, Value> {
    map[SystolicBpCol := Int(f.systolic)][DiastolicBpCol := Int(f.diastolic)]
      [HeartRateCol := Int(f.heartRate)][RespiratoryRateCol := Int(f.respiratoryRate)]
      [TemperatureCol := Real(f.temperature)][OxygenSaturationCol := Int(f.oxygen)]
      [GlucoseCol := Real(f.glucose)][InrCol := Real(f.inr)]
      [OnsetTimeCol := if onset.Some? then Time(onset.value) else Null]
  }

  /** Applied in order, the keywords assign exactly the nine vitals columns. */
  lemma VitalsAssignments(f: VitalsForm, onset: Option<int>)
    ensures ColumnAssignments(VitalsKwargs(f, onset)) == VitalsMap(f, onset)
    ensures VitalsMap(f, onset).Keys == VitalsColumns
  {
    var kw := VitalsKwargs(f, onset);
    VitalsKwargsWellFormed(f, onset);
    NineAssignments(kw);
  }

  /** Nine keywords naming distinct columns assign them in order. */
  lemma NineAssignments(kw: seq<(AttrName, Value)>)
    requires |kw| == 9 && DistinctNames(kw) && forall i :: 0 <= i < 9 ==> kw[i].0.Col?
    ensures ColumnAssignments(kw) ==
      map[kw[0].0.column := kw[0].1][kw[1].0.column := kw[1].1][kw[2].0.column := kw[2].1]
         [kw[3].0.column := kw[3].1][kw[4].0.column := kw[4].1][kw[5].0.column := kw[5].1]
         [kw[6].0.column := kw[6].1][kw[7].0.column := kw[7].1][kw[8].0.column := kw[8].1]
  {
    assert kw[..0] == [];
    ThreeAssignments(kw, 0);
    ThreeAssignments(kw, 3);
    ThreeAssignments(kw, 6);
    assert kw[..9] == kw;
  }

  lemma ThreeAssignments(kw: seq<(AttrName, Value)>, k: nat)
    requires k + 3 <= |kw| && DistinctNames(kw)
    requires kw[k].0.Col? && kw[k + 1].0.Col? && kw[k + 2].0.Col?
    ensures ColumnAssignments(kw[..k + 3]) ==
      ColumnAssignments(kw[..k])[kw[k].0.column := kw[k].1][kw[k + 1].0.column := kw[k + 1].1]
        [kw[k + 2].0.column := kw[k + 2].1]
  {
    AssignmentsStep(kw, k);
    AssignmentsStep(kw, k + 1);
    AssignmentsStep(kw, k + 2);
  }

  /**
   * `update_visit` with the nine keywords gives exactly `SavedVitals`: every
   * vitals column reads back as entered and every other column is unchanged.
   */
  lemma SaveWritesExactlyVitals(v: Visit, f: VitalsForm, onset: Option<int>)
    ensures Updated(v, ColumnAssignments(VitalsKwargs(f, onset))) == SavedVitals(v, f, onset)
    ensures forall c :: c !in VitalsColumns ==> ColumnValue(SavedVitals(v, f, onset), c) == ColumnValue(v, c)
  {
    VitalsAssignments(f, onset);
    UpdatedByVitalsMap(v, f, onset);
    OtherColumnsKept(v, f, onset);
  }

  lemma UpdatedByVitalsMap(v: Visit, f: VitalsForm, onset: Option<int>)
    ensures Updated(v, VitalsMap(f, onset)) == SavedVitals(v, f, onset)
  {
  }

  lemma OtherColumnsKept(v: Visit, f: VitalsForm, onset: Option<int>)
    ensures forall c :: c !in VitalsColumns ==> ColumnValue(SavedVitals(v, f, onset), c) == ColumnValue(v, c)
  {
  }

  /**
   * The Save button: the onset from the clamped duration, then one
   * `update_visit` call with the eight vitals and the onset.
   */
  method SaveVitals(db: Database, visitId: int, f: VitalsForm, hours: Option<int>, minutes: Option<int>, now: int)
    returns (r: Option<Visit>)
    requires db.Valid()
    modifies db
    ensures db.Valid()
    ensures VisitAt(old(db.visits), visitId).None? ==> r.None? && db.visits == old(db.visits)
    ensures VisitAt(old(db.visits), visitId).Some? ==>
      var i := VisitAt(old(db.visits), visitId).value;
      var d := DurationInputs(hours, minutes);
      && db.visits == old(db.visits)[i := SavedVitals(old(db.visits)[i], f, OnsetFromDuration(d.0, d.1, now))]
      && r == Some(db.visits[i])
    ensures db.patients == old(db.patients) && db.users == old(db.users)
    ensures db.treatments == old(db.treatments) && db.nihssItems == old(db.nihssItems)
  {
    var d := DurationInputs(hours, minutes);
    var onset := OnsetFromDuration(d.0, d.1, now);
    var kwargs := VitalsKwargs(f, onset);
    VitalsKwargsWellFormed(f, onset);
    var at := VisitAt(db.visits, visitId);
    if at.Some? {
      SaveWritesExactlyVitals(db.visits[at.value], f, onset);
    }
    r := UpdateVisit(db, visitId, kwargs);
  }
}
