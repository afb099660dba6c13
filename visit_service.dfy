/**
 * Visits (services/visit_service.py): opening a visit with a per-patient
 * sequential code, reading a patient's visits, the keyword-driven partial
 * update every page uses to write a visit, and handing a visit to a doctor.
 */
module VisitService {
  import opened Common
  import opened Tables
  import opened Records

  /** How `create_visit` is told the patient: a patient code string, or a primary key. */
  datatype PatientRef = ByCode(code: string) | ByKey(pk: int)

  datatype CreateVisitError =
      UnknownPatientCode   // a code no patient has: `create_visit` returns None
    | NoPatientRow         // a key no patient has: reading `patient_obj.patient_id` raises
    | DuplicateVisitCode   // the generated code is taken: the unique `visit_id` makes the commit fail

  /** `f"{patient_code}-V{n:03d}"` */
  function VisitCode(patientCode: string, n: int): string {
    patientCode + "-V" + Format03(n)
  }

  /** The row `create_visit` adds: the given key, patient and code, the column defaults, NULL elsewhere. */
  function NewVisit(id: int, pk: int, code: string, now: int): (v: Visit)
    ensures v.id == id && v.patientId == pk && v.visitCode == code
    ensures v.status == Some("in_progress") && v.timestamp == Some(now) && v.finalized == Some(false)
    ensures v.onsetTime.None? && v.nihssScore.None? && v.scanPath.None? && v.tpaEligible.None?
  {
    Visit(id, pk, code, Some(now), None, Some("in_progress"), None,
          None, None, None, None, None, None, None, None, None, None,
          None, None, None, None, None, None, None, Some(false), None)
  }

  predicate CodeTaken(visits: seq<Visit>, code: string) {
    exists j :: 0 <= j < |visits| && visits[j].visitCode == code
  }

  /** The patient key `create_visit` works with: looked up by code, or given. */
  function PatientKey(patients: seq<Patient>, ref: PatientRef): (pk: Option<int>)
    ensures ref.ByKey? ==> pk == Some(ref.pk)
    ensures ref.ByCode? ==> (pk.None? <==> First(patients, PatientWithCode(ref.code)).None?)
  {
    match ref
    case ByCode(code) => (match First(patients, PatientWithCode(code)) case Some(p) => Some(p.id) case None => None)
    case ByKey(k) => Some(k)
  }

  /** The row `create_visit` adds at time `now`, or why it adds none. */
  function CreateVisitOutcome(patients: seq<Patient>, visits: seq<Visit>, ref: PatientRef, now: int)
    : (r: Result<Visit, CreateVisitError>)
    requires KeysIncreasing(visits, VisitKey)
    ensures ref.ByCode? && First(patients, PatientWithCode(ref.code)).None? ==> r == Err(UnknownPatientCode)
    ensures r.Ok? ==> First(patients, PatientWithId(r.value.patientId)).Some?
    ensures r.Ok? ==> r.value.id == NextKey(visits, VisitKey) && !CodeTaken(visits, r.value.visitCode)
  {
    var pk := PatientKey(patients, ref);
    if pk.None? then Err(UnknownPatientCode)
    else match First(patients, PatientWithId(pk.value))
      case None => Err(NoPatientRow)
      case Some(patient) =>
        var code := VisitCode(patient.code, Count(visits, VisitOfPatient(pk.value)) + 1);
        if CodeTaken(visits, code) then Err(DuplicateVisitCode)
        else Ok(NewVisit(NextKey(visits, VisitKey), pk.value, code, now))
  }

  /**
   * The number a new code carries is the patient's visit count including the
   * new visit, written with at least three digits.
   */
  lemma NewCodeCountsVisits(patients: seq<Patient>, visits: seq<Visit>, ref: PatientRef, now: int)
    requires KeysIncreasing(visits, VisitKey)
    requires CreateVisitOutcome(patients, visits, ref, now).Ok?
    ensures var v := CreateVisitOutcome(patients, visits, ref, now).value;
      var p := First(patients, PatientWithId(v.patientId)).value;
      v.visitCode == VisitCode(p.code, Count(visits + [v], VisitOfPatient(v.patientId)))
  {
    var pk := PatientKey(patients, ref).value;
    var p := First(patients, PatientWithId(pk)).value;
    var v := NewVisit(NextKey(visits, VisitKey), pk, VisitCode(p.code, Count(visits, VisitOfPatient(pk)) + 1), now);
    assert CreateVisitOutcome(patients, visits, ref, now) == Ok(v);
    CountAppend(visits, VisitOfPatient(pk), v);
  }

  /** A code is the patient code, "-V", and at least three digits spelling the number. */
  lemma VisitCodeShape(patientCode: string, n: nat)
    ensures var code := VisitCode(patientCode, n);
      && code[..|patientCode| + 2] == patientCode + "-V"
      && |code| >= |patientCode| + 5
      && (forall i :: |patientCode| + 2 <= i < |code| ==> IsAsciiDigit(code[i]))
      && DecimalValue(code[|patientCode| + 2..]) == n
  {
    var code := VisitCode(patientCode, n);
    var digits := Format03(n);
    Format03Spells(n);
    assert code == (patientCode + "-V") + digits;
    assert code[|patientCode| + 2..] == digits;
    forall i | |patientCode| + 2 <= i < |code| ensures IsAsciiDigit(code[i]) {
      assert code[i] == digits[i - |patientCode| - 2];
    }
  }

  lemma {:induction false} CountAppend<T>(rows: seq<T>, p: T -> bool, x: T)
    ensures Count(rows + [x], p) == Count(rows, p) + (if p(x) then 1 else 0)
  {
    if rows != [] {
      assert (rows + [x])[1..] == rows[1..] + [x];
      CountAppend(rows[1..], p, x);
    }
  }

  /**
   * A run of the code as written, for any patient: the first two visits get
   * V001 and V002; once V001 is deleted the patient has one visit again, so
   * the next code is V002 once more and the unique column rejects it.
   */
  lemma CollisionAfterDelete(p: Patient, now: int)
    ensures var v1 := NewVisit(1, p.id, VisitCode(p.code, 1), now);
      var v2 := NewVisit(2, p.id, VisitCode(p.code, 2), now);
      && CreateVisitOutcome([p], [], ByKey(p.id), now) == Ok(v1)
      && CreateVisitOutcome([p], [v1], ByKey(p.id), now) == Ok(v2)
      && CreateVisitOutcome([p], [v2], ByKey(p.id), now) == Err(DuplicateVisitCode)
  {
    var v1 := NewVisit(1, p.id, VisitCode(p.code, 1), now);
    var v2 := NewVisit(2, p.id, VisitCode(p.code, 2), now);
    FirstVisitOfOne(p, now);
    SecondVisitOfOne(p, v1, now);
    CodeReissued(p, v2, now);
  }

  lemma CodeReissued(p: Patient, v2: Visit, now: int)
    requires v2 == NewVisit(2, p.id, VisitCode(p.code, 2), now)
    ensures CreateVisitOutcome([p], [v2], ByKey(p.id), now) == Err(DuplicateVisitCode)
  {
    assert First([p], PatientWithId(p.id)) == Some(p);
    assert Count([v2], VisitOfPatient(p.id)) == 1;
    assert CodeTaken([v2], VisitCode(p.code, 2));
  }

  lemma FirstVisitOfOne(p: Patient, now: int)
    ensures CreateVisitOutcome([p], [], ByKey(p.id), now) == Ok(NewVisit(1, p.id, VisitCode(p.code, 1), now))
  {
    assert First([p], PatientWithId(p.id)) == Some(p);
  }

  lemma SecondVisitOfOne(p: Patient, v1: Visit, now: int)
    requires v1 == NewVisit(1, p.id, VisitCode(p.code, 1), now)
    ensures CreateVisitOutcome([p], [v1], ByKey(p.id), now) == Ok(NewVisit(2, p.id, VisitCode(p.code, 2), now))
  {
    assert First([p], PatientWithId(p.id)) == Some(p);
    assert Count([v1], VisitOfPatient(p.id)) == 1;
    VisitCodeNumber(p.code, 1);
    VisitCodeNumber(p.code, 2);
    CarriedNumberDiffers(VisitCode(p.code, 1), VisitCode(p.code, 2), p.code + "-V");
  }

  /** The number a code carries after `prefix`, when the rest is a non-empty run of digits. */
  function SuffixNumber(code: string, prefix: string): Option<nat> {
    if StartsWith(code, prefix) && |code| > |prefix| && AllDigits(code[|prefix|..])
    then Some(DecimalValue(code[|prefix|..]))
    else None
  }

  predicate AllDigits(s: string) {
    forall i :: 0 <= i < |s| ==> IsAsciiDigit(s[i])
  }

  /** The largest number carried by a code with that prefix, 0 when there is none. */
  function MaxVisitNumber(visits: seq<Visit>, prefix: string): (n: nat)
    ensures forall j :: 0 <= j < |visits| && SuffixNumber(visits[j].visitCode, prefix).Some? ==>
      SuffixNumber(visits[j].visitCode, prefix).value <= n
  {
    if visits == [] then 0
    else
      var rest := MaxVisitNumber(visits[..|visits| - 1], prefix);
      assert forall j :: 0 <= j < |visits| - 1 ==> visits[..|visits| - 1][j] == visits[j];
      match SuffixNumber(visits[|visits| - 1].visitCode, prefix)
      case None => rest
      case Some(k) => if k > rest then k else rest
  }

  /** A generated code carries its number. */
  lemma VisitCodeNumber(patientCode: string, n: nat)
    ensures SuffixNumber(VisitCode(patientCode, n), patientCode + "-V") == Some(n)
  {
    var code := VisitCode(patientCode, n);
    var prefix := patientCode + "-V";
    var digits := Format03(n);
    Format03Spells(n);
    assert code == prefix + digits;
    assert code[..|prefix|] == prefix;
    assert code[|prefix|..] == digits;
    assert AllDigits(digits) && DecimalValue(digits) == n;
  }

  /** One past the largest number in use can never be a code already taken. */
  lemma NextNumberFree(visits: seq<Visit>, patientCode: string)
    ensures !CodeTaken(visits, VisitCode(patientCode, MaxVisitNumber(visits, patientCode + "-V") + 1))
  {
    var prefix := patientCode + "-V";
    var max := MaxVisitNumber(visits, prefix);
    VisitCodeNumber(patientCode, max + 1);
    NumberAboveMaxFree(visits, prefix, VisitCode(patientCode, max + 1));
  }

  /** A code carrying a number above every number in use is not taken. */
  lemma NumberAboveMaxFree(visits: seq<Visit>, prefix: string, code: string)
    requires SuffixNumber(code, prefix) == Some(MaxVisitNumber(visits, prefix) + 1)
    ensures !CodeTaken(visits, code)
  {
    forall j | 0 <= j < |visits| ensures visits[j].visitCode != code {
      var k := SuffixNumber(visits[j].visitCode, prefix);
      assert k.Some? ==> k.value <= MaxVisitNumber(visits, prefix);
    }
  }

  /** Codes that carry different numbers are different codes. */
  lemma CarriedNumberDiffers(a: string, b: string, prefix: string)
    requires SuffixNumber(a, prefix) != SuffixNumber(b, prefix)
    ensures a != b
  {
  }

  /** The corrected code: one past the largest number the patient's codes carry. */
  function NextVisitCode(visits: seq<Visit>, patientCode: string): (code: string)
    ensures !CodeTaken(visits, code)
    ensures SuffixNumber(code, patientCode + "-V") == Some(MaxVisitNumber(visits, patientCode + "-V") + 1)
  {
    var n := MaxVisitNumber(visits, patientCode + "-V") + 1;
    NextNumberFree(visits, patientCode);
    VisitCodeNumber(patientCode, n);
    VisitCode(patientCode, n)
  }

  /**
   * `create_visit` as evidently intended: the number is one past the largest
   * number the patient's codes carry, so the unique column never rejects it.
   */
  function CreateVisitCorrected(patients: seq<Patient>, visits: seq<Visit>, ref: PatientRef, now: int)
    : (r: Result<Visit, CreateVisitError>)
    requires KeysIncreasing(visits, VisitKey)
    ensures ref.ByCode? && First(patients, PatientWithCode(ref.code)).None? ==> r == Err(UnknownPatientCode)
    ensures r.Err? ==> r.error != DuplicateVisitCode
    ensures r.Ok? ==> r.value.id == NextKey(visits, VisitKey) && !CodeTaken(visits, r.value.visitCode)
    ensures r.Ok? ==> First(patients, PatientWithId(r.value.patientId)).Some?
    ensures r.Ok? ==> r.value.visitCode == NextVisitCode(visits, First(patients, PatientWithId(r.value.patientId)).value.code)
  {
    var pk := PatientKey(patients, ref);
    if pk.None? then Err(UnknownPatientCode)
    else match First(patients, PatientWithId(pk.value))
      case None => Err(NoPatientRow)
      case Some(patient) => Ok(NewVisit(NextKey(visits, VisitKey), pk.value, NextVisitCode(visits, patient.code), now))
  }

  /** In the run above, the corrected numbering gives the new visit V003 instead. */
  lemma NoCollisionAfterDelete(p: Patient, now: int)
    ensures var v2 := NewVisit(2, p.id, VisitCode(p.code, 2), now);
      CreateVisitCorrected([p], [v2], ByKey(p.id), now) == Ok(NewVisit(3, p.id, VisitCode(p.code, 3), now))
  {
    var v2 := NewVisit(2, p.id, VisitCode(p.code, 2), now);
    assert First([p], PatientWithId(p.id)) == Some(p);
    VisitCodeNumber(p.code, 2);
    assert [v2][..0] == [];
    assert MaxVisitNumber([v2], p.code + "-V") == 2;
  }

  /**
   * `create_visit`, with the corrected numbering: adds the row
   * `CreateVisitCorrected` describes, under a new key at the end of the
   * table, or leaves the store as it was.
   */
  method CreateVisit(db: Database, ref: PatientRef, now: int) returns (r: Result<Visit, CreateVisitError>)
    requires db.Valid()
    modifies db
    ensures db.Valid()
    ensures r == CreateVisitCorrected(old(db.patients), old(db.visits), ref, now)
    ensures r.Ok? ==> db.visits == old(db.visits) + [r.value]
    ensures r.Err? ==> db.visits == old(db.visits)
    ensures db.patients == old(db.patients) && db.users == old(db.users)
    ensures db.treatments == old(db.treatments) && db.nihssItems == old(db.nihssItems)
  {
    r := CreateVisitCorrected(db.patients, db.visits, ref, now);
    if r.Ok? {
      AppendVisit(db, r.value);
    }
  }

  /** Inserts a row under the next key at the end of the visits table. */
  method AppendVisit(db: Database, v: Visit)
    requires db.Valid() && v.id == NextKey(db.visits, VisitKey)
    modifies db
    ensures db.Valid()
    ensures db.visits == old(db.visits) + [v]
    ensures db.patients == old(db.patients) && db.users == old(db.users)
    ensures db.treatments == old(db.treatments) && db.nihssItems == old(db.nihssItems)
  {
    AppendKeepsOrder(db.visits, VisitKey, v);
    db.visits := db.visits + [v];
  }

  /** `get_visit_by_id` */
  function GetVisitById(visits: seq<Visit>, id: int): (r: Option<Visit>)
    ensures r.Some? ==> r.value in visits && r.value.id == id
    ensures r.None? <==> forall j :: 0 <= j < |visits| ==> visits[j].id != id
  {
    match VisitAt(visits, id)
    case None => None
    case Some(i) => Some(visits[i])
  }

  /** `get_visits_for_patient`: exactly the visits of patient `pk`, in key order. */
  function GetVisitsForPatient(visits: seq<Visit>, pk: int): (r: seq<Visit>)
    ensures forall i :: 0 <= i < |r| ==> r[i] in visits && r[i].patientId == pk
    ensures forall i :: 0 <= i < |visits| && visits[i].patientId == pk ==> visits[i] in r
    ensures KeysIncreasing(visits, VisitKey) ==> KeysIncreasing(r, VisitKey)
  {
    FilterKeepsOrderIfOrdered(visits, VisitOfPatient(pk));
    Filter(visits, VisitOfPatient(pk))
  }

  lemma FilterKeepsOrderIfOrdered(visits: seq<Visit>, p: Visit -> bool)
    ensures KeysIncreasing(visits, VisitKey) ==> KeysIncreasing(Filter(visits, p), VisitKey)
  {
    if KeysIncreasing(visits, VisitKey) {
      FilterKeepsOrder(visits, p, VisitKey);
    }
  }

  /** The name of a keyword argument: a mapped column, or anything else (`hasattr` fails). */
  datatype AttrName = Col(column: Column) | Unknown(name: string)

  /** The keywords of one call name each attribute at most once. */
  predicate DistinctNames(kwargs: seq<(AttrName, Value)>) {
    forall i, j :: 0 <= i < j < |kwargs| ==> kwargs[i].0 != kwargs[j].0
  }

  /** Each value has the type of the column it is written to. */
  predicate KwargsFit(kwargs: seq<(AttrName, Value)>) {
    forall i :: 0 <= i < |kwargs| && kwargs[i].0.Col? ==> Fits(kwargs[i].0.column, kwargs[i].1)
  }

  /** The column assignments among the keyword arguments. */
  function ColumnAssignments(kwargs: seq<(AttrName, Value)>): (m: map<Column, Value>)
    ensures forall c :: c in m <==> exists i :: 0 <= i < |kwargs| && kwargs[i].0 == Col(c)
  {
    if kwargs == [] then map[]
    else
      var m := ColumnAssignments(kwargs[..|kwargs| - 1]);
      var last := kwargs[|kwargs| - 1];
      assert forall i :: 0 <= i < |kwargs| - 1 ==> kwargs[..|kwargs| - 1][i] == kwargs[i];
      if last.0.Col? then m[last.0.column := last.1] else m
  }

  /** Under distinct names, each assignment is the value given with that name. */
  lemma {:induction false} ColumnAssignmentsValues(kwargs: seq<(AttrName, Value)>)
    requires DistinctNames(kwargs)
    ensures forall i :: 0 <= i < |kwargs| && kwargs[i].0.Col? ==>
      ColumnAssignments(kwargs)[kwargs[i].0.column] == kwargs[i].1
  {
    if kwargs != [] {
      var init := kwargs[..|kwargs| - 1];
      assert DistinctNames(init) by {
        forall i, j | 0 <= i < j < |init| ensures init[i].0 != init[j].0 {
          assert init[i] == kwargs[i] && init[j] == kwargs[j];
        }
      }
      ColumnAssignmentsValues(init);
      forall i | 0 <= i < |kwargs| && kwargs[i].0.Col?
        ensures ColumnAssignments(kwargs)[kwargs[i].0.column] == kwargs[i].1
      {
        if i < |kwargs| - 1 {
          assert init[i] == kwargs[i];
        }
      }
    }
  }

  /**
   * A column named among the keywords reads back as the value given for it;
   * a column not named keeps its value.
   */
  lemma UpdateWrites(v: Visit, kwargs: seq<(AttrName, Value)>, c: Column)
    requires DistinctNames(kwargs) && KwargsFit(kwargs)
    ensures Updated(v, ColumnAssignments(kwargs)).id == v.id
    ensures forall i :: 0 <= i < |kwargs| && kwargs[i].0 == Col(c) ==>
      ColumnValue(Updated(v, ColumnAssignments(kwargs)), c) == kwargs[i].1
    ensures (forall i :: 0 <= i < |kwargs| ==> kwargs[i].0 != Col(c)) ==>
      ColumnValue(Updated(v, ColumnAssignments(kwargs)), c) == ColumnValue(v, c)
  {
    var m := ColumnAssignments(kwargs);
    ColumnAssignmentsValues(kwargs);
    forall d | d in m ensures Fits(d, m[d]) {
      var i :| 0 <= i < |kwargs| && kwargs[i].0 == Col(d);
    }
    UpdatedReadsBack(v, m, c);
  }

  /** One more keyword extends the assignments by its column, if it names one. */
  lemma AssignmentsStep(kwargs: seq<(AttrName, Value)>, k: nat)
    requires DistinctNames(kwargs) && k < |kwargs|
    ensures kwargs[k].0.Col? ==> kwargs[k].0.column !in ColumnAssignments(kwargs[..k])
    ensures ColumnAssignments(kwargs[..k + 1]) ==
      if kwargs[k].0.Col? then ColumnAssignments(kwargs[..k])[kwargs[k].0.column := kwargs[k].1]
      else ColumnAssignments(kwargs[..k])
  {
    var prefix := kwargs[..k];
    assert kwargs[..k + 1][..k] == prefix;
    assert kwargs[..k + 1][k] == kwargs[k];
  }

  /** The `setattr` loop of `update_visit`, applied to one row. */
  method ApplyKwargs(v: Visit, kwargs: seq<(AttrName, Value)>) returns (r: Visit)
    requires DistinctNames(kwargs)
    ensures r == Updated(v, ColumnAssignments(kwargs))
  {
    r := v;
    UpdatedNothing(v);
    var k := 0;
    while k < |kwargs|
      invariant 0 <= k <= |kwargs|
      invariant r == Updated(v, ColumnAssignments(kwargs[..k]))
    {
      AssignmentsStep(kwargs, k);
      if kwargs[k].0.Col? {
        SetColumnExtends(v, ColumnAssignments(kwargs[..k]), kwargs[k].0.column, kwargs[k].1);
        r := SetColumn(r, kwargs[k].0.column, kwargs[k].1);
      }
      k := k + 1;
    }
    assert kwargs[..k] == kwargs;
  }

  /**
   * `update_visit`: None for an unknown key; otherwise every keyword that
   * names a column is written to the row, in the order given, and the
   * others are skipped (`hasattr` is false for them).
   */
  method UpdateVisit(db: Database, id: int, kwargs: seq<(AttrName, Value)>) returns (r: Option<Visit>)
    requires db.Valid() && DistinctNames(kwargs) && KwargsFit(kwargs)
    modifies db
    ensures db.Valid()
    ensures VisitAt(old(db.visits), id).None? ==> r.None? && db.visits == old(db.visits)
    ensures VisitAt(old(db.visits), id).Some? ==>
      var i := VisitAt(old(db.visits), id).value;
      && db.visits == old(db.visits)[i := Updated(old(db.visits)[i], ColumnAssignments(kwargs))]
      && r == Some(db.visits[i])
    ensures db.patients == old(db.patients) && db.users == old(db.users)
    ensures db.treatments == old(db.treatments) && db.nihssItems == old(db.nihssItems)
  {
    var at := VisitAt(db.visits, id);
    if at.None? {
      return None;
    }
    var i := at.value;
    var v := ApplyKwargs(db.visits[i], kwargs);
    UpdateWrites(db.visits[i], kwargs, PatientIdCol);
    ReplaceKeepsOrder(db.visits, VisitKey, i, v);
    db.visits := db.visits[i := v];
    r := Some(v);
  }

  /** The row `assign_doctor` leaves: the doctor set and the case marked as sent. */
  function AssignedVisit(v: Visit, doctor: string): (r: Visit)
    ensures r == Updated(v, map[DoctorUsernameCol := Str(doctor), StatusCol := Str("sent_to_doctor")])
  {
    v.(doctorUsername := Some(doctor), status := Some("sent_to_doctor"))
  }

  /** `assign_doctor`: None for an unknown key; otherwise only the doctor and the status change. */
  method AssignDoctor(db: Database, id: int, doctor: string) returns (r: Option<Visit>)
    requires db.Valid()
    modifies db
    ensures db.Valid()
    ensures VisitAt(old(db.visits), id).None? ==> r.None? && db.visits == old(db.visits)
    ensures VisitAt(old(db.visits), id).Some? ==>
      var i := VisitAt(old(db.visits), id).value;
      && db.visits == old(db.visits)[i := AssignedVisit(old(db.visits)[i], doctor)]
      && r == Some(db.visits[i])
    ensures db.patients == old(db.patients) && db.users == old(db.users)
    ensures db.treatments == old(db.treatments) && db.nihssItems == old(db.nihssItems)
  {
    var at := VisitAt(db.visits, id);
    if at.None? {
      return None;
    }
    var i := at.value;
    var v := db.visits[i].(doctorUsername := Some(doctor));
    v := v.(status := Some("sent_to_doctor"));
    ReplaceKeepsOrder(db.visits, VisitKey, i, v);
    db.visits := db.visits[i := v];
    r := Some(v);
  }
}
