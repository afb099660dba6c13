/**
 * Patients (services/patient_service.py): the sequential patient code,
 * registering a patient, the vitals write, the partial update of the
 * demographics, and deleting a visit or a patient with all of its visits.
 */
module PatientService {
  import opened Common
  import opened Tables
  import opened Records

  // ----- Patient codes -----

  /**
   * `generate_patient_code`: "P001" for an empty table, otherwise "P" and the
   * highest key plus one, with at least three digits.
   */
  function GeneratePatientCode(patients: seq<Patient>): (code: string)
    requires KeysIncreasing(patients, PatientKey)
    ensures code == "P" + Format03(NextKey(patients, PatientKey))
  {
    if patients == [] then
      assert NatToString(1) == "1";
      assert ZeroPad("1", 3) == ZeroPad("01", 3) == ZeroPad("001", 3) == "001";
      "P001"
    else "P" + Format03(patients[|patients| - 1].id + 1)
  }

  /**
   * The code always spells the key the next inserted patient receives,
   * including for an empty table.
   */
  lemma CodeSpellsNextKey(patients: seq<Patient>)
    requires KeysIncreasing(patients, PatientKey)
    ensures GeneratePatientCode(patients) == "P" + Format03(NextKey(patients, PatientKey))
    ensures forall i :: 1 <= i < |GeneratePatientCode(patients)| ==> IsAsciiDigit(GeneratePatientCode(patients)[i])
    ensures DecimalValue(GeneratePatientCode(patients)[1..]) == NextKey(patients, PatientKey)
  {
    var code := GeneratePatientCode(patients);
    var digits := Format03(NextKey(patients, PatientKey));
    Format03Spells(NextKey(patients, PatientKey));
    assert code[1..] == digits;
    forall i | 1 <= i < |code| ensures IsAsciiDigit(code[i]) {
      assert code[i] == digits[i - 1];
    }
  }

  /** Every patient's code spells its own key, as for patients registered through `create_patient`. */
  predicate CodesSpellKeys(patients: seq<Patient>) {
    forall i :: 0 <= i < |patients| ==> patients[i].code == "P" + Format03(patients[i].id)
  }

  /** Codes that spell distinct keys are distinct. */
  lemma SpelledCodesDistinct(patients: seq<Patient>)
    requires KeysIncreasing(patients, PatientKey) && CodesSpellKeys(patients)
    ensures forall i, j :: 0 <= i < j < |patients| ==> patients[i].code != patients[j].code
  {
    forall i, j | 0 <= i < j < |patients| ensures patients[i].code != patients[j].code {
      SpelledCodeDiffers(patients[i].id, patients[j].id);
    }
  }

  // ----- Registering a patient -----

  datatype CreatePatientError = DuplicatePatientCode  // the unique `patient_id` makes the commit fail

  /** The row `create_patient` adds, or why the commit fails. */
  function CreatePatientOutcome(patients: seq<Patient>, name: string, age: int, gender: string)
    : (r: Result<Patient, CreatePatientError>)
    requires KeysIncreasing(patients, PatientKey)
    ensures r.Ok? ==> r.value == Patient(NextKey(patients, PatientKey), GeneratePatientCode(patients), name, age, gender)
    ensures r.Ok? <==> forall i :: 0 <= i < |patients| ==> patients[i].code != GeneratePatientCode(patients)
  {
    var code := GeneratePatientCode(patients);
    if exists i :: 0 <= i < |patients| && patients[i].code == code then Err(DuplicatePatientCode)
    else Ok(Patient(NextKey(patients, PatientKey), code, name, age, gender))
  }

  /** When every code spells its key, registering never collides and keeps codes spelling keys. */
  lemma CreatePatientKeepsCodes(patients: seq<Patient>, name: string, age: int, gender: string)
    requires KeysIncreasing(patients, PatientKey) && CodesSpellKeys(patients)
    ensures CreatePatientOutcome(patients, name, age, gender).Ok?
    ensures CodesSpellKeys(patients + [CreatePatientOutcome(patients, name, age, gender).value])
  {
    var next := NextKey(patients, PatientKey);
    CodeSpellsNextKey(patients);
    forall i | 0 <= i < |patients| ensures patients[i].code != "P" + Format03(next) {
      SpelledCodeDiffers(patients[i].id, next);
    }
    var p := CreatePatientOutcome(patients, name, age, gender).value;
    assert p.code == "P" + Format03(p.id);
    AppendSpelled(patients, p);
  }

  lemma AppendSpelled(patients: seq<Patient>, p: Patient)
    requires CodesSpellKeys(patients) && p.code == "P" + Format03(p.id)
    ensures CodesSpellKeys(patients + [p])
  {
    var all := patients + [p];
    forall i | 0 <= i < |all| ensures all[i].code == "P" + Format03(all[i].id) {
      if i < |patients| {
        assert all[i] == patients[i];
      }
    }
  }

  lemma SpelledCodeDiffers(a: nat, b: nat)
    requires a != b
    ensures "P" + Format03(a) != "P" + Format03(b)
  {
    Format03Spells(a);
    Format03Spells(b);
    assert ("P" + Format03(a))[1..] == Format03(a);
    assert ("P" + Format03(b))[1..] == Format03(b);
  }

  /** `create_patient`: appends the new patient under the next key, or changes nothing. */
  method CreatePatient(db: Database, name: string, age: int, gender: string) returns (r: Result<Patient, CreatePatientError>)
    requires db.Valid()
    modifies db
    ensures db.Valid()
    ensures r == CreatePatientOutcome(old(db.patients), name, age, gender)
    ensures r.Ok? ==> db.patients == old(db.patients) + [r.value]
    ensures r.Err? ==> db.patients == old(db.patients)
    ensures db.visits == old(db.visits) && db.users == old(db.users)
    ensures db.treatments == old(db.treatments) && db.nihssItems == old(db.nihssItems)
  {
    r := CreatePatientOutcome(db.patients, name, age, gender);
    if r.Ok? {
      AppendKeepsOrder(db.patients, PatientKey, r.value);
      db.patients := db.patients + [r.value];
    }
  }

  // ----- Vitals -----

  datatype UpdateVitalsError = VisitNotFound

  /** The row after `update_vitals`: seven vitals replaced (the integer glucose stored as a real). */
  function WithVitals(v: Visit, systolic: int, diastolic: int, heartRate: int, temperature: real,
                      oxygen: int, glucose: int, inr: real): Visit
  {
    v.(systolicBp := Some(systolic), diastolicBp := Some(diastolic), heartRate := Some(heartRate),
       temperature := Some(temperature), oxygenSaturation := Some(oxygen),
       glucose := Some(glucose as real), inr := Some(inr))
  }

  /** The columns `update_vitals` writes. */
  const VitalsColumns: set<Column> :=
    {SystolicBpCol, DiastolicBpCol, HeartRateCol, TemperatureCol, OxygenSaturationCol, GlucoseCol, InrCol}

  /** The assignments `update_vitals` makes, as one partial update. */
  function VitalsMap(systolic: int, diastolic: int, heartRate: int, temperature: real,
                     oxygen: int, glucose: int, inr: real): map<Column, Value>
  {
    map[SystolicBpCol := Int(systolic)][DiastolicBpCol := Int(diastolic)]
      [HeartRateCol := Int(heartRate)][TemperatureCol := Real(temperature)]
      [OxygenSaturationCol := Int(oxygen)][GlucoseCol := Real(glucose as real)][InrCol := Real(inr)]
  }

  /**
   * `update_vitals` is the partial update naming exactly seven columns: those
   * read back as given and every other column keeps its value.
   */
  lemma WithVitalsIsPartialUpdate(v: Visit, systolic: int, diastolic: int, heartRate: int, temperature: real,
                                  oxygen: int, glucose: int, inr: real)
    ensures VitalsMap(systolic, diastolic, heartRate, temperature, oxygen, glucose, inr).Keys == VitalsColumns
    ensures WithVitals(v, systolic, diastolic, heartRate, temperature, oxygen, glucose, inr)
      == Updated(v, VitalsMap(systolic, diastolic, heartRate, temperature, oxygen, glucose, inr))
    ensures forall c :: c !in VitalsColumns ==>
      ColumnValue(WithVitals(v, systolic, diastolic, heartRate, temperature, oxygen, glucose, inr), c) == ColumnValue(v, c)
  {
    WithVitalsUpdated(v, systolic, diastolic, heartRate, temperature, oxygen, glucose, inr);
    WithVitalsKeepsOthers(v, systolic, diastolic, heartRate, temperature, oxygen, glucose, inr);
  }

  lemma WithVitalsUpdated(v: Visit, systolic: int, diastolic: int, heartRate: int, temperature: real,
                          oxygen: int, glucose: int, inr: real)
    ensures WithVitals(v, systolic, diastolic, heartRate, temperature, oxygen, glucose, inr)
      == Updated(v, VitalsMap(systolic, diastolic, heartRate, temperature, oxygen, glucose, inr))
  {
  }

  lemma WithVitalsKeepsOthers(v: Visit, systolic: int, diastolic: int, heartRate: int, temperature: real,
                              oxygen: int, glucose: int, inr: real)
    ensures forall c :: c !in VitalsColumns ==>
      ColumnValue(WithVitals(v, systolic, diastolic, heartRate, temperature, oxygen, glucose, inr), c) == ColumnValue(v, c)
  {
  }

  /** `update_vitals`: the seven vitals of the visit, or `VisitNotFound` with no change. */
  method UpdateVitals(db: Database, visitId: int, systolic: int, diastolic: int, heartRate: int,
                      temperature: real, oxygen: int, glucose: int, inr: real)
    returns (r: Result<Visit, UpdateVitalsError>)
    requires db.Valid()
    modifies db
    ensures db.Valid()
    ensures VisitAt(old(db.visits), visitId).None? ==> r == Err(VisitNotFound) && db.visits == old(db.visits)
    ensures VisitAt(old(db.visits), visitId).Some? ==>
      var i := VisitAt(old(db.visits), visitId).value;
      && db.visits == old(db.visits)[i := WithVitals(old(db.visits)[i], systolic, diastolic, heartRate,
                                                     temperature, oxygen, glucose, inr)]
      && r == Ok(db.visits[i])
    ensures db.patients == old(db.patients) && db.users == old(db.users)
    ensures db.treatments == old(db.treatments) && db.nihssItems == old(db.nihssItems)
  {
    var at := VisitAt(db.visits, visitId);
    if at.None? {
      return Err(VisitNotFound);
    }
    var i := at.value;
    var v := db.visits[i];
    v := v.(systolicBp := Some(systolic));
    v := v.(diastolicBp := Some(diastolic));
    v := v.(heartRate := Some(heartRate));
    v := v.(temperature := Some(temperature));
    v := v.(oxygenSaturation := Some(oxygen));
    v := v.(glucose := Some(glucose as real));
    v := v.(inr := Some(inr));
    ReplaceKeepsOrder(db.visits, VisitKey, i, v);
    db.visits := db.visits[i := v];
    r := Ok(v);
  }

  // ----- Demographics -----

  /** `update_patient`'s assignments: each argument given (not None) replaces its field. */
  function Patched(p: Patient, name: Option<string>, age: Option<int>, gender: Option<string>): (q: Patient)
    ensures q.id == p.id && q.code == p.code
    ensures q.name == (if name.Some? then name.value else p.name)
    ensures q.age == (if age.Some? then age.value else p.age)
    ensures q.gender == (if gender.Some? then gender.value else p.gender)
  {
    var q := if name.Some? then p.(name := name.value) else p;
    var q := if age.Some? then q.(age := age.value) else q;
    if gender.Some? then q.(gender := gender.value) else q
  }

  /** Passing nothing changes nothing, and applying the same update twice is applying it once. */
  lemma PatchedIdempotent(p: Patient, name: Option<string>, age: Option<int>, gender: Option<string>)
    ensures Patched(p, None, None, None) == p
    ensures Patched(Patched(p, name, age, gender), name, age, gender) == Patched(p, name, age, gender)
  {
  }

  /** `db.query(Patient).filter(Patient.patient_id == code).first()` as a position. */
  function PatientAt(patients: seq<Patient>, code: string): (r: Option<nat>)
    ensures r.Some? ==> r.value < |patients| && patients[r.value].code == code
    ensures r.None? <==> forall j :: 0 <= j < |patients| ==> patients[j].code != code
  {
    FirstIndex(patients, PatientWithCode(code))
  }

  /** `update_patient`: None for an unknown code; otherwise the given fields of that patient change. */
  method UpdatePatient(db: Database, code: string, name: Option<string>, age: Option<int>, gender: Option<string>)
    returns (r: Option<Patient>)
    requires db.Valid()
    modifies db
    ensures db.Valid()
    ensures PatientAt(old(db.patients), code).None? ==> r.None? && db.patients == old(db.patients)
    ensures PatientAt(old(db.patients), code).Some? ==>
      var i := PatientAt(old(db.patients), code).value;
      && db.patients == old(db.patients)[i := Patched(old(db.patients)[i], name, age, gender)]
      && r == Some(db.patients[i])
    ensures db.visits == old(db.visits) && db.users == old(db.users)
    ensures db.treatments == old(db.treatments) && db.nihssItems == old(db.nihssItems)
  {
    var at := PatientAt(db.patients, code);
    if at.None? {
      return None;
    }
    var i := at.value;
    var p := db.patients[i];
    if name.Some? {
      p := p.(name := name.value);
    }
    if age.Some? {
      p := p.(age := age.value);
    }
    if gender.Some? {
      p := p.(gender := gender.value);
    }
    ReplaceKeepsOrder(db.patients, PatientKey, i, p);
    db.patients := db.patients[i := p];
    r := Some(p);
  }

  // ----- Deleting -----

  /** Removing a row keeps the keys increasing. */
  lemma RemoveKeepsOrder<T>(rows: seq<T>, key: T -> int, i: nat)
    requires KeysIncreasing(rows, key) && i < |rows|
    ensures KeysIncreasing(rows[..i] + rows[i + 1..], key)
  {
    var r := rows[..i] + rows[i + 1..];
    forall a | 0 <= a < |r| ensures r[a] == rows[if a < i then a else a + 1] {
    }
  }

  /**
   * After removing the row found for a key, no row has that key and every
   * other row is still there.
   */
  lemma RemovedVisitGone(visits: seq<Visit>, visitId: int, i: nat)
    requires KeysIncreasing(visits, VisitKey) && VisitAt(visits, visitId) == Some(i)
    ensures VisitAt(visits[..i] + visits[i + 1..], visitId).None?
    ensures forall w :: w in visits && w.id != visitId ==> w in visits[..i] + visits[i + 1..]
  {
    var r := visits[..i] + visits[i + 1..];
    forall a | 0 <= a < |r| ensures r[a].id != visitId {
      assert r[a] == visits[if a < i then a else a + 1];
    }
    forall w | w in visits && w.id != visitId ensures w in r {
      var a :| 0 <= a < |visits| && visits[a] == w;
      assert a != i;
      if a < i {
        assert r[a] == w;
      } else {
        assert r[a - 1] == w;
      }
    }
  }

  /** `delete_visit`: false when the visit does not exist; otherwise that one row is removed. */
  method DeleteVisit(db: Database, visitId: int) returns (deleted: bool)
    requires db.Valid()
    modifies db
    ensures db.Valid()
    ensures deleted <==> VisitAt(old(db.visits), visitId).Some?
    ensures !deleted ==> db.visits == old(db.visits)
    ensures deleted ==> var i := VisitAt(old(db.visits), visitId).value;
      db.visits == old(db.visits)[..i] + old(db.visits)[i + 1..]
    ensures db.patients == old(db.patients) && db.users == old(db.users)
    ensures db.treatments == old(db.treatments) && db.nihssItems == old(db.nihssItems)
  {
    var at := VisitAt(db.visits, visitId);
    if at.None? {
      return false;
    }
    var i := at.value;
    RemoveKeepsOrder(db.visits, VisitKey, i);
    db.visits := db.visits[..i] + db.visits[i + 1..];
    deleted := true;
  }

  /** `Visit.patient_id != pk`: the visits a patient deletion keeps. */
  function NotOfPatient(pk: int): Visit -> bool {
    (v: Visit) => v.patientId != pk
  }

  /**
   * `delete_patient`: false for an unknown code; otherwise every visit of
   * that patient is removed, then the patient.
   */
  method DeletePatient(db: Database, code: string) returns (deleted: bool)
    requires db.Valid()
    modifies db
    ensures db.Valid()
    ensures deleted <==> PatientAt(old(db.patients), code).Some?
    ensures !deleted ==> db.patients == old(db.patients) && db.visits == old(db.visits)
    ensures deleted ==> var i := PatientAt(old(db.patients), code).value;
      && db.patients == old(db.patients)[..i] + old(db.patients)[i + 1..]
      && db.visits == Filter(old(db.visits), NotOfPatient(old(db.patients)[i].id))
    ensures db.users == old(db.users) && db.treatments == old(db.treatments) && db.nihssItems == old(db.nihssItems)
  {
    var at := PatientAt(db.patients, code);
    if at.None? {
      return false;
    }
    var i := at.value;
    var pk := db.patients[i].id;
    FilterKeepsOrder(db.visits, NotOfPatient(pk), VisitKey);
    db.visits := Filter(db.visits, NotOfPatient(pk));
    RemoveKeepsOrder(db.patients, PatientKey, i);
    db.patients := db.patients[..i] + db.patients[i + 1..];
    deleted := true;
  }

  /**
   * The cascade: after deleting a patient no visit refers to it, and every
   * visit of another patient is kept.
   */
  lemma CascadeComplete(visits: seq<Visit>, pk: int)
    ensures forall w :: w in Filter(visits, NotOfPatient(pk)) ==> w.patientId != pk
    ensures forall w :: w in visits && w.patientId != pk ==> w in Filter(visits, NotOfPatient(pk))
  {
    var kept := Filter(visits, NotOfPatient(pk));
    forall w | w in kept ensures w.patientId != pk {
      var a :| 0 <= a < |kept| && kept[a] == w;
      assert NotOfPatient(pk)(kept[a]);
    }
    forall w | w in visits && w.patientId != pk ensures w in kept {
      var a :| 0 <= a < |visits| && visits[a] == w;
      assert NotOfPatient(pk)(visits[a]);
    }
  }
}
