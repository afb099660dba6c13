/**
 * The rows of the relational store the services work on (models/visit.py,
 * models/patient.py, models/user.py, models/treatment.py) and the store
 * itself: one table per entity, each a sequence of rows in primary-key order.
 *
 * Times are integer seconds in one timebase; a nullable column is an Option.
 */
module Records {
  import opened Common
  import opened Tables

  /** One row of the `visits` table. `visitCode` is the column `visit_id` (e.g. "P003-V001"). */
  datatype Visit = Visit(
    id: int,
    patientId: int,
    visitCode: string,
    timestamp: Option<int>,
    onsetTime: Option<int>,
    status: Option<string>,
    doctorUsername: Option<string>,
    systolicBp: Option<int>,
    diastolicBp: Option<int>,
    heartRate: Option<int>,
    respiratoryRate: Option<int>,
    temperature: Option<real>,
    oxygenSaturation: Option<int>,
    glucose: Option<real>,
    inr: Option<real>,
    plateletCount: Option<int>,
    nihssScore: Option<int>,
    tpaEligible: Option<bool>,
    tpaReason: Option<string>,
    predictionLabel: Option<string>,
    predictionConfidence: Option<real>,
    scanPath: Option<string>,
    icdCode: Option<string>,
    treatmentPlan: Option<string>,
    finalized: Option<bool>,
    technicianNotes: Option<string>)

  /** One row of the `patients` table; `code` is the column `patient_id` (e.g. "P003"). */
  datatype Patient = Patient(id: int, code: string, name: string, age: int, gender: string)

  /**
   * The stored password digest. SHA-256 is not modelled: the constructor
   * stands for an injective hash of the password text.
   */
  datatype PasswordHash = Sha256(password: string)

  datatype User = User(id: int, username: string, passwordHash: PasswordHash, role: string, fullName: Option<string>)

  datatype Treatment = Treatment(id: int, visitId: int, planText: string)

  /** A value passed as a keyword argument to `setattr` on a visit. */
  datatype Value = Null | Int(i: int) | Real(r: real) | Str(s: string) | Bool(b: bool) | Time(t: int)

  /** The mapped columns of a visit other than the primary key. */
  datatype Column =
      PatientIdCol
    | VisitCodeCol
    | TimestampCol
    | OnsetTimeCol
    | StatusCol
    | DoctorUsernameCol
    | SystolicBpCol
    | DiastolicBpCol
    | HeartRateCol
    | RespiratoryRateCol
    | TemperatureCol
    | OxygenSaturationCol
    | GlucoseCol
    | InrCol
    | PlateletCountCol
    | NihssScoreCol
    | TpaEligibleCol
    | TpaReasonCol
    | PredictionLabelCol
    | PredictionConfidenceCol
    | ScanPathCol
    | IcdCodeCol
    | TreatmentPlanCol
    | FinalizedCol
    | TechnicianNotesCol

  /** The attribute name of a column, as models/visit.py declares it. */
  function ColumnName(c: Column): string {
    match c
    case PatientIdCol => "patient_id"
    case VisitCodeCol => "visit_id"
    case TimestampCol => "timestamp"
    case OnsetTimeCol => "onset_time"
    case StatusCol => "status"
    case DoctorUsernameCol => "doctor_username"
    case SystolicBpCol => "systolic_bp"
    case DiastolicBpCol => "diastolic_bp"
    case HeartRateCol => "heart_rate"
    case RespiratoryRateCol => "respiratory_rate"
    case TemperatureCol => "temperature"
    case OxygenSaturationCol => "oxygen_saturation"
    case GlucoseCol => "glucose"
    case InrCol => "inr"
    case PlateletCountCol => "platelet_count"
    case NihssScoreCol => "nihss_score"
    case TpaEligibleCol => "tpa_eligible"
    case TpaReasonCol => "tpa_reason"
    case PredictionLabelCol => "prediction_label"
    case PredictionConfidenceCol => "prediction_confidence"
    case ScanPathCol => "scan_path"
    case IcdCodeCol => "icd_code"
    case TreatmentPlanCol => "treatment_plan"
    case FinalizedCol => "finalized"
    case TechnicianNotesCol => "technician_notes"
  }

  /** The column's declared type admits the value (NULL only where the column is nullable). */
  predicate Fits(c: Column, x: Value) {
    match c
    case PatientIdCol => x.Int?
    case VisitCodeCol => x.Str?
    case TimestampCol => x.Null? || x.Time?
    case OnsetTimeCol => x.Null? || x.Time?
    case StatusCol => x.Null? || x.Str?
    case DoctorUsernameCol => x.Null? || x.Str?
    case SystolicBpCol => x.Null? || x.Int?
    case DiastolicBpCol => x.Null? || x.Int?
    case HeartRateCol => x.Null? || x.Int?
    case RespiratoryRateCol => x.Null? || x.Int?
    case TemperatureCol => x.Null? || x.Real?
    case OxygenSaturationCol => x.Null? || x.Int?
    case GlucoseCol => x.Null? || x.Real?
    case InrCol => x.Null? || x.Real?
    case PlateletCountCol => x.Null? || x.Int?
    case NihssScoreCol => x.Null? || x.Int?
    case TpaEligibleCol => x.Null? || x.Bool?
    case TpaReasonCol => x.Null? || x.Str?
    case PredictionLabelCol => x.Null? || x.Str?
    case PredictionConfidenceCol => x.Null? || x.Real?
    case ScanPathCol => x.Null? || x.Str?
    case IcdCodeCol => x.Null? || x.Str?
    case TreatmentPlanCol => x.Null? || x.Str?
    case FinalizedCol => x.Null? || x.Bool?
    case TechnicianNotesCol => x.Null? || x.Str?
  }

  function AsInt(x: Value, cur: Option<int>): Option<int> {
    match x
    case Null => None
    case Int(i) => Some(i)
    case _ => cur
  }

  function AsReal(x: Value, cur: Option<real>): Option<real> {
    match x
    case Null => None
    case Real(r) => Some(r)
    case _ => cur
  }

  function AsStr(x: Value, cur: Option<string>): Option<string> {
    match x
    case Null => None
    case Str(s) => Some(s)
    case _ => cur
  }

  function AsTime(x: Value, cur: Option<int>): Option<int> {
    match x
    case Null => None
    case Time(t) => Some(t)
    case _ => cur
  }

  function AsBool(x: Value, cur: Option<bool>): Option<bool> {
    match x
    case Null => None
    case Bool(b) => Some(b)
    case _ => cur
  }

  /**
   * Reference definition of a partial update: every column present in `kw`
   * takes the given value, every other column keeps its old one.
   */
  function Updated(v: Visit, kw: map<Column, Value>): Visit {
    Visit(
      v.id,
      if PatientIdCol in kw && kw[PatientIdCol].Int? then kw[PatientIdCol].i else v.patientId,
      if VisitCodeCol in kw && kw[VisitCodeCol].Str? then kw[VisitCodeCol].s else v.visitCode,
      if TimestampCol in kw then AsTime(kw[TimestampCol], v.timestamp) else v.timestamp,
      if OnsetTimeCol in kw then AsTime(kw[OnsetTimeCol], v.onsetTime) else v.onsetTime,
      if StatusCol in kw then AsStr(kw[StatusCol], v.status) else v.status,
      if DoctorUsernameCol in kw then AsStr(kw[DoctorUsernameCol], v.doctorUsername) else v.doctorUsername,
      if SystolicBpCol in kw then AsInt(kw[SystolicBpCol], v.systolicBp) else v.systolicBp,
      if DiastolicBpCol in kw then AsInt(kw[DiastolicBpCol], v.diastolicBp) else v.diastolicBp,
      if HeartRateCol in kw then AsInt(kw[HeartRateCol], v.heartRate) else v.heartRate,
      if RespiratoryRateCol in kw then AsInt(kw[RespiratoryRateCol], v.respiratoryRate) else v.respiratoryRate,
      if TemperatureCol in kw then AsReal(kw[TemperatureCol], v.temperature) else v.temperature,
      if OxygenSaturationCol in kw then AsInt(kw[OxygenSaturationCol], v.oxygenSaturation) else v.oxygenSaturation,
      if GlucoseCol in kw then AsReal(kw[GlucoseCol], v.glucose) else v.glucose,
      if InrCol in kw then AsReal(kw[InrCol], v.inr) else v.inr,
      if PlateletCountCol in kw then AsInt(kw[PlateletCountCol], v.plateletCount) else v.plateletCount,
      if NihssScoreCol in kw then AsInt(kw[NihssScoreCol], v.nihssScore) else v.nihssScore,
      if TpaEligibleCol in kw then AsBool(kw[TpaEligibleCol], v.tpaEligible) else v.tpaEligible,
      if TpaReasonCol in kw then AsStr(kw[TpaReasonCol], v.tpaReason) else v.tpaReason,
      if PredictionLabelCol in kw then AsStr(kw[PredictionLabelCol], v.predictionLabel) else v.predictionLabel,
      if PredictionConfidenceCol in kw then AsReal(kw[PredictionConfidenceCol], v.predictionConfidence) else v.predictionConfidence,
      if ScanPathCol in kw then AsStr(kw[ScanPathCol], v.scanPath) else v.scanPath,
      if IcdCodeCol in kw then AsStr(kw[IcdCodeCol], v.icdCode) else v.icdCode,
      if TreatmentPlanCol in kw then AsStr(kw[TreatmentPlanCol], v.treatmentPlan) else v.treatmentPlan,
      if FinalizedCol in kw then AsBool(kw[FinalizedCol], v.finalized) else v.finalized,
      if TechnicianNotesCol in kw then AsStr(kw[TechnicianNotesCol], v.technicianNotes) else v.technicianNotes)
  }

  /** `setattr(visit, <column>, x)`: the partial update naming that one column. */
  function SetColumn(v: Visit, c: Column, x: Value): Visit {
    Updated(v, map[c := x])
  }

  /** `getattr(visit, <column>)` */
  function ColumnValue(v: Visit, c: Column): Value {
    match c
    case PatientIdCol => Int(v.patientId)
    case VisitCodeCol => Str(v.visitCode)
    case TimestampCol => if v.timestamp.Some? then Time(v.timestamp.value) else Null
    case OnsetTimeCol => if v.onsetTime.Some? then Time(v.onsetTime.value) else Null
    case StatusCol => if v.status.Some? then Str(v.status.value) else Null
    case DoctorUsernameCol => if v.doctorUsername.Some? then Str(v.doctorUsername.value) else Null
    case SystolicBpCol => if v.systolicBp.Some? then Int(v.systolicBp.value) else Null
    case DiastolicBpCol => if v.diastolicBp.Some? then Int(v.diastolicBp.value) else Null
    case HeartRateCol => if v.heartRate.Some? then Int(v.heartRate.value) else Null
    case RespiratoryRateCol => if v.respiratoryRate.Some? then Int(v.respiratoryRate.value) else Null
    case TemperatureCol => if v.temperature.Some? then Real(v.temperature.value) else Null
    case OxygenSaturationCol => if v.oxygenSaturation.Some? then Int(v.oxygenSaturation.value) else Null
    case GlucoseCol => if v.glucose.Some? then Real(v.glucose.value) else Null
    case InrCol => if v.inr.Some? then Real(v.inr.value) else Null
    case PlateletCountCol => if v.plateletCount.Some? then Int(v.plateletCount.value) else Null
    case NihssScoreCol => if v.nihssScore.Some? then Int(v.nihssScore.value) else Null
    case TpaEligibleCol => if v.tpaEligible.Some? then Bool(v.tpaEligible.value) else Null
    case TpaReasonCol => if v.tpaReason.Some? then Str(v.tpaReason.value) else Null
    case PredictionLabelCol => if v.predictionLabel.Some? then Str(v.predictionLabel.value) else Null
    case PredictionConfidenceCol => if v.predictionConfidence.Some? then Real(v.predictionConfidence.value) else Null
    case ScanPathCol => if v.scanPath.Some? then Str(v.scanPath.value) else Null
    case IcdCodeCol => if v.icdCode.Some? then Str(v.icdCode.value) else Null
    case TreatmentPlanCol => if v.treatmentPlan.Some? then Str(v.treatmentPlan.value) else Null
    case FinalizedCol => if v.finalized.Some? then Bool(v.finalized.value) else Null
    case TechnicianNotesCol => if v.technicianNotes.Some? then Str(v.technicianNotes.value) else Null
  }

  /**
   * Reading a column back after a partial update gives the value written to
   * it, and every column the update does not name keeps its value.
   */
  lemma UpdatedReadsBack(v: Visit, kw: map<Column, Value>, c: Column)
    requires forall d | d in kw :: Fits(d, kw[d])
    ensures ColumnValue(Updated(v, kw), c) == if c in kw then kw[c] else ColumnValue(v, c)
    ensures Updated(v, kw).id == v.id
  {
  }

  /** Two partial updates over disjoint columns compose into one. */
  lemma UpdatedTwice(v: Visit, kw: map<Column, Value>, c: Column, x: Value)
    requires c !in kw
    ensures Updated(Updated(v, kw), map[c := x]) == Updated(v, kw[c := x])
  {
  }

  /** Setting one more column extends the partial update by that column. */
  lemma SetColumnExtends(v: Visit, kw: map<Column, Value>, c: Column, x: Value)
    requires c !in kw
    ensures SetColumn(Updated(v, kw), c, x) == Updated(v, kw[c := x])
  {
    UpdatedTwice(v, kw, c, x);
  }

  lemma UpdatedNothing(v: Visit)
    ensures Updated(v, map[]) == v
  {
  }

  /** `Visit.id == id` */
  function VisitWithId(id: int): Visit -> bool {
    (v: Visit) => v.id == id
  }

  /** `Visit.patient_id == pk` */
  function VisitOfPatient(pk: int): Visit -> bool {
    (v: Visit) => v.patientId == pk
  }

  /** `Patient.id == pk` */
  function PatientWithId(pk: int): Patient -> bool {
    (p: Patient) => p.id == pk
  }

  /** `Patient.patient_id == code` */
  function PatientWithCode(code: string): Patient -> bool {
    (p: Patient) => p.code == code
  }

  /** `db.query(Visit).filter(Visit.id == id).first()` as a position in the table. */
  function VisitAt(visits: seq<Visit>, id: int): (r: Option<nat>)
    ensures r.Some? ==> r.value < |visits| && visits[r.value].id == id
    ensures r.Some? ==> forall j :: 0 <= j < r.value ==> visits[j].id != id
    ensures r.None? <==> forall j :: 0 <= j < |visits| ==> visits[j].id != id
  {
    FirstIndex(visits, VisitWithId(id))
  }

  /** Replacing the found row by one with the same key, the lookup still finds it there. */
  lemma VisitAtAfterReplace(visits: seq<Visit>, id: int, i: nat, v: Visit)
    requires VisitAt(visits, id) == Some(i) && v.id == id
    ensures VisitAt(visits[i := v], id) == Some(i)
  {
    var visits' := visits[i := v];
    assert visits'[i].id == id;
  }

  function PatientKey(p: Patient): int { p.id }
  function VisitKey(v: Visit): int { v.id }
  function UserKey(u: User): int { u.id }
  function TreatmentKey(t: Treatment): int { t.id }

  /** The patient a visit belongs to: the `Patient.id == Visit.patient_id` side of a join. */
  function PatientOf(patients: seq<Patient>, v: Visit): Option<Patient> {
    First(patients, PatientWithId(v.patientId))
  }

  /** The key a joined (visit, patient) row is ordered by: the visit's. */
  function RowKey(row: (Visit, Patient)): int { row.0.id }

  /**
   * `query(Visit, Patient).join(Patient, Visit.patient_id == Patient.id)`
   * over the visits in the given order: each visit with its patient, a
   * visit without one dropped.
   */
  function Joined(visits: seq<Visit>, patients: seq<Patient>): (rows: seq<(Visit, Patient)>)
    ensures |rows| <= |visits|
    ensures forall i :: 0 <= i < |rows| ==> rows[i].0 in visits && PatientOf(patients, rows[i].0) == Some(rows[i].1)
    ensures forall i :: 0 <= i < |visits| && PatientOf(patients, visits[i]).Some? ==>
      (visits[i], PatientOf(patients, visits[i]).value) in rows
  {
    if visits == [] then []
    else
      var head := JoinRow(patients, visits[0]);
      var rest := Joined(visits[1..], patients);
      assert forall i :: 0 <= i < |rest| ==> rest[i].0 in visits by {
        forall i | 0 <= i < |rest| ensures rest[i].0 in visits {
          assert rest[i].0 in visits[1..];
        }
      }
      assert forall i :: 1 <= i < |visits| ==> visits[i] == visits[1..][i - 1];
      head + rest
  }

  /** The joined row of one visit: none when it has no patient. */
  function JoinRow(patients: seq<Patient>, v: Visit): seq<(Visit, Patient)> {
    match PatientOf(patients, v)
    case None => []
    case Some(p) => [(v, p)]
  }

  /** A joined row is a listed visit paired with its own patient. */
  lemma JoinedMembers(visits: seq<Visit>, patients: seq<Patient>, row: (Visit, Patient))
    ensures row in Joined(visits, patients) <==> row.0 in visits && PatientOf(patients, row.0) == Some(row.1)
  {
    if row.0 in visits && PatientOf(patients, row.0) == Some(row.1) {
      var i :| 0 <= i < |visits| && visits[i] == row.0;
    }
  }

  /** The join keeps the order of the visits, so `ORDER BY id DESC` survives it. */
  lemma {:induction false} JoinedKeepsDescending(visits: seq<Visit>, patients: seq<Patient>)
    requires KeysDecreasing(visits, VisitKey)
    ensures KeysDecreasing(Joined(visits, patients), RowKey)
  {
    if visits != [] {
      var tail := visits[1..];
      TailDecreasing(visits, VisitKey);
      JoinedKeepsDescending(tail, patients);
      var rest := Joined(tail, patients);
      match PatientOf(patients, visits[0])
      case None =>
        assert Joined(visits, patients) == rest;
      case Some(p) =>
        assert Joined(visits, patients) == [(visits[0], p)] + rest;
        forall x | x in tail ensures visits[0].id > x.id {
          var j :| 0 <= j < |tail| && tail[j] == x;
          assert visits[j + 1] == x;
        }
        ConsDecreasing((visits[0], p), rest, RowKey);
    }
  }

  /**
   * The store: one sequence per table, each in ascending primary-key order,
   * which is the order in which SQLite returns the rows of a query without
   * ORDER BY and in which it hands out new keys.
   */
  class Database {
    var patients: seq<Patient>
    var visits: seq<Visit>
    var users: seq<User>
    var treatments: seq<Treatment>
    /**
     * The NIHSS item values set with `setattr` on a visit instance, by visit
     * key. models/visit.py declares no column for them, so they live on the
     * instance held by the session and are never written to the table.
     */
    var nihssItems: map<int, map<string, int>>

    /** Each table's keys are positive and strictly increasing. */
    ghost predicate Valid()
      reads this
    {
      && KeysIncreasing(patients, PatientKey)
      && KeysIncreasing(visits, VisitKey)
      && KeysIncreasing(users, UserKey)
      && KeysIncreasing(treatments, TreatmentKey)
    }

    constructor ()
      ensures Valid()
      ensures patients == [] && visits == [] && users == [] && treatments == [] && nihssItems == map[]
    {
      patients, visits, users, treatments := [], [], [], [];
      nihssItems := map[];
    }
  }
}
