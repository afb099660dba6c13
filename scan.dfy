/**
 * Scan intake (services/scan_service.py): the name under which an uploaded
 * scan is stored, the prediction wrapper around the classifier, and the
 * pipeline that records the scan and the prediction on the visit,
 * re-evaluates tPA eligibility and writes the verdict back.
 *
 * The random hex of the file name, the classifier's outcome and the clock
 * are parameters; the wording of each reason line is a parameter too.
 */
module ScanService {
  import opened Common
  import opened Tables
  import opened Records
  import opened TpaService

  // ----- The stored file name -----

  /** The position of the last `c` in `s`. */
  function LastIndexOf(s: string, c: char): (r: Option<nat>)
    ensures r.Some? ==> r.value < |s| && s[r.value] == c && forall j :: r.value < j < |s| ==> s[j] != c
    ensures r.None? ==> forall j :: 0 <= j < |s| ==> s[j] != c
  {
    if s == [] then None
    else if s[|s| - 1] == c then Some(|s| - 1)
    else LastIndexOf(s[..|s| - 1], c)
  }

  /**
   * `os.path.splitext(p)[1]` on POSIX: from the last dot of the last path
   * component, unless that component has only dots before it.
   */
  function Extension(p: string): (ext: string)
    ensures ext == [] || (ext[0] == '.' && |ext| <= |p| && ext == p[|p| - |ext|..])
    ensures forall i :: 0 < i < |ext| ==> ext[i] != '.' && ext[i] != '/'
  {
    match LastIndexOf(p, '.')
    case None => ""
    case Some(dot) =>
      var start := match LastIndexOf(p, '/') case None => 0 case Some(sep) => sep + 1;
      if dot < start then ""
      else if forall i :: start <= i < dot ==> p[i] == '.' then ""
      else p[dot..]
  }

  /** An uploaded file, of which only the name matters here. */
  datatype Upload = Upload(name: Option<string>)

  /** The extension the stored copy gets: the original's, or ".png" when it has none. */
  function SavedExtension(name: Option<string>): (ext: string)
    ensures |ext| >= 1 && ext[0] == '.'
  {
    // A missing or empty name stands for "scan.png", whose extension is ".png" (DefaultNameExtension).
    if name.Some? && name.value != [] && Extension(name.value) != [] then Extension(name.value) else ".png"
  }

  /** The name used for an upload without one has the extension ".png". */
  lemma DefaultNameExtension()
    ensures Extension("scan.png") == ".png"
  {
    var p := "scan.png";
    assert p[7] != '.' && p[6] != '.' && p[5] != '.' && p[4] == '.';
    assert LastIndexOf(p[..7], '.') == LastIndexOf(p[..6], '.');
    assert LastIndexOf(p[..6], '.') == LastIndexOf(p[..5], '.');
    assert p[..5][4] == '.';
    assert LastIndexOf(p, '.') == Some(4);
    assert forall j :: 0 <= j < |p| ==> p[j] != '/';
    assert p[0] != '.';
    assert p[4..] == ".png";
  }

  /** `save_uploaded_scan`: the path of the stored copy, given the random hex. */
  function SavedScanPath(hex: string, name: Option<string>): string {
    "data/uploads/" + "scan_" + hex + SavedExtension(name)
  }

  /**
   * The stored extension is the original name's own when it has one; an
   * empty or missing name, or one without an extension, gives ".png".
   */
  lemma SavedExtensionCases(name: Option<string>)
    ensures name.Some? && name.value != [] && Extension(name.value) != [] ==>
      SavedExtension(name) == Extension(name.value)
      && StartsWith(Reverse(name.value), Reverse(SavedExtension(name)))
    ensures name.None? || name == Some("") || Extension(name.value) == [] ==> SavedExtension(name) == ".png"
  {
    if name.Some? && name.value != [] && Extension(name.value) != [] {
      ReverseSuffix(name.value, SavedExtension(name));
    }
  }

  lemma ReverseSuffix(s: string, t: string)
    requires |t| <= |s| && t == s[|s| - |t|..]
    ensures StartsWith(Reverse(s), Reverse(t))
  {
    assert Reverse(s)[..|t|] == Reverse(t);
  }

  /** The stored path lies in the upload folder, is never empty, and ends in the stored extension. */
  lemma SavedScanPathShape(hex: string, name: Option<string>)
    ensures var p := SavedScanPath(hex, name);
      && p != []
      && StartsWith(p, "data/uploads/scan_")
      && p[|p| - |SavedExtension(name)|..] == SavedExtension(name)
  {
    var p := SavedScanPath(hex, name);
    assert p == "data/uploads/scan_" + hex + SavedExtension(name);
  }

  // ----- The prediction -----

  /** What the classifier did: raised, or returned a dictionary with these keys present or not. */
  datatype PredictorOutcome =
      Raised
    | Returned(classLabel: Option<string>, confidence: Option<real>, probabilities: Option<seq<real>>)

  /** `(label, confidence, probabilities)` */
  datatype Prediction = Prediction(classLabel: Option<string>, confidence: Option<real>, probabilities: seq<real>)

  /** `run_model_on_scan`: empty values without the classifier or when it raises. */
  function RunModelOnScan(mlAvailable: bool, outcome: PredictorOutcome): (p: Prediction)
    ensures !mlAvailable || outcome.Raised? ==> p == Prediction(None, None, [])
    ensures mlAvailable && outcome.Returned? ==>
      p.classLabel == outcome.classLabel && p.confidence == outcome.confidence
      && p.probabilities == (if outcome.probabilities.Some? then outcome.probabilities.value else [])
  {
    if !mlAvailable then Prediction(None, None, [])
    else match outcome
      case Raised => Prediction(None, None, [])
      case Returned(l, c, ps) => Prediction(l, c, if ps.Some? then ps.value else [])
  }

  // ----- The pipeline -----

  datatype ScanError = NoScanFile | VisitMissing(visitId: int)

  /** The dictionary `process_scan_for_visit` returns to the page. */
  datatype ScanResponse = ScanResponse(
    visitId: int, scanPath: string, prediction: Option<string>, confidence: real,
    probabilities: seq<real>, tpaEligible: bool, tpaReason: string)

  /** The row after the first commit: the new scan and the new prediction, overwritten. */
  function Scanned(v: Visit, path: string, p: Prediction): Visit {
    v.(scanPath := Some(path), predictionLabel := p.classLabel, predictionConfidence := p.confidence)
  }

  /** The reason text: the lines joined with newlines. */
  function ReasonText(verdict: Verdict, wording: Reason -> string): string {
    Join(seq(|verdict.reasons|, i requires 0 <= i < |verdict.reasons| => wording(verdict.reasons[i])), "\n")
  }

  /** The row after the second commit: the verdict written back, the status set if it had none. */
  function Evaluated(v: Visit, verdict: Verdict, wording: Reason -> string): Visit {
    v.(tpaEligible := Some(verdict.eligible),
       tpaReason := Some(ReasonText(verdict, wording)),
       status := if v.status.Some? && v.status.value != [] then v.status else Some("analysis_completed"))
  }

  /** The response built from the row after both commits. */
  function Response(v: Visit, probabilities: seq<real>): ScanResponse {
    ScanResponse(v.id, if v.scanPath.Some? then v.scanPath.value else "",
      v.predictionLabel, if v.predictionConfidence.Some? then v.predictionConfidence.value else 0.0,
      probabilities, v.tpaEligible == Some(true), if v.tpaReason.Some? then v.tpaReason.value else "")
  }

  /**
   * `process_scan_for_visit`: checks the file, then the visit; stores the
   * scan and the prediction; re-evaluates tPA on the updated row; writes the
   * verdict and, for a row without a status, "analysis_completed".
   * `annotationsDeleted` tells whether the old annotations are removed.
   */
  method ProcessScanForVisit(db: Database, visitId: int, file: Option<Upload>, hex: string,
                             mlAvailable: bool, outcome: PredictorOutcome, now: int, wording: Reason -> string)
    returns (r: Result<ScanResponse, ScanError>, annotationsDeleted: bool)
    requires db.Valid()
    modifies db
    ensures db.Valid()
    ensures file.None? ==> r == Err(NoScanFile) && db.visits == old(db.visits)
    ensures file.Some? && VisitAt(old(db.visits), visitId).None? ==> r == Err(VisitMissing(visitId)) && db.visits == old(db.visits)
    ensures file.Some? && VisitAt(old(db.visits), visitId).Some? ==>
      var i := VisitAt(old(db.visits), visitId).value;
      var path := SavedScanPath(hex, file.value.name);
      var p := RunModelOnScan(mlAvailable, outcome);
      var scanned := Scanned(old(db.visits)[i], path, p);
      var verdict := TpaEligibility(old(db.visits)[i := scanned], visitId, now);
      && db.visits == old(db.visits)[i := Evaluated(scanned, verdict, wording)]
      && r == Ok(Response(db.visits[i], p.probabilities))
      && annotationsDeleted == (old(db.visits)[i].scanPath.Some? && old(db.visits)[i].scanPath.value != []
                                && old(db.visits)[i].scanPath.value != path)
    ensures db.patients == old(db.patients) && db.users == old(db.users)
    ensures db.treatments == old(db.treatments) && db.nihssItems == old(db.nihssItems)
  {
    if file.None? {
      return Err(NoScanFile), false;
    }
    var at := VisitAt(db.visits, visitId);
    if at.None? {
      return Err(VisitMissing(visitId)), false;
    }
    var i := at.value;

    var scanPath := SavedScanPath(hex, file.value.name);
    var p := RunModelOnScan(mlAvailable, outcome);
    var oldScanPath := db.visits[i].scanPath;
    annotationsDeleted := oldScanPath.Some? && oldScanPath.value != [] && oldScanPath.value != scanPath;
    var response := ScanVisit(db, i, visitId, scanPath, p, now, wording);
    r := Ok(response);
  }

  /** The two commits on a visit that exists, and the response read from the row. */
  method ScanVisit(db: Database, i: nat, visitId: int, path: string, p: Prediction, now: int, wording: Reason -> string)
    returns (response: ScanResponse)
    requires db.Valid() && VisitAt(db.visits, visitId) == Some(i)
    modifies db
    ensures db.Valid()
    ensures var scanned := Scanned(old(db.visits)[i], path, p);
      var verdict := TpaEligibility(old(db.visits)[i := scanned], visitId, now);
      && db.visits == old(db.visits)[i := Evaluated(scanned, verdict, wording)]
      && response == Response(db.visits[i], p.probabilities)
    ensures db.patients == old(db.patients) && db.users == old(db.users)
    ensures db.treatments == old(db.treatments) && db.nihssItems == old(db.nihssItems)
  {
    StoreScan(db, i, path, p);
    VisitAtAfterReplace(old(db.visits), visitId, i, db.visits[i]);
    var verdict := EvaluateTpaEligibility(db, visitId, now);
    WriteVerdict(db, i, verdict, wording);
    response := Response(db.visits[i], p.probabilities);
  }

  /** The first commit: the scan path and the prediction set on the row. */
  method StoreScan(db: Database, i: nat, path: string, p: Prediction)
    requires db.Valid() && i < |db.visits|
    modifies db
    ensures db.Valid()
    ensures db.visits == old(db.visits)[i := Scanned(old(db.visits)[i], path, p)]
    ensures db.patients == old(db.patients) && db.users == old(db.users)
    ensures db.treatments == old(db.treatments) && db.nihssItems == old(db.nihssItems)
  {
    var visit := db.visits[i];
    visit := visit.(scanPath := Some(path));
    visit := visit.(predictionLabel := p.classLabel);
    visit := visit.(predictionConfidence := p.confidence);
    ReplaceKeepsOrder(db.visits, VisitKey, i, visit);
    db.visits := db.visits[i := visit];
  }

  /**
   * The second commit: the flag, the reason text, and "analysis_completed"
   * for a row without a status. The verdict's flag is a boolean on every
   * path of `evaluate_tpa_eligibility`, so the branch that keeps the old
   * flag when it is `None` has no counterpart here.
   */
  method WriteVerdict(db: Database, i: nat, verdict: Verdict, wording: Reason -> string)
    requires db.Valid() && i < |db.visits|
    modifies db
    ensures db.Valid()
    ensures db.visits == old(db.visits)[i := Evaluated(old(db.visits)[i], verdict, wording)]
    ensures db.patients == old(db.patients) && db.users == old(db.users)
    ensures db.treatments == old(db.treatments) && db.nihssItems == old(db.nihssItems)
  {
    var visit := db.visits[i];
    visit := visit.(tpaEligible := Some(verdict.eligible));
    visit := visit.(tpaReason := Some(ReasonText(verdict, wording)));
    if !(visit.status.Some? && visit.status.value != []) {
      visit := visit.(status := Some("analysis_completed"));
    }
    ReplaceKeepsOrder(db.visits, VisitKey, i, visit);
    db.visits := db.visits[i := visit];
  }

  /**
   * Once a scan is stored the imaging check passes: the re-evaluation never
   * reports missing imaging, and the flag written back is the verdict's.
   */
  lemma ScanSatisfiesImagingCheck(visits: seq<Visit>, i: nat, visitId: int, hex: string, name: Option<string>,
                                  p: Prediction, now: int, wording: Reason -> string)
    requires VisitAt(visits, visitId) == Some(i)
    ensures var scanned := Scanned(visits[i], SavedScanPath(hex, name), p);
      var verdict := TpaEligibility(visits[i := scanned], visitId, now);
      && NoImaging !in verdict.reasons
      && Evaluated(scanned, verdict, wording).tpaEligible == Some(verdict.eligible)
      && Response(Evaluated(scanned, verdict, wording), p.probabilities).tpaEligible == verdict.eligible
  {
    var scanned := Scanned(visits[i], SavedScanPath(hex, name), p);
    VisitAtAfterReplace(visits, visitId, i, scanned);
    SavedScanPathShape(hex, name);
    assert TpaEligibility(visits[i := scanned], visitId, now) == Assess(scanned, now);
    ImagingPresentNotReported(scanned, now);
  }

  /** A row with a status keeps it; a row without one is marked "analysis_completed". */
  lemma StatusRule(v: Visit, verdict: Verdict, wording: Reason -> string)
    ensures v.status.Some? && v.status.value != [] ==> Evaluated(v, verdict, wording).status == v.status
    ensures v.status.None? || v.status == Some("") ==> Evaluated(v, verdict, wording).status == Some("analysis_completed")
    ensures Evaluated(v, verdict, wording).(status := v.status, tpaEligible := v.tpaEligible, tpaReason := v.tpaReason) == v
  {
  }

  /** The response shows a missing confidence as 0.0 and a missing flag or reason as false and "". */
  lemma ResponseDefaults(v: Visit, probabilities: seq<real>)
    ensures v.predictionConfidence.None? ==> Response(v, probabilities).confidence == 0.0
    ensures v.tpaEligible.None? ==> !Response(v, probabilities).tpaEligible
    ensures v.tpaReason.None? ==> Response(v, probabilities).tpaReason == ""
  {
  }
}
