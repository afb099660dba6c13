/**
 * The tPA eligibility evaluator (services/tpa_service.py): an ordered chain
 * of checks over one visit and the current time, each of which can end the
 * evaluation with a reason, plus a warning for a very high NIHSS score that
 * does not end it.
 *
 * Times are integer seconds in one timebase; `now` is a parameter.
 */
module TpaService {
  import opened Common
  import opened Records

  /** One line of the reason text, with the value it reports. */
  datatype Reason =
      VisitNotFound
    | OnsetNotRecorded
    | OutsideWindow(hours: real)
    | NoImaging
    | HemorrhageSuspected
    | NihssMissing
    | NihssTooLow(score: int)
    | NihssVeryHigh(score: int)
    | SystolicHigh(systolic: int)
    | DiastolicHigh(diastolic: int)
    | InrHigh(inr: real)
    | GlucoseOutOfRange(glucose: real)
    | AllCriteriaMet

  /** The result dictionary: `eligible` is always a boolean; `reason` is the lines joined. */
  datatype Verdict = Verdict(eligible: bool, reasons: seq<Reason>)

  /** The 4.5-hour window in seconds. */
  const WindowSeconds: int := 16200

  /** `_hours_since_onset`: elapsed hours, or None without an onset time. */
  function HoursSinceOnset(onset: Option<int>, now: int): (h: Option<real>)
    ensures h.None? <==> onset.None?
    ensures h.Some? ==> h.value * 3600.0 == (now - onset.value) as real
  {
    if onset.None? then None else Some((now - onset.value) as real / 3600.0)
  }

  /** Comparing the hours with 4.5 is comparing the seconds with 16200. */
  lemma HoursAboveWindow(onset: int, now: int)
    ensures HoursSinceOnset(Some(onset), now).value > 4.5 <==> now - onset > WindowSeconds
  {
    var h := HoursSinceOnset(Some(onset), now).value;
    assert h * 3600.0 == (now - onset) as real;
  }

  /** A non-empty text: Python's truth value of a `str`. */
  predicate Present(s: Option<string>) {
    s.Some? && s.value != []
  }

  /** `label and "hemorrhage" in label.lower()` */
  predicate HemorrhageLabel(prediction: Option<string>) {
    Present(prediction) && Contains(Lower(prediction.value), "hemorrhage")
  }

  /** The vital checks, each skipped for an absent or zero value; the first failing one. */
  function VitalFailure(v: Visit): (r: Option<Reason>)
    ensures r.Some? ==> r.value.SystolicHigh? || r.value.DiastolicHigh? || r.value.InrHigh? || r.value.GlucoseOutOfRange?
  {
    if v.systolicBp.Some? && v.systolicBp.value != 0 && v.systolicBp.value > 185 then Some(SystolicHigh(v.systolicBp.value))
    else if v.diastolicBp.Some? && v.diastolicBp.value != 0 && v.diastolicBp.value > 110 then Some(DiastolicHigh(v.diastolicBp.value))
    else if v.inr.Some? && v.inr.value != 0.0 && v.inr.value > 1.7 then Some(InrHigh(v.inr.value))
    else if v.glucose.Some? && v.glucose.value != 0.0 && (v.glucose.value < 50.0 || v.glucose.value > 400.0)
    then Some(GlucoseOutOfRange(v.glucose.value))
    else None
  }

  /** The verdict for a visit that exists, check by check as the evaluator returns. */
  function Assess(v: Visit, now: int): Verdict {
    match HoursSinceOnset(v.onsetTime, now)
    case None => Verdict(false, [OnsetNotRecorded])
    case Some(hours) =>
      if hours > 4.5 then Verdict(false, [OutsideWindow(hours)])
      else if !Present(v.scanPath) then Verdict(false, [NoImaging])
      else if HemorrhageLabel(v.predictionLabel) then Verdict(false, [HemorrhageSuspected])
      else if v.nihssScore.None? then Verdict(false, [NihssMissing])
      else if v.nihssScore.value < 4 then Verdict(false, [NihssTooLow(v.nihssScore.value)])
      else
        var warning := if v.nihssScore.value > 25 then [NihssVeryHigh(v.nihssScore.value)] else [];
        match VitalFailure(v)
        case Some(r) => Verdict(false, warning + [r])
        case None => if warning == [] then Verdict(true, [AllCriteriaMet]) else Verdict(false, warning)
  }

  /** With a scan path recorded, missing imaging is never a reason. */
  lemma ImagingPresentNotReported(v: Visit, now: int)
    requires Present(v.scanPath)
    ensures NoImaging !in Assess(v, now).reasons
  {
  }

  /** `evaluate_tpa_eligibility` on the visit table. */
  function TpaEligibility(visits: seq<Visit>, visitId: int, now: int): Verdict {
    match VisitAt(visits, visitId)
    case None => Verdict(false, [VisitNotFound])
    case Some(i) => Assess(visits[i], now)
  }

  /**
   * `evaluate_tpa_eligibility`: the checks in order, collecting the reasons
   * and returning at the first one that fails.
   */
  method EvaluateTpaEligibility(db: Database, visitId: int, now: int) returns (r: Verdict)
    ensures r == TpaEligibility(db.visits, visitId, now)
  {
    var at := VisitAt(db.visits, visitId);
    if at.None? {
      return Verdict(false, [VisitNotFound]);
    }
    var visit := db.visits[at.value];
    var reasons: seq<Reason> := [];

    var hours := HoursSinceOnset(visit.onsetTime, now);
    if hours.None? {
      return Verdict(false, [OnsetNotRecorded]);
    }
    if hours.value > 4.5 {
      reasons := reasons + [OutsideWindow(hours.value)];
      return Verdict(false, reasons);
    }

    if !Present(visit.scanPath) {
      reasons := reasons + [NoImaging];
      return Verdict(false, reasons);
    }
    if Present(visit.predictionLabel) {
      if Contains(Lower(visit.predictionLabel.value), "hemorrhage") {
        reasons := reasons + [HemorrhageSuspected];
        return Verdict(false, reasons);
      }
    }

    if visit.nihssScore.None? {
      return Verdict(false, [NihssMissing]);
    }
    var score := visit.nihssScore.value;
    if score < 4 {
      return Verdict(false, [NihssTooLow(score)]);
    }
    if score > 25 {
      reasons := reasons + [NihssVeryHigh(score)];
    }

    if visit.systolicBp.Some? && visit.systolicBp.value != 0 && visit.systolicBp.value > 185 {
      reasons := reasons + [SystolicHigh(visit.systolicBp.value)];
      return Verdict(false, reasons);
    }
    if visit.diastolicBp.Some? && visit.diastolicBp.value != 0 && visit.diastolicBp.value > 110 {
      reasons := reasons + [DiastolicHigh(visit.diastolicBp.value)];
      return Verdict(false, reasons);
    }
    if visit.inr.Some? && visit.inr.value != 0.0 && visit.inr.value > 1.7 {
      reasons := reasons + [InrHigh(visit.inr.value)];
      return Verdict(false, reasons);
    }
    if visit.glucose.Some? && visit.glucose.value != 0.0 && (visit.glucose.value < 50.0 || visit.glucose.value > 400.0) {
      reasons := reasons + [GlucoseOutOfRange(visit.glucose.value)];
      return Verdict(false, reasons);
    }

    if |reasons| == 0 {
      return Verdict(true, [AllCriteriaMet]);
    }
    r := Verdict(false, reasons);
  }

  // ----- The criteria, stated on their own -----

  /** The onset is recorded and at most 4.5 hours ago (a future onset counts as within). */
  predicate WithinWindow(v: Visit, now: int) {
    v.onsetTime.Some? && now - v.onsetTime.value <= WindowSeconds
  }

  predicate SystolicOk(v: Visit) { v.systolicBp.None? || v.systolicBp.value <= 185 }
  predicate DiastolicOk(v: Visit) { v.diastolicBp.None? || v.diastolicBp.value <= 110 }
  predicate InrOk(v: Visit) { v.inr.None? || v.inr.value <= 1.7 }
  predicate GlucoseOk(v: Visit) {
    v.glucose.None? || v.glucose.value == 0.0 || 50.0 <= v.glucose.value <= 400.0
  }

  /** Every criterion the evaluator checks, as one conjunction. */
  predicate AllCriteria(v: Visit, now: int) {
    && WithinWindow(v, now)
    && Present(v.scanPath)
    && !HemorrhageLabel(v.predictionLabel)
    && v.nihssScore.Some? && 4 <= v.nihssScore.value <= 25
    && SystolicOk(v) && DiastolicOk(v) && InrOk(v) && GlucoseOk(v)
  }

  /** The vital checks pass exactly when every vital is within its limit. */
  lemma VitalsPassIff(v: Visit)
    ensures VitalFailure(v).None? <==> SystolicOk(v) && DiastolicOk(v) && InrOk(v) && GlucoseOk(v)
  {
  }

  /**
   * A visit is eligible exactly when every criterion holds, and then the
   * only reason is "all criteria met"; otherwise "all criteria met" is never
   * among the reasons, and there is at least one.
   */
  lemma EligibleIff(v: Visit, now: int)
    ensures Assess(v, now).eligible <==> AllCriteria(v, now)
    ensures Assess(v, now).eligible ==> Assess(v, now).reasons == [AllCriteriaMet]
    ensures !Assess(v, now).eligible ==> |Assess(v, now).reasons| >= 1 && AllCriteriaMet !in Assess(v, now).reasons
  {
    VitalsPassIff(v);
    if v.onsetTime.Some? {
      HoursAboveWindow(v.onsetTime.value, now);
    }
  }

  /** Without the visit the verdict is "not found" and nothing else. */
  lemma MissingVisit(visits: seq<Visit>, visitId: int, now: int)
    requires forall i :: 0 <= i < |visits| ==> visits[i].id != visitId
    ensures TpaEligibility(visits, visitId, now) == Verdict(false, [VisitNotFound])
  {
  }

  /** The checks, in the order the evaluator makes them. */
  datatype Check =
      OnsetCheck | WindowCheck | ImagingCheck | HemorrhageCheck | NihssPresentCheck | NihssFloorCheck
    | SystolicCheck | DiastolicCheck | InrCheck | GlucoseCheck

  const CheckOrder: seq<Check> := [
    OnsetCheck, WindowCheck, ImagingCheck, HemorrhageCheck, NihssPresentCheck, NihssFloorCheck,
    SystolicCheck, DiastolicCheck, InrCheck, GlucoseCheck
  ]

  /** Whether a check passes, read on its own (a check on an absent value passes). */
  predicate Passes(c: Check, v: Visit, now: int) {
    match c
    case OnsetCheck => v.onsetTime.Some?
    case WindowCheck => v.onsetTime.None? || now - v.onsetTime.value <= WindowSeconds
    case ImagingCheck => Present(v.scanPath)
    case HemorrhageCheck => !HemorrhageLabel(v.predictionLabel)
    case NihssPresentCheck => v.nihssScore.Some?
    case NihssFloorCheck => v.nihssScore.None? || v.nihssScore.value >= 4
    case SystolicCheck => SystolicOk(v)
    case DiastolicCheck => DiastolicOk(v)
    case InrCheck => InrOk(v)
    case GlucoseCheck => GlucoseOk(v)
  }

  /** The first check in `checks` that fails. */
  function FirstFailing(checks: seq<Check>, v: Visit, now: int): (r: Option<Check>)
    ensures r.None? <==> forall i :: 0 <= i < |checks| ==> Passes(checks[i], v, now)
    ensures r.Some? ==> r.value in checks && !Passes(r.value, v, now)
  {
    if checks == [] then None
    else if !Passes(checks[0], v, now) then Some(checks[0])
    else FirstFailing(checks[1..], v, now)
  }

  /** The reason a failing check gives. */
  function FailureReason(c: Check, v: Visit, now: int): Reason {
    match c
    case OnsetCheck => OnsetNotRecorded
    case WindowCheck => OutsideWindow(if v.onsetTime.Some? then (now - v.onsetTime.value) as real / 3600.0 else 0.0)
    case ImagingCheck => NoImaging
    case HemorrhageCheck => HemorrhageSuspected
    case NihssPresentCheck => NihssMissing
    case NihssFloorCheck => NihssTooLow(if v.nihssScore.Some? then v.nihssScore.value else 0)
    case SystolicCheck => SystolicHigh(if v.systolicBp.Some? then v.systolicBp.value else 0)
    case DiastolicCheck => DiastolicHigh(if v.diastolicBp.Some? then v.diastolicBp.value else 0)
    case InrCheck => InrHigh(if v.inr.Some? then v.inr.value else 0.0)
    case GlucoseCheck => GlucoseOutOfRange(if v.glucose.Some? then v.glucose.value else 0.0)
  }

  predicate IsVitalCheck(c: Check) {
    c == SystolicCheck || c == DiastolicCheck || c == InrCheck || c == GlucoseCheck
  }

  /** The very-high warning, present once the score is known to be above 25. */
  function Warning(v: Visit): seq<Reason> {
    if v.nihssScore.Some? && v.nihssScore.value > 25 then [NihssVeryHigh(v.nihssScore.value)] else []
  }

  /**
   * The first failing check decides: the verdict is ineligible and its last
   * reason is that check's; only a vital check can be preceded by the
   * very-high warning.
   */
  lemma FirstFailureDecides(v: Visit, now: int)
    requires FirstFailing(CheckOrder, v, now).Some?
    ensures var c := FirstFailing(CheckOrder, v, now).value;
      Assess(v, now) == Verdict(false, (if IsVitalCheck(c) then Warning(v) else []) + [FailureReason(c, v, now)])
  {
    if v.onsetTime.Some? {
      HoursAboveWindow(v.onsetTime.value, now);
    }
    var checks := CheckOrder;
    var c := FirstFailing(checks, v, now).value;
    CheckOrderDistinct();
    var k :| 0 <= k < |checks| && checks[k] == c;
    BeforeFirstFailingPass(checks, v, now, k);
    PassedBefore(v, now, k);
    if k < 6 {
      EarlyFailureDecides(v, now, k);
    } else {
      VitalFailureDecides(v, now, k);
    }
  }

  /** The case of a failing check before the vital signs. */
  lemma EarlyFailureDecides(v: Visit, now: int, k: nat)
    requires k < 6 && !Passes(CheckOrder[k], v, now) && forall j :: 0 <= j < k ==> Passes(CheckOrder[j], v, now)
    ensures Assess(v, now) == Verdict(false, [FailureReason(CheckOrder[k], v, now)])
  {
    PassedBefore(v, now, k);
    if v.onsetTime.Some? {
      HoursAboveWindow(v.onsetTime.value, now);
    }
  }

  /** The case of a failing vital check, after the possible warning. */
  lemma VitalFailureDecides(v: Visit, now: int, k: nat)
    requires 6 <= k < 10 && !Passes(CheckOrder[k], v, now) && forall j :: 0 <= j < k ==> Passes(CheckOrder[j], v, now)
    ensures Assess(v, now) == Verdict(false, Warning(v) + [FailureReason(CheckOrder[k], v, now)])
  {
    PassedBefore(v, now, k);
    HoursAboveWindow(v.onsetTime.value, now);
  }

  /** The checks before position `k`, named one by one. */
  lemma PassedBefore(v: Visit, now: int, k: nat)
    requires k <= |CheckOrder| && forall j :: 0 <= j < k ==> Passes(CheckOrder[j], v, now)
    ensures k > 0 ==> v.onsetTime.Some?
    ensures k > 1 ==> now - v.onsetTime.value <= WindowSeconds
    ensures k > 2 ==> Present(v.scanPath)
    ensures k > 3 ==> !HemorrhageLabel(v.predictionLabel)
    ensures k > 4 ==> v.nihssScore.Some?
    ensures k > 5 ==> v.nihssScore.value >= 4
    ensures k > 6 ==> SystolicOk(v)
    ensures k > 7 ==> DiastolicOk(v)
    ensures k > 8 ==> InrOk(v)
  {
    if k > 0 { assert Passes(CheckOrder[0], v, now); }
    if k > 1 { assert Passes(CheckOrder[1], v, now); }
    if k > 2 { assert Passes(CheckOrder[2], v, now); }
    if k > 3 { assert Passes(CheckOrder[3], v, now); }
    if k > 4 { assert Passes(CheckOrder[4], v, now); }
    if k > 5 { assert Passes(CheckOrder[5], v, now); }
    if k > 6 { assert Passes(CheckOrder[6], v, now); }
    if k > 7 { assert Passes(CheckOrder[7], v, now); }
    if k > 8 { assert Passes(CheckOrder[8], v, now); }
  }

  lemma CheckOrderDistinct()
    ensures forall i, j :: 0 <= i < j < |CheckOrder| ==> CheckOrder[i] != CheckOrder[j]
  {
  }

  /** Every check before the first failing one passes. */
  lemma {:induction false} BeforeFirstFailingPass(checks: seq<Check>, v: Visit, now: int, k: nat)
    requires k < |checks| && FirstFailing(checks, v, now) == Some(checks[k])
    requires forall i, j :: 0 <= i < j < |checks| ==> checks[i] != checks[j]
    ensures forall j :: 0 <= j < k ==> Passes(checks[j], v, now)
  {
    if k > 0 {
      assert checks[0] != checks[k];
      BeforeFirstFailingPass(checks[1..], v, now, k - 1);
    }
  }

  /**
   * With no failing check the verdict is eligible, or ineligible with the
   * very-high warning as its sole reason.
   */
  lemma NoFailureDecides(v: Visit, now: int)
    requires FirstFailing(CheckOrder, v, now).None?
    ensures Assess(v, now) == if Warning(v) == [] then Verdict(true, [AllCriteriaMet]) else Verdict(false, Warning(v))
  {
    var checks := CheckOrder;
    assert forall i :: 0 <= i < |checks| ==> Passes(checks[i], v, now);
    assert Passes(checks[0], v, now) && Passes(checks[1], v, now);
    HoursAboveWindow(v.onsetTime.value, now);
    assert Passes(checks[2], v, now) && Passes(checks[3], v, now) && Passes(checks[4], v, now) && Passes(checks[5], v, now);
    assert Passes(checks[6], v, now) && Passes(checks[7], v, now) && Passes(checks[8], v, now) && Passes(checks[9], v, now);
    VitalsPassIff(v);
  }

  /** Every threshold is strict: values exactly at a limit never disqualify. */
  lemma BoundariesPass(v: Visit, now: int)
    requires v.onsetTime == Some(now - WindowSeconds)
    requires Present(v.scanPath) && !HemorrhageLabel(v.predictionLabel)
    requires v.nihssScore == Some(4) || v.nihssScore == Some(25)
    requires v.systolicBp in {None, Some(185)} && v.diastolicBp in {None, Some(110)}
    requires v.inr in {None, Some(1.7)} && v.glucose in {None, Some(50.0), Some(400.0)}
    ensures Assess(v, now) == Verdict(true, [AllCriteriaMet])
  {
    HoursAboveWindow(now - WindowSeconds, now);
  }

  /** An absent or zero vital is skipped: it never disqualifies, glucose 0 included. */
  lemma ZeroVitalsSkipped(v: Visit)
    requires v.systolicBp in {None, Some(0)} && v.diastolicBp in {None, Some(0)}
    requires v.inr in {None, Some(0.0)} && v.glucose in {None, Some(0.0)}
    ensures VitalFailure(v).None?
  {
  }

  /**
   * A score above 25 adds a warning without ending the evaluation: if
   * everything else passes the verdict is ineligible with the warning as its
   * sole reason, and a failing vital check comes after the warning.
   */
  lemma VeryHighWarningFirst(v: Visit, now: int)
    requires v.onsetTime.Some? && now - v.onsetTime.value <= WindowSeconds
    requires Present(v.scanPath) && !HemorrhageLabel(v.predictionLabel)
    requires v.nihssScore.Some? && v.nihssScore.value > 25
    ensures VitalFailure(v).None? ==> Assess(v, now) == Verdict(false, [NihssVeryHigh(v.nihssScore.value)])
    ensures VitalFailure(v).Some? ==>
      Assess(v, now) == Verdict(false, [NihssVeryHigh(v.nihssScore.value), VitalFailure(v).value])
  {
    HoursAboveWindow(v.onsetTime.value, now);
  }

  /** A missing onset ends the evaluation first, whatever else the visit holds. */
  lemma MissingOnsetFirst(v: Visit, now: int)
    requires v.onsetTime.None?
    ensures Assess(v, now) == Verdict(false, [OnsetNotRecorded])
  {
  }

  /** Lower-casing keeps a substring a substring. */
  lemma {:induction false} ContainsLower(s: string, sub: string)
    requires Contains(s, sub)
    ensures Contains(Lower(s), Lower(sub))
  {
    if StartsWith(s, sub) {
      assert Lower(s)[..|sub|] == Lower(sub);
    } else {
      ContainsLower(s[1..], sub);
      assert Lower(s)[1..] == Lower(s[1..]);
    }
  }

  /**
   * The screen ignores case: any spelling of "hemorrhage" in the label
   * stops the evaluation; an absent or empty label is not screened.
   */
  lemma HemorrhageScreen(prediction: string, spelled: string)
    requires Lower(spelled) == "hemorrhage" && Contains(prediction, spelled)
    ensures HemorrhageLabel(Some(prediction))
    ensures !HemorrhageLabel(None) && !HemorrhageLabel(Some(""))
  {
    ContainsLower(prediction, spelled);
  }

  /** A text in which the pattern starts nowhere does not contain it. */
  lemma {:induction false} NoStartNoContains(s: string, sub: string)
    requires forall i :: 0 <= i <= |s| ==> !StartsWith(s[i..], sub)
    ensures !Contains(s, sub)
  {
    assert s[0..] == s;
    if |s| > 0 {
      assert forall i :: 0 <= i <= |s[1..]| ==> s[1..][i..] == s[i + 1..];
      NoStartNoContains(s[1..], sub);
    }
  }

  /**
   * Only the substring "hemorrhage" is screened, and "hemorrhagic" does not
   * contain it: a classifier label "Hemorrhagic Stroke" passes the screen.
   */
  lemma HemorrhagicLabelNotScreened()
    ensures !HemorrhageLabel(Some("Hemorrhagic Stroke"))
  {
    var t := Lower("Hemorrhagic Stroke");
    assert t == "hemorrhagic stroke";
    forall i | 0 <= i <= |t|
      ensures !StartsWith(t[i..], "hemorrhage")
    {
      if i == 0 {
        assert t[9] == 'i';
      } else if i <= 8 {
        assert t[i..][..10][1] != 'e' || t[i..][..10][0] != 'h';
      }
    }
    NoStartNoContains(t, "hemorrhage");
  }
}
