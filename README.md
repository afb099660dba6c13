# Stroke triage system — a Dafny model of its core

This project models the core of a stroke-unit case system. Nurses and technicians register patients and visits, and enter vitals, the NIHSS examination and a brain scan. Doctors review cases, confirm an ICD-10 code and generate a treatment plan. The model covers the services and the page logic named below; what it leaves out (the user interface, libraries, remote services and a few helpers) is listed under "Left out". The modules follow the source's files:

- `TpaService` (tpa.dfy) is the thrombolysis (tPA) eligibility evaluator.
  - It applies the time window from stroke onset, the NIHSS range, the haemorrhage screen on the scan label and the blood-pressure, INR and glucose limits.
  - It keeps the same early returns as the source and keeps its accumulated reasons in order.
- `NihssService` and `NihssPage` (nihss.dfy, nihss_page.dfy) model the thirteen NIHSS items. They cover how the items are stored on a visit, how the total is summed and how the page's raw field names are translated.
- `ScanService` (scan.dfy) models the write-back of a scan prediction and its tPA verdict onto a visit.
- `VitalsEntry` (vitals.dfy) models the vitals form. It covers clamping, the default onset duration and the save that writes nine visit fields.
- `ViewCase` (view_case.dfy) models the doctor's case view. It covers the elapsed-time text, the blood-pressure and fallback display, and the tPA banner.
- `Records` and `Tables` (records.dfy, tables.dfy) hold the database.
  - Its patient, visit, user and treatment tables are sequences of rows in ascending key order.
  - Lookup, update and join helpers operate on those sequences.
- The services:
  - `VisitService` and `PatientService` for visits and patients, including cascading deletes and patient codes;
  - `UserService` and `SessionManager` for accounts, log-in and role checks on the session map.
- `IcdService` and `IcdPage` (icd_service.dfy, icd_page.dfy) model the ICD-10 lookup and the doctor's code selection.
- `AiService` (ai_service.dfy) models the treatment-plan generator. It covers the severity band, the five-point sanitiser and storing the plan.
- `DoctorCaseList` and `TechCaseList` (case_list_doctor.dfy, case_list_tech.dfy) model the two case lists. They cover status labels, filters and search.

Time is measured in integer seconds in one timebase, and the current time `now` is a parameter. Some values come from outside the source and enter the model as parameters:

- the image classifier's label and confidence;
- the reply of the clinical-tables ICD API (`api`);
- the reply of the language model (`llm`);
- the random hexadecimal part of a stored scan's file name (`hex`).

Passwords are stored as a symbolic digest, and reasons are a datatype that carries the offending value in place of message text.

### Behaviour of the code worth knowing

- **Missing scan.** The comment at services/scan_service.py:167-169 expects `evaluate_tpa_eligibility` to return `None` when imaging is missing, and lines 170-171 keep the old flag in that case. Every return of `evaluate_tpa_eligibility` carries a boolean `eligible`, and missing imaging gives `False` with a reason (services/tpa_service.py:55-57). So the `None` branch never runs. In the model the verdict's flag is a boolean, `ScanService.WriteVerdict` always writes it, and `ScanService.ScanSatisfiesImagingCheck` shows that the flag stored after a scan is the verdict's.
- **Haemorrhage screen.** The screen looks only for the substring "hemorrhage" in the lower-cased label (services/tpa_service.py:60-63). A label such as "Hemorrhagic Stroke" does not contain it and is not screened out. `TpaService.HemorrhagicLabelNotScreened` proves this.

## Model

| member | source | states |
|---|---|---|
| TpaService.HoursSinceOnset | services/tpa_service.py:21-25 | the hours are absent exactly when the onset is absent; otherwise hours · 3600 equals the seconds from onset to `now` |
| TpaService.HoursAboveWindow | services/tpa_service.py:48 | "more than 4.5 hours" holds exactly when more than 16200 seconds have elapsed |
| TpaService.VitalFailure | services/tpa_service.py:81-95 | a vital-sign check can only produce one of the four vital-sign reasons |
| TpaService.EvaluateTpaEligibility | services/tpa_service.py:32-113 | the verdict on the visit table is the rule chain applied to the visit with that id, or "Visit not found." when there is none |
| TpaService.MissingVisit | services/tpa_service.py:33-36 | an id matching no visit gives not eligible with the single reason "Visit not found." |
| TpaService.VitalsPassIff | services/tpa_service.py:81-95 | no vital sign fails exactly when systolic, diastolic, INR and glucose are each absent, zero or within their limits |
| TpaService.EligibleIff | services/tpa_service.py:43-108 | eligible exactly when onset is recorded and within 4.5 h, a scan is present, the label does not mention hemorrhage, 4 ≤ NIHSS ≤ 25 and every present vital is within limits; the reason is then "All criteria met" alone, otherwise at least one other reason |
| TpaService.FirstFailing | services/tpa_service.py:35-95 | no failing check exactly when every check in the order passes; otherwise the returned check is in the order and fails |
| TpaService.FirstFailureDecides | services/tpa_service.py:35-95 | the first failing check in the fixed order decides the verdict: not eligible, with that check's reason, preceded by the NIHSS > 25 warning when the failing check is a vital sign |
| TpaService.EarlyFailureDecides | services/tpa_service.py:43-72 | when one of the six checks before the vitals fails after all earlier ones passed, its reason is the only reason |
| TpaService.VitalFailureDecides | services/tpa_service.py:74-95 | when a vital-sign check fails after all earlier ones passed, the reasons are the optional NIHSS warning followed by that vital's reason |
| TpaService.PassedBefore | services/tpa_service.py:43-93 | passing the first k checks means each of the first k conditions holds |
| TpaService.CheckOrderDistinct | services/tpa_service.py:35-95 | the ten checks of the order are distinct |
| TpaService.BeforeFirstFailingPass | services/tpa_service.py:35-95 | every check before the first failing one passes |
| TpaService.NoFailureDecides | services/tpa_service.py:74-113 | when no check fails the patient is eligible unless NIHSS > 25, in which case the warning is the sole reason and the result is not eligible |
| TpaService.BoundariesPass | services/tpa_service.py:48-93 | the boundary values 4.5 h, NIHSS 4 and 25, systolic 185, diastolic 110, INR 1.7, glucose 50 and 400 never disqualify |
| TpaService.ZeroVitalsSkipped | services/tpa_service.py:81-93 | vitals that are absent or zero, glucose 0 included, never fail |
| TpaService.VeryHighWarningFirst | services/tpa_service.py:74-95 | with NIHSS > 25 and the earlier checks passing, the result is not eligible with the warning alone, or the warning followed by the failing vital's reason |
| TpaService.MissingOnsetFirst | services/tpa_service.py:43-46 | a missing onset gives not eligible with "Time since onset not recorded." alone, whatever else the visit holds |
| TpaService.ContainsLower | services/tpa_service.py:61 | a substring stays a substring after both are lower-cased |
| TpaService.HemorrhageScreen | services/tpa_service.py:60-63 | a label containing any spelling of "hemorrhage" whose lower case is "hemorrhage" is screened out; an absent or empty label is not |
| NihssService.NihssFieldsDistinct | services/nihss_service.py:8-22 | the item list holds exactly 13 distinct names |
| NihssService.Get | services/nihss_service.py:41 | `scores.get(k, default)`: the default for an absent key, otherwise the key's value |
| NihssService.FirstInvalidKey | services/nihss_service.py:35-37 | no invalid key exactly when every key is an item name; otherwise a key of the scores that is not one |
| NihssService.FirstInvalidAt | services/nihss_service.py:35-37 | the reported invalid key is the first one in the scores' order |
| NihssService.Items | services/nihss_service.py:40-41 | the stored items are exactly the 13 names, each with `scores.get(name, 0)` |
| NihssService.ItemsOf | services/nihss_service.py:40-41 | the items set for a list of names are exactly those names, each with `scores.get(name, 0)` |
| NihssService.SetItems | services/nihss_service.py:40-41 | the loop setting each item leaves the old attributes overwritten by the new items |
| NihssService.ItemsOfSnoc | services/nihss_service.py:40-41 | setting one more item overwrites exactly that attribute with its score, 0 when absent |
| NihssService.SumFields | services/nihss_service.py:44 | the loop's sum equals the sum of `scores.get(name, 0)` over the names |
| NihssService.SumItemsOfItems | services/nihss_service.py:40-44 | summing the stored items gives the total computed from the scores |
| NihssService.SaveIsConsistent | services/nihss_service.py:40-44 | after a save the stored score is the total, each item holds `scores.get(name, 0)`, and the stored items sum to the stored score |
| NihssService.SaveIdempotent | services/nihss_service.py:40-44 | saving the same scores a second time changes nothing |
| NihssService.SaveNihssScores | services/nihss_service.py:28-49 | a missing visit or an invalid key changes nothing and reports the error; otherwise the visit's items and score are replaced as above and no other table changes |
| NihssService.WriteSaved | services/nihss_service.py:40-46 | the commit replaces the visit row and its item attributes and no other table |
| NihssService.GetNihss | services/nihss_service.py:55-68 | a missing visit gives no result; otherwise the id, the stored score and exactly the 13 stored items |
| NihssService.MissingItem | services/nihss_service.py:65 | no missing item exactly when every name has a stored attribute; otherwise a name without one |
| NihssService.SaveThenGet | services/nihss_service.py:40-68 | reading back after a save gives the saved items and the total, and the total is the sum of the details |
| NihssService.MappingFollowsForm | services/nihss_service.py:89-110 | the twelve mapped items read the twelve form fields after the three LOC fields, with "ataxia" read as "limb_at" |
| NihssService.CalculateNihss | services/nihss_service.py:71-112 | the loop's total is loc + loc_questions + loc_commands + the eleven direct items + limb_at, absent keys counting 0 |
| NihssService.FormTotalIgnores | services/nihss_service.py:104-110 | a key that is not a form field, "ataxia" included, does not change the total |
| NihssService.SumOfNonNegative | services/nihss_service.py:71-112 | non-negative inputs give a non-negative total |
| NihssPage.FormValues | pages/t_nihss_page.py:181-197 | one value per form field |
| NihssPage.Pairs | pages/t_nihss_page.py:181-197 | the dictionary pairs each field with its value, in order |
| NihssPage.StrokeDataLookup | pages/t_nihss_page.py:181-197 | looking up a form field in the packaged data gives the radio's value |
| NihssPage.FormFieldsDistinct | pages/t_nihss_page.py:181-197 | the fifteen form fields are distinct |
| NihssPage.MappedItems | pages/t_nihss_page.py:208-219 | one translated entry per item |
| NihssPage.ItemsSplit | pages/t_nihss_page.py:202-220 | the item names are "consciousness" followed by the mapped items, all distinct |
| NihssPage.ItemScoresKeys | pages/t_nihss_page.py:202-220 | the translated scores carry exactly the 13 item names, in order |
| NihssPage.ItemScoresValues | pages/t_nihss_page.py:203-219 | consciousness = loc + loc_questions + loc_commands, ataxia = limb_at, and every other item is its form value |
| NihssPage.TranslationIsValid | pages/t_nihss_page.py:202-223 | every translated key is an item name, so the save never reports an invalid field |
| NihssPage.TranslationKeepsTotal | pages/t_nihss_page.py:199-226 | the total saved with the items equals `calculate_nihss` of the form |
| NihssPage.ItemScoresLookup | pages/t_nihss_page.py:203-221 | each item name looked up in the translated scores finds its own entry |
| NihssPage.SumOfShifted | pages/t_nihss_page.py:199-226 | sums over two name lists agree when their values agree position by position |
| NihssPage.RadioMaxTotal | pages/t_nihss_page.py:66-176 | the radios' largest options sum to 42 |
| NihssPage.SumIntsConcat | pages/t_nihss_page.py:66-176 | the sum of a concatenation is the sum of the parts |
| NihssPage.BoundedSum | pages/t_nihss_page.py:66-176 | values within their radio's range sum to between 0 and the sum of the maxima |
| NihssPage.RadioTotalBounded | pages/t_nihss_page.py:66-176 | any choice of radio options gives a total between 0 and 42 |
| NihssPage.ScoreKwargs | pages/t_nihss_page.py:226 | `update_visit(nihss_score=total)` writes the score column and nothing else |
| NihssPage.StoreScores | pages/t_nihss_page.py:222-226 | the save and the score update leave the visit with the total and the new items |
| NihssPage.RewriteTotal | pages/t_nihss_page.py:225-226 | `update_visit` with the total the row already holds leaves every table as it was |
| NihssPage.OnCalculate | pages/t_nihss_page.py:178-230 | the click stores the translated items and the total, and sets `nihss_calculated` and `nihss_total` in the session |
| NihssPage.RecordTotal | pages/t_nihss_page.py:229-230 | the session gains `nihss_calculated` set to true, then `nihss_total` set to the total, and the query parameters stay |
| ScanService.LastIndexOf | services/scan_service.py:52 | the last position of the character, or none when it does not occur |
| ScanService.Extension | services/scan_service.py:52 | the extension is empty, or a suffix of the name that starts with '.' and holds no other '.' or '/' |
| ScanService.SavedExtension | services/scan_service.py:51-52 | the saved extension always starts with '.' |
| ScanService.DefaultNameExtension | services/scan_service.py:51 | the default name "scan.png" has extension ".png" |
| ScanService.SavedExtensionCases | services/scan_service.py:51-52 | a name with an extension keeps it, and the name ends with it; an absent or empty name, or one without an extension, gives ".png" |
| ScanService.ReverseSuffix | services/scan_service.py:52 | a suffix of a text is a prefix of the reversed text |
| ScanService.SavedScanPathShape | services/scan_service.py:55-56 | the saved path starts with "data/uploads/scan_" and ends with the saved extension |
| ScanService.RunModelOnScan | services/scan_service.py:84-96 | no model, or a predictor that raises, gives (None, None, []); otherwise the predictor's label and confidence, with probabilities defaulting to [] |
| ScanService.ProcessScanForVisit | services/scan_service.py:137-191 | a missing file, then a missing visit, are errors that change nothing; otherwise the scan path and prediction are written, the verdict is computed on the updated visit and written back, and old annotations are deleted exactly when an old, different scan path was set |
| ScanService.ScanVisit | services/scan_service.py:151-191 | on an existing visit the scan is stored, the verdict is computed on the updated row and written, and the response is read from the final row |
| ScanService.StoreScan | services/scan_service.py:151-158 | the scan path, label and confidence are overwritten and nothing else changes |
| ScanService.WriteVerdict | services/scan_service.py:164-180 | eligibility, reason and a status for a blank status are written and nothing else changes |
| ScanService.ScanSatisfiesImagingCheck | services/scan_service.py:165-174 | after storing a scan the verdict never reports missing imaging, and the stored and reported eligibility are the verdict's |
| TpaService.ImagingPresentNotReported | services/tpa_service.py:55-57 | with a scan path recorded, missing imaging is never a reason |
| ScanService.StatusRule | services/scan_service.py:176-177 | a non-empty status is kept, a missing or empty one becomes "analysis_completed", and only status, eligibility and reason change |
| ScanService.ResponseDefaults | services/scan_service.py:183-191 | a missing confidence is reported as 0.0, a missing eligibility as False and a missing reason as "" |
| TpaService.NoStartNoContains | services/tpa_service.py:61 | a text in which the pattern starts at no position does not contain it |
| TpaService.HemorrhagicLabelNotScreened | services/tpa_service.py:60-63 | a label "Hemorrhagic Stroke" is not screened, because "hemorrhagic" does not contain "hemorrhage" |
| VitalsEntry.Clamp | pages/t_vitals_entry.py:67-71 | the result lies in [lo, hi] whenever lo ≤ hi; a value that cannot be read as an integer gives lo; a value in range is kept and one outside is moved to the nearer bound |
| VitalsEntry.DurationInputs | pages/t_vitals_entry.py:73-79 | the hours reaching Save lie in 0..168 and the minutes in 0..59 |
| VitalsEntry.DefaultDuration | pages/t_vitals_entry.py:49-65 | (0, 0) for a missing or future onset; otherwise minutes in 0..59 and hours · 60 + minutes is the whole number of minutes elapsed |
| VitalsEntry.OnsetFromDuration | pages/t_vitals_entry.py:85-92 | a positive duration gives the onset that many minutes before `now`; a zero duration gives no onset |
| VitalsEntry.ZeroDurationClearsOnset | pages/t_vitals_entry.py:88-104 | saving 0 h 0 m clears a recorded onset |
| VitalsEntry.DurationRoundTrip | pages/t_vitals_entry.py:59-90 | at the same `now`, deriving the default duration from the saved onset gives back the entered hours and minutes |
| VitalsEntry.InputsRoundTrip | pages/t_vitals_entry.py:59-90 | the same round trip for whatever the two inputs hold after clamping |
| VitalsEntry.VitalsKwargsWellFormed | pages/t_vitals_entry.py:94-105 | the Save call names nine distinct existing columns, each with a value of the column's type |
| VitalsEntry.VitalsAssignments | pages/t_vitals_entry.py:94-105 | the Save call assigns exactly the eight vitals and `onset_time` |
| VitalsEntry.NineAssignments | pages/t_vitals_entry.py:94-105 | nine distinct column keywords assign their nine values |
| VitalsEntry.ThreeAssignments | pages/t_vitals_entry.py:94-105 | three more distinct column keywords extend the assignment by their values |
| VitalsEntry.SaveWritesExactlyVitals | pages/t_vitals_entry.py:94-105 | the update writes the vitals and the onset, and every other column keeps its value |
| VitalsEntry.UpdatedByVitalsMap | pages/t_vitals_entry.py:94-105 | applying the vitals assignment gives the saved visit |
| VitalsEntry.OtherColumnsKept | pages/t_vitals_entry.py:94-105 | no column outside the vitals and the onset changes |
| VitalsEntry.SaveVitals | pages/t_vitals_entry.py:84-105 | a missing visit changes nothing; otherwise the visit gets the clamped duration's onset and the vitals, and no other table changes |
| ViewCase.Clock | pages/d_view_case.py:54-58 | negative seconds count as 0; hours < 24, minutes < 60, and days, hours and minutes give the seconds to within a minute |
| ViewCase.ClockArithmetic | pages/d_view_case.py:56-58 | the three quotients are in range and reconstruct the seconds to within 60 |
| ViewCase.ElapsedParts | pages/d_view_case.py:59-64 | one to three parts, the last always the minutes followed by "m" |
| ViewCase.FormatTimedelta | pages/d_view_case.py:49-65 | the loop's text is the parts joined with single blanks |
| ViewCase.ElapsedTextShape | pages/d_view_case.py:59-65 | the text ends with "<m>m", holds a "d" exactly when days > 0, and an "h" exactly when hours > 0 or days > 0 |
| ViewCase.DigitsThenLetter | pages/d_view_case.py:61-64 | a number followed by a letter holds no other non-digit |
| ViewCase.JoinEndsWithLast | pages/d_view_case.py:65 | a join ends with its last part |
| ViewCase.JoinChars | pages/d_view_case.py:65 | a character is in a join exactly when it is in a part, or in the separator when there are two parts or more |
| ViewCase.UnderAMinute | pages/d_view_case.py:54-64 | less than a minute, negative durations included, reads "0m" |
| ViewCase.SinceOnsetText | pages/d_view_case.py:67-78 | "—" exactly when no onset is recorded; otherwise `_format_timedelta` of the time from the onset to `now` |
| ViewCase.IntToString | pages/d_view_case.py:39 | an integer is written with at least one character |
| ViewCase.BloodPressureText | pages/d_view_case.py:37-39 | "—" exactly when either value is missing; otherwise the text starts with "<s>/", ends with "<d> mmHg" and has nothing else between them |
| ViewCase.HighestCandidate | pages/d_view_case.py:87-102 | the highest-id other visit of the same patient with a vital or NIHSS set, or none exactly when there is no such visit |
| ViewCase.PreviousVisit | pages/d_view_case.py:80-102 | the fallback is looked up only when systolic, diastolic, heart rate, glucose and NIHSS are all missing, and is then the highest-id candidate |
| ViewCase.PreviousVisitIsAnother | pages/d_view_case.py:80-102 | the previous visit is never the visit itself, and it has values the visit lacks |
| ViewCase.TpaText | pages/d_view_case.py:200-203 | "—" exactly for no verdict, "Eligible" exactly for True, "NOT Eligible" exactly for False |
| ViewCase.TpaReasonText | pages/d_view_case.py:204 | "—" exactly when the reason is missing, empty or itself "—"; otherwise the reason |
| VisitService.NewVisit | services/visit_service.py:31 | the new row has the given key, patient and code, status "in_progress", the creation time, not finalised, and no clinical values |
| VisitService.CreateVisitOutcome | services/visit_service.py:10-35 | the code as written: a patient code matching no patient gives no visit; a new visit belongs to an existing patient, takes the next key, and carries a code not already in the table (a taken code fails the unique column) |
| VisitService.PatientKey | services/visit_service.py:13-21 | a given key is used as is; a code gives a key exactly when a patient has that code |
| VisitService.NewCodeCountsVisits | services/visit_service.py:26-29 | the code as written is "<patient code>-V" followed by at least three digits whose value is the patient's visit count including the new visit |
| VisitService.CountAppend | services/visit_service.py:27 | appending a row raises the count by one exactly when the row matches |
| VisitService.CollisionAfterDelete | services/visit_service.py:27-33 | as written: after V001 and V002 and the deletion of V001, the next visit is numbered V002 again and the unique column rejects it |
| VisitService.CodeReissued | services/visit_service.py:27-33 | as written: a patient whose only visit is V002 is issued V002 again |
| VisitService.FirstVisitOfOne | services/visit_service.py:26-31 | a patient without visits gets V001 under key 1 |
| VisitService.SecondVisitOfOne | services/visit_service.py:26-31 | a patient with V001 gets V002 under key 2 |
| VisitService.MaxVisitNumber | services/visit_service.py:24-29 | no code of the patient carries a number above the maximum |
| VisitService.VisitCodeNumber | services/visit_service.py:29 | a generated code carries its number after "<patient code>-V" |
| VisitService.VisitCodeShape | services/visit_service.py:29 | a code is the patient code, "-V", and three or more digits spelling the number |
| VisitService.NextNumberFree | services/visit_service.py:24-29 | one past the largest number in use is never a taken code |
| VisitService.NumberAboveMaxFree | services/visit_service.py:24-29 | a code carrying a number above every number in use is not taken |
| VisitService.CarriedNumberDiffers | services/visit_service.py:24-29 | codes carrying different numbers are different codes |
| VisitService.NextVisitCode | services/visit_service.py:24-29 | the corrected code is never taken and carries one past the largest number in use |
| VisitService.CreateVisitCorrected | services/visit_service.py:10-35 | as evidently intended: the same outcomes as `create_visit` except that the code is never a duplicate |
| VisitService.NoCollisionAfterDelete | services/visit_service.py:27-33 | corrected: a patient whose only visit is V002 gets V003 |
| VisitService.CreateVisit | services/visit_service.py:10-35 | the visit table grows by exactly the corrected outcome's row, or stays as it was on an error, and no other table changes |
| VisitService.AppendVisit | services/visit_service.py:32-34 | a row under the next key is appended and the table stays in key order |
| VisitService.GetVisitById | services/visit_service.py:41-45 | the visit with that id, or none exactly when no visit has it |
| VisitService.GetVisitsForPatient | services/visit_service.py:51-55 | exactly the visits with that patient key, in table order |
| VisitService.FilterKeepsOrderIfOrdered | services/visit_service.py:55 | filtering a key-ordered table keeps it key-ordered |
| VisitService.ColumnAssignments | services/visit_service.py:70-72 | a column is assigned exactly when a keyword names it; keywords naming no column are ignored |
| VisitService.ColumnAssignmentsValues | services/visit_service.py:70-72 | each column keyword assigns its own value |
| VisitService.UpdateWrites | services/visit_service.py:65-76 | a named column takes the keyword's value, every other column keeps its value, and the key never changes, because a keyword naming `id` is not modelled |
| VisitService.AssignmentsStep | services/visit_service.py:70-72 | each step of the keyword loop adds one assignment, or none for an unknown name |
| VisitService.ApplyKwargs | services/visit_service.py:70-72 | the loop's visit is the visit updated by the assignments |
| VisitService.UpdateVisit | services/visit_service.py:61-76 | a missing visit gives None and changes nothing; otherwise only the named columns of that visit change |
| VisitService.AssignedVisit | services/visit_service.py:91-92 | only `doctor_username` and `status = "sent_to_doctor"` change |
| VisitService.AssignDoctor | services/visit_service.py:82-96 | a missing visit gives None and changes nothing; otherwise the visit is assigned as above |
| PatientService.GeneratePatientCode | services/patient_service.py:11-22 | "P" and the key the next inserted patient receives (1 for an empty table), formatted with `:03d` |
| PatientService.CodeSpellsNextKey | services/patient_service.py:11-22 | the code spells the next key, and its digits read back as that key |
| PatientService.SpelledCodesDistinct | services/patient_service.py:11-22 | codes that spell their keys are distinct |
| PatientService.CreatePatientOutcome | services/patient_service.py:42-56 | the new patient has the next key, the generated code and the given name, age and gender; it is rejected exactly when the code is already taken |
| PatientService.CreatePatientKeepsCodes | services/patient_service.py:42-56 | when every code spells its key, registering never collides and keeps that so |
| PatientService.AppendSpelled | services/patient_service.py:42-56 | appending a patient whose code spells its key keeps every code spelling its key |
| PatientService.SpelledCodeDiffers | services/patient_service.py:22 | different keys spell different codes |
| PatientService.CreatePatient | services/patient_service.py:42-56 | the patient table grows by exactly the outcome's row, or stays as it was, and no other table changes |
| PatientService.WithVitalsIsPartialUpdate | services/patient_service.py:114-120 | the vitals write assigns exactly the seven vital columns and every other column keeps its value |
| PatientService.WithVitalsUpdated | services/patient_service.py:114-120 | the vitals write is the update by the seven assignments |
| PatientService.WithVitalsKeepsOthers | services/patient_service.py:114-120 | no column outside the seven vitals changes |
| PatientService.UpdateVitals | services/patient_service.py:99-125 | a missing visit reports "Visit not found" and changes nothing; otherwise the seven vitals of that visit are set |
| PatientService.Patched | services/patient_service.py:180-185 | key and code are kept; each of name, age and gender changes exactly when given |
| PatientService.PatchedIdempotent | services/patient_service.py:180-185 | patching with nothing changes nothing, and patching twice with the same values is patching once |
| PatientService.PatientAt | services/patient_service.py:176 | the position of the patient with that code, or none exactly when no patient has it |
| PatientService.UpdatePatient | services/patient_service.py:171-189 | an unknown code gives None and changes nothing; otherwise only that patient is patched |
| PatientService.RemoveKeepsOrder | services/patient_service.py:203 | removing a row keeps the table in key order |
| PatientService.RemovedVisitGone | services/patient_service.py:200-204 | after removal the visit is gone and every other visit remains |
| PatientService.DeleteVisit | services/patient_service.py:195-205 | True exactly when the visit exists; then that visit alone is removed, otherwise nothing changes |
| PatientService.DeletePatient | services/patient_service.py:211-224 | True exactly when the code exists; then the patient and exactly its visits are removed, otherwise nothing changes |
| PatientService.CascadeComplete | services/patient_service.py:220-222 | no remaining visit belongs to the deleted patient, and every visit of another patient remains |
| UserService.AllowedRoles | services/user_service.py:27-30 | a required "doctor" or "physician" allows both; any other required role allows only itself |
| UserService.ClinicianSynonyms | services/user_service.py:24-33 | "doctor" and "physician" accept the same stored roles, each accepting the other |
| UserService.OtherRolesExact | services/user_service.py:29-32 | any other required role accepts exactly itself |
| UserService.AuthenticateUser | services/user_service.py:8-35 | a returned user is the one with that username, whose hash matches the password and whose trimmed, lower-cased role is allowed; an unknown username gives None |
| UserService.AuthenticateIff | services/user_service.py:14-35 | with unique usernames, a user is returned exactly when the hash matches and the role is allowed |
| UserService.CreateUserOutcome | services/user_service.py:81-131 | a created user has a role among technician, physician and patient after trimming and lower-casing, a non-empty unused username, the next key, the password's hash and the full name; a patient account's username is a "P" and three digits naming an existing patient; any other role is rejected |
| UserService.PatientAccount | services/user_service.py:98-120 | a patient account is named by a registered patient code no account uses, and carries the next key, the hash and the role "patient" |
| UserService.StaffAccount | services/user_service.py:122-127 | a technician or physician account is created exactly when its name is unused, with the next key and the hash |
| UserService.DoctorIsNotCreatable | services/user_service.py:90-92 | "doctor" is not a role an account can be created with |
| UserService.CreateKeepsTableSound | services/user_service.py:107-131 | a created user keeps the usernames unique and the table in key order |
| UserService.CreateUser | services/user_service.py:81-131 | the user table grows by exactly the outcome's row, or stays as it was on an error, and no other table changes |
| UserService.AppendUser | services/user_service.py:128-130 | the users table grows by exactly the new row, keys stay increasing, names stay unique, and no other table changes |
| UserService.WithDefaultUsers | services/user_service.py:38-67 | a non-empty table is kept; an empty one gets the three demo users, the second a physician |
| UserService.DefaultUsersIdempotent | services/user_service.py:42-45 | a second call changes nothing |
| UserService.EnsureDefaultUsers | services/user_service.py:38-67 | the user table becomes the defaults-filled table and no other table changes |
| SessionManager.Initialized | core/session_manager.py:4-9 | `user` and `role` are present afterwards; existing values, theirs included, are kept, and absent ones become None |
| SessionManager.InitializedIdempotent | core/session_manager.py:4-9 | initialising twice is initialising once |
| SessionManager.LoggedIn | core/session_manager.py:12-15 | `user` is the user, `role` is the user's role, and every other key is kept |
| SessionManager.Cleared | core/session_manager.py:34-37 | exactly `user` and `role` are removed and every other key is kept |
| SessionManager.LoginThenClear | core/session_manager.py:12-37 | logging in and then clearing leaves what clearing alone leaves |
| SessionManager.RoleGate | core/session_manager.py:40-63 | no user redirects to the app page; the page is shown exactly when a user is present and the trimmed, lower-cased role is allowed, doctor and physician being synonyms |
| SessionManager.GateAfterLogin | core/session_manager.py:12-63 | after login the page is shown exactly when the user's role is allowed |
| SessionManager.GateAfterClear | core/session_manager.py:34-63 | after clearing the session every page redirects |
| SessionManager.Session.constructor | core/session_manager.py:4-9 | a new session starts with no keys and no query parameters |
| SessionManager.Session.InitSessionState | core/session_manager.py:4-9 | the state becomes the initialised state; the query parameters are kept |
| SessionManager.Session.Login | core/session_manager.py:12-15 | the state becomes the logged-in state |
| SessionManager.Session.ClearSession | core/session_manager.py:34-37 | the state becomes the cleared state; the query parameters are kept |
| SessionManager.Session.Logout | core/session_manager.py:18-31 | the state is cleared, the query parameters emptied, and the app page is shown |
| SessionManager.Session.RequireRole | core/session_manager.py:40-63 | the state is initialised and the navigation is the role gate's |
| Records.UpdatedReadsBack | services/visit_service.py:70-72 | after an update a named column reads the new value, every other column its old value, and the key is unchanged |
| Records.SetColumnExtends | services/visit_service.py:70-72 | setting one more column extends the assignment |
| Records.UpdatedTwice | services/visit_service.py:70-72 | two updates over disjoint columns compose into one |
| Records.UpdatedNothing | services/visit_service.py:61-76 | an update without keywords changes nothing |
| Records.VisitAt | services/visit_service.py:45 | the position of the first visit with that id, or none exactly when there is none |
| Records.VisitAtAfterReplace | services/visit_service.py:65-76 | rewriting a visit under the same id keeps it at the same position |
| Records.Joined | pages/t_case_list.py:14-16 | the join pairs each visit with its own patient, and drops exactly the visits without one |
| Records.JoinedMembers | pages/t_case_list.py:14-16 | a pair is in the join exactly when its visit is listed and its patient is that visit's patient |
| Records.JoinedKeepsDescending | pages/t_case_list.py:14-16 | joining keeps a newest-first order |
| Records.Database.constructor | core/database.py:10-19 | the store starts with all tables empty |
| Tables.NextKey | models/visit.py:13 | a new row's integer primary key is 1 in an empty table and one past the largest key otherwise, as SQLite assigns it |
| Tables.FilterKeepsOrder | services/visit_service.py:55 | filtering a key-ordered table keeps it key-ordered |
| Tables.FilterMembers | services/visit_service.py:55 | a row is kept by a filter exactly when it is in the table and passes |
| IcdService.Fetch | services/icd_service.py:10-40 | a failed request gives the request error; a reply with fewer than 3 elements or an empty code list gives "No ICD-10 matches found"; otherwise the first code and the first description; a body that is not JSON, or a code list without descriptions, raises |
| IcdService.SearchTerm | services/icd_service.py:53 | the diagnosis searched is the prediction label, or "stroke" when it is absent or empty; never empty |
| IcdService.Requests | services/icd_service.py:53-60 | the first request searches the diagnosis; a second request, for "stroke", is sent exactly when the first reported an error |
| IcdService.FallbackChain | services/icd_service.py:56-71 | the first search's match wins; after an error the "stroke" search's match is taken; after two errors the code is R69 "Illness, unspecified"; only a search that raises leaves no code |
| IcdService.ChoiceComesFromRequests | services/icd_service.py:56-71 | the chosen code is R69 or a code the service returned for a request actually sent |
| IcdService.UnspecifiedOnlyAfterTwoErrors | services/icd_service.py:58-64 | when neither search returned R69 itself, choosing R69 means both searches reported an error and two requests were sent |
| IcdService.NoLabelRepeatsSearch | services/icd_service.py:53-60 | without a prediction label a failing first search is followed by the very same "stroke" search |
| IcdService.GenerateIcdCode | services/icd_service.py:43-82 | a missing visit is an error and changes nothing; otherwise the chosen code is stored in `icd_code` and returned with its description, and nothing else changes |
| IcdPage.ResultPairs | pages/d_icd_code.py:33-36 | the result pairs are read only from a list longer than 3 elements; a failed request or a short reply gives none |
| IcdPage.IcdLookup | pages/d_icd_code.py:27-38 | a blank term gives no suggestions; otherwise the first pairs, at most 20, each shown as "code — name" |
| IcdPage.BlankTermNeedsNoRequest | pages/d_icd_code.py:28-30 | for a blank term the reply plays no part: any two services give the same empty list |
| IcdPage.FailedRequestNoSuggestions | pages/d_icd_code.py:32-36 | a failed request or a reply of at most 3 elements gives no suggestions |
| IcdPage.DescriptionFor | pages/d_icd_code.py:52-56 | the name of the first result whose code equals the saved code exactly, and "" when there is none |
| IcdPage.FindDescription | pages/d_icd_code.py:52-56 | the search loop finds that same name |
| IcdPage.CurrentDisplay | pages/d_icd_code.py:41-60 | no saved code or a failed request shows nothing; otherwise the code, followed by " — " and the name when one is found |
| IcdPage.CodeRun | pages/d_icd_code.py:81 | the greedy run of alphanumerics and dots at the start of the text |
| IcdPage.SpaceRun | pages/d_icd_code.py:81 | the run of whitespace at the start of the text |
| IcdPage.NameStart | pages/d_icd_code.py:81 | the name starts after the code, the blanks, an optional separator and more blanks |
| IcdPage.ParsedShape | pages/d_icd_code.py:79-84 | when the pattern matches, the code is the greedy run at the start of the trimmed text, upper-cased, with at least two characters and an alphanumeric first, and the name is trimmed |
| IcdPage.UpperCode | pages/d_icd_code.py:83 | upper-casing a code run gives a code of the same shape with no lower-case letter |
| IcdPage.UnmatchedSelection | pages/d_icd_code.py:85-86 | when the pattern fails the code is the whole trimmed text upper-cased and the name is "" |
| IcdPage.BareCodeRoundTrip | pages/d_icd_code.py:79-84 | a bare code parses to itself, upper-cased, with an empty name |
| IcdPage.CodeRunAll | pages/d_icd_code.py:81 | a text made only of code characters is one run |
| IcdPage.CodeRunPrefix | pages/d_icd_code.py:81 | the run stops at the first character outside the code class |
| IcdPage.AfterCodeSkips | pages/d_icd_code.py:81 | after the code, " — " is read as one blank, the separator and one blank |
| IcdPage.DisplayParsed | pages/d_icd_code.py:79-84 | the pattern matches a suggestion and yields the upper-cased code and the name |
| IcdPage.CodeRunAtLeastTwo | pages/d_icd_code.py:81 | when the pattern can start, the code run has at least two characters |
| IcdPage.DisplayRoundTrip | pages/d_icd_code.py:38-84 | a suggestion "code — name" is parsed back into the upper-cased code and the name |
| IcdPage.DisplayIsStripped | pages/d_icd_code.py:38-79 | a suggestion has no surrounding whitespace to trim |
| IcdPage.DisplayParts | pages/d_icd_code.py:38-81 | in a suggestion the code run is the code and the name starts three characters after it |
| IcdPage.SaveIcdSelection | pages/d_icd_code.py:74-91 | a missing or blank selection, or a missing visit, changes nothing; otherwise the parsed code is stored in `icd_code` and nothing else changes |
| AiService.SeverityFromNihss | services/ai_service.py:42-53 | a missing score (one `int()` cannot convert) is "unknown" |
| AiService.SeverityMonotone | services/ai_service.py:47-53 | every score falls in one of the four bands, and a higher score never gives a milder band |
| AiService.SeverityBoundaries | services/ai_service.py:47-53 | 5, 14 and 24 are the last scores of mild, moderate and severe; a missing score ranks below every band |
| AiService.FenceFrom | services/ai_service.py:99 | a found fence "```" starts at or after the given position |
| AiService.RemoveFences | services/ai_service.py:99 | removing fenced blocks never lengthens the text |
| AiService.IndexOf | services/ai_service.py:100 | a found position holds the character |
| AiService.RemoveTags | services/ai_service.py:100 | removing `<…>` tags never lengthens the text |
| AiService.Without | services/ai_service.py:101-114 | the result keeps only characters of the text, none of them dropped ones |
| AiService.LineEnd | services/ai_service.py:103 | the first line break, or the end of the text |
| AiService.LineEndFirst | services/ai_service.py:103 | no line break comes before the end of the first line |
| AiService.SplitLinesUnbroken | services/ai_service.py:103 | no line holds a line break |
| AiService.DigitRun | services/ai_service.py:104 | the run of ASCII digits at the start of a text |
| AiService.SpaceRun | services/ai_service.py:104 | the run of whitespace at the start of a text |
| AiService.BulletPoints | services/ai_service.py:103-106 | no bullet points exactly when no line looks like a bullet or numbered item |
| AiService.SentenceBreak | services/ai_service.py:108 | a sentence break is whitespace right after '.', '!' or '?' |
| AiService.Sentences | services/ai_service.py:108 | splitting gives at least one part |
| AiService.SentencesOnlyWithoutBullets | services/ai_service.py:103-111 | the points are the bullet items when any line is one, and the non-empty sentences of the trimmed text only when none is |
| AiService.Collapse | services/ai_service.py:115 | runs of whitespace become one blank: the result is empty only for an empty text, holds only the text's characters or blanks, and has no two whitespace characters in a row |
| AiService.KeptFromPoints | services/ai_service.py:112-117 | every kept point is non-empty and is the cleaning of one of the points |
| AiService.FirstFive | services/ai_service.py:118-120 | at most five points, the first ones, and all of them when there are at most five |
| AiService.Numbered | services/ai_service.py:121 | line i is "i+1. " followed by point i |
| AiService.CollectBullets | services/ai_service.py:103-106 | the line loop collects exactly the bullet points |
| AiService.CollectSentences | services/ai_service.py:107-111 | the part loop collects exactly the non-empty stripped sentences |
| AiService.CleanFirstFive | services/ai_service.py:112-120 | the loop with its early exit gives the first five non-empty cleaned points |
| AiService.SanitizePlainFivePoints | services/ai_service.py:96-121 | the sanitiser's output is the numbered list of the plan points |
| AiService.KeepNonEmptyPrefix | services/ai_service.py:112-119 | cleaning a prefix of the points gives a prefix of the cleaned points |
| AiService.FirstFiveAfterStop | services/ai_service.py:112-120 | stopping at five kept points, or at the end of the list, gives the same first five as cleaning the whole list |
| AiService.StripSlice | services/ai_service.py:115 | the trimmed text is a slice of the text |
| AiService.CollapseClean | services/ai_service.py:114-115 | collapsing whitespace in a text without markup leaves single blanks and no markup |
| AiService.StripClean | services/ai_service.py:115 | trimming keeps a text free of markup and of whitespace runs |
| AiService.SliceClean | services/ai_service.py:115 | any slice of a markup-free text with single blanks is again markup-free with single blanks |
| AiService.CleanPointPlain | services/ai_service.py:114-115 | a non-empty cleaned point holds none of `#*_` and the backtick, no line break and no run of whitespace, and no surrounding whitespace |
| AiService.CleanedPlain | services/ai_service.py:112-117 | every cleaned point is plain |
| AiService.PlanPointsShape | services/ai_service.py:96-120 | at most five plain points, and "" for empty input |
| AiService.NumberedLineUnbroken | services/ai_service.py:121 | a numbered plain point holds no line break |
| AiService.SplitJoined | services/ai_service.py:121 | splitting non-empty, unbroken lines joined by "\n" gives the lines back |
| AiService.LineEndWhole | services/ai_service.py:103 | a text without a line break is one line |
| AiService.LineEndBefore | services/ai_service.py:103 | a line ends at the first line break |
| AiService.SanitizedLines | services/ai_service.py:96-121 | the output has at most five lines, line i being "i+1. " and a non-empty plain point, numbered consecutively |
| AiService.NumberedUnbroken | services/ai_service.py:121 | every numbered point is a non-empty line with no line break inside |
| AiService.PlanOutcomeAsWritten | services/ai_service.py:33-93 | as written: a missing visit, then a missing patient, is an error; otherwise reading the reply raises, so no call returns a plan |
| AiService.PlanOutcome | services/ai_service.py:33-138 | with the reply read as `.content`: the same errors as written, and a plan of at most five lines for the visit exactly where the code as written raises |
| AiService.ReplyAccessLosesEveryPlan | services/ai_service.py:81-93 | the outcomes as written and as intended differ exactly where the intended one returns a plan |
| AiService.NoPlanForOnlyVisit | services/ai_service.py:81-93 | one patient with one visit: as written the call raises, as intended it returns a plan |
| AiService.GenerateTreatmentPlan | services/ai_service.py:27-138 | the corrected outcome: a missing visit, then a missing patient, is an error before any model call and adds nothing; otherwise a Treatment row with the next key, the visit id and the sanitised reply is appended, and the visit's ICD code and the plan are returned |
| AiService.AppendTreatment | services/ai_service.py:126-131 | the treatments table grows by exactly the new row, keys stay increasing, and no other table changes |
| DoctorCaseList.StatusLabel | pages/d_case_list.py:11-17 | the trimmed statuses sent_to_doctor, in_review and completed read "Waiting for Review", "In Review" and "Completed" |
| DoctorCaseList.OtherStatusLabel | pages/d_case_list.py:11-17 | any other non-empty status is shown as it came, untrimmed; a missing or empty one reads "Cases" |
| DoctorCaseList.Title | pages/d_case_list.py:27-28 | the default filter "all" reads "Cases — All", any other the status label |
| DoctorCaseList.DoctorCasesMembers | pages/d_case_list.py:27-52 | a pair is listed exactly when the visit is the doctor's, passes the status filter (applied only for a non-empty status other than "all") and has its own patient, and the trimmed lower-cased query is empty or occurs in the lower-cased name, patient code or visit code |
| DoctorCaseList.DoctorCasesNewestFirst | pages/d_case_list.py:27-41 | the list is ordered by visit id, descending |
| DoctorCaseList.AllMeansUnfiltered | pages/d_case_list.py:27-41 | "all", "" and no status list the same cases |
| TechCaseList.Heading | pages/t_case_list.py:46-51 | "Cases Not Reviewed", "Completed Cases", and "All Cases" for every other filter |
| TechCaseList.BuildRows | pages/t_case_list.py:67-72 | the row loop pairs each visit with its patient, skipping a visit without one, as the join does |
| TechCaseList.JoinedSnoc | pages/t_case_list.py:67-72 | one more visit adds its row at the end when it has a patient |
| TechCaseList.TechCasesMembers | pages/t_case_list.py:12-79 | a pair is listed exactly when the visit has its own patient and the filter keeps it (not reviewed: no status, "", in_progress, analysis_completed or saved; completed: "completed"; otherwise all), and the query is blank or, lower-cased, occurs in the lower-cased name or patient code |
| TechCaseList.TechCasesNewestFirst | pages/t_case_list.py:12-35 | the list is ordered by visit id, descending |
| TechCaseList.OtherFiltersListAll | pages/t_case_list.py:28-33 | any filter other than "not_reviewed" and "completed" lists what "all" lists |
| TechCaseList.ContainsChars | pages/t_case_list.py:74-79 | every character of an occurring query occurs in the text |
| TechCaseList.PaddedQueryMisses | pages/t_case_list.py:74-79 | the query is not trimmed: with a trailing blank it matches no name or code without a blank |
| AiService.KeepNonEmpty | services/ai_service.py:112-117 | never more cleaned points than points |
| Common.Strip | services/user_service.py:94 | `str.strip()`: never longer, and no whitespace at either end remains |
| Common.LStripSkipsBlanks | services/user_service.py:94 | everything `lstrip` removes is whitespace |
| Common.RStripSkipsBlanks | services/user_service.py:94 | everything `rstrip` removes is whitespace |
| Common.StripEmptyIffBlank | pages/t_case_list.py:74 | trimming gives "" exactly when the text is all whitespace |
| Common.Format03Spells | services/patient_service.py:22 | `f"{n:03d}"` for n ≥ 0: ASCII digits, exactly three below 1000, whose value is n |
| Common.NatToStringRoundTrip | services/visit_service.py:29 | reading back the decimal digits of a number gives the number |
| Common.ZeroPadValue | services/patient_service.py:22 | zero padding does not change the value |
| Tables.Reverse | pages/t_case_list.py:16 | the rows in the opposite order |
| Tables.ReverseDescends | pages/t_case_list.py:16 | a table in ascending key order, reversed, is in descending key order |
| Tables.FilterKeepsDescending | pages/d_case_list.py:44-52 | filtering a newest-first list keeps it newest first |

## Left out

- **User interface.** Streamlit rendering, buttons, page navigation and CSS are left out, and so are the login, signup and dashboard pages. Pages that only re-run rules modelled here are also left out: the scan-upload page, the patient lists and the queue.
- **Image model.** ML inference is an oracle. The scan label and the confidence are parameters.
- **Remote services.** The clinical-tables API and the language-model service are oracles (`api`, `llm`). The prompt text sent to the language model is not modelled. Of the API's replies, only a failed request, a non-JSON body and a JSON list are modelled. A JSON object reply is not modelled.
- **Hashing.** SHA-256 is not computed. The digest is the symbolic value `Sha256(password)`, a datatype constructor, so distinct passwords have distinct digests and collisions are not modelled. The bcrypt migration script is not modelled.
- **Randomness and files.** Uuid-based file names and `generate_patient_id` are left out; the file name is a parameter. The disk write of an uploaded scan is left out. For the annotation files, only the flag that says whether they are cleared is modelled, not the glob, the deletion or the MD5-derived name. The image compositing on the case view is left out.
- **Database setup.** Database setup, migrations and scripts are left out. The tables are sequences of rows, not SQL, and sessions, rollbacks and transactions are not modelled.
- **Time zones.** Time zones are not modelled. The source mixes a naive local `datetime.now()`, a UTC-aware stored onset and `utcnow()`; all three are one integer timebase here.
- **Floating point.** The temperature conversion from °C to °F, confidence percentages, the one-decimal formatting of hours and the exact wording of reasons are left out. Hours since onset are a real number with no rounding.
- **Text handling.** `lower`, `upper` and `\d` are modelled on ASCII only; Unicode case folding and Unicode digits are not. `strip`, `split` and `\s` use Python's full whitespace set.
- **`VitalsEntry.Clamp`.** It does not model the conversion error that `_clamp` catches for a value that is not a number. Such a value is `None` in the model and takes the lower bound, as the source's fallback does.
- **NIHSS item storage.** The NIHSS items are set as attributes on the visit object, but models/visit.py declares no columns for them. The model keeps them in a per-visit map, so it does not capture whether they would be persisted.
- **Broken paths.** Two paths are reported rather than modelled:
  - `patient_service.create_visit` never sets the non-null `visit_id`;
  - `get_patient_history` orders by `Visit.created_at`, which the visit model does not define.
- **VisitService.ColumnAssignments, VisitService.UpdateWrites, VisitService.UpdateVisit:** `update_visit` sets every keyword the visit object has as an attribute (services/visit_service.py:70-72). That includes the primary key `id` and the `patient` relationship (models/visit.py:13, 60). The model assigns only the mapped columns other than `id` and ignores all other names. So `update_visit(5, id=9)` renumbers the row in the source but changes nothing in the model. No caller passes such a keyword.
- **Other omissions.** `get_doctor_list`, `get_current_user` and concurrency are not modelled. The source has no concurrency control of its own.

## Findings

| source | as written | input that shows it | evidently intended | confidence | as-written member | corrected member |
|---|---|---|---|---|---|---|
| services/ai_service.py:81-93 | the reply is read as `completion.choices[0].message["content"]`, after a call through `openai.chat.completions.create` | any visit whose patient exists: the module-level `openai.chat` exists only in the 1.x client, whose message is an object without item access, so the read raises and no Treatment row is stored | the reply read as `message.content`, and the sanitised plan stored | not executed | AiService.PlanOutcomeAsWritten | AiService.PlanOutcome |
| services/visit_service.py:27-33 | the new visit code is the patient's visit count plus one | a patient has visits V001 and V002, and V001 is deleted; the next code is V002 again, so the unique `visit_id` column rejects the insert | one past the largest visit number already in use | not executed | VisitService.CollisionAfterDelete | VisitService.NoCollisionAfterDelete |
