/**
 * The doctor's case list (pages/d_case_list.py): the heading shown for the
 * chosen status, the visits assigned to the doctor with their patients,
 * newest first, optionally narrowed to one status, and the quick search
 * over patient name, patient code and visit code.
 */
module DoctorCaseList {
  import opened Common
  import opened Tables
  import opened Records

  /** `_status_label`: the three known statuses, looked up after stripping, get their display names. */
  function StatusLabel(status: Option<string>): (text: string)
    ensures Strip(status.GetOr("")) == "sent_to_doctor" ==> text == "Waiting for Review"
    ensures Strip(status.GetOr("")) == "in_review" ==> text == "In Review"
    ensures Strip(status.GetOr("")) == "completed" ==> text == "Completed"
  {
    var key := Strip(status.GetOr(""));
    if key == "sent_to_doctor" then "Waiting for Review"
    else if key == "in_review" then "In Review"
    else if key == "completed" then "Completed"
    else if status.Some? && status.value != [] then status.value
    else "Cases"
  }

  /** Whether a stripped status is one of the three the label table knows. */
  predicate KnownStatus(key: string) {
    key == "sent_to_doctor" || key == "in_review" || key == "completed"
  }

  /**
   * Any other status is shown as it came, untrimmed, and a missing or empty
   * one reads "Cases".
   */
  lemma OtherStatusLabel(status: Option<string>)
    requires !KnownStatus(Strip(status.GetOr("")))
    ensures status.Some? && status.value != [] ==> StatusLabel(status) == status.value
    ensures status.None? || status.value == [] ==> StatusLabel(status) == "Cases"
  {
  }

  /** The page title: "All" for the default filter "all", the status label otherwise. */
  function Title(status: Option<string>): (text: string)
    ensures status == Some("all") ==> text == "Cases — All"
    ensures status != Some("all") ==> text == "Cases — " + StatusLabel(status)
  {
    "Cases — " + (if status != Some("all") then StatusLabel(status) else "All")
  }

  /** The status filter is applied only for a non-empty status other than "all". */
  predicate FiltersStatus(status: Option<string>) {
    status.Some? && status.value != [] && status.value != "all"
  }

  /** A visit of the doctor that passes the status filter. */
  predicate Listed(username: string, status: Option<string>, v: Visit) {
    v.doctorUsername == Some(username) && (FiltersStatus(status) ==> v.status == status)
  }

  /** The search text: stripped, then lower-cased. */
  function QueryText(input: string): string {
    Lower(Strip(input))
  }

  /** `_match`: the query occurs in the lower-cased name, patient code or visit code. */
  predicate MatchCase(q: string, row: (Visit, Patient)) {
    Contains(Lower(row.1.name), q) || Contains(Lower(row.1.code), q) || Contains(Lower(row.0.visitCode), q)
  }

  /** The doctor's visits with their patients, newest first, then narrowed by a non-empty query. */
  function DoctorCases(visits: seq<Visit>, patients: seq<Patient>, username: string, status: Option<string>,
                       input: string): seq<(Visit, Patient)>
  {
    var rows := Joined(Reverse(Filter(visits, (v: Visit) => Listed(username, status, v))), patients);
    var q := QueryText(input);
    if q != [] then Filter(rows, (row: (Visit, Patient)) => MatchCase(q, row)) else rows
  }

  /**
   * Exactly the doctor's visits that pass the status filter and the search,
   * each with its own patient, are listed.
   */
  lemma DoctorCasesMembers(visits: seq<Visit>, patients: seq<Patient>, username: string, status: Option<string>,
                           input: string, row: (Visit, Patient))
    ensures row in DoctorCases(visits, patients, username, status, input) <==>
      && row.0 in visits && Listed(username, status, row.0)
      && PatientOf(patients, row.0) == Some(row.1)
      && (QueryText(input) == [] || MatchCase(QueryText(input), row))
  {
    var listed := (v: Visit) => Listed(username, status, v);
    var mine := Filter(visits, listed);
    FilterMembers(visits, listed, row.0);
    ReverseMembers(mine, row.0);
    JoinedMembers(Reverse(mine), patients, row);
    var q := QueryText(input);
    if q != [] {
      FilterMembers(Joined(Reverse(mine), patients), (r: (Visit, Patient)) => MatchCase(q, r), row);
    }
  }

  /** The list is ordered by visit key, newest first. */
  lemma DoctorCasesNewestFirst(visits: seq<Visit>, patients: seq<Patient>, username: string, status: Option<string>,
                               input: string)
    requires KeysIncreasing(visits, VisitKey)
    ensures KeysDecreasing(DoctorCases(visits, patients, username, status, input), RowKey)
  {
    var listed := (v: Visit) => Listed(username, status, v);
    var mine := Filter(visits, listed);
    FilterKeepsOrder(visits, listed, VisitKey);
    ReverseDescends(mine, VisitKey);
    JoinedKeepsDescending(Reverse(mine), patients);
    var q := QueryText(input);
    if q != [] {
      FilterKeepsDescending(Joined(Reverse(mine), patients), (r: (Visit, Patient)) => MatchCase(q, r), RowKey);
    }
  }

  /** "all", an empty status and no status all list every visit of the doctor. */
  lemma AllMeansUnfiltered(visits: seq<Visit>, patients: seq<Patient>, username: string, input: string)
    ensures DoctorCases(visits, patients, username, Some("all"), input) == DoctorCases(visits, patients, username, None, input)
    ensures DoctorCases(visits, patients, username, Some(""), input) == DoctorCases(visits, patients, username, None, input)
  {
    FilterSame(visits, (v: Visit) => Listed(username, Some("all"), v), (v: Visit) => Listed(username, None, v));
    FilterSame(visits, (v: Visit) => Listed(username, Some(""), v), (v: Visit) => Listed(username, None, v));
  }
}
