/**
 * The technician's case list (pages/t_case_list.py): every visit with its
 * patient, newest first, narrowed by the chosen filter ("not_reviewed",
 * "completed", or everything), and the search by patient name or code.
 */
module TechCaseList {
  import opened Common
  import opened Tables
  import opened Records

  /** The statuses of a visit no doctor has reviewed yet: none, empty, in progress, analysed or saved. */
  predicate NotReviewed(status: Option<string>) {
    || status.None?
    || status.value == ""
    || status.value == "in_progress"
    || status.value == "analysis_completed"
    || status.value == "saved"
  }

  /** The status predicate of `_get_filtered_visits`; "all" and unknown filters keep everything. */
  predicate KeptBy(filter: string, v: Visit) {
    if filter == "not_reviewed" then NotReviewed(v.status)
    else if filter == "completed" then v.status == Some("completed")
    else true
  }

  /** The heading for the filter. */
  function Heading(filter: string): (text: string)
    ensures filter == "not_reviewed" ==> text == "Cases Not Reviewed"
    ensures filter == "completed" ==> text == "Completed Cases"
    ensures filter != "not_reviewed" && filter != "completed" ==> text == "All Cases"
  {
    if filter == "not_reviewed" then "Cases Not Reviewed"
    else if filter == "completed" then "Completed Cases"
    else "All Cases"
  }

  /**
   * `_get_filtered_visits`: the visits that have a patient (the query joins
   * Patient), newest first, that the filter keeps.
   */
  function FilteredVisits(visits: seq<Visit>, patients: seq<Patient>, filter: string): seq<Visit> {
    Reverse(Filter(visits, (v: Visit) => PatientOf(patients, v).Some? && KeptBy(filter, v)))
  }

  /** The page's loop pairing each visit with its patient and skipping a visit without one. */
  method BuildRows(visits: seq<Visit>, patients: seq<Patient>) returns (rows: seq<(Visit, Patient)>)
    ensures rows == Joined(visits, patients)
  {
    rows := [];
    var k := 0;
    while k < |visits|
      invariant 0 <= k <= |visits|
      invariant rows == Joined(visits[..k], patients)
    {
      var v := visits[k];
      var p := PatientOf(patients, v);
      assert visits[..k + 1] == visits[..k] + [v];
      JoinedSnoc(visits[..k], v, patients);
      ghost var next := Joined(visits[..k + 1], patients);
      k := k + 1;
      if p.None? {
        assert next == rows + [];
        assert rows + [] == rows;
        continue;
      }
      assert next == rows + [(v, p.value)];
      rows := rows + [(v, p.value)];
    }
    assert visits[..k] == visits;
  }

  /** Joining one more visit adds its row at the end, when it has a patient. */
  lemma {:induction false} JoinedSnoc(visits: seq<Visit>, v: Visit, patients: seq<Patient>)
    ensures Joined(visits + [v], patients) == Joined(visits, patients) + JoinRow(patients, v)
  {
    if visits != [] {
      var w := visits + [v];
      assert w[0] == visits[0] && w[1..] == visits[1..] + [v];
      JoinedSnoc(visits[1..], v, patients);
      assert Joined(w, patients) == JoinRow(patients, visits[0]) + Joined(w[1..], patients);
      assert Joined(visits, patients) == JoinRow(patients, visits[0]) + Joined(visits[1..], patients);
    } else {
      assert visits + [v] == [v];
    }
  }

  /** The search: only a non-blank query narrows the rows, and it is lower-cased but not stripped. */
  function Searched(rows: seq<(Visit, Patient)>, query: string): seq<(Visit, Patient)> {
    if Strip(query) != [] then
      Filter(rows, (r: (Visit, Patient)) => Contains(Lower(r.1.name), Lower(query)) || Contains(Lower(r.1.code), Lower(query)))
    else rows
  }

  /** The rows the page lists. */
  function TechCases(visits: seq<Visit>, patients: seq<Patient>, filter: string, query: string): seq<(Visit, Patient)> {
    Searched(Joined(FilteredVisits(visits, patients, filter), patients), query)
  }

  /**
   * Exactly the visits with a patient that the filter keeps and whose
   * patient matches a non-blank query are listed, each with its patient.
   */
  lemma TechCasesMembers(visits: seq<Visit>, patients: seq<Patient>, filter: string, query: string,
                         row: (Visit, Patient))
    ensures row in TechCases(visits, patients, filter, query) <==>
      && row.0 in visits && KeptBy(filter, row.0)
      && PatientOf(patients, row.0) == Some(row.1)
      && (Strip(query) == [] || Contains(Lower(row.1.name), Lower(query)) || Contains(Lower(row.1.code), Lower(query)))
  {
    var keep := (v: Visit) => PatientOf(patients, v).Some? && KeptBy(filter, v);
    var kept := Filter(visits, keep);
    FilterMembers(visits, keep, row.0);
    ReverseMembers(kept, row.0);
    JoinedMembers(Reverse(kept), patients, row);
    if Strip(query) != [] {
      FilterMembers(Joined(Reverse(kept), patients),
        (r: (Visit, Patient)) => Contains(Lower(r.1.name), Lower(query)) || Contains(Lower(r.1.code), Lower(query)), row);
    }
  }

  /** The list is ordered by visit key, newest first. */
  lemma TechCasesNewestFirst(visits: seq<Visit>, patients: seq<Patient>, filter: string, query: string)
    requires KeysIncreasing(visits, VisitKey)
    ensures KeysDecreasing(TechCases(visits, patients, filter, query), RowKey)
  {
    var keep := (v: Visit) => PatientOf(patients, v).Some? && KeptBy(filter, v);
    var kept := Filter(visits, keep);
    FilterKeepsOrder(visits, keep, VisitKey);
    ReverseDescends(kept, VisitKey);
    JoinedKeepsDescending(Reverse(kept), patients);
    if Strip(query) != [] {
      FilterKeepsDescending(Joined(Reverse(kept), patients),
        (r: (Visit, Patient)) => Contains(Lower(r.1.name), Lower(query)) || Contains(Lower(r.1.code), Lower(query)), RowKey);
    }
  }

  /** Any filter other than "not_reviewed" and "completed" lists the same rows as "all". */
  lemma OtherFiltersListAll(visits: seq<Visit>, patients: seq<Patient>, filter: string, query: string)
    requires filter != "not_reviewed" && filter != "completed"
    ensures TechCases(visits, patients, filter, query) == TechCases(visits, patients, "all", query)
  {
    FilterSame(visits, (v: Visit) => PatientOf(patients, v).Some? && KeptBy(filter, v),
                       (v: Visit) => PatientOf(patients, v).Some? && KeptBy("all", v));
  }

  /** Every character of an occurring substring occurs in the text. */
  lemma {:induction false} ContainsChars(s: string, sub: string, i: nat)
    requires Contains(s, sub) && i < |sub|
    ensures sub[i] in s
  {
    if StartsWith(s, sub) {
      assert s[i] == sub[i];
    } else {
      ContainsChars(s[1..], sub, i);
    }
  }

  /**
   * The query is not stripped before matching: with a trailing blank it
   * finds no patient whose name and code hold no blank, although the same
   * query without the blank may find one.
   */
  lemma PaddedQueryMisses(row: (Visit, Patient), query: string)
    requires ' ' !in Lower(row.1.name) && ' ' !in Lower(row.1.code)
    ensures !Contains(Lower(row.1.name), Lower(query + " ")) && !Contains(Lower(row.1.code), Lower(query + " "))
  {
    var q := Lower(query + " ");
    assert q[|q| - 1] == ' ';
    if Contains(Lower(row.1.name), q) {
      ContainsChars(Lower(row.1.name), q, |q| - 1);
    }
    if Contains(Lower(row.1.code), q) {
      ContainsChars(Lower(row.1.code), q, |q| - 1);
    }
  }
}
