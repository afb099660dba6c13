/**
 * The doctor's case view (pages/d_view_case.py): the elapsed-time text for
 * "Time Since Onset", the blood-pressure text, the fallback to an earlier
 * visit's vitals, and the tPA eligibility text. The page only reads the
 * visit; nothing here changes the store.
 */
module ViewCase {
  import opened Common
  import opened Records

  // ----- Elapsed time -----

  /** Days, hours and minutes of a duration in seconds, a negative one counted as 0. */
  function Clock(seconds: int): (c: (nat, nat, nat))
    ensures c.1 < 24 && c.2 < 60
    ensures var s := if seconds < 0 then 0 else seconds;
      c.0 * 86400 + c.1 * 3600 + c.2 * 60 <= s < c.0 * 86400 + c.1 * 3600 + c.2 * 60 + 60
  {
    var s := if seconds < 0 then 0 else seconds;
    ClockArithmetic(s);
    (s / 86400, (s % 86400) / 3600, (s % 3600) / 60)
  }

  lemma ClockArithmetic(s: nat)
    ensures (s % 86400) / 3600 < 24 && (s % 3600) / 60 < 60
    ensures (s / 86400) * 86400 + ((s % 86400) / 3600) * 3600 + ((s % 3600) / 60) * 60 <= s
    ensures s < (s / 86400) * 86400 + ((s % 86400) / 3600) * 3600 + ((s % 3600) / 60) * 60 + 60
  {
    var r := s % 86400;
    assert s == (s / 86400) * 86400 + r;
    assert r == (r / 3600) * 3600 + r % 3600;
    assert s % 3600 == r % 3600 by {
      assert s == ((s / 86400) * 24) * 3600 + r;
    }
    assert s % 3600 == ((s % 3600) / 60) * 60 + (s % 3600) % 60;
  }

  /** The parts of the text: days only when there are any, hours when there are hours or days, minutes always. */
  function ElapsedParts(c: (nat, nat, nat)): (parts: seq<string>)
    ensures 1 <= |parts| <= 3
    ensures parts[|parts| - 1] == NatToString(c.2) + "m"
  {
    (if c.0 != 0 then [NatToString(c.0) + "d"] else [])
      + (if c.1 != 0 || c.0 != 0 then [NatToString(c.1) + "h"] else [])
      + [NatToString(c.2) + "m"]
  }

  /** `_format_timedelta` for a duration in whole seconds. */
  method FormatTimedelta(seconds: int) returns (text: string)
    ensures text == Join(ElapsedParts(Clock(seconds)), " ")
  {
    var secs := seconds;
    if secs < 0 {
      secs := 0;
    }
    var days := secs / 86400;
    var hours := (secs % 86400) / 3600;
    var minutes := (secs % 3600) / 60;
    var parts: seq<string> := [];
    if days != 0 {
      parts := parts + [NatToString(days) + "d"];
    }
    if hours != 0 || days != 0 {
      parts := parts + [NatToString(hours) + "h"];
    }
    parts := parts + [NatToString(minutes) + "m"];
    assert Clock(seconds) == (days, hours, minutes);
    assert parts == ElapsedParts((days, hours, minutes));
    text := Join(parts, " ");
  }

  /** The text of a duration, as `FormatTimedelta` builds it. */
  function ElapsedText(seconds: int): string {
    Join(ElapsedParts(Clock(seconds)), " ")
  }

  /**
   * The text always ends in the minutes; it shows days exactly when there
   * is at least one, and hours exactly when there are hours or days.
   */
  lemma ElapsedTextShape(seconds: int)
    ensures var c := Clock(seconds); var text := ElapsedText(seconds);
      && EndsWith(text, NatToString(c.2) + "m")
      && ('d' in text <==> c.0 > 0)
      && ('h' in text <==> c.0 > 0 || c.1 > 0)
  {
    var c := Clock(seconds);
    var parts := ElapsedParts(c);
    JoinEndsWithLast(parts, " ");
    JoinChars(parts, " ", 'd');
    JoinChars(parts, " ", 'h');
    DigitsThenLetter(c.0, 'd');
    DigitsThenLetter(c.1, 'h');
    DigitsThenLetter(c.2, 'm');
    if c.0 > 0 {
      assert 'd' in parts[0];
    }
    if c.0 > 0 || c.1 > 0 {
      assert NatToString(c.1) + "h" in parts;
      assert 'h' in NatToString(c.1) + "h";
    }
  }

  predicate EndsWith(s: string, suffix: string) {
    |suffix| <= |s| && s[|s| - |suffix|..] == suffix
  }

  /** A number followed by one letter holds that letter and no other letter. */
  lemma DigitsThenLetter(n: nat, letter: char)
    requires !IsAsciiDigit(letter)
    ensures forall x :: x in NatToString(n) + [letter] && !IsAsciiDigit(x) ==> x == letter
  {
    var s := NatToString(n) + [letter];
    forall x | x in s && !IsAsciiDigit(x) ensures x == letter {
      var i :| 0 <= i < |s| && s[i] == x;
      if i < |NatToString(n)| {
        assert s[i] == NatToString(n)[i];
      }
    }
  }

  lemma {:induction false} JoinEndsWithLast(parts: seq<string>, sep: string)
    requires parts != []
    ensures EndsWith(Join(parts, sep), parts[|parts| - 1])
  {
    if |parts| > 1 {
      JoinEndsWithLast(parts[1..], sep);
      var rest := Join(parts[1..], sep);
      var last := parts[|parts| - 1];
      var whole := parts[0] + sep + rest;
      assert whole[|whole| - |last|..] == rest[|rest| - |last|..];
    }
  }

  /** A character of a join comes from a part or from a separator between two parts. */
  lemma {:induction false} JoinChars(parts: seq<string>, sep: string, x: char)
    ensures x in Join(parts, sep) <==> (exists i :: 0 <= i < |parts| && x in parts[i]) || (|parts| > 1 && x in sep)
  {
    if |parts| > 1 {
      JoinChars(parts[1..], sep, x);
      var rest := Join(parts[1..], sep);
      assert Join(parts, sep) == parts[0] + sep + rest;
      if x in parts[0] + sep + rest {
        if x in rest && !(|parts[1..]| > 1 && x in sep) {
          var i :| 0 <= i < |parts[1..]| && x in parts[1..][i];
          assert x in parts[i + 1];
        }
      }
      if exists i :: 0 <= i < |parts| && x in parts[i] {
        var i :| 0 <= i < |parts| && x in parts[i];
        if i > 0 {
          assert x in parts[1..][i - 1];
        }
      }
    }
  }

  /** Negative durations and durations under a minute read "0m". */
  lemma UnderAMinute(seconds: int)
    requires seconds < 60
    ensures ElapsedText(seconds) == "0m"
  {
    assert Clock(seconds) == (0, 0, 0);
    assert NatToString(0) == "0";
  }

  /** "Time Since Onset": "—" without an onset, otherwise the elapsed text from the onset to `now`. */
  function SinceOnsetText(onset: Option<int>, now: int): (text: string)
    ensures onset.None? <==> text == "—"
    ensures onset.Some? ==> text == ElapsedText(now - onset.value)
  {
    match onset
    case None => "—"
    case Some(t) =>
      var text := ElapsedText(now - t);
      ElapsedTextShape(now - t);
      assert 'm' in text by {
        var c := Clock(now - t);
        assert text[|text| - 1] == (NatToString(c.2) + "m")[|NatToString(c.2) + "m"| - 1];
      }
      text
  }

  // ----- Blood pressure -----

  /** `str(i)` for any integer. */
  function IntToString(i: int): (r: string)
    ensures |r| >= 1
  {
    if i < 0 then "-" + NatToString(-i) else NatToString(i)
  }

  /** "s/d mmHg" when both pressures are recorded, "—" otherwise. */
  function BloodPressureText(systolic: Option<int>, diastolic: Option<int>): (text: string)
    ensures text == "—" <==> systolic.None? || diastolic.None?
    ensures systolic.Some? && diastolic.Some? ==>
      StartsWith(text, IntToString(systolic.value) + "/") && EndsWith(text, IntToString(diastolic.value) + " mmHg")
    ensures systolic.Some? && diastolic.Some? ==>
      |text| == |IntToString(systolic.value)| + |IntToString(diastolic.value)| + 6
  {
    if systolic.Some? && diastolic.Some? then
      var prefix := IntToString(systolic.value) + "/";
      var suffix := IntToString(diastolic.value) + " mmHg";
      var text := prefix + suffix;
      assert text[..|prefix|] == prefix && text[|prefix|..] == suffix;
      assert |text| > 1;
      text
    else "—"
  }

  // ----- Previous visit -----

  /** None of systolic, diastolic, heart rate, glucose and NIHSS is recorded. */
  predicate NoVitals(v: Visit) {
    v.systolicBp.None? && v.diastolicBp.None? && v.heartRate.None? && v.glucose.None? && v.nihssScore.None?
  }

  /** Another visit of the same patient with at least one of those five recorded. */
  predicate EarlierCandidate(v: Visit, w: Visit) {
    w.patientId == v.patientId && w.id != v.id && !NoVitals(w)
  }

  /** The candidate with the highest key: `ORDER BY id DESC` then `first()`. */
  function HighestCandidate(visits: seq<Visit>, v: Visit): (r: Option<Visit>)
    ensures r.Some? ==> r.value in visits && EarlierCandidate(v, r.value)
    ensures r.Some? ==> forall j :: 0 <= j < |visits| && EarlierCandidate(v, visits[j]) ==> visits[j].id <= r.value.id
    ensures r.None? <==> forall j :: 0 <= j < |visits| ==> !EarlierCandidate(v, visits[j])
  {
    if visits == [] then None
    else
      var rest := HighestCandidate(visits[1..], v);
      assert forall j :: 1 <= j < |visits| ==> visits[j] == visits[1..][j - 1];
      if EarlierCandidate(v, visits[0]) && (rest.None? || visits[0].id > rest.value.id) then Some(visits[0])
      else rest
  }

  /**
   * The earlier visit whose values are shown: looked up only when the open
   * visit has none of the five values recorded.
   */
  function PreviousVisit(visits: seq<Visit>, v: Visit): (r: Option<Visit>)
    ensures !NoVitals(v) ==> r.None?
    ensures r.Some? ==> r.value in visits && EarlierCandidate(v, r.value)
    ensures r.Some? ==> forall j :: 0 <= j < |visits| && EarlierCandidate(v, visits[j]) ==> visits[j].id <= r.value.id
    ensures NoVitals(v) ==> (r.None? <==> forall j :: 0 <= j < |visits| ==> !EarlierCandidate(v, visits[j]))
  {
    if NoVitals(v) then HighestCandidate(visits, v) else None
  }

  /** The fallback never shows the open visit itself, nor a visit without any of the five values. */
  lemma PreviousVisitIsAnother(visits: seq<Visit>, v: Visit)
    requires PreviousVisit(visits, v).Some?
    ensures var w := PreviousVisit(visits, v).value; w.id != v.id && w != v && NoVitals(v) && !NoVitals(w)
  {
  }

  // ----- tPA -----

  /** The eligibility line: "—" when never evaluated, then "Eligible" or "NOT Eligible". */
  function TpaText(eligible: Option<bool>): (text: string)
    ensures text == "—" <==> eligible.None?
    ensures text == "Eligible" <==> eligible == Some(true)
    ensures text == "NOT Eligible" <==> eligible == Some(false)
  {
    match eligible
    case None => "—"
    case Some(e) => if e then "Eligible" else "NOT Eligible"
  }

  /** The reason line: the stored reason, or "—" when it is missing or empty. */
  function TpaReasonText(reason: Option<string>): (text: string)
    ensures text == "—" <==> reason.None? || reason.value == "" || reason.value == "—"
    ensures reason.Some? && reason.value != "" ==> text == reason.value
  {
    if reason.Some? && reason.value != "" then reason.value else "—"
  }
}
