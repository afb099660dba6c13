/**
 * The technician's NIHSS form (pages/t_nihss_page.py): fifteen radio groups,
 * the translation of the raw form into the thirteen scale items that the
 * Calculate button performs, and what the button writes to the visit and to
 * the session.
 */
module NihssPage {
  import opened Common
  import opened Records
  import opened NihssService
  import opened VisitService
  import opened SessionManager

  /** The option chosen in each radio group, items 1a to 11. */
  datatype Form = Form(
    loc: int, locQuestions: int, locCommands: int,
    gaze: int, visual: int, facial: int,
    motorArmLeft: int, motorArmRight: int, motorLegLeft: int, motorLegRight: int,
    limbAtaxia: int, sensory: int, language: int, dysarthria: int, extinction: int)

  /** The form values in the order of `FormFields`. */
  function FormValues(f: Form): (vs: seq<int>)
    ensures |vs| == |FormFields|
  {
    [ f.loc, f.locQuestions, f.locCommands, f.gaze, f.visual, f.facial,
      f.motorArmLeft, f.motorArmRight, f.motorLegLeft, f.motorLegRight,
      f.limbAtaxia, f.sensory, f.language, f.dysarthria, f.extinction ]
  }

  /** Every value is one of its radio group's options, 0 up to the group's largest. */
  predicate FromRadios(f: Form) {
    forall i :: 0 <= i < |RadioMax| ==> 0 <= FormValues(f)[i] <= RadioMax[i]
  }

  /** A dictionary built from keys and values position by position. */
  function Pairs(keys: seq<string>, values: seq<int>): (d: Scores)
    requires |keys| == |values|
    ensures |d| == |keys| && forall i :: 0 <= i < |d| ==> d[i] == (keys[i], values[i])
  {
    seq(|keys|, i requires 0 <= i < |keys| => (keys[i], values[i]))
  }

  /** `stroke_data`: each form value under its form field name. */
  function StrokeData(f: Form): Scores {
    Pairs(FormFields, FormValues(f))
  }

  /** Looking up any form field in `stroke_data` gives that field's radio value. */
  lemma StrokeDataLookup(f: Form, i: nat)
    requires i < |FormFields|
    ensures Get(StrokeData(f), FormFields[i], 0) == FormValues(f)[i]
  {
    FormFieldsDistinct();
  }

  lemma FormFieldsDistinct()
    ensures forall i, j :: 0 <= i < j < |FormFields| ==> FormFields[i] != FormFields[j]
  {
  }

  /** The entries after consciousness: each item read from its form field. */
  function MappedItems(items: seq<string>, d: Scores): (s: Scores)
    ensures |s| == |items|
    ensures forall k :: 0 <= k < |items| ==> s[k] == (items[k], Get(d, FormName(items[k]), 0))
  {
    seq(|items|, i requires 0 <= i < |items| => (items[i], Get(d, FormName(items[i]), 0)))
  }

  /** `nihss_scores`: the three consciousness sub-items folded into one, the other items copied. */
  function ItemScores(d: Scores): Scores {
    [("consciousness", Get(d, "loc", 0) + Get(d, "loc_questions", 0) + Get(d, "loc_commands", 0))]
      + MappedItems(MappingFields, d)
  }

  /** The item list is consciousness followed by the mapping fields. */
  lemma ItemsSplit()
    ensures NihssFields == ["consciousness"] + MappingFields
  {
  }

  /** The translated scores have exactly the item names as keys, in order. */
  lemma ItemScoresKeys(d: Scores)
    ensures var s := ItemScores(d);
      |s| == |NihssFields| && forall i :: 0 <= i < |s| ==> s[i].0 == NihssFields[i]
  {
    ItemsSplit();
  }

  /**
   * Consciousness is the sum of the three sub-items and every other item is
   * the form value it is read from (ataxia from `limb_at`).
   */
  lemma ItemScoresValues(d: Scores)
    ensures var s := ItemScores(d);
      && |s| == 13
      && s[0].1 == Get(d, "loc", 0) + Get(d, "loc_questions", 0) + Get(d, "loc_commands", 0)
      && forall i :: 1 <= i < |s| ==> s[i].1 == Get(d, FormFields[i + 2], 0)
  {
    MappingFollowsForm();
    var s := ItemScores(d);
    var mapped := MappedItems(MappingFields, d);
    forall i | 1 <= i < |s| ensures s[i].1 == Get(d, FormFields[i + 2], 0) {
      var k := i - 1;
      assert s[i] == mapped[k];
      assert FormName(MappingFields[k]) == FormFields[3 + k];
    }
  }

  /** Every key of the translated scores is an item name, so saving them never reports an invalid field. */
  lemma TranslationIsValid(d: Scores)
    ensures FirstInvalidKey(ItemScores(d)).None?
  {
    ItemScoresKeys(d);
  }

  /** Looking an item up in the translated scores finds the entry at its own position. */
  lemma ItemScoresLookup(d: Scores)
    ensures var s := ItemScores(d);
      |s| == |NihssFields| && forall i :: 0 <= i < |s| ==> Get(s, NihssFields[i], 0) == s[i].1
  {
    var s := ItemScores(d);
    ItemScoresKeys(d);
    NihssFieldsDistinct();
    forall i | 0 <= i < |s| ensures Get(s, NihssFields[i], 0) == s[i].1 {
      assert forall j :: 0 <= j < i ==> s[j].0 != NihssFields[i];
    }
  }

  /** The total saved with the items equals the form total computed first. */
  lemma TranslationKeepsTotal(d: Scores)
    ensures Total(ItemScores(d)) == FormTotal(d)
  {
    var s := ItemScores(d);
    ItemScoresValues(d);
    ItemScoresLookup(d);
    ItemsSplit();
    SumOfPrefix3(FormFields, d);
    assert NihssFields[1..] == MappingFields;
    SumOfShifted(NihssFields[1..], s, FormFields[3..], d, 1);
  }

  /**
   * Position by position, the items after consciousness are read from the
   * form fields after the three sub-items.
   */
  lemma {:induction false} SumOfShifted(items: seq<string>, s: Scores, fields: seq<string>, d: Scores, offset: nat)
    requires |items| == |fields| && offset + |items| <= |s|
    requires forall i :: 0 <= i < |items| ==> Get(s, items[i], 0) == s[offset + i].1
    requires forall i :: 0 <= i < |items| ==> s[offset + i].1 == Get(d, fields[i], 0)
    ensures SumOf(items, s) == SumOf(fields, d)
  {
    if items != [] {
      SumOfShifted(items[1..], s, fields[1..], d, offset + 1);
    }
  }

  /** The largest option of each radio group, in the order of `FormFields`. */
  const RadioMax: seq<int> := [3, 2, 2, 2, 3, 3, 4, 4, 4, 4, 2, 2, 3, 2, 2]

  /** The largest options add up to 42, the top of the scale. */
  lemma RadioMaxTotal()
    ensures |RadioMax| == |FormFields| && SumInts(RadioMax) == 42
  {
    var first, second := [3, 2, 2, 2, 3] + [3, 4, 4, 4, 4], [2, 2, 3, 2, 2];
    assert RadioMax == first + second;
    SumIntsConcat(first, second);
    SumIntsConcat([3, 2, 2, 2, 3], [3, 4, 4, 4, 4]);
  }

  lemma {:induction false} SumIntsConcat(xs: seq<int>, ys: seq<int>)
    ensures SumInts(xs + ys) == SumInts(xs) + SumInts(ys)
  {
    if xs != [] {
      assert (xs + ys)[1..] == xs[1..] + ys;
      SumIntsConcat(xs[1..], ys);
    } else {
      assert xs + ys == ys;
    }
  }

  function SumInts(xs: seq<int>): int {
    if xs == [] then 0 else xs[0] + SumInts(xs[1..])
  }

  /** With every value taken from its radio group, the score lies between 0 and 42. */
  lemma RadioTotalBounded(f: Form)
    requires FromRadios(f)
    ensures 0 <= FormTotal(StrokeData(f)) <= 42
  {
    RadioMaxTotal();
    forall i | 0 <= i < |FormFields| ensures 0 <= Get(StrokeData(f), FormFields[i], 0) <= RadioMax[i] {
      assert 0 <= FormValues(f)[i] <= RadioMax[i];
      StrokeDataLookup(f, i);
    }
    BoundedSum(FormFields, StrokeData(f), RadioMax);
  }

  lemma {:induction false} BoundedSum(fields: seq<string>, d: Scores, limits: seq<int>)
    requires |fields| == |limits|
    requires forall i :: 0 <= i < |fields| ==> 0 <= Get(d, fields[i], 0) <= limits[i]
    ensures 0 <= SumOf(fields, d) <= SumInts(limits)
  {
    if fields != [] {
      BoundedSum(fields[1..], d, limits[1..]);
    }
  }

  /** The keyword call `update_visit(visit_id, nihss_score=total)` writes only the score. */
  lemma ScoreKwargs(v: Visit, total: int)
    ensures DistinctNames([(Col(NihssScoreCol), Int(total))]) && KwargsFit([(Col(NihssScoreCol), Int(total))])
    ensures Updated(v, ColumnAssignments([(Col(NihssScoreCol), Int(total))])) == v.(nihssScore := Some(total))
  {
    ScoreAssignment(total);
    UpdatedScore(v, total);
  }

  lemma ScoreAssignment(total: int)
    ensures ColumnAssignments([(Col(NihssScoreCol), Int(total))]) == map[NihssScoreCol := Int(total)]
  {
  }

  lemma UpdatedScore(v: Visit, total: int)
    ensures Updated(v, map[NihssScoreCol := Int(total)]) == v.(nihssScore := Some(total))
  {
  }

  /**
   * The two writes of the Calculate button: `save_nihss_scores` with the
   * translated items, then `update_visit` with the total computed from the
   * form, which the first write has already stored.
   */
  method StoreScores(db: Database, visitId: int, scores: Scores, total: int)
    requires db.Valid() && VisitAt(db.visits, visitId).Some?
    requires FirstInvalidKey(scores).None? && Total(scores) == total
    modifies db
    ensures db.Valid()
    ensures var i := VisitAt(old(db.visits), visitId).value;
      var attrs := if visitId in old(db.nihssItems) then old(db.nihssItems)[visitId] else map[];
      && db.visits == old(db.visits)[i := old(db.visits)[i].(nihssScore := Some(total))]
      && db.nihssItems == old(db.nihssItems)[visitId := attrs + Items(scores)]
    ensures db.patients == old(db.patients) && db.users == old(db.users) && db.treatments == old(db.treatments)
  {
    var i := VisitAt(db.visits, visitId).value;
    ghost var v := db.visits[i].(nihssScore := Some(total));
    ghost var attrs := if visitId in db.nihssItems then db.nihssItems[visitId] else map[];
    var saved := SaveNihssScores(db, visitId, scores);
    assert saved == Saved(v, attrs + Items(scores));
    ghost var afterSave := db.visits;
    assert afterSave == old(db.visits)[i := v];
    assert db.nihssItems == old(db.nihssItems)[visitId := attrs + Items(scores)];
    VisitAtAfterReplace(old(db.visits), visitId, i, v);
    RewriteTotal(db, visitId, i, total);
  }

  /**
   * The second write of the Calculate button: `update_visit` with the total
   * the visit row already holds, which leaves every table as it was.
   */
  method RewriteTotal(db: Database, visitId: int, i: nat, total: int)
    requires db.Valid() && VisitAt(db.visits, visitId) == Some(i) && i < |db.visits|
    requires db.visits[i].nihssScore == Some(total)
    modifies db
    ensures db.Valid()
    ensures db.visits == old(db.visits) && db.nihssItems == old(db.nihssItems)
    ensures db.patients == old(db.patients) && db.users == old(db.users) && db.treatments == old(db.treatments)
  {
    ghost var v := db.visits[i];
    ScoreKwargs(v, total);
    var updated := UpdateVisit(db, visitId, [(Col(NihssScoreCol), Int(total))]);
    assert v.(nihssScore := Some(total)) == v;
    assert db.visits == old(db.visits)[i := v];
  }

  /**
   * The Calculate button: computes the total, saves the items and the total,
   * writes the total again through `update_visit`, and records the result in
   * the session. The page has already stopped when the visit does not exist.
   */
  method OnCalculate(db: Database, session: Session, visitId: int, f: Form) returns (total: int)
    requires db.Valid() && VisitAt(db.visits, visitId).Some?
    modifies db, session
    ensures db.Valid()
    ensures total == FormTotal(StrokeData(f))
    ensures var i := VisitAt(old(db.visits), visitId).value;
      var attrs := if visitId in old(db.nihssItems) then old(db.nihssItems)[visitId] else map[];
      && db.visits == old(db.visits)[i := old(db.visits)[i].(nihssScore := Some(total))]
      && db.nihssItems == old(db.nihssItems)[visitId := attrs + Items(ItemScores(StrokeData(f)))]
    ensures session.state == old(session.state)["nihss_calculated" := Flag(true)]["nihss_total" := Number(total)]
    ensures session.queryParams == old(session.queryParams)
    ensures db.patients == old(db.patients) && db.users == old(db.users) && db.treatments == old(db.treatments)
  {
    var strokeData := StrokeData(f);
    total := CalculateNihss(strokeData);
    var scores := ItemScores(strokeData);
    TranslationIsValid(strokeData);
    TranslationKeepsTotal(strokeData);
    StoreScores(db, visitId, scores, total);
    RecordTotal(session, total);
  }

  /** The two session writes after a calculation: the flag, then the total. */
  method RecordTotal(session: Session, total: int)
    modifies session
    ensures session.state == old(session.state)["nihss_calculated" := Flag(true)]["nihss_total" := Number(total)]
    ensures session.queryParams == old(session.queryParams)
  {
    session.state := session.state["nihss_calculated" := Flag(true)];
    session.state := session.state["nihss_total" := Number(total)];
  }
}
