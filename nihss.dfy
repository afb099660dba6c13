/**
 * The NIH Stroke Scale aggregator (services/nihss_service.py): the thirteen
 * named items, saving item values onto a visit with their total, reading
 * them back, and totalling the fifteen raw form fields.
 *
 * A score dictionary is a sequence of (key, value) pairs in insertion order
 * with distinct keys, as a Python `dict` is.
 */
module NihssService {
  import opened Common
  import opened Tables
  import opened Records

  /** `NIHSS_FIELDS` */
  const NihssFields: seq<string> := [
    "consciousness", "gaze", "visual", "facial",
    "motor_arm_left", "motor_arm_right", "motor_leg_left", "motor_leg_right",
    "ataxia", "sensory", "language", "dysarthria", "extinction"
  ]

  /** Thirteen items, no name twice. */
  lemma NihssFieldsDistinct()
    ensures |NihssFields| == 13
    ensures forall i, j :: 0 <= i < j < |NihssFields| ==> NihssFields[i] != NihssFields[j]
  {
  }

  type Scores = seq<(string, int)>

  /** `d.get(k, default)` */
  function Get(d: Scores, k: string, default: int): (v: int)
    ensures (forall i :: 0 <= i < |d| ==> d[i].0 != k) ==> v == default
    ensures forall i :: 0 <= i < |d| && d[i].0 == k && (forall j :: 0 <= j < i ==> d[j].0 != k) ==> v == d[i].1
  {
    if d == [] then default
    else if d[0].0 == k then d[0].1
    else Get(d[1..], k, default)
  }

  /** The keys of `d`, in insertion order, before the first one that is not an item name. */
  function FirstInvalidKey(d: Scores): (r: Option<string>)
    ensures r.None? <==> forall i :: 0 <= i < |d| ==> d[i].0 in NihssFields
    ensures r.Some? ==> r.value !in NihssFields
    ensures r.Some? ==> exists i :: 0 <= i < |d| && d[i].0 == r.value
  {
    if d == [] then None
    else if d[0].0 !in NihssFields then Some(d[0].0)
    else FirstInvalidKey(d[1..])
  }

  /** `sum(d.get(f, 0) for f in fields)` */
  function SumOf(fields: seq<string>, d: Scores): int {
    if fields == [] then 0 else Get(d, fields[0], 0) + SumOf(fields[1..], d)
  }

  /** The total `save_nihss_scores` stores. */
  function Total(d: Scores): int {
    SumOf(NihssFields, d)
  }

  /** The item attributes `save_nihss_scores` sets: every item, missing ones as 0. */
  function Items(d: Scores): (m: map<string, int>)
    ensures forall f :: f in m <==> f in NihssFields
    ensures forall f | f in m :: m[f] == Get(d, f, 0)
  {
    ItemsOf(NihssFields, d)
  }

  /** The sum of the item attributes held in `m` under `fields`. */
  function SumItems(fields: seq<string>, m: map<string, int>): int
    requires forall i :: 0 <= i < |fields| ==> fields[i] in m
  {
    if fields == [] then 0 else m[fields[0]] + SumItems(fields[1..], m)
  }

  /** Adding up the attributes is adding up the dictionary they were taken from. */
  lemma {:induction false} SumItemsOfItems(fields: seq<string>, d: Scores, attrs: map<string, int>)
    requires forall i :: 0 <= i < |fields| ==> fields[i] in NihssFields
    requires forall f | f in NihssFields :: f in attrs && attrs[f] == Get(d, f, 0)
    ensures SumItems(fields, attrs) == SumOf(fields, d)
  {
    if fields != [] {
      SumItemsOfItems(fields[1..], d, attrs);
    }
  }

  datatype SaveError = VisitNotFound | InvalidField(key: string)

  /** What `save_nihss_scores` returns: the visit and its item attributes, or an error. */
  datatype SaveResult = Saved(visit: Visit, items: map<string, int>) | Failed(error: SaveError)

  /** The outcome for a visit that exists: the first key that is not an item name is an error. */
  function SaveOutcome(v: Visit, attrs: map<string, int>, d: Scores): (r: SaveResult)
  {
    match FirstInvalidKey(d)
    case Some(k) => Failed(InvalidField(k))
    case None => Saved(v.(nihssScore := Some(Total(d))), attrs + Items(d))
  }

  /** The stored score always equals the sum of the stored items. */
  predicate Consistent(v: Visit, attrs: map<string, int>) {
    && (forall f | f in NihssFields :: f in attrs)
    && v.nihssScore == Some(SumItems(NihssFields, attrs))
  }

  /** A successful save leaves the score equal to the sum of the items and touches nothing else on the row. */
  lemma SaveIsConsistent(v: Visit, attrs: map<string, int>, d: Scores)
    requires SaveOutcome(v, attrs, d).Saved?
    ensures var r := SaveOutcome(v, attrs, d);
      && Consistent(r.visit, r.items)
      && r.visit == v.(nihssScore := Some(Total(d)))
      && forall f | f in NihssFields :: r.items[f] == Get(d, f, 0)
  {
    var r := SaveOutcome(v, attrs, d);
    SumItemsOfItems(NihssFields, d, r.items);
  }

  /** Saving the same scores again changes nothing more. */
  lemma SaveIdempotent(v: Visit, attrs: map<string, int>, d: Scores)
    requires SaveOutcome(v, attrs, d).Saved?
    ensures var r := SaveOutcome(v, attrs, d);
      SaveOutcome(r.visit, r.items, d) == r
  {
    var r := SaveOutcome(v, attrs, d);
    assert r.items + Items(d) == r.items;
  }

  /**
   * `save_nihss_scores`: an unknown visit or a key that is not an item name
   * changes nothing; otherwise every item is set (missing ones to 0) and
   * `nihss_score` becomes their sum.
   */
  method SaveNihssScores(db: Database, id: int, scores: Scores) returns (r: SaveResult)
    requires db.Valid()
    modifies db
    ensures db.Valid()
    ensures VisitAt(old(db.visits), id).None? ==>
      r == Failed(VisitNotFound) && db.visits == old(db.visits) && db.nihssItems == old(db.nihssItems)
    ensures VisitAt(old(db.visits), id).Some? ==>
      var i := VisitAt(old(db.visits), id).value;
      var attrs := if id in old(db.nihssItems) then old(db.nihssItems)[id] else map[];
      && r == SaveOutcome(old(db.visits)[i], attrs, scores)
      && (r.Failed? ==> db.visits == old(db.visits) && db.nihssItems == old(db.nihssItems))
      && (r.Saved? ==> db.visits == old(db.visits)[i := r.visit] && db.nihssItems == old(db.nihssItems)[id := r.items])
    ensures db.patients == old(db.patients) && db.users == old(db.users) && db.treatments == old(db.treatments)
  {
    var at := VisitAt(db.visits, id);
    if at.None? {
      return Failed(VisitNotFound);
    }
    var i := at.value;

    var n := 0;
    while n < |scores|
      invariant 0 <= n <= |scores|
      invariant forall j :: 0 <= j < n ==> scores[j].0 in NihssFields
    {
      if scores[n].0 !in NihssFields {
        FirstInvalidAt(scores, n);
        return Failed(InvalidField(scores[n].0));
      }
      n := n + 1;
    }

    ghost var before := if id in db.nihssItems then db.nihssItems[id] else map[];
    var attrs := if id in db.nihssItems then db.nihssItems[id] else map[];
    attrs := SetItems(NihssFields, attrs, scores);
    var total := SumFields(NihssFields, scores);

    var v := db.visits[i].(nihssScore := Some(total));
    SavedWhenAllValid(db.visits[i], before, scores);
    r := Saved(v, attrs);
    WriteSaved(db, id, i, v, attrs);
  }

  /** With every key an item name, the outcome is the saved visit and items. */
  lemma SavedWhenAllValid(v: Visit, attrs: map<string, int>, d: Scores)
    requires forall j :: 0 <= j < |d| ==> d[j].0 in NihssFields
    ensures SaveOutcome(v, attrs, d) == Saved(v.(nihssScore := Some(SumOf(NihssFields, d))), attrs + ItemsOf(NihssFields, d))
  {
  }

  /** The two writes of a successful save: the visit row and its item attributes. */
  method WriteSaved(db: Database, id: int, i: nat, v: Visit, attrs: map<string, int>)
    requires db.Valid() && i < |db.visits| && v.id == db.visits[i].id
    modifies db
    ensures db.Valid()
    ensures db.visits == old(db.visits)[i := v] && db.nihssItems == old(db.nihssItems)[id := attrs]
    ensures db.patients == old(db.patients) && db.users == old(db.users) && db.treatments == old(db.treatments)
  {
    ReplaceKeepsOrder(db.visits, VisitKey, i, v);
    db.visits := db.visits[i := v];
    db.nihssItems := db.nihssItems[id := attrs];
  }

  /** The item values of `d` for the items in `fields`. */
  function ItemsOf(fields: seq<string>, d: Scores): (m: map<string, int>)
    ensures forall f :: f in m <==> f in fields
    ensures forall f | f in m :: m[f] == Get(d, f, 0)
  {
    map f | f in fields :: Get(d, f, 0)
  }

  /** The `setattr` loop of `save_nihss_scores`: each of `fields` set to `d.get(f, 0)`. */
  method SetItems(fields: seq<string>, attrs: map<string, int>, d: Scores) returns (r: map<string, int>)
    ensures r == attrs + ItemsOf(fields, d)
  {
    r := attrs;
    var k := 0;
    while k < |fields|
      invariant 0 <= k <= |fields|
      invariant r == attrs + ItemsOf(fields[..k], d)
    {
      assert fields[..k + 1] == fields[..k] + [fields[k]];
      ItemsOfSnoc(attrs, fields[..k], fields[k], d);
      r := r[fields[k] := Get(d, fields[k], 0)];
      k := k + 1;
    }
    assert fields[..k] == fields;
  }

  /** One more field set by the loop is one more field in `ItemsOf`. */
  lemma ItemsOfSnoc(attrs: map<string, int>, fields: seq<string>, f: string, d: Scores)
    ensures attrs + ItemsOf(fields + [f], d) == (attrs + ItemsOf(fields, d))[f := Get(d, f, 0)]
  {
    var left := attrs + ItemsOf(fields + [f], d);
    var right := (attrs + ItemsOf(fields, d))[f := Get(d, f, 0)];
    assert forall g :: g in left <==> g in right;
    forall g | g in left
      ensures left[g] == right[g]
    {
      if g != f && g !in fields {
        assert g !in ItemsOf(fields + [f], d);
      }
    }
  }

  /** The generator sum of `save_nihss_scores` over `fields`. */
  method SumFields(fields: seq<string>, d: Scores) returns (total: int)
    ensures total == SumOf(fields, d)
  {
    total := 0;
    var k := 0;
    while k < |fields|
      invariant 0 <= k <= |fields|
      invariant total + SumOf(fields[k..], d) == SumOf(fields, d)
    {
      assert fields[k..][1..] == fields[k + 1..];
      total := total + Get(d, fields[k], 0);
      k := k + 1;
    }
  }

  /** The key the validation loop stops at, the first that is not an item name, is the one reported. */
  lemma {:induction false} FirstInvalidAt(d: Scores, n: nat)
    requires n < |d| && d[n].0 !in NihssFields
    requires forall j :: 0 <= j < n ==> d[j].0 in NihssFields
    ensures FirstInvalidKey(d) == Some(d[n].0)
  {
    if n > 0 {
      FirstInvalidAt(d[1..], n - 1);
    }
  }

  /** What `get_nihss` returns. */
  datatype NihssDetails = NihssDetails(visitId: int, total: Option<int>, details: map<string, int>)

  datatype GetError =
      NoVisit                          // `get_nihss` returns None
    | MissingAttribute(field: string)  // `getattr` raises: the item was never set on this instance

  /** `get_nihss`: the stored total and the thirteen items of a visit. */
  function GetNihss(visits: seq<Visit>, items: map<int, map<string, int>>, id: int): (r: Result<NihssDetails, GetError>)
    ensures VisitAt(visits, id).None? ==> r == Err(NoVisit)
    ensures r.Ok? ==> r.value.visitId == id && r.value.total == visits[VisitAt(visits, id).value].nihssScore
    ensures r.Ok? ==> forall f :: f in r.value.details <==> f in NihssFields
    ensures r.Ok? ==> id in items && forall f | f in r.value.details :: f in items[id] && r.value.details[f] == items[id][f]
  {
    match VisitAt(visits, id)
    case None => Err(NoVisit)
    case Some(i) =>
      if id !in items then Err(MissingAttribute(NihssFields[0]))
      else match MissingItem(NihssFields, items[id])
        case Some(f) => Err(MissingAttribute(f))
        case None => Ok(NihssDetails(visits[i].id, visits[i].nihssScore, map f | f in NihssFields :: items[id][f]))
  }

  /** The first of `fields` with no attribute in `attrs`. */
  function MissingItem(fields: seq<string>, attrs: map<string, int>): (r: Option<string>)
    ensures r.None? <==> forall i :: 0 <= i < |fields| ==> fields[i] in attrs
    ensures r.Some? ==> r.value in fields && r.value !in attrs
  {
    if fields == [] then None
    else if fields[0] !in attrs then Some(fields[0])
    else MissingItem(fields[1..], attrs)
  }

  /**
   * Reading back a visit saved with `d` gives every item as `d` has it (0 if
   * absent) and a total equal to the sum of those items.
   */
  lemma SaveThenGet(visits: seq<Visit>, items: map<int, map<string, int>>, id: int, d: Scores)
    requires VisitAt(visits, id).Some?
    requires
      var i := VisitAt(visits, id).value;
      var attrs := if id in items then items[id] else map[];
      SaveOutcome(visits[i], attrs, d).Saved?
    ensures
      var i := VisitAt(visits, id).value;
      var attrs := if id in items then items[id] else map[];
      var r := SaveOutcome(visits[i], attrs, d);
      var g := GetNihss(visits[i := r.visit], items[id := r.items], id);
      && g.Ok?
      && g.value.details == Items(d)
      && g.value.total == Some(Total(d))
      && g.value.total == Some(SumItems(NihssFields, g.value.details))
  {
    var i := VisitAt(visits, id).value;
    var attrs := if id in items then items[id] else map[];
    var r := SaveOutcome(visits[i], attrs, d);
    SaveIsConsistent(visits[i], attrs, d);
    VisitAtAfterReplace(visits, id, i, r.visit);
    assert MissingItem(NihssFields, r.items).None?;
    DetailsAreItems(r.items, d);
    SumItemsOfItems(NihssFields, d, Items(d));
  }

  /** The details read back from attributes set from `d` are the items of `d`. */
  lemma DetailsAreItems(m: map<string, int>, d: Scores)
    requires forall f | f in NihssFields :: f in m && m[f] == Get(d, f, 0)
    ensures (map f | f in NihssFields :: m[f]) == Items(d)
  {
  }

  /** The fields the form total adds, with ataxia under its form name `limb_at`. */
  const FormFields: seq<string> := [
    "loc", "loc_questions", "loc_commands", "gaze", "visual", "facial",
    "motor_arm_left", "motor_arm_right", "motor_leg_left", "motor_leg_right",
    "limb_at", "sensory", "language", "dysarthria", "extinction"
  ]

  /** The form total: the three consciousness sub-items and the twelve other items, absent keys as 0. */
  function FormTotal(data: Scores): int {
    SumOf(FormFields, data)
  }

  /** `mapping_fields` of `calculate_nihss`: the items after consciousness, by their item names. */
  const MappingFields: seq<string> := [
    "gaze", "visual", "facial", "motor_arm_left", "motor_arm_right",
    "motor_leg_left", "motor_leg_right", "ataxia", "sensory", "language",
    "dysarthria", "extinction"
  ]

  /** The form field an item is read from: ataxia from `limb_at`, the rest under their own names. */
  function FormName(item: string): string {
    if item == "ataxia" then "limb_at" else item
  }

  /** Read through `FormName`, the mapping fields are the form fields after the three sub-items. */
  lemma MappingFollowsForm()
    ensures |MappingFields| + 3 == |FormFields|
    ensures forall k :: 0 <= k < |MappingFields| ==> FormName(MappingFields[k]) == FormFields[3 + k]
  {
  }

  /**
   * `calculate_nihss`: adds the three consciousness sub-items, then each
   * remaining item, reading ataxia from `limb_at`.
   */
  method CalculateNihss(data: Scores) returns (total: int)
    ensures total == FormTotal(data)
  {
    var mappingFields := MappingFields;
    MappingFollowsForm();
    var consciousness := Get(data, "loc", 0) + Get(data, "loc_questions", 0) + Get(data, "loc_commands", 0);
    total := consciousness;
    SumOfPrefix3(FormFields, data);
    var k := 0;
    while k < |mappingFields|
      invariant 0 <= k <= |mappingFields|
      invariant total + SumOf(FormFields[3 + k..], data) == FormTotal(data)
    {
      assert FormFields[3 + k..][1..] == FormFields[3 + k + 1..];
      assert FormFields[3 + k] == FormName(mappingFields[k]);
      if mappingFields[k] == "ataxia" {
        total := total + Get(data, "limb_at", 0);
      } else {
        total := total + Get(data, mappingFields[k], 0);
      }
      k := k + 1;
    }
  }

  lemma SumOfPrefix3(fields: seq<string>, d: Scores)
    requires |fields| >= 3
    ensures SumOf(fields, d) == Get(d, fields[0], 0) + Get(d, fields[1], 0) + Get(d, fields[2], 0) + SumOf(fields[3..], d)
  {
    var rest1 := fields[1..];
    var rest2 := rest1[1..];
    assert SumOf(fields, d) == Get(d, fields[0], 0) + SumOf(rest1, d);
    assert SumOf(rest1, d) == Get(d, fields[1], 0) + SumOf(rest2, d);
    assert SumOf(rest2, d) == Get(d, fields[2], 0) + SumOf(rest2[1..], d);
    assert rest2[1..] == fields[3..];
  }

  /** Keys the form total does not read, "ataxia" among them, do not change it. */
  lemma {:induction false} FormTotalIgnores(data: Scores, key: string, value: int)
    requires key !in FormFields
    ensures FormTotal(data + [(key, value)]) == FormTotal(data)
  {
    forall fields: seq<string> | forall i :: 0 <= i < |fields| ==> fields[i] in FormFields
      ensures SumOf(fields, data + [(key, value)]) == SumOf(fields, data)
    {
      SumOfIgnores(fields, data, key, value);
    }
  }

  lemma {:induction false} SumOfIgnores(fields: seq<string>, data: Scores, key: string, value: int)
    requires forall i :: 0 <= i < |fields| ==> fields[i] != key
    ensures SumOf(fields, data + [(key, value)]) == SumOf(fields, data)
  {
    if fields != [] {
      GetIgnores(data, fields[0], key, value);
      SumOfIgnores(fields[1..], data, key, value);
    }
  }

  lemma {:induction false} GetIgnores(data: Scores, k: string, key: string, value: int)
    requires k != key
    ensures Get(data + [(key, value)], k, 0) == Get(data, k, 0)
  {
    if data != [] {
      assert (data + [(key, value)])[1..] == data[1..] + [(key, value)];
      GetIgnores(data[1..], k, key, value);
    }
  }

  /** Values are added as given: with no negative value the total is not negative. */
  lemma {:induction false} SumOfNonNegative(fields: seq<string>, data: Scores)
    requires forall i :: 0 <= i < |data| ==> data[i].1 >= 0
    ensures SumOf(fields, data) >= 0
  {
    if fields != [] {
      GetNonNegative(data, fields[0]);
      SumOfNonNegative(fields[1..], data);
    }
  }

  lemma {:induction false} GetNonNegative(data: Scores, k: string)
    requires forall i :: 0 <= i < |data| ==> data[i].1 >= 0
    ensures Get(data, k, 0) >= 0
  {
    if data != [] && data[0].0 != k {
      GetNonNegative(data[1..], k);
    }
  }
}
