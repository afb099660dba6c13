/**
 * ICD-10 coding of a visit (services/icd_service.py): one search of the
 * National Library of Medicine code service, shaped into a first match or
 * an error, and the fallback chain that always leaves a code on the visit.
 *
 * The HTTP service is an oracle: `api(n, term)` is the reply to the n-th
 * request of one call (0 for the search on the diagnosis, 1 for the
 * fallback search), so a retry of the same term may answer differently.
 */
module IcdService {
  import opened Common
  import opened Tables
  import opened Records

  /**
   * One reply of the code service. A reply whose body is JSON is a list of
   * `length` elements; the code list, the name list and the (code, name)
   * pairs are its elements 1, 2 and 3, read only when the list is long
   * enough to hold them.
   */
  datatype ApiReply =
      RequestFailed                 // connection error, timeout or HTTP error status
    | NotJson                       // a body `response.json()` cannot decode
    | Listed(length: nat, codes: seq<string>, names: seq<string>, pairs: seq<(string, string)>)

  datatype FetchError = RequestError | NoMatches

  /** What `fetch_icd10_from_api` hands back, or `Raised` when it raises. */
  datatype Fetched = Failed(error: FetchError) | Match(code: string, description: string) | Raised

  /** `fetch_icd10_from_api` applied to a reply. */
  function Fetch(reply: ApiReply): (f: Fetched)
    ensures f == Failed(RequestError) <==> reply.RequestFailed?
    ensures f == Failed(NoMatches) <==> reply.Listed? && (reply.length < 3 || reply.codes == [])
    ensures f.Match? <==> reply.Listed? && reply.length >= 3 && reply.codes != [] && reply.names != []
    ensures f.Match? ==> f.code == reply.codes[0] && f.description == reply.names[0]
  {
    match reply
    case RequestFailed => Failed(RequestError)
    case NotJson => Raised
    case Listed(length, codes, names, _) =>
      if length < 3 || codes == [] then Failed(NoMatches)
      else if names == [] then Raised
      else Match(codes[0], names[0])
  }

  /** `visit.prediction_label or "stroke"`: an absent or empty prediction searches "stroke". */
  function SearchTerm(prediction: Option<string>): (term: string)
    ensures term != []
    ensures prediction.Some? && prediction.value != [] ==> term == prediction.value
    ensures prediction.None? || prediction.value == [] ==> term == "stroke"
  {
    if prediction.Some? && prediction.value != [] then prediction.value else "stroke"
  }

  const UnspecifiedCode: string := "R69"
  const UnspecifiedDescription: string := "Illness, unspecified"

  /** The search terms sent, in order: the diagnosis, then "stroke" when the first search reported an error. */
  function Requests(prediction: Option<string>, api: (nat, string) -> ApiReply): (terms: seq<string>)
    ensures 1 <= |terms| <= 2 && terms[0] == SearchTerm(prediction)
    ensures |terms| == 2 <==> Fetch(api(0, SearchTerm(prediction))).Failed?
    ensures |terms| == 2 ==> terms[1] == "stroke"
  {
    if Fetch(api(0, SearchTerm(prediction))).Failed? then [SearchTerm(prediction), "stroke"] else [SearchTerm(prediction)]
  }

  /**
   * The code and description `generate_icd_code` settles on, or `None` when
   * one of the searches raises.
   */
  function FinalChoice(prediction: Option<string>, api: (nat, string) -> ApiReply): Option<(string, string)>
  {
    var first := Fetch(api(0, SearchTerm(prediction)));
    match first
    case Match(c, d) => Some((c, d))
    case Raised => None
    case Failed(_) =>
      var second := Fetch(api(1, "stroke"));
      match second
      case Match(c, d) => Some((c, d))
      case Raised => None
      case Failed(_) => Some((UnspecifiedCode, UnspecifiedDescription))
  }

  /**
   * The fallback chain: the first search's match wins; after an error the
   * "stroke" search's match is taken; after two errors the visit is coded
   * R69. Only a search that raises leaves no code.
   */
  lemma FallbackChain(prediction: Option<string>, api: (nat, string) -> ApiReply)
    ensures var first := Fetch(api(0, SearchTerm(prediction)));
      var second := Fetch(api(1, "stroke"));
      var choice := FinalChoice(prediction, api);
      && (first.Match? ==> choice == Some((first.code, first.description)))
      && (first.Failed? && second.Match? ==> choice == Some((second.code, second.description)))
      && (first.Failed? && second.Failed? ==> choice == Some((UnspecifiedCode, UnspecifiedDescription)))
      && (choice.None? <==> first.Raised? || (first.Failed? && second.Raised?))
  {
  }

  /** The chosen code is a code the service returned for one of the requests actually sent, or R69. */
  lemma ChoiceComesFromRequests(prediction: Option<string>, api: (nat, string) -> ApiReply)
    requires FinalChoice(prediction, api).Some?
    ensures var code := FinalChoice(prediction, api).value.0;
      var terms := Requests(prediction, api);
      || code == UnspecifiedCode
      || exists n :: 0 <= n < |terms| && Fetch(api(n, terms[n])).Match? && Fetch(api(n, terms[n])).code == code
  {
    var terms := Requests(prediction, api);
    var first := Fetch(api(0, terms[0]));
    if first.Match? {
      assert Fetch(api(0, terms[0])).code == FinalChoice(prediction, api).value.0;
    } else {
      var second := Fetch(api(1, terms[1]));
      if second.Match? {
        assert Fetch(api(1, terms[1])).code == FinalChoice(prediction, api).value.0;
      }
    }
  }

  /**
   * R69 is a last resort: when neither search matched R69 itself, coding the
   * visit R69 means both searches reported an error.
   */
  lemma UnspecifiedOnlyAfterTwoErrors(prediction: Option<string>, api: (nat, string) -> ApiReply)
    requires FinalChoice(prediction, api) == Some((UnspecifiedCode, UnspecifiedDescription))
    requires Fetch(api(0, SearchTerm(prediction))).Match? ==> Fetch(api(0, SearchTerm(prediction))).code != UnspecifiedCode
    requires Fetch(api(1, "stroke")).Match? ==> Fetch(api(1, "stroke")).code != UnspecifiedCode
    ensures Fetch(api(0, SearchTerm(prediction))).Failed? && Fetch(api(1, "stroke")).Failed?
    ensures |Requests(prediction, api)| == 2
  {
  }

  /** Without a prediction the fallback repeats the very same "stroke" search. */
  lemma NoLabelRepeatsSearch(prediction: Option<string>, api: (nat, string) -> ApiReply)
    requires prediction.None? || prediction.value == []
    requires Fetch(api(0, SearchTerm(prediction))).Failed?
    ensures Requests(prediction, api) == ["stroke", "stroke"]
  {
  }

  datatype IcdError = VisitNotFound | SearchRaised

  /** The dictionary `generate_icd_code` returns. */
  datatype IcdAssignment = IcdAssignment(visitId: int, code: string, description: string)

  /**
   * `generate_icd_code`: a missing visit is an error before any search;
   * otherwise the chosen code is stored in `icd_code`, and nothing is
   * written when a search raises.
   */
  method GenerateIcdCode(db: Database, visitId: int, api: (nat, string) -> ApiReply)
    returns (r: Result<IcdAssignment, IcdError>)
    requires db.Valid()
    modifies db
    ensures db.Valid()
    ensures VisitAt(old(db.visits), visitId).None? ==> r == Err(VisitNotFound) && db.visits == old(db.visits)
    ensures VisitAt(old(db.visits), visitId).Some? ==>
      var i := VisitAt(old(db.visits), visitId).value;
      var choice := FinalChoice(old(db.visits)[i].predictionLabel, api);
      && (choice.None? ==> r == Err(SearchRaised) && db.visits == old(db.visits))
      && (choice.Some? ==>
            && r == Ok(IcdAssignment(visitId, choice.value.0, choice.value.1))
            && db.visits == old(db.visits)[i := old(db.visits)[i].(icdCode := Some(choice.value.0))])
    ensures db.patients == old(db.patients) && db.users == old(db.users)
    ensures db.treatments == old(db.treatments) && db.nihssItems == old(db.nihssItems)
  {
    var at := VisitAt(db.visits, visitId);
    if at.None? {
      return Err(VisitNotFound);
    }
    var i := at.value;
    var visit := db.visits[i];
    var diagnosis := SearchTerm(visit.predictionLabel);
    var finalCode, finalDesc;
    var result := Fetch(api(0, diagnosis));
    if result.Raised? {
      return Err(SearchRaised);
    }
    if result.Failed? {
      result := Fetch(api(1, "stroke"));
      if result.Raised? {
        return Err(SearchRaised);
      }
      if result.Failed? {
        finalCode, finalDesc := UnspecifiedCode, UnspecifiedDescription;
      } else {
        finalCode, finalDesc := result.code, result.description;
      }
    } else {
      finalCode, finalDesc := result.code, result.description;
    }
    visit := visit.(icdCode := Some(finalCode));
    ReplaceKeepsOrder(db.visits, VisitKey, i, visit);
    db.visits := db.visits[i := visit];
    r := Ok(IcdAssignment(visitId, finalCode, finalDesc));
  }
}
