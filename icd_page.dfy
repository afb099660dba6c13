/**
 * The doctor's ICD-10 page (pages/d_icd_code.py): the suggestion list shown
 * while typing, the description shown next to the saved code, and the
 * parser that turns the confirmed selection back into a code before it is
 * stored on the visit.
 */
module IcdPage {
  import opened Common
  import opened Tables
  import opened Records
  import opened IcdService

  // ----- Suggestions -----

  /** One suggestion line: "code — name". */
  function Display(code: string, name: string): string {
    code + " — " + name
  }

  /** Element 3 of the reply when the reply is a list longer than 3, nothing otherwise. */
  function ResultPairs(reply: ApiReply): (pairs: seq<(string, string)>)
    ensures !reply.Listed? || reply.length <= 3 ==> pairs == []
  {
    if reply.Listed? && reply.length > 3 then reply.pairs else []
  }

  /**
   * `icd_lookup`: the term is stripped, a blank term answers [] without a
   * request, and a failed request counts as no results; at most 20 lines.
   */
  function IcdLookup(term: Option<string>, api: string -> ApiReply): (lines: seq<string>)
    ensures |lines| <= 20
    ensures Strip(term.GetOr("")) == [] ==> lines == []
    ensures Strip(term.GetOr("")) != [] ==>
      var pairs := ResultPairs(api(Strip(term.GetOr(""))));
      && |lines| == (if |pairs| < 20 then |pairs| else 20)
      && forall i :: 0 <= i < |lines| ==> lines[i] == Display(pairs[i].0, pairs[i].1)
  {
    var t := Strip(term.GetOr(""));
    if t == [] then []
    else
      var pairs := ResultPairs(api(t));
      var shown := if |pairs| < 20 then pairs else pairs[..20];
      seq(|shown|, i requires 0 <= i < |shown| => Display(shown[i].0, shown[i].1))
  }

  /** A blank term never consults the service: any two services give the same (empty) answer. */
  lemma BlankTermNeedsNoRequest(term: Option<string>, api1: string -> ApiReply, api2: string -> ApiReply)
    requires term.None? || forall i :: 0 <= i < |term.value| ==> IsSpace(term.value[i])
    ensures IcdLookup(term, api1) == IcdLookup(term, api2) == []
  {
    StripEmptyIffBlank(term.GetOr(""));
  }

  /** A reply that failed, or that is too short to carry element 3, yields no suggestions. */
  lemma FailedRequestNoSuggestions(term: Option<string>, api: string -> ApiReply)
    requires !api(Strip(term.GetOr(""))).Listed? || api(Strip(term.GetOr(""))).length <= 3
    ensures IcdLookup(term, api) == []
  {
  }

  // ----- Saved code -----

  /** Whether a result carries exactly `code`. */
  function HasCode(code: string): ((string, string)) -> bool {
    (p: (string, string)) => p.0 == code
  }

  /** The name of the first result whose code equals `code` exactly, "" when there is none. */
  function DescriptionFor(pairs: seq<(string, string)>, code: string): (desc: string)
    ensures (forall i :: 0 <= i < |pairs| ==> pairs[i].0 != code) ==> desc == ""
    ensures (exists i :: 0 <= i < |pairs| && pairs[i].0 == code) ==>
      exists i :: 0 <= i < |pairs| && pairs[i].0 == code && desc == pairs[i].1
        && forall j :: 0 <= j < i ==> pairs[j].0 != code
  {
    match FirstIndex(pairs, HasCode(code))
    case None => ""
    case Some(i) => pairs[i].1
  }

  /** The page's search loop over the results, stopping at the first exact code. */
  method FindDescription(pairs: seq<(string, string)>, code: string) returns (desc: string)
    ensures desc == DescriptionFor(pairs, code)
  {
    desc := "";
    var k := 0;
    while k < |pairs|
      invariant 0 <= k <= |pairs|
      invariant forall j :: 0 <= j < k ==> pairs[j].0 != code
      invariant desc == ""
    {
      if pairs[k].0 == code {
        desc := pairs[k].1;
        assert FirstIndex(pairs, HasCode(code)) == Some(k);
        return;
      }
      k := k + 1;
    }
  }

  /**
   * The "current selection" line: "" without a saved code or when the
   * description request fails (the page swallows the error before setting
   * it), otherwise the code followed by " — description" when one was found.
   */
  function CurrentDisplay(icdCode: Option<string>, reply: ApiReply): (text: string)
    ensures icdCode.None? || icdCode.value == [] || reply.RequestFailed? || reply.NotJson? ==> text == ""
    ensures icdCode.Some? && icdCode.value != [] && reply.Listed? ==>
      var desc := DescriptionFor(ResultPairs(reply), icdCode.value);
      text == if desc == [] then icdCode.value else Display(icdCode.value, desc)
  {
    if icdCode.None? || icdCode.value == [] || !reply.Listed? then ""
    else
      var desc := DescriptionFor(ResultPairs(reply), icdCode.value);
      if desc == [] then icdCode.value else Display(icdCode.value, desc)
  }

  // ----- Selection parser -----

  /** The character class `[A-Za-z0-9\.]`. */
  predicate InCodeClass(c: char) {
    IsAsciiAlnum(c) || c == '.'
  }

  /** The separators `—`, `-` and `:`. */
  predicate IsSeparator(c: char) {
    c == '—' || c == '-' || c == ':'
  }

  /** Length of the longest prefix of `s` in the code class. */
  function CodeRun(s: string): (n: nat)
    ensures n <= |s|
    ensures forall i :: 0 <= i < n ==> InCodeClass(s[i])
    ensures n < |s| ==> !InCodeClass(s[n])
  {
    if s != [] && InCodeClass(s[0]) then 1 + CodeRun(s[1..]) else 0
  }

  /** Length of the longest whitespace prefix of `s`. */
  function SpaceRun(s: string): (n: nat)
    ensures n <= |s|
    ensures n < |s| ==> !IsSpace(s[n])
  {
    if s != [] && IsSpace(s[0]) then 1 + SpaceRun(s[1..]) else 0
  }

  /** Whether the pattern can start: an alphanumeric followed by a class character. */
  predicate CodeStarts(t: string) {
    |t| >= 2 && IsAsciiAlnum(t[0]) && InCodeClass(t[1])
  }

  /**
   * Where the name begins once the code run, the whitespace, an optional
   * separator and more whitespace are consumed, each as greedily as the
   * pattern takes them.
   */
  function NameStart(t: string): (p: nat)
    ensures CodeRun(t) <= p <= |t|
  {
    var n := CodeRun(t);
    var p1 := n + SpaceRun(t[n..]);
    var p2 := if p1 < |t| && IsSeparator(t[p1]) then p1 + 1 else p1;
    p2 + SpaceRun(t[p2..])
  }

  /** The pattern matches the stripped text `t`. */
  predicate Matches(t: string) {
    CodeStarts(t) && '\n' !in t[NameStart(t)..]
  }

  /**
   * The parse of an already stripped text. A stripped text never ends in a
   * line break, so `(.*)$` matches exactly when the rest holds no '\n'. The
   * greedy choice leaves the shortest rest, and every backtracked choice
   * leaves a longer rest that contains it, so the pattern matches exactly
   * when the greedy rest has no '\n'. Without a match the whole text,
   * upper-cased, is the code.
   */
  function ParseStripped(t: string): (string, string) {
    if Matches(t) then (Upper(t[..CodeRun(t)]), Strip(t[NameStart(t)..]))
    else (Upper(t), "")
  }

  /** The Save handler's parse of the selection into (code, name). */
  function ParseSelection(selection: string): (string, string) {
    ParseStripped(Strip(selection))
  }

  /** An upper-case code: an alphanumeric, then one or more alphanumerics or dots, with no lower-case letter. */
  predicate IsParsedCode(code: string) {
    && |code| >= 2 && IsAsciiAlnum(code[0])
    && (forall i :: 0 <= i < |code| ==> InCodeClass(code[i]) && !('a' <= code[i] <= 'z'))
  }

  /**
   * When the pattern matches, the code is the greedy run at the start of the
   * stripped text `t`, upper-cased, and the name carries no surrounding
   * whitespace.
   */
  lemma ParsedShape(t: string)
    requires Matches(t)
    ensures IsParsedCode(ParseStripped(t).0)
    ensures ParseStripped(t).0 == Upper(t[..CodeRun(t)])
    ensures Strip(ParseStripped(t).1) == ParseStripped(t).1
  {
    var code := t[..CodeRun(t)];
    var name := Strip(t[NameStart(t)..]);
    assert ParseStripped(t) == (Upper(code), name);
    CodeRunAtLeastTwo(t);
    forall i | 0 <= i < |code| ensures InCodeClass(code[i]) {
      assert code[i] == t[i];
    }
    UpperCode(code);
    StripUnchanged(name);
  }

  lemma CodeRunAtLeastTwo(t: string)
    requires CodeStarts(t)
    ensures CodeRun(t) >= 2
  {
    assert InCodeClass(t[0]);
    assert t[1..][0] == t[1];
    assert CodeRun(t[1..]) >= 1;
  }

  lemma UpperCode(s: string)
    requires |s| >= 2 && IsAsciiAlnum(s[0]) && forall i :: 0 <= i < |s| ==> InCodeClass(s[i])
    ensures IsParsedCode(Upper(s))
  {
    var u := Upper(s);
    forall i | 0 <= i < |u| ensures InCodeClass(u[i]) && !('a' <= u[i] <= 'z') {
      assert u[i] == UpperChar(s[i]);
    }
  }

  /**
   * When the pattern cannot start (fewer than two characters, or a first
   * character that is not alphanumeric) the code is the whole stripped text
   * upper-cased and the name is empty.
   */
  lemma UnmatchedSelection(selection: string)
    requires !CodeStarts(Strip(selection))
    ensures ParseSelection(selection) == (Upper(Strip(selection)), "")
  {
  }

  /** A valid code on its own parses to itself, upper-cased, with no name. */
  lemma BareCodeRoundTrip(code: string)
    requires |code| >= 2 && IsAsciiAlnum(code[0]) && forall i :: 0 <= i < |code| ==> InCodeClass(code[i])
    ensures ParseSelection(code) == (Upper(code), "")
  {
    assert !IsSpace(code[0]) && !IsSpace(code[|code| - 1]);
    StripUnchanged(code);
    CodeRunAll(code);
    assert code[..|code|] == code;
  }

  lemma {:induction false} CodeRunAll(s: string)
    requires forall i :: 0 <= i < |s| ==> InCodeClass(s[i])
    ensures CodeRun(s) == |s|
  {
    if s != [] {
      CodeRunAll(s[1..]);
    }
  }

  /** The code run stops at the first character outside the class. */
  lemma {:induction false} CodeRunPrefix(code: string, rest: string)
    requires forall i :: 0 <= i < |code| ==> InCodeClass(code[i])
    requires rest != [] && !InCodeClass(rest[0])
    ensures CodeRun(code + rest) == |code|
  {
    if code != [] {
      assert (code + rest)[1..] == code[1..] + rest;
      CodeRunPrefix(code[1..], rest);
    }
  }

  /**
   * The suggestion lines round-trip: saving the line "code — name" of a
   * valid code stores the code upper-cased and reads back the name, for a
   * name without surrounding whitespace or line breaks.
   */
  lemma DisplayRoundTrip(code: string, name: string)
    requires |code| >= 2 && IsAsciiAlnum(code[0]) && forall i :: 0 <= i < |code| ==> InCodeClass(code[i])
    requires name != [] && !IsSpace(name[0]) && !IsSpace(name[|name| - 1]) && '\n' !in name
    ensures ParseSelection(Display(code, name)) == (Upper(code), name)
  {
    var t := Display(code, name);
    DisplayIsStripped(code, name);
    RStripSkipsBlanks(LStrip(t));
    DisplayParsed(code, name);
  }

  lemma DisplayParsed(code: string, name: string)
    requires |code| >= 2 && IsAsciiAlnum(code[0]) && forall i :: 0 <= i < |code| ==> InCodeClass(code[i])
    requires name != [] && !IsSpace(name[0]) && !IsSpace(name[|name| - 1]) && '\n' !in name
    ensures ParseStripped(Display(code, name)) == (Upper(code), name)
  {
    var t := Display(code, name);
    var n := |code|;
    assert t[..n] == code && t[n + 3..] == name by {
      assert t == code + (" — " + name);
    }
    DisplayParts(code, name);
    assert CodeStarts(t) by {
      assert t[0] == code[0] && t[1] == code[1];
    }
    assert Matches(t);
    StripUnchanged(name);
    assert ParseStripped(t) == (Upper(t[..n]), Strip(t[n + 3..]));
  }

  lemma DisplayIsStripped(code: string, name: string)
    requires |code| >= 2 && IsAsciiAlnum(code[0])
    requires name != [] && !IsSpace(name[|name| - 1])
    ensures Strip(Display(code, name)) == Display(code, name)
  {
    var t := Display(code, name);
    assert t[0] == code[0] && t[|t| - 1] == name[|name| - 1];
    StripUnchanged(t);
  }

  /** In "code — name" the code run is the code and the name starts three characters after it. */
  lemma DisplayParts(code: string, name: string)
    requires forall i :: 0 <= i < |code| ==> InCodeClass(code[i])
    requires name != [] && !IsSpace(name[0])
    ensures CodeRun(Display(code, name)) == |code|
    ensures NameStart(Display(code, name)) == |code| + 3
  {
    var t := Display(code, name);
    var afterCode := [' ', '—', ' '] + name;
    assert t == code + afterCode;
    CodeRunPrefix(code, afterCode);
    assert t[|code|..] == afterCode;
    AfterCodeSkips(name);
  }

  /** After the code, " — " is one blank, the separator and one blank. */
  lemma AfterCodeSkips(name: string)
    requires name != [] && !IsSpace(name[0])
    ensures var rest := [' ', '—', ' '] + name;
      && SpaceRun(rest) == 1 && IsSeparator(rest[1])
      && SpaceRun(rest[2..]) == 1
  {
    var rest := [' ', '—', ' '] + name;
    assert rest[1..] == ['—', ' '] + name;
    assert rest[2..] == [' '] + name;
    assert rest[2..][1..] == name;
  }

  /**
   * The Save handler: for a non-blank selection, the parsed code is stored
   * on the visit when the visit exists; nothing else changes. Returns the
   * parsed pair when something was stored.
   */
  method SaveIcdSelection(db: Database, visitId: int, selection: Option<string>)
    returns (saved: Option<(string, string)>)
    requires db.Valid()
    modifies db
    ensures db.Valid()
    ensures selection.None? || Strip(selection.value) == [] || VisitAt(old(db.visits), visitId).None? ==>
      saved.None? && db.visits == old(db.visits)
    ensures selection.Some? && Strip(selection.value) != [] && VisitAt(old(db.visits), visitId).Some? ==>
      var i := VisitAt(old(db.visits), visitId).value;
      var parsed := ParseSelection(selection.value);
      && saved == Some(parsed)
      && db.visits == old(db.visits)[i := old(db.visits)[i].(icdCode := Some(parsed.0))]
    ensures db.patients == old(db.patients) && db.users == old(db.users)
    ensures db.treatments == old(db.treatments) && db.nihssItems == old(db.nihssItems)
  {
    if selection.None? || Strip(selection.value) == [] {
      return None;
    }
    var parsed := ParseSelection(selection.value);
    var at := VisitAt(db.visits, visitId);
    if at.None? {
      return None;
    }
    var i := at.value;
    var visit := db.visits[i].(icdCode := Some(parsed.0));
    ReplaceKeepsOrder(db.visits, VisitKey, i, visit);
    db.visits := db.visits[i := visit];
    saved := Some(parsed);
  }
}
