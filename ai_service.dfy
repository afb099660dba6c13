/**
 * The treatment-plan helpers of services/ai_service.py: the NIHSS severity
 * band written into the prompt, the sanitiser that turns the language
 * model's reply into at most five numbered plain-text points, and the
 * insertion of the plan as a Treatment row.
 *
 * The language model is an oracle: `llm(patient, visit)` is its reply to
 * the prompt built from that patient and visit.
 */
module AiService {
  import opened Common
  import opened Tables
  import opened Records

  // ----- Severity -----

  /** `_severity_from_nihss`: a score that is not a number (None) is "unknown". */
  function SeverityFromNihss(score: Option<int>): (band: string)
    ensures score.None? ==> band == "unknown"
  {
    match score
    case None => "unknown"
    case Some(s) =>
      if s <= 5 then "mild"
      else if s <= 14 then "moderate"
      else if s <= 24 then "severe"
      else "very severe"
  }

  /** The bands in order of gravity; 0 for "unknown". */
  function SeverityRank(band: string): nat {
    if band == "mild" then 1
    else if band == "moderate" then 2
    else if band == "severe" then 3
    else if band == "very severe" then 4
    else 0
  }

  /** A higher score never yields a milder band, and every score yields one of the four bands. */
  lemma SeverityMonotone(a: int, b: int)
    requires a <= b
    ensures 1 <= SeverityRank(SeverityFromNihss(Some(a))) <= SeverityRank(SeverityFromNihss(Some(b))) <= 4
  {
  }

  /** The band boundaries: 5, 14 and 24 are the last scores of the mild, moderate and severe bands. */
  lemma SeverityBoundaries()
    ensures SeverityFromNihss(Some(5)) == "mild" && SeverityFromNihss(Some(6)) == "moderate"
    ensures SeverityFromNihss(Some(14)) == "moderate" && SeverityFromNihss(Some(15)) == "severe"
    ensures SeverityFromNihss(Some(24)) == "severe" && SeverityFromNihss(Some(25)) == "very severe"
    ensures SeverityRank(SeverityFromNihss(None)) == 0
  {
  }

  // ----- Pre-cleaning -----

  /** Whether "```" starts at position `i`. */
  predicate FenceAt(s: string, i: nat) {
    i + 3 <= |s| && s[i] == '`' && s[i + 1] == '`' && s[i + 2] == '`'
  }

  /** The first position at or after `from` where "```" starts. */
  function FenceFrom(s: string, from: nat): (r: Option<nat>)
    ensures r.Some? ==> from <= r.value && r.value + 3 <= |s| && FenceAt(s, r.value)
    decreases |s| - from
  {
    if from + 3 > |s| then None
    else if FenceAt(s, from) then Some(from)
    else FenceFrom(s, from + 1)
  }

  /** `re.sub(r"```[\s\S]*?```", "", s)`: each fenced block, up to the nearest closing fence, is dropped. */
  function RemoveFences(s: string): (r: string)
    ensures |r| <= |s|
    decreases |s|
  {
    if s == [] then []
    else if FenceAt(s, 0) && FenceFrom(s, 3).Some? then RemoveFences(s[FenceFrom(s, 3).value + 3..])
    else [s[0]] + RemoveFences(s[1..])
  }

  /** The first position of `c` in `s`. */
  function IndexOf(s: string, c: char): (r: Option<nat>)
    ensures r.Some? ==> r.value < |s| && s[r.value] == c
  {
    if s == [] then None
    else if s[0] == c then Some(0)
    else match IndexOf(s[1..], c)
      case None => None
      case Some(i) => Some(i + 1)
  }

  /** `re.sub(r"<[^>]+>", "", s)`: a '<', at least one other character, then the nearest '>' are dropped. */
  function RemoveTags(s: string): (r: string)
    ensures |r| <= |s|
    decreases |s|
  {
    if s == [] then []
    else if s[0] == '<' && IndexOf(s, '>').Some? && IndexOf(s, '>').value >= 2 then RemoveTags(s[IndexOf(s, '>').value + 1..])
    else [s[0]] + RemoveTags(s[1..])
  }

  /** `s` with every character satisfying `drop` removed. */
  function Without(s: string, drop: char -> bool): (r: string)
    ensures forall i :: 0 <= i < |r| ==> !drop(r[i]) && r[i] in s
  {
    if s == [] then []
    else if drop(s[0]) then Without(s[1..], drop)
    else [s[0]] + Without(s[1..], drop)
  }

  /** The characters the `.replace` chain removes: "**", "*", "##", "#" leave no '*' and no '#'. */
  predicate IsStarOrHash(c: char) {
    c == '*' || c == '#'
  }

  /** The characters `[#*_`]+` removes from each point. */
  predicate IsMarkup(c: char) {
    c == '#' || c == '*' || c == '_' || c == '`'
  }

  /** The three substitutions and the replace chain applied before the text is split. */
  function Precleaned(text: string): string {
    Without(RemoveTags(RemoveFences(text)), IsStarOrHash)
  }

  // ----- Lines -----

  /** The line boundaries of `str.splitlines`. */
  predicate IsLineBreak(c: char) {
    || c == '\n' || c == '\r' || c == '\U{b}' || c == '\U{c}'
    || c == '\U{1c}' || c == '\U{1d}' || c == '\U{1e}'
    || c == '\U{85}' || c == '\U{2028}' || c == '\U{2029}'
  }

  /** The position of the first line boundary, or the length. */
  function LineEnd(s: string): (i: nat)
    ensures i <= |s| && (i < |s| ==> IsLineBreak(s[i]))
  {
    if s == [] || IsLineBreak(s[0]) then 0 else 1 + LineEnd(s[1..])
  }

  /** No line boundary comes before `LineEnd`. */
  lemma {:induction false} LineEndFirst(s: string)
    ensures forall j :: 0 <= j < LineEnd(s) ==> !IsLineBreak(s[j])
  {
    if s != [] && !IsLineBreak(s[0]) {
      LineEndFirst(s[1..]);
      forall j | 1 <= j < LineEnd(s) ensures !IsLineBreak(s[j]) {
        assert s[j] == s[1..][j - 1];
      }
    }
  }

  /** `s.splitlines()`: "\r\n" is one boundary, and a final boundary adds no empty line. */
  function SplitLines(s: string): (lines: seq<string>)
    decreases |s|
  {
    if s == [] then []
    else
      var i := LineEnd(s);
      if i == |s| then [s]
      else
        var w := if s[i] == '\r' && i + 1 < |s| && s[i + 1] == '\n' then 2 else 1;
        [s[..i]] + SplitLines(s[i + w..])
  }

  // ----- Points -----

  function DigitRun(s: string): (n: nat)
    ensures n <= |s| && forall i :: 0 <= i < n ==> IsAsciiDigit(s[i])
    ensures n < |s| ==> !IsAsciiDigit(s[n])
  {
    if s != [] && IsAsciiDigit(s[0]) then 1 + DigitRun(s[1..]) else 0
  }

  function SpaceRun(s: string): (n: nat)
    ensures n <= |s| && forall i :: 0 <= i < n ==> IsSpace(s[i])
    ensures n < |s| ==> !IsSpace(s[n])
  {
    if s != [] && IsSpace(s[0]) then 1 + SpaceRun(s[1..]) else 0
  }

  /** The one-character bullets `-`, `*`, `•` and `–`. */
  predicate IsBulletMark(c: char) {
    c == '-' || c == '*' || c == '•' || c == '–'
  }

  /** Where the text after a bullet or an item number ("12." or "12)") begins, after leading blanks. */
  function MarkerEnd(line: string): Option<nat> {
    var k := SpaceRun(line);
    if k == |line| then None
    else if IsBulletMark(line[k]) then Some(k + 1)
    else
      var d := DigitRun(line[k..]);
      if d >= 1 && k + d < |line| && (line[k + d] == '.' || line[k + d] == ')') then Some(k + d + 1)
      else None
  }

  /**
   * `re.match(r"^\s*(?:[-*•–]|\d+[\.)])\s+(.+)$", line)`, then
   * `m.group(1).strip()`: the marker must be followed by a blank and at
   * least one more character. When only blanks follow, `\s+` gives the last
   * one back to `(.+)` and the point is the empty string.
   */
  function Bullet(line: string): Option<string> {
    match MarkerEnd(line)
    case None => None
    case Some(m) =>
      if m < |line| && IsSpace(line[m]) && |line| - m >= 2 then Some(Strip(line[m..])) else None
  }

  /** The bullet points of the lines, in order; empty exactly when no line is a bullet. */
  function BulletPoints(lines: seq<string>): (points: seq<string>)
    ensures points == [] <==> forall k :: 0 <= k < |lines| ==> Bullet(lines[k]).None?
  {
    if lines == [] then []
    else
      var last := lines[|lines| - 1];
      assert forall k :: 0 <= k < |lines| - 1 ==> lines[..|lines| - 1][k] == lines[k];
      BulletPoints(lines[..|lines| - 1]) + (if Bullet(last).Some? then [Bullet(last).value] else [])
  }

  predicate IsSentenceEnd(c: char) {
    c == '.' || c == '!' || c == '?'
  }

  /** The first position of a blank that follows '.', '!' or '?'. */
  function SentenceBreak(s: string, from: nat): (r: Option<nat>)
    requires 1 <= from
    ensures r.Some? ==> from <= r.value < |s| && IsSpace(s[r.value]) && IsSentenceEnd(s[r.value - 1])
    decreases |s| - from
  {
    if from >= |s| then None
    else if IsSpace(s[from]) && IsSentenceEnd(s[from - 1]) then Some(from)
    else SentenceBreak(s, from + 1)
  }

  /** `re.split(r"(?<=[.!?])\s+", s)`: pieces between the blank runs that follow a sentence end. */
  function Sentences(s: string): (parts: seq<string>)
    ensures |parts| >= 1
    decreases |s|
  {
    match SentenceBreak(s, 1)
    case None => [s]
    case Some(i) => [s[..i]] + Sentences(s[i + SpaceRun(s[i..])..])
  }

  /** `[p.strip() for p in parts if p]` */
  function NonEmptyStripped(parts: seq<string>): seq<string> {
    if parts == [] then []
    else
      var last := parts[|parts| - 1];
      NonEmptyStripped(parts[..|parts| - 1]) + (if last != [] then [Strip(last)] else [])
  }

  /** The points before cleaning: the bullets, or the sentences when there is no bullet at all. */
  function Points(text: string): seq<string> {
    var t := Precleaned(text);
    var bullets := BulletPoints(SplitLines(t));
    if bullets != [] then bullets else NonEmptyStripped(Sentences(Strip(t)))
  }

  /** Sentence splitting is the fallback only: one bullet line anywhere and the points are the bullets. */
  lemma SentencesOnlyWithoutBullets(text: string)
    ensures var lines := SplitLines(Precleaned(text));
      && ((exists k :: 0 <= k < |lines| && Bullet(lines[k]).Some?) ==> Points(text) == BulletPoints(lines))
      && ((forall k :: 0 <= k < |lines| ==> Bullet(lines[k]).None?) ==>
            Points(text) == NonEmptyStripped(Sentences(Strip(Precleaned(text)))))
  {
  }

  // ----- Cleaning -----

  /** `re.sub(r"\s+", " ", s)`: every run of blanks becomes one space. */
  function Collapse(s: string): (r: string)
    ensures r == [] <==> s == []
    ensures r != [] ==> (IsSpace(r[0]) <==> IsSpace(s[0]))
    ensures forall i :: 0 <= i < |r| ==> (IsSpace(r[i]) ==> r[i] == ' ') && (r[i] == ' ' || r[i] in s)
    ensures forall i :: 0 <= i < |r| - 1 ==> !(IsSpace(r[i]) && IsSpace(r[i + 1]))
    decreases |s|
  {
    if s == [] then []
    else if IsSpace(s[0]) then
      var w := SpaceRun(s);
      var rest := Collapse(s[w..]);
      assert forall i :: 0 <= i < |rest| ==> rest[i] == ' ' || rest[i] in s by {
        forall i | 0 <= i < |rest| && rest[i] != ' ' ensures rest[i] in s {
          assert rest[i] in s[w..];
        }
      }
      [' '] + rest
    else
      var rest := Collapse(s[1..]);
      assert forall i :: 0 <= i < |rest| ==> rest[i] == ' ' || rest[i] in s by {
        forall i | 0 <= i < |rest| && rest[i] != ' ' ensures rest[i] in s {
          assert rest[i] in s[1..];
        }
      }
      [s[0]] + rest
  }

  /** One point after `re.sub(r"[#*_`]+", "", p)` and `re.sub(r"\s+", " ", p).strip()`. */
  function CleanPoint(p: string): string {
    Strip(Collapse(Without(p, IsMarkup)))
  }

  /** The non-empty results of `f` on the points, in order. */
  function KeepNonEmpty(points: seq<string>, f: string -> string): (r: seq<string>)
    ensures |r| <= |points|
  {
    if points == [] then []
    else
      var c := f(points[|points| - 1]);
      KeepNonEmpty(points[..|points| - 1], f) + (if c != [] then [c] else [])
  }

  /** `x` is the result of `f` on one of the points. */
  predicate ResultOf(x: string, points: seq<string>, f: string -> string) {
    exists j :: 0 <= j < |points| && x == f(points[j])
  }

  /** Each kept result is non-empty and is the result of `f` on one of the points. */
  lemma {:induction false} KeptFromPoints(points: seq<string>, f: string -> string)
    ensures forall i :: 0 <= i < |KeepNonEmpty(points, f)| ==>
      KeepNonEmpty(points, f)[i] != [] && ResultOf(KeepNonEmpty(points, f)[i], points, f)
  {
    if points != [] {
      var init := points[..|points| - 1];
      KeptFromPoints(init, f);
      var r := KeepNonEmpty(points, f);
      var r0 := KeepNonEmpty(init, f);
      forall i | 0 <= i < |r| ensures r[i] != [] && ResultOf(r[i], points, f) {
        if i < |r0| {
          assert r[i] == r0[i];
          assert ResultOf(r0[i], init, f);
          var j :| 0 <= j < |init| && r0[i] == f(init[j]);
          assert init[j] == points[j];
        } else {
          assert r[i] == f(points[|points| - 1]);
        }
      }
    }
  }

  /** `clean`: the non-empty cleaned points, in order. */
  function Cleaned(points: seq<string>): seq<string> {
    KeepNonEmpty(points, CleanPoint)
  }

  /** `clean[:5]` */
  function FirstFive(s: seq<string>): (r: seq<string>)
    ensures |r| <= 5 && |r| <= |s| && r == s[..|r|]
    ensures |s| <= 5 ==> r == s
  {
    if |s| <= 5 then s else s[..5]
  }

  /** The points that end up in the plan. */
  function PlanPoints(text: string): seq<string> {
    if text == [] then [] else FirstFive(Cleaned(Points(text)))
  }

  /** `f"{i+1}. {p}"` for each point. */
  function Numbered(points: seq<string>): (lines: seq<string>)
    ensures |lines| == |points|
    ensures forall i :: 0 <= i < |points| ==> lines[i] == NatToString(i + 1) + ". " + points[i]
  {
    seq(|points|, i requires 0 <= i < |points| => NatToString(i + 1) + ". " + points[i])
  }

  /** `_sanitize_plain_five_points` */
  function Sanitized(text: string): string {
    Join(Numbered(PlanPoints(text)), "\n")
  }

  // ----- The sanitiser's loops -----

  /** `for line in text.splitlines(): ... points.append(m.group(1).strip())` */
  method CollectBullets(lines: seq<string>) returns (points: seq<string>)
    ensures points == BulletPoints(lines)
  {
    points := [];
    var k := 0;
    while k < |lines|
      invariant 0 <= k <= |lines|
      invariant points == BulletPoints(lines[..k])
    {
      var b := Bullet(lines[k]);
      if b.Some? {
        points := points + [b.value];
      }
      assert lines[..k + 1][..k] == lines[..k];
      k := k + 1;
    }
    assert lines[..k] == lines;
  }

  /** `for p in parts: if p: points.append(p.strip())` */
  method CollectSentences(parts: seq<string>) returns (points: seq<string>)
    ensures points == NonEmptyStripped(parts)
  {
    points := [];
    var k := 0;
    while k < |parts|
      invariant 0 <= k <= |parts|
      invariant points == NonEmptyStripped(parts[..k])
    {
      if parts[k] != [] {
        points := points + [Strip(parts[k])];
      }
      assert parts[..k + 1][..k] == parts[..k];
      k := k + 1;
    }
    assert parts[..k] == parts;
  }

  /**
   * The cleaning loop, which stops as soon as five points are kept, then
   * `clean[:5]`; `cleanPoint` is the per-point cleaning (`CleanPoint`).
   */
  method CleanFirstFive(points: seq<string>, cleanPoint: string -> string) returns (clean: seq<string>)
    ensures clean == FirstFive(KeepNonEmpty(points, cleanPoint))
  {
    clean := [];
    var k := 0;
    while k < |points|
      invariant 0 <= k <= |points|
      invariant clean == KeepNonEmpty(points[..k], cleanPoint) && |clean| < 5
    {
      var p := cleanPoint(points[k]);
      if p != [] {
        clean := clean + [p];
      }
      assert points[..k + 1][..k] == points[..k];
      k := k + 1;
      if |clean| >= 5 {
        assert clean == KeepNonEmpty(points[..k], cleanPoint) && |clean| == 5;
        break;
      }
    }
    FirstFiveAfterStop(points, k, cleanPoint);
    clean := FirstFive(clean);
  }

  /** Stopping at five kept points, or at the end, leaves the same first five. */
  lemma FirstFiveAfterStop(points: seq<string>, k: nat, f: string -> string)
    requires k <= |points|
    requires k == |points| || |KeepNonEmpty(points[..k], f)| == 5
    ensures FirstFive(KeepNonEmpty(points[..k], f)) == FirstFive(KeepNonEmpty(points, f))
  {
    if k == |points| {
      assert points[..k] == points;
    } else {
      KeepNonEmptyPrefix(points, k, f);
    }
  }

  /**
   * The sanitiser as the source runs it: a loop over the lines collecting
   * bullets, a loop over the sentences when there were none, and a loop
   * over the points that stops once five clean points are collected.
   */
  method SanitizePlainFivePoints(text: string) returns (out: string)
    ensures out == Sanitized(text)
  {
    if text == [] {
      return "";
    }
    var t := Precleaned(text);
    var points := CollectBullets(SplitLines(t));
    if points == [] {
      points := CollectSentences(Sentences(Strip(t)));
    }
    assert points == Points(text);
    var clean := CleanFirstFive(points, CleanPoint);
    out := Join(Numbered(clean), "\n");
  }

  /** The kept results of a prefix are a prefix of the kept results. */
  lemma {:induction false} KeepNonEmptyPrefix(points: seq<string>, k: nat, f: string -> string)
    requires k <= |points|
    ensures var c := KeepNonEmpty(points[..k], f);
      |c| <= |KeepNonEmpty(points, f)| && KeepNonEmpty(points, f)[..|c|] == c
    decreases |points| - k
  {
    if k < |points| {
      var init := points[..|points| - 1];
      KeepNonEmptyPrefix(init, k, f);
      assert init[..k] == points[..k];
    } else {
      assert points[..k] == points;
    }
  }

  // ----- What the plan looks like -----

  predicate NoMarkup(s: string) {
    forall i :: 0 <= i < |s| ==> !IsMarkup(s[i])
  }

  /** Single spaces are the only blanks. */
  predicate SingleBlanks(s: string) {
    && (forall i :: 0 <= i < |s| ==> IsSpace(s[i]) ==> s[i] == ' ')
    && (forall i :: 0 <= i < |s| - 1 ==> !(IsSpace(s[i]) && IsSpace(s[i + 1])))
  }

  /**
   * A clean point: not empty, free of `#`, `*`, `_` and backquotes, with
   * single spaces as its only blanks and no blank at either end.
   */
  predicate Plain(p: string) {
    p != [] && !IsSpace(p[0]) && !IsSpace(p[|p| - 1]) && NoMarkup(p) && SingleBlanks(p)
  }

  /** `Strip(s)` is a slice of `s`. */
  lemma StripSlice(s: string)
    ensures var a := |s| - |LStrip(s)|;
      && a + |Strip(s)| <= |s|
      && Strip(s) == s[a..a + |Strip(s)|]
  {
    var l := LStrip(s);
    var a := |s| - |l|;
    var r := RStrip(l);
    assert Strip(s) == r;
    assert l == s[a..];
    assert r == s[a..][..|r|];
    PrefixOfSuffix(s, a, |r|);
  }

  lemma PrefixOfSuffix(s: string, a: nat, k: nat)
    requires a + k <= |s|
    ensures s[a..][..k] == s[a..a + k]
  {
  }

  lemma CollapseClean(w: string)
    requires NoMarkup(w)
    ensures NoMarkup(Collapse(w)) && SingleBlanks(Collapse(w))
  {
    var c := Collapse(w);
    forall i | 0 <= i < |c| ensures !IsMarkup(c[i]) {
      if c[i] != ' ' {
        var j :| 0 <= j < |w| && w[j] == c[i];
      }
    }
  }

  lemma StripClean(c: string)
    requires NoMarkup(c) && SingleBlanks(c)
    ensures NoMarkup(Strip(c)) && SingleBlanks(Strip(c))
  {
    StripSlice(c);
    var a := |c| - |LStrip(c)|;
    SliceClean(c, a, a + |Strip(c)|, Strip(c));
  }

  /** Any slice of a markup-free, single-blank text is one too. */
  lemma SliceClean(c: string, lo: nat, hi: nat, r: string)
    requires lo <= hi <= |c| && r == c[lo..hi]
    requires NoMarkup(c) && SingleBlanks(c)
    ensures NoMarkup(r) && SingleBlanks(r)
  {
    forall i | 0 <= i < |r| ensures !IsMarkup(r[i]) && (IsSpace(r[i]) ==> r[i] == ' ') {
      assert r[i] == c[lo + i];
    }
    forall i | 0 <= i < |r| - 1 ensures !(IsSpace(r[i]) && IsSpace(r[i + 1])) {
      assert r[i] == c[lo + i] && r[i + 1] == c[lo + i + 1];
    }
  }

  /** Every non-empty cleaned point is plain. */
  lemma CleanPointPlain(p: string)
    requires CleanPoint(p) != []
    ensures Plain(CleanPoint(p))
  {
    var w := Without(p, IsMarkup);
    CollapseClean(w);
    StripClean(Collapse(w));
  }

  lemma CleanedPlain(points: seq<string>)
    ensures forall i :: 0 <= i < |Cleaned(points)| ==> Plain(Cleaned(points)[i])
  {
    var c := Cleaned(points);
    KeptFromPoints(points, CleanPoint);
    forall i | 0 <= i < |c| ensures Plain(c[i]) {
      assert ResultOf(c[i], points, CleanPoint);
      var j :| 0 <= j < |points| && c[i] == CleanPoint(points[j]);
      CleanPointPlain(points[j]);
    }
  }

  /**
   * The plan has at most five points, each plain; empty input gives an
   * empty plan.
   */
  lemma PlanPointsShape(text: string)
    ensures |PlanPoints(text)| <= 5
    ensures forall i :: 0 <= i < |PlanPoints(text)| ==> Plain(PlanPoints(text)[i])
    ensures text == [] ==> Sanitized(text) == []
  {
    if text != [] {
      CleanedPlain(Points(text));
    }
  }

  /** A numbered line of a plain point holds no line boundary. */
  lemma NumberedLineUnbroken(n: nat, p: string)
    requires Plain(p)
    ensures forall j :: 0 <= j < |NatToString(n) + ". " + p| ==> !IsLineBreak((NatToString(n) + ". " + p)[j])
  {
    var s := NatToString(n) + ". " + p;
    forall j | 0 <= j < |s| ensures !IsLineBreak(s[j]) {
      if j >= |NatToString(n)| + 2 {
        assert s[j] == p[j - |NatToString(n)| - 2];
      }
    }
  }

  /** No line of `SplitLines` holds a line boundary. */
  lemma {:induction false} SplitLinesUnbroken(s: string)
    ensures var lines := SplitLines(s);
      forall k :: 0 <= k < |lines| ==> forall j :: 0 <= j < |lines[k]| ==> !IsLineBreak(lines[k][j])
    decreases |s|
  {
    if s != [] {
      var i := LineEnd(s);
      LineEndFirst(s);
      if i < |s| {
        var w := if s[i] == '\r' && i + 1 < |s| && s[i + 1] == '\n' then 2 else 1;
        SplitLinesUnbroken(s[i + w..]);
        var lines := SplitLines(s);
        assert lines == [s[..i]] + SplitLines(s[i + w..]);
        forall k | 0 <= k < |lines| ensures forall j :: 0 <= j < |lines[k]| ==> !IsLineBreak(lines[k][j]) {
          if k == 0 {
            forall j | 0 <= j < |lines[0]| ensures !IsLineBreak(lines[0][j]) {
              assert lines[0][j] == s[j];
            }
          } else {
            assert lines[k] == SplitLines(s[i + w..])[k - 1];
          }
        }
      }
    }
  }

  /** Lines free of boundaries, joined with "\n", split back into the same lines. */
  lemma {:induction false} SplitJoined(lines: seq<string>)
    requires forall k :: 0 <= k < |lines| ==> lines[k] != []
    requires forall k :: 0 <= k < |lines| ==> forall j :: 0 <= j < |lines[k]| ==> !IsLineBreak(lines[k][j])
    ensures SplitLines(Join(lines, "\n")) == lines
  {
    if |lines| == 1 {
      LineEndWhole(lines[0]);
    } else if |lines| > 1 {
      var rest := Join(lines[1..], "\n");
      var s := lines[0] + "\n" + rest;
      LineEndBefore(lines[0], "\n" + rest);
      assert s == lines[0] + ("\n" + rest);
      assert s[..|lines[0]|] == lines[0];
      assert s[|lines[0]| + 1..] == rest;
      SplitJoined(lines[1..]);
    }
  }

  lemma {:induction false} LineEndWhole(s: string)
    requires forall j :: 0 <= j < |s| ==> !IsLineBreak(s[j])
    ensures LineEnd(s) == |s|
  {
    if s != [] {
      LineEndWhole(s[1..]);
    }
  }

  lemma {:induction false} LineEndBefore(a: string, rest: string)
    requires forall j :: 0 <= j < |a| ==> !IsLineBreak(a[j])
    requires rest != [] && IsLineBreak(rest[0])
    ensures LineEnd(a + rest) == |a|
  {
    if a != [] {
      assert (a + rest)[1..] == a[1..] + rest;
      LineEndBefore(a[1..], rest);
    }
  }

  /**
   * The sanitised plan read back line by line: at most five lines, the i-th
   * reading "i. " followed by the i-th plain point.
   */
  lemma SanitizedLines(text: string)
    ensures var lines := SplitLines(Sanitized(text)); var points := PlanPoints(text);
      && |lines| == |points| <= 5
      && forall i :: 0 <= i < |lines| ==> lines[i] == NatToString(i + 1) + ". " + points[i] && Plain(points[i])
  {
    var points := PlanPoints(text);
    PlanPointsShape(text);
    NumberedUnbroken(points);
    SplitJoined(Numbered(points));
  }

  /** Numbering plain points gives non-empty lines with no line boundary inside. */
  lemma NumberedUnbroken(points: seq<string>)
    requires forall i :: 0 <= i < |points| ==> Plain(points[i])
    ensures var numbered := Numbered(points);
      && (forall k :: 0 <= k < |numbered| ==> numbered[k] != [])
      && (forall k :: 0 <= k < |numbered| ==> forall j :: 0 <= j < |numbered[k]| ==> !IsLineBreak(numbered[k][j]))
  {
    var numbered := Numbered(points);
    forall k | 0 <= k < |numbered|
      ensures numbered[k] != []
      ensures forall j :: 0 <= j < |numbered[k]| ==> !IsLineBreak(numbered[k][j])
    {
      NumberedLineUnbroken(k + 1, points[k]);
    }
  }

  // ----- Storing the plan -----

  /**
   * Why no plan is stored. `ReplyNotSubscriptable` is the exception the
   * reply access raises as written: `message["content"]` indexes the message
   * object the client returns, which has no item access.
   */
  datatype PlanError = VisitNotFound | PatientNotFound | ReplyNotSubscriptable

  /** The dictionary `generate_treatment_plan` returns. */
  datatype PlanResult = PlanResult(visitId: int, icdCode: Option<string>, treatmentPlan: string)

  /**
   * `generate_treatment_plan` as written: the visit, then its patient, are
   * looked up; once both exist the model is called and reading its reply
   * raises, so no call returns a plan.
   */
  function PlanOutcomeAsWritten(patients: seq<Patient>, visits: seq<Visit>, visitId: int): (r: Result<PlanResult, PlanError>)
    ensures r.Err?
    ensures r == Err(ReplyNotSubscriptable) <==>
      VisitAt(visits, visitId).Some? && First(patients, PatientWithId(visits[VisitAt(visits, visitId).value].patientId)).Some?
  {
    match VisitAt(visits, visitId)
    case None => Err(VisitNotFound)
    case Some(i) =>
      if First(patients, PatientWithId(visits[i].patientId)).None? then Err(PatientNotFound)
      else Err(ReplyNotSubscriptable)
  }

  /**
   * `generate_treatment_plan` with the reply read as `message.content`: the
   * same two lookups, then the sanitised reply as the plan of the visit.
   */
  function PlanOutcome(patients: seq<Patient>, visits: seq<Visit>, visitId: int, llm: (Patient, Visit) -> string)
    : (r: Result<PlanResult, PlanError>)
    ensures r.Ok? <==> PlanOutcomeAsWritten(patients, visits, visitId) == Err(ReplyNotSubscriptable)
    ensures r.Err? ==> r == PlanOutcomeAsWritten(patients, visits, visitId)
    ensures r.Ok? ==> r.value.visitId == visitId && |SplitLines(r.value.treatmentPlan)| <= 5
  {
    match VisitAt(visits, visitId)
    case None => Err(VisitNotFound)
    case Some(i) =>
      match First(patients, PatientWithId(visits[i].patientId))
      case None => Err(PatientNotFound)
      case Some(p) =>
        var plan := Sanitized(llm(p, visits[i]));
        SanitizedLines(llm(p, visits[i]));
        Ok(PlanResult(visitId, visits[i].icdCode, plan))
  }

  /**
   * The two outcomes differ exactly where a plan should be made: for a visit
   * with a patient the code as written raises and stores nothing, where the
   * corrected reading returns the plan.
   */
  lemma ReplyAccessLosesEveryPlan(patients: seq<Patient>, visits: seq<Visit>, visitId: int, llm: (Patient, Visit) -> string)
    ensures PlanOutcomeAsWritten(patients, visits, visitId) != PlanOutcome(patients, visits, visitId, llm) <==>
      PlanOutcome(patients, visits, visitId, llm).Ok?
  {
  }

  /** One patient with one visit: the code as written stores no plan for it. */
  lemma NoPlanForOnlyVisit()
    ensures var p := Patient(1, "P001", "A", 60, "F");
      var v := Visit(1, 1, "P001-V001", None, None, None, None, None, None, None, None, None, None, None, None,
                     None, None, None, None, None, None, None, None, None, None, None);
      && PlanOutcomeAsWritten([p], [v], 1) == Err(ReplyNotSubscriptable)
      && PlanOutcome([p], [v], 1, (_, _) => "1. Give aspirin.").Ok?
  {
  }

  /**
   * `generate_treatment_plan`, with the reply read as `message.content`: a
   * missing visit or a missing patient is an error and nothing is stored;
   * otherwise the sanitised reply is added as a new Treatment row of the visit.
   */
  method GenerateTreatmentPlan(db: Database, visitId: int, llm: (Patient, Visit) -> string)
    returns (r: Result<PlanResult, PlanError>)
    requires db.Valid()
    modifies db
    ensures db.Valid()
    ensures db.patients == old(db.patients) && db.visits == old(db.visits) && db.users == old(db.users)
    ensures db.nihssItems == old(db.nihssItems)
    ensures VisitAt(old(db.visits), visitId).None? ==> r == Err(VisitNotFound) && db.treatments == old(db.treatments)
    ensures VisitAt(old(db.visits), visitId).Some? ==>
      var v := old(db.visits)[VisitAt(old(db.visits), visitId).value];
      match First(old(db.patients), PatientWithId(v.patientId))
      case None => r == Err(PatientNotFound) && db.treatments == old(db.treatments)
      case Some(p) =>
        var plan := Sanitized(llm(p, v));
        && db.treatments == old(db.treatments) + [Treatment(NextKey(old(db.treatments), TreatmentKey), visitId, plan)]
        && r == Ok(PlanResult(visitId, v.icdCode, plan))
    ensures r == PlanOutcome(old(db.patients), old(db.visits), visitId, llm)
  {
    var at := VisitAt(db.visits, visitId);
    if at.None? {
      return Err(VisitNotFound);
    }
    var visit := db.visits[at.value];
    var patient := First(db.patients, PatientWithId(visit.patientId));
    if patient.None? {
      return Err(PatientNotFound);
    }
    var planText := SanitizePlainFivePoints(llm(patient.value, visit));
    AppendTreatment(db, Treatment(NextKey(db.treatments, TreatmentKey), visitId, planText));
    r := Ok(PlanResult(visitId, visit.icdCode, planText));
  }

  /** `db.add(Treatment(...))` and the commit: the row gets the next key. */
  method AppendTreatment(db: Database, t: Treatment)
    requires db.Valid() && t.id == NextKey(db.treatments, TreatmentKey)
    modifies db
    ensures db.Valid()
    ensures db.treatments == old(db.treatments) + [t]
    ensures db.patients == old(db.patients) && db.visits == old(db.visits) && db.users == old(db.users)
    ensures db.nihssItems == old(db.nihssItems)
  {
    AppendKeepsOrder(db.treatments, TreatmentKey, t);
    db.treatments := db.treatments + [t];
  }
}
