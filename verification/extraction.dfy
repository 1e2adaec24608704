/**
 * Formation extraction from free text (frontend/src/app/app/page.jsx,
 * `extractFormation` and `getFormationType`).
 *
 * Both functions apply JavaScript regular expressions with `String.prototype.match`
 * (no `g` flag), which returns the capture of the LEFTMOST position at which the
 * whole pattern matches. Every pattern ends in the group
 * `(\d-\d-\d-\d|\d-\d-\d|\d-\d)`; since nothing follows the group, the first
 * alternative that matches at a position wins, i.e. the longest token.
 */
module Extraction {
  import opened Wrappers

  /** The three patterns the source uses. */
  datatype Pattern =
    | Bare          // /(\d-\d-\d-\d|\d-\d-\d|\d-\d)/i
    | FormationIs   // /formation is: (\d-\d-\d-\d|\d-\d-\d|\d-\d)/i
    | Recommended   // /recommended formation:?\s*(\d-\d-\d-\d|\d-\d-\d|\d-\d)/i

  /** The fallback label both functions return when nothing matches. */
  const DefaultFormation: string := "4-3-3"

  const FormationIsPhrase: string := "formation is: "
  const RecommendedPhrase: string := "recommended formation"

  /** `\d` without the `u` flag: the ASCII digits only. */
  predicate IsDigit(c: char) {
    '0' <= c <= '9'
  }

  /** `\s`: the ECMAScript WhiteSpace and LineTerminator code points. */
  predicate IsSpace(c: char) {
    var n := c as int;
    n == 0x09 || n == 0x0A || n == 0x0B || n == 0x0C || n == 0x0D || n == 0x20
    || n == 0xA0 || n == 0x1680 || (0x2000 <= n <= 0x200A) || n == 0x2028
    || n == 0x2029 || n == 0x202F || n == 0x205F || n == 0x3000 || n == 0xFEFF
  }

  /** Case folding under the `i` flag without `u`. For the ASCII letters of the
      two phrases this is ASCII folding: a non-ASCII character whose upper case is
      ASCII is left alone by the regular-expression canonicalisation. */
  function Fold(c: char): char {
    if 'A' <= c <= 'Z' then (c as int + 32) as char else c
  }

  predicate EqualsIgnoringCase(a: string, b: string) {
    |a| == |b| && forall k :: 0 <= k < |a| ==> Fold(a[k]) == Fold(b[k])
  }

  /** A digit at i immediately followed by a hyphen: the start every token needs. */
  predicate DigitDashAt(s: string, i: int) {
    0 <= i && i + 1 < |s| && IsDigit(s[i]) && s[i + 1] == '-'
  }

  /** `g` single digits separated by single hyphens start at position i of s. */
  predicate GroupsAt(s: string, i: nat, g: nat): (b: bool)
    decreases g
    ensures b ==> g >= 1 && i + 2 * g - 1 <= |s|
  {
    g >= 1 && i < |s| && IsDigit(s[i])
    && (g == 1 || (i + 1 < |s| && s[i + 1] == '-' && GroupsAt(s, i + 2, g - 1)))
  }

  /** The strings the formation group can capture. */
  predicate IsFormationToken(t: string) {
    (|t| == 7 && GroupsAt(t, 0, 4)) || (|t| == 5 && GroupsAt(t, 0, 3)) || (|t| == 3 && GroupsAt(t, 0, 2))
  }

  lemma {:induction false} GroupsAtSlice(s: string, i: nat, g: nat, lo: nat, hi: nat)
    requires g >= 1 && lo <= i && i + 2 * g - 1 <= hi <= |s|
    ensures GroupsAt(s, i, g) <==> GroupsAt(s[lo..hi], i - lo, g)
    decreases g
  {
    if g >= 2 && i + 2 < |s| {
      GroupsAtSlice(s, i + 2, g - 1, lo, hi);
    }
  }

  /** The capture of the group `(\d-\d-\d-\d|\d-\d-\d|\d-\d)` tried at position i. */
  function TokenAt(s: string, i: nat): (r: Option<string>)
    ensures r.Some? <==> GroupsAt(s, i, 2)
    ensures r.Some? ==> IsFormationToken(r.value) && i + |r.value| <= |s| && s[i..i + |r.value|] == r.value
    ensures r.Some? ==> (|r.value| == 7 <==> GroupsAt(s, i, 4)) && (|r.value| >= 5 <==> GroupsAt(s, i, 3))
  {
    if GroupsAt(s, i, 4) then
      GroupsAtSlice(s, i, 4, i, i + 7);
      assert GroupsAt(s, i, 3) && GroupsAt(s, i, 2);
      Some(s[i..i + 7])
    else if GroupsAt(s, i, 3) then
      GroupsAtSlice(s, i, 3, i, i + 5);
      assert GroupsAt(s, i, 2);
      Some(s[i..i + 5])
    else if GroupsAt(s, i, 2) then
      GroupsAtSlice(s, i, 2, i, i + 3);
      Some(s[i..i + 3])
    else
      None
  }

  /** The greedy `\s*` starting at j: the first position at or after j that is not whitespace. */
  function SkipSpaces(s: string, j: nat): (r: nat)
    decreases |s| - j
    ensures j <= r && (r <= |s| || r == j)
    ensures forall k :: j <= k < r ==> IsSpace(s[k])
    ensures r < |s| ==> !IsSpace(s[r])
  {
    if j < |s| && IsSpace(s[j]) then SkipSpaces(s, j + 1) else j
  }

  /** What pattern p captures when tried at position i (None: no match there). */
  function Capture(p: Pattern, s: string, i: nat): Option<string> {
    match p
    case Bare => TokenAt(s, i)
    case FormationIs =>
      if i + |FormationIsPhrase| <= |s| && EqualsIgnoringCase(s[i..i + |FormationIsPhrase|], FormationIsPhrase)
      then TokenAt(s, i + |FormationIsPhrase|)
      else None
    case Recommended =>
      if i + |RecommendedPhrase| <= |s| && EqualsIgnoringCase(s[i..i + |RecommendedPhrase|], RecommendedPhrase)
      then
        // `:?` then `\s*`, both greedy; neither needs to give anything back,
        // because the group must start with a digit, which is neither ':' nor a space.
        var j := i + |RecommendedPhrase|;
        var j' := if j < |s| && s[j] == ':' then j + 1 else j;
        TokenAt(s, SkipSpaces(s, j'))
      else None
  }

  predicate Matches(p: Pattern, s: string, i: nat) {
    Capture(p, s, i).Some?
  }

  /** Pattern p matches at i and at no earlier position: the match `String.prototype.match` reports. */
  ghost predicate FirstMatchAt(p: Pattern, s: string, i: nat) {
    i < |s| && Matches(p, s, i) && forall j: nat :: j < i ==> !Matches(p, s, j)
  }

  ghost predicate NoMatch(p: Pattern, s: string) {
    forall j: nat :: j < |s| ==> !Matches(p, s, j)
  }

  /** Every pattern needs a token, so a match at i implies a bare token at or after i. */
  lemma MatchNeedsToken(p: Pattern, s: string, i: nat) returns (k: nat)
    requires Matches(p, s, i)
    ensures i <= k < |s| && Matches(Bare, s, k) && Capture(Bare, s, k) == Capture(p, s, i)
    ensures p == FormationIs ==> k == i + |FormationIsPhrase|
    ensures p == Bare ==> k == i
  {
    match p
    case Bare => k := i;
    case FormationIs => k := i + |FormationIsPhrase|;
    case Recommended =>
      var j := i + |RecommendedPhrase|;
      var j' := if j < |s| && s[j] == ':' then j + 1 else j;
      k := SkipSpaces(s, j');
  }

  /** The left-to-right scan of the regular-expression engine from position `from`. */
  function Search(p: Pattern, s: string, from: nat): (r: Option<nat>)
    decreases |s| - from
    ensures r.Some? ==> from <= r.value < |s| && Matches(p, s, r.value)
    ensures r.Some? ==> forall j: nat :: from <= j < r.value ==> !Matches(p, s, j)
    ensures r.None? ==> forall j: nat :: from <= j < |s| ==> !Matches(p, s, j)
  {
    if from >= |s| then None
    else if Matches(p, s, from) then Some(from)
    else Search(p, s, from + 1)
  }

  /** `s.match(p)` followed by taking group 1. */
  function FirstCapture(p: Pattern, s: string): (r: Option<string>)
    ensures r.None? <==> NoMatch(p, s)
    ensures r.Some? ==> IsFormationToken(r.value)
    ensures forall i: nat :: FirstMatchAt(p, s, i) ==> r == Capture(p, s, i)
  {
    match Search(p, s, 0)
    case Some(i) =>
      assert FirstMatchAt(p, s, i);
      FirstMatchUnique(p, s, i);
      Capture(p, s, i)
    case None => None
  }

  lemma FirstMatchUnique(p: Pattern, s: string, i: nat)
    requires FirstMatchAt(p, s, i)
    ensures forall i': nat :: FirstMatchAt(p, s, i') ==> i' == i
  {
  }

  /** The last two steps shared by both functions: the leftmost bare token, else "4-3-3". */
  function BareOrDefault(text: string): (r: string)
    ensures IsFormationToken(r)
    ensures forall i: nat :: FirstMatchAt(Bare, text, i) ==> Capture(Bare, text, i) == Some(r)
    ensures NoMatch(Bare, text) ==> r == DefaultFormation
  {
    match FirstCapture(Bare, text)
    case Some(t) => t
    case None =>
      assert GroupsAt(DefaultFormation, 0, 3);
      DefaultFormation
  }

  /** `extractFormation` (page.jsx:237-245): the first `formation is: <token>`
      (any case), else the leftmost bare token, else "4-3-3". */
  function ExtractFormation(text: string): (r: string)
    ensures IsFormationToken(r)
    ensures forall i: nat :: FirstMatchAt(FormationIs, text, i) ==> Capture(FormationIs, text, i) == Some(r)
    ensures NoMatch(FormationIs, text) ==>
      forall i: nat :: FirstMatchAt(Bare, text, i) ==> Capture(Bare, text, i) == Some(r)
    ensures NoMatch(Bare, text) ==> r == DefaultFormation
  {
    NoBareMeansNoMatch(FormationIs, text);
    match FirstCapture(FormationIs, text)
    case Some(t) => t
    case None => BareOrDefault(text)
  }

  /** The steps of `getFormationType` after `formation is:`. */
  function RecommendedOrBare(tactics: string): (r: string)
    ensures IsFormationToken(r)
    ensures forall i: nat :: FirstMatchAt(Recommended, tactics, i) ==> Capture(Recommended, tactics, i) == Some(r)
    ensures NoMatch(Recommended, tactics) ==> r == BareOrDefault(tactics)
    ensures NoMatch(Bare, tactics) ==> r == DefaultFormation
  {
    NoBareMeansNoMatch(Recommended, tactics);
    match FirstCapture(Recommended, tactics)
    case Some(t) => t
    case None => BareOrDefault(tactics)
  }

  /** `getFormationType` (page.jsx:552-573): the same as `ExtractFormation` with a
      `recommended formation:?\s*<token>` step between the two, and "4-3-3" for
      empty text. */
  function GetFormationType(tactics: string): (r: string)
    ensures IsFormationToken(r)
    ensures tactics == [] ==> r == DefaultFormation
    ensures forall i: nat :: FirstMatchAt(FormationIs, tactics, i) ==> Capture(FormationIs, tactics, i) == Some(r)
    ensures NoMatch(FormationIs, tactics) ==>
      forall i: nat :: FirstMatchAt(Recommended, tactics, i) ==> Capture(Recommended, tactics, i) == Some(r)
    ensures NoMatch(FormationIs, tactics) && NoMatch(Recommended, tactics) ==>
      forall i: nat :: FirstMatchAt(Bare, tactics, i) ==> Capture(Bare, tactics, i) == Some(r)
    ensures NoMatch(Bare, tactics) ==> r == DefaultFormation
  {
    NoBareMeansNoMatch(FormationIs, tactics);
    assert GroupsAt(DefaultFormation, 0, 3);
    if tactics == [] then DefaultFormation
    else
      match FirstCapture(FormationIs, tactics)
      case Some(t) => t
      case None => RecommendedOrBare(tactics)
  }

  /** A text without any bare token yields the default from both functions. */
  lemma NoTokenMeansDefault(text: string)
    requires forall i: nat :: i < |text| ==> !DigitDashAt(text, i)
    ensures ExtractFormation(text) == DefaultFormation
    ensures GetFormationType(text) == DefaultFormation
  {
    forall i: nat | i < |text|
      ensures !Matches(Bare, text, i)
    {
      assert !DigitDashAt(text, i);
    }
  }

  /** A bare-token-free text cannot match the other two patterns either. */
  lemma NoBareMeansNoMatch(p: Pattern, text: string)
    ensures NoMatch(Bare, text) ==> NoMatch(p, text)
  {
    forall i: nat | i < |text| && Matches(p, text, i)
      ensures exists k: nat :: k < |text| && Matches(Bare, text, k)
    {
      var k := MatchNeedsToken(p, text, i);
    }
  }

  /** The two functions agree unless the text has no `formation is:` match but does
      have a `recommended formation` match. */
  lemma ExtractAgreesWithFormationType(text: string)
    requires !NoMatch(FormationIs, text) || NoMatch(Recommended, text)
    ensures GetFormationType(text) == ExtractFormation(text)
  {
    if text == [] {
    } else if !NoMatch(FormationIs, text) {
      var i := Search(FormationIs, text, 0).value;
      assert FirstMatchAt(FormationIs, text, i);
    } else if NoMatch(Bare, text) {
    } else {
      var i := Search(Bare, text, 0).value;
      assert FirstMatchAt(Bare, text, i);
    }
  }

  /** The token after `formation is: ` is the longest one there, so text that
      contains "formation is: 4-4-2" can still yield a four-group label. */
  lemma LongestTokenWins()
    ensures ExtractFormation(FourGroupSample) == "4-4-2-1"
  {
    SampleHasFourGroups();
    assert FourGroupSample[14..21] == "4-4-2-1";
    assert TokenAt(FourGroupSample, 14) == Some("4-4-2-1");
    assert FourGroupSample[0..14] == FormationIsPhrase;
    assert Capture(FormationIs, FourGroupSample, 0) == Some("4-4-2-1");
    assert FirstMatchAt(FormationIs, FourGroupSample, 0);
  }

  /** A four-group label after the phrase. */
  const FourGroupSample: string := "formation is: 4-4-2-1"

  lemma SampleHasFourGroups()
    ensures GroupsAt(FourGroupSample, 14, 4)
  {
    var s := FourGroupSample;
    assert s[14] == '4' && s[15] == '-' && s[16] == '4' && s[17] == '-';
    assert s[18] == '2' && s[19] == '-' && s[20] == '1';
    assert GroupsAt(s, 20, 1);
    assert GroupsAt(s, 18, 2);
    assert GroupsAt(s, 16, 3);
  }

  /** A `formation is:` match needs a colon twelve characters in. */
  lemma FormationIsNeedsColon(s: string, j: nat)
    requires Matches(FormationIs, s, j)
    ensures j + 12 < |s| && s[j + 12] == ':'
  {
    assert Fold(s[j..j + 14][12]) == Fold(FormationIsPhrase[12]);
  }

  /** A text whose only `recommended formation` token is not its first token. */
  const DivergentText: string := "1-1 " + RecommendedPhrase + " 4-4-2"

  lemma DivergentTextMatches()
    ensures NoMatch(FormationIs, DivergentText)
    ensures FirstMatchAt(Bare, DivergentText, 0)
    ensures FirstMatchAt(Recommended, DivergentText, 4)
  {
    var s := DivergentText;
    assert ':' !in s;
    forall j: nat | j < |s|
      ensures !Matches(FormationIs, s, j)
    {
      if Matches(FormationIs, s, j) {
        FormationIsNeedsColon(s, j);
      }
    }
    assert s[4..25] == RecommendedPhrase;
    assert s[25] == ' ' && s[26] == '4';
    assert SkipSpaces(s, 25) == 26;
    assert GroupsAt(s, 26, 2);
    assert Matches(Recommended, s, 4);
    forall j: nat | j < 4
      ensures !Matches(Recommended, s, j)
    {
      assert Fold(s[j..j + 21][0]) != Fold(RecommendedPhrase[0]);
    }
  }

  lemma BareTokenOfDivergentText()
    ensures Capture(Bare, DivergentText, 0) == Some("1-1")
  {
    var s := DivergentText;
    assert s[3] == ' ' && !GroupsAt(s, 0, 3);
    assert s[0..3] == "1-1";
  }

  lemma RecommendedTokenOfDivergentText()
    ensures Capture(Recommended, DivergentText, 4) == Some("4-4-2")
  {
    var s := DivergentText;
    assert s[4..25] == RecommendedPhrase;
    assert s[25] == ' ' && SkipSpaces(s, 25) == 26;
    assert |s| == 31 && !GroupsAt(s, 26, 4) && GroupsAt(s, 26, 3);
    assert s[26..31] == "4-4-2";
  }

  /** The extra `recommended formation` step makes the two functions disagree
      when another token comes first. */
  lemma FormationTypeCanDiffer()
    ensures ExtractFormation(DivergentText) == "1-1"
    ensures GetFormationType(DivergentText) == "4-4-2"
  {
    DivergentTextMatches();
    BareTokenOfDivergentText();
    RecommendedTokenOfDivergentText();
  }
}
