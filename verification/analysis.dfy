/**
 * The mock tactical analysis (frontend/src/app/app/page.jsx:195-234,
 * `generateMockTacticalAnalysis`): a fixed template naming one of six formations,
 * and the round trip through `extractFormation` / `getFormationType`.
 */
module Analysis {
  import opened Wrappers
  import opened Extraction
  import Oracle

  /** The six labels the generator picks from, in the source's order. */
  const Formations: seq<string> := ["4-3-3", "4-2-3-1", "3-4-3", "3-5-2", "4-4-2", "5-3-2"]

  // The literal pieces of the template, between the interpolated names.

  const Heading: string :=
      "**Tactical Analysis: "

  const Versus: string :=
      " vs "

  const Recommendation: string :=
      "**\n" +
      "\n" +
      "**1. Formation Recommendation:**\n" +
      "Based on "

  const Recent: string :=
      "'s recent performances and "

  const ApproachLead: string :=
      "'s tactical approach, " + "the recommended "

  /** After the newline that ends the formation sentence. */
  const SuffixOpening: string :=
      "\n" +
      "**2. Strategic Approach:**\n" +
      "- Maintain a compact defensive shape when out of possession\n" +
      "- Utilize quick transitions to exploit space behind "

  const DefensiveLine: string :=
      "'s defensive line\n" +
      "- Focus on controlling the central areas of the pitch to dictate play\n" +
      "- Deploy high pressing in opponent's half when appropriate\n" +
      "\n" +
      "**3. Key Tactical Considerations:**\n" +
      "- "

  const Considerations: string :=
      " tends to build attacks through the central channels\n" +
      "- Their fullbacks push high, leaving space to exploit on counter-attacks\n" +
      "- Their center-backs are vulnerable to pace and direct running\n" +
      "- They typically employ a high defensive line which can be exploited\n" +
      "\n" +
      "**4. Player Roles and Responsibilities:**\n" +
      "- CBs: Maintain a compact defensive line, step out to intercept when necessary\n" +
      "- FBs/WBs: Provide width in attack, cover defensive zones when out of possession\n" +
      "- CMs: Control tempo, screen defense, and link play between defense and attack\n" +
      "- Wingers: Stay wide in attack, tuck in to create overloads when defending\n" +
      "- Striker: Lead the press, make diagonal runs to create space for midfield runners\n" +
      "\n" +
      "**5. Set-Piece Strategy:**\n" +
      "- Defensive: Zonal marking with 2 players on the posts\n" +
      "- Offensive: Target the far post with inswinging deliveries\n" +
      "- Consider short corner routines to exploit "

  const ManMarking: string :=
      "'s man-marking system\n" +
      "\n" +
      "**6. In-Game Adaptability:**\n" +
      "- If leading: Consider transitioning to a more defensive 5-4-1 formation\n" +
      "- If trailing: Shift to a more attacking 4-2-4 approach with overlapping fullbacks\n" +
      "- Adjust pressing intensity based on match situation and player fatigue\n" +
      "\n" +
      "This tactical approach leverages "

  const Strengths: string :=
      "'s strengths while targeting "

  const Weaknesses: string :=
      "'s weaknesses, providing a balanced framework for both defensive stability and attacking threat."

  /** Everything before the formation label except the closing "formation is: ". */
  function Lead(team: string, opponent: string): string {
    Heading + team + Versus + opponent + Recommendation + team + Recent + opponent + ApproachLead
  }

  /** Everything after the line that names the formation. */
  function Body(team: string, opponent: string): string {
    SuffixOpening + opponent + DefensiveLine + opponent + Considerations + opponent + ManMarking
    + team + Strengths + opponent + Weaknesses
  }

  /** `piece` occurs in `text` starting at position `k`. */
  predicate At(text: string, k: nat, piece: string) {
    k + |piece| <= |text| && text[k..k + |piece|] == piece
  }

  /** The template with team, opponent and formation substituted verbatim
      (page.jsx:199-233); TemplateLayout states where the pieces sit. */
  function AnalysisText(team: string, opponent: string, formation: string): string {
    Lead(team, opponent) + FormationIsPhrase + formation + ("\n" + Body(team, opponent))
  }

  /** The text opens with the heading naming the team and then the opponent, and
      the lead is followed by `formation is: `, the label and the end of that line. */
  lemma TemplateLayout(team: string, opponent: string, formation: string)
    ensures At(AnalysisText(team, opponent, formation), 0, Heading + team + Versus + opponent)
    ensures At(AnalysisText(team, opponent, formation), |Lead(team, opponent)|, FormationIsPhrase + formation + "\n")
  {
    LeadOpensWithHeading(team, opponent);
    PartsInPlace(Lead(team, opponent), FormationIsPhrase, formation, Body(team, opponent), Heading + team + Versus + opponent);
  }

  /** Where the pieces of `a + b + c + ("\n" + d)` sit, given a piece `h` at the start of `a`. */
  lemma PartsInPlace(a: string, b: string, c: string, d: string, h: string)
    requires At(a, 0, h)
    ensures At(a + b + c + ("\n" + d), 0, h)
    ensures At(a + b + c + ("\n" + d), |a|, b + c + "\n")
  {
    var r := a + b + c + ("\n" + d);
    assert r == a + (b + c + "\n") + d;
    assert r[..|h|] == a[..|h|];
  }

  /** The lead opens with the heading naming the team, then the opponent. */
  lemma LeadOpensWithHeading(team: string, opponent: string)
    ensures At(Lead(team, opponent), 0, Heading + team + Versus + opponent)
  {
    var h := Heading + team + Versus + opponent;
    assert Lead(team, opponent) == h + (Recommendation + team + Recent + opponent + ApproachLead);
  }

  /** No digit in s is immediately followed by a hyphen, so no token starts in s. */
  ghost predicate NoTokenStart(s: string) {
    forall i: nat :: i < |s| ==> !DigitDashAt(s, i)
  }

  /** `formations[Math.floor(Math.random() * formations.length)]` (page.jsx:197). */
  function DrawnFormation(o: Oracle.Stream, pos: nat): (f: string)
    ensures f in Formations
  {
    Formations[Oracle.Draw(o, pos, |Formations|)]
  }

  /** `generateMockTacticalAnalysis(team, opponent)` with `Math.random` injected: for
      names in which no token starts, both extractors recover the drawn label. */
  function GenerateMockAnalysis(team: string, opponent: string, o: Oracle.Stream, pos: nat): (r: string)
    ensures NoTokenStart(team) && NoTokenStart(opponent) ==>
      ExtractFormation(r) == DrawnFormation(o, pos) && GetFormationType(r) == DrawnFormation(o, pos)
  {
    var formation := DrawnFormation(o, pos);
    FormationsAreTokens();
    RoundTripForPlainNames(team, opponent, formation);
    AnalysisText(team, opponent, formation)
  }

  lemma FormationsAreTokens()
    ensures forall f :: f in Formations ==> IsFormationToken(f)
  {
    assert GroupsAt("4-3-3", 0, 3) && GroupsAt("4-2-3-1", 0, 4) && GroupsAt("3-4-3", 0, 3);
    assert GroupsAt("3-5-2", 0, 3) && GroupsAt("4-4-2", 0, 3) && GroupsAt("5-3-2", 0, 3);
  }

  lemma HyphenFreeHasNoTokenStart(s: string)
    requires '-' !in s
    ensures NoTokenStart(s)
  {
    forall i: nat | i < |s| ensures !DigitDashAt(s, i) {
      if i + 1 < |s| { assert s[i + 1] in s; }
    }
  }

  /** Concatenation creates no token start when the seam cannot form one. */
  lemma NoTokenStartConcat(x: string, y: string)
    requires NoTokenStart(x) && NoTokenStart(y)
    requires |x| == 0 || !IsDigit(x[|x| - 1]) || '-' !in y
    ensures NoTokenStart(x + y)
  {
    forall i: nat | i < |x + y| ensures !DigitDashAt(x + y, i) {
      if i + 1 < |x| {
        assert !DigitDashAt(x, i);
      } else if i >= |x| {
        assert !DigitDashAt(y, i - |x|);
      } else if |y| > 0 {
        assert (x + y)[i] == x[|x| - 1] && (x + y)[i + 1] == y[0] && y[0] in y;
      }
    }
  }

  lemma LeadHasNoTokenStart(team: string, opponent: string)
    requires NoTokenStart(team) && NoTokenStart(opponent)
    ensures NoTokenStart(Lead(team, opponent))
    ensures |Lead(team, opponent)| > 0 && Lead(team, opponent)[|Lead(team, opponent)| - 1] == ' '
  {
    assert '-' !in Heading && '-' !in Versus && '-' !in Recommendation;
    assert '-' !in Recent && '-' !in ApproachLead;
    HyphenFreeHasNoTokenStart(Heading);
    HyphenFreeHasNoTokenStart(Versus);
    HyphenFreeHasNoTokenStart(Recommendation);
    HyphenFreeHasNoTokenStart(Recent);
    HyphenFreeHasNoTokenStart(ApproachLead);
    var s := Heading;
    NoTokenStartConcat(s, team);
    s := s + team;
    NoTokenStartConcat(s, Versus);
    s := s + Versus;
    assert s[|s| - 1] == ' ';
    NoTokenStartConcat(s, opponent);
    s := s + opponent;
    NoTokenStartConcat(s, Recommendation);
    s := s + Recommendation;
    assert s[|s| - 1] == ' ';
    NoTokenStartConcat(s, team);
    s := s + team;
    NoTokenStartConcat(s, Recent);
    s := s + Recent;
    assert s[|s| - 1] == ' ';
    NoTokenStartConcat(s, opponent);
    s := s + opponent;
    NoTokenStartConcat(s, ApproachLead);
    s := s + ApproachLead;
    assert s == Lead(team, opponent);
  }

  /** A token label followed by something other than a hyphen is captured whole. */
  lemma TokenOfLabel(text: string, k: nat, f: string)
    requires IsFormationToken(f)
    requires k + |f| <= |text| && text[k..k + |f|] == f
    requires k + |f| < |text| ==> text[k + |f|] != '-'
    ensures TokenAt(text, k) == Some(f)
  {
    var g := (|f| + 1) / 2;
    GroupsAtSlice(text, k, g, k, k + |f|);
    assert text[k..k + |f|][0..|f|] == f;
    GroupsAtSlice(f, 0, g, 0, |f|);
    if g < 4 {
      assert !GroupsAt(text, k + |f| - 1, 2);
      if g == 2 {
        assert !GroupsAt(text, k, 3) by { assert !GroupsAt(text, k + 2, 2); }
        assert !GroupsAt(text, k, 4) by { assert !GroupsAt(text, k + 2, 3); }
      } else {
        assert !GroupsAt(text, k + 2, 3) by { assert !GroupsAt(text, k + 4, 2); }
        assert !GroupsAt(text, k, 4);
      }
    }
  }

  /** In `lead + "formation is: " + formation + body`, the first `formation is:`
      match is the one after `lead`, provided no token starts inside `lead`. */
  lemma FirstFormationIsAfterLead(lead: string, formation: string, body: string)
    requires NoTokenStart(lead) && |lead| > 0 && lead[|lead| - 1] == ' '
    requires IsFormationToken(formation)
    requires |body| > 0 && body[0] != '-'
    ensures FirstMatchAt(FormationIs, lead + FormationIsPhrase + formation + body, |lead|)
    ensures Capture(FormationIs, lead + FormationIsPhrase + formation + body, |lead|) == Some(formation)
  {
    var text := lead + FormationIsPhrase + formation + body;
    var m := |lead|;
    var k := m + |FormationIsPhrase|;
    assert text[m..k] == FormationIsPhrase;
    assert text[k..k + |formation|] == formation;
    assert text[k + |formation|] == body[0];
    TokenOfLabel(text, k, formation);
    assert Matches(FormationIs, text, m);
    forall j: nat | j < m
      ensures !Matches(FormationIs, text, j)
    {
      if Matches(FormationIs, text, j) {
        NoTokenStartBeforeSeam(lead, FormationIsPhrase + formation + body, j + |FormationIsPhrase|);
        var t := MatchNeedsToken(FormationIs, text, j);
      }
    }
  }

  /** Token starts of `lead + rest` inside `lead` are token starts of `lead`,
      unless lead ends in a non-digit. */
  lemma NoTokenStartBeforeSeam(lead: string, rest: string, i: nat)
    requires NoTokenStart(lead) && |lead| > 0 && lead[|lead| - 1] == ' '
    requires i < |lead|
    ensures !DigitDashAt(lead + rest, i)
  {
    if i + 1 < |lead| {
      assert !DigitDashAt(lead, i);
    } else {
      assert (lead + rest)[i] == ' ';
    }
  }

  /** Round trip: for names in which no token starts, both extractors return the
      label the template was filled with. */
  lemma {:induction false} MockAnalysisRoundTrip(team: string, opponent: string, formation: string)
    requires NoTokenStart(team) && NoTokenStart(opponent)
    requires IsFormationToken(formation)
    ensures ExtractFormation(AnalysisText(team, opponent, formation)) == formation
    ensures GetFormationType(AnalysisText(team, opponent, formation)) == formation
  {
    LeadHasNoTokenStart(team, opponent);
    RoundTripFromParts(Lead(team, opponent), formation, Body(team, opponent));
  }

  /** The round trip for any lead without token starts that ends in a space, whatever
      follows the newline after the label. */
  lemma RoundTripFromParts(lead: string, formation: string, rest: string)
    requires NoTokenStart(lead) && |lead| > 0 && lead[|lead| - 1] == ' '
    requires IsFormationToken(formation)
    ensures ExtractFormation(lead + FormationIsPhrase + formation + ("\n" + rest)) == formation
    ensures GetFormationType(lead + FormationIsPhrase + formation + ("\n" + rest)) == formation
  {
    var body := "\n" + rest;
    assert body[0] == '\n';
    FirstFormationIsAfterLead(lead, formation, body);
    FirstMatchDecides(lead + FormationIsPhrase + formation + body, |lead|, formation);
  }

  /** When the first "formation is" match captures `f`, both extractors return `f`. */
  lemma FirstMatchDecides(text: string, m: nat, f: string)
    requires FirstMatchAt(FormationIs, text, m) && Capture(FormationIs, text, m) == Some(f)
    ensures ExtractFormation(text) == f && GetFormationType(text) == f
  {
  }

  lemma RoundTripForPlainNames(team: string, opponent: string, formation: string)
    requires IsFormationToken(formation)
    ensures NoTokenStart(team) && NoTokenStart(opponent) ==>
      ExtractFormation(AnalysisText(team, opponent, formation)) == formation
      && GetFormationType(AnalysisText(team, opponent, formation)) == formation
  {
    if NoTokenStart(team) && NoTokenStart(opponent) {
      MockAnalysisRoundTrip(team, opponent, formation);
    }
  }
}
