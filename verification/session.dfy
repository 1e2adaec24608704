/**
 * The page's state transitions around generated analyses
 * (frontend/src/app/app/page.jsx: `fetchTactics`, `saveCurrentFormation`,
 * `loadHistoryItem`, `loadSavedFormation`, the progress timer and the guard of
 * `formatTacticalAnalysis`). Each React `set...` call becomes a field update of an
 * immutable `State`.
 */
module Session {
  import opened Wrappers
  import Extraction
  import Analysis
  import Oracle
  import Catalogue

  datatype Tab = Create | Community | Matches | Profile

  /** An entry of the match history (page.jsx:158-165); `id` and `date` come from the clock. */
  datatype HistoryItem = HistoryItem(id: int, team: string, opponent: string, result: string, date: string, formation: string)

  /** An entry of the saved list (page.jsx:331-339). Entries read back from storage
      may lack `customPositions`. */
  datatype SavedFormation = SavedFormation(
    id: int, team: string, opponent: string, formation: string, tactics: string, date: string,
    customPositions: Option<map<string, Catalogue.Point>>)

  datatype State = State(
    team: string,
    opponent: string,
    tactics: string,
    customPositions: map<string, Catalogue.Point>,
    history: seq<HistoryItem>,
    saved: seq<SavedFormation>,
    activeTab: Tab,
    showHistory: bool,
    showSaved: bool)

  /** What the backend call of `fetchTactics` produced: a value (possibly null or
      empty) or an exception. */
  datatype ApiOutcome = Responded(result: Option<string>) | Failed

  const HistoryLimit: nat := 5

  /** The text `fetchTactics` shows when the backend call throws. */
  const GenerationError: string := "\U{26A0}\U{FE0F} " + "Error" + " generating tactics. Please try again."

  function Min(a: int, b: int): int {
    if a <= b then a else b
  }

  /** `[historyItem, ...prev.slice(0, 4)]`: the new item first, then the four most
      recent earlier ones. */
  function PushHistory(history: seq<HistoryItem>, item: HistoryItem): (r: seq<HistoryItem>)
    ensures |r| == Min(|history| + 1, HistoryLimit)
    ensures r[0] == item
    ensures forall i :: 1 <= i < |r| ==> r[i] == history[i - 1]
  {
    [item] + history[..Min(|history|, HistoryLimit - 1)]
  }

  /** The items of `s` last to first. */
  function Reverse<T>(s: seq<T>): (r: seq<T>)
    ensures |r| == |s|
    ensures forall i :: 0 <= i < |s| ==> r[i] == s[|s| - 1 - i]
  {
    if s == [] then [] else Reverse(s[1..]) + [s[0]]
  }

  /** Recording the items of `items` one after another. */
  function PushAll(history: seq<HistoryItem>, items: seq<HistoryItem>): seq<HistoryItem>
    decreases |items|
  {
    if items == [] then history
    else PushAll(PushHistory(history, items[0]), items[1..])
  }

  /** However many generations happen, the history holds the five most recent
      results, newest first, followed by what is left of the old history. */
  lemma {:induction false} PushAllKeepsMostRecent(history: seq<HistoryItem>, items: seq<HistoryItem>)
    requires |history| <= HistoryLimit
    ensures PushAll(history, items) == (Reverse(items) + history)[..Min(|items| + |history|, HistoryLimit)]
    decreases |items|
  {
    if items != [] {
      var h' := PushHistory(history, items[0]);
      PushAllKeepsMostRecent(h', items[1..]);
      var n := Min(|items| + |history|, HistoryLimit);
      var lhs := (Reverse(items[1..]) + h')[..Min(|items| - 1 + |h'|, HistoryLimit)];
      var rhs := (Reverse(items) + history)[..n];
      assert Reverse(items) == Reverse(items[1..]) + [items[0]];
      assert h' == ([items[0]] + history)[..Min(|history| + 1, HistoryLimit)];
      assert |lhs| == |rhs|;
      forall i | 0 <= i < |lhs|
        ensures lhs[i] == rhs[i]
      {
        var k := |items| - 1;
        if i < k {
        } else if i == k {
        } else {
          assert lhs[i] == h'[i - k] == history[i - k - 1];
        }
      }
    }
  }

  /** The start of `fetchTactics` (page.jsx:131-134): the old analysis and every
      override are cleared. */
  function BeginGeneration(s: State): (r: State)
    ensures r.tactics == [] && r.customPositions == map[]
    ensures r.(tactics := s.tactics, customPositions := s.customPositions) == s
  {
    s.(tactics := [], customPositions := map[])
  }

  /** `result || generateMockTacticalAnalysis(team, opponent)` (page.jsx:152): the
      backend's text unless it is null or empty. */
  function FinalResult(s: State, result: Option<string>, o: Oracle.Stream, pos: nat): (r: string)
    ensures result.Some? && result.value != "" ==> r == result.value
    ensures result.None? || result.value == "" ==> r == Analysis.GenerateMockAnalysis(s.team, s.opponent, o, pos)
  {
    if result.None? || result.value == "" then Analysis.GenerateMockAnalysis(s.team, s.opponent, o, pos)
    else result.value
  }

  /** The delayed completion of `fetchTactics` (page.jsx:154-171): the text becomes
      the tactics and heads the history with the formation it names. */
  function Record(s: State, final: string, id: int, date: string): (r: State)
    ensures r.tactics == final
    ensures |r.history| == Min(|s.history| + 1, HistoryLimit) && r.history[1..] == s.history[..|r.history| - 1]
    ensures r.history[0] == HistoryItem(id, s.team, s.opponent, final, date, Extraction.ExtractFormation(final))
    ensures r.(tactics := s.tactics, history := s.history) == s
  {
    var item := HistoryItem(id, s.team, s.opponent, final, date, Extraction.ExtractFormation(final));
    s.(tactics := final, history := PushHistory(s.history, item))
  }

  /** The end of `fetchTactics` (page.jsx:147-189): the backend's text, or the mock
      analysis when it returned nothing, becomes the tactics and heads the history;
      an exception shows the error text and leaves the history alone. */
  function CompleteGeneration(s: State, outcome: ApiOutcome, o: Oracle.Stream, pos: nat, id: int, date: string): (r: State)
    ensures outcome.Failed? ==> r == s.(tactics := GenerationError)
    ensures outcome.Responded? ==> r == Record(s, FinalResult(s, outcome.result, o, pos), id, date)
  {
    match outcome
    case Failed => s.(tactics := GenerationError)
    case Responded(result) => Record(s, FinalResult(s, result, o, pos), id, date)
  }

  /** When the backend returns nothing and the names are plain, the new history
      entry names the catalogue label the mock analysis drew. */
  lemma MockGenerationRecordsDrawnLabel(s: State, o: Oracle.Stream, pos: nat, id: int, date: string)
    requires Analysis.NoTokenStart(s.team) && Analysis.NoTokenStart(s.opponent)
    ensures CompleteGeneration(s, Responded(None), o, pos, id, date).history[0].formation
            == Analysis.DrawnFormation(o, pos)
  {
    MockResultNamesDrawnLabel(s, o, pos);
  }

  lemma MockResultNamesDrawnLabel(s: State, o: Oracle.Stream, pos: nat)
    requires Analysis.NoTokenStart(s.team) && Analysis.NoTokenStart(s.opponent)
    ensures Extraction.ExtractFormation(FinalResult(s, None, o, pos))
            == Analysis.DrawnFormation(o, pos)
  {
    assert FinalResult(s, None, o, pos) == Analysis.GenerateMockAnalysis(s.team, s.opponent, o, pos);
  }

  /** `saveCurrentFormation` (page.jsx:328-348): a no-op without a team or without
      tactics; otherwise one entry is put in front of the saved list, which has no cap. */
  function SaveCurrentFormation(s: State, id: int, date: string): (r: State)
    ensures s.team == [] || s.tactics == [] ==> r == s
    ensures s.team != [] && s.tactics != [] ==>
      && |r.saved| == |s.saved| + 1
      && r.saved[1..] == s.saved
      && r.saved[0] == SavedFormation(id, s.team, s.opponent, Extraction.GetFormationType(s.tactics),
                                      s.tactics, date, Some(s.customPositions))
      && r.(saved := s.saved) == s
  {
    if s.team == [] || s.tactics == [] then s
    else
      var entry := SavedFormation(id, s.team, s.opponent, Extraction.GetFormationType(s.tactics),
                                  s.tactics, date, Some(s.customPositions));
      s.(saved := [entry] + s.saved)
  }

  /** `loadHistoryItem` (page.jsx:276-281): team, opponent and tactics are replaced
      wholesale; the overrides stay. */
  function LoadHistoryItem(s: State, item: HistoryItem): (r: State)
    ensures r.team == item.team && r.opponent == item.opponent && r.tactics == item.result
    ensures r.customPositions == s.customPositions && r.history == s.history && r.saved == s.saved
    ensures r.activeTab == s.activeTab && !r.showHistory && r.showSaved == s.showSaved
  {
    s.(team := item.team, opponent := item.opponent, tactics := item.result, showHistory := false)
  }

  /** `loadSavedFormation` (page.jsx:351-358): as `LoadHistoryItem`, and the stored
      overrides (or none) replace the current ones and the create tab opens. */
  function LoadSavedFormation(s: State, entry: SavedFormation): (r: State)
    ensures r.team == entry.team && r.opponent == entry.opponent && r.tactics == entry.tactics
    ensures entry.customPositions.Some? ==> r.customPositions == entry.customPositions.value
    ensures entry.customPositions.None? ==> r.customPositions == map[]
    ensures r.activeTab == Create && !r.showSaved
    ensures r.history == s.history && r.saved == s.saved && r.showHistory == s.showHistory
  {
    s.(team := entry.team, opponent := entry.opponent, tactics := entry.tactics,
       customPositions := entry.customPositions.GetOr(map[]), showSaved := false, activeTab := Create)
  }

  /** Saving and then loading the saved entry gives back the same team, opponent,
      tactics and overrides. */
  lemma SaveThenLoadRestores(s: State, id: int, date: string, t: State)
    requires s.team != [] && s.tactics != []
    ensures var r := LoadSavedFormation(t, SaveCurrentFormation(s, id, date).saved[0]);
      r.team == s.team && r.opponent == s.opponent && r.tactics == s.tactics
      && r.customPositions == s.customPositions
  {
  }

  /** After a generation with a mock analysis for plain names, saving records the
      same formation as the history entry, even though the two use different
      extractors. */
  lemma {:induction false} SavedFormationMatchesHistory(s: State, o: Oracle.Stream, pos: nat, id: int, date: string, id': int, date': string)
    requires s.team != [] && Analysis.NoTokenStart(s.team) && Analysis.NoTokenStart(s.opponent)
    ensures var g := CompleteGeneration(s, Responded(None), o, pos, id, date);
      SaveCurrentFormation(g, id', date').saved[0].formation == g.history[0].formation
  {
    var g := CompleteGeneration(s, Responded(None), o, pos, id, date);
    assert g.tactics == Analysis.GenerateMockAnalysis(s.team, s.opponent, o, pos);
    assert g.tactics != [] by {
      assert |Analysis.Heading| > 0;
    }
  }

  /** One tick of the progress timer (page.jsx:138-144). */
  function ProgressStep(p: int): (r: int)
    ensures p >= 90 ==> r == 90
    ensures p < 90 ==> r == p + 10
  {
    if p >= 90 then 90 else p + 10
  }

  /** The progress after n ticks from 0. */
  function ProgressAfter(n: nat): int {
    if n == 0 then 0 else ProgressStep(ProgressAfter(n - 1))
  }

  /** From 0 the timer climbs in steps of ten and stays at 90. */
  lemma {:induction false} ProgressAfterTicks(n: nat)
    ensures ProgressAfter(n) == Min(10 * n, 90)
    ensures 0 <= ProgressAfter(n) <= 90 && ProgressAfter(n) % 10 == 0
  {
    if n > 0 {
      ProgressAfterTicks(n - 1);
    }
  }

  /** `text.includes(word)`: a scan from the left for a position where `word` starts. */
  function Includes(text: string, word: string): (b: bool)
    ensures b <==> exists i: nat | i <= |text| :: Analysis.At(text, i, word)
    decreases |text|
  {
    if Analysis.At(text, 0, word) then true
    else if text == [] then false
    else
      OccursInTail(text, word);
      Includes(text[1..], word)
  }

  /** An occurrence past the first position is an occurrence in the tail. */
  lemma OccursInTail(text: string, word: string)
    requires text != [] && !Analysis.At(text, 0, word)
    ensures (exists i: nat | i <= |text| :: Analysis.At(text, i, word))
        <==> (exists j: nat | j <= |text| - 1 :: Analysis.At(text[1..], j, word))
  {
    forall j: nat | j <= |text| - 1
      ensures Analysis.At(text[1..], j, word) <==> Analysis.At(text, j + 1, word)
    {
      if j + |word| <= |text| - 1 {
        assert text[1..][j..j + |word|] == text[j + 1..j + 1 + |word|];
      }
    }
    if exists i: nat | i <= |text| :: Analysis.At(text, i, word) {
      var i: nat :| i <= |text| && Analysis.At(text, i, word);
      assert i > 0 && Analysis.At(text[1..], i - 1, word);
    }
  }

  /** The guard of `formatTacticalAnalysis` (page.jsx:248), `!text ||
      text.includes("Error")`: empty text and text in which "Error" occurs are
      shown as they are. */
  predicate ShownVerbatim(text: string): (r: bool)
    ensures r <==> text == [] || exists i, j :: 0 <= i <= j <= |text| && text[i..j] == "Error"
  {
    ErrorOccurrence(text);
    text == [] || Includes(text, "Error")
  }

  lemma ErrorOccurrence(text: string)
    ensures (exists i: nat | i <= |text| :: Analysis.At(text, i, "Error"))
        <==> (exists i, j :: 0 <= i <= j <= |text| && text[i..j] == "Error")
  {
    if exists i, j :: 0 <= i <= j <= |text| && text[i..j] == "Error" {
      var i, j :| 0 <= i <= j <= |text| && text[i..j] == "Error";
      assert j == i + 5 && Analysis.At(text, i, "Error");
    }
    if exists i: nat | i <= |text| :: Analysis.At(text, i, "Error") {
      var i: nat :| i <= |text| && Analysis.At(text, i, "Error");
      assert text[i..i + 5] == "Error";
    }
  }

  /** The error text of a failed generation is never reformatted. */
  lemma FailedGenerationShownVerbatim(s: State, o: Oracle.Stream, pos: nat, id: int, date: string)
    ensures ShownVerbatim(CompleteGeneration(s, Failed, o, pos, id, date).tactics)
  {
    assert Analysis.At(GenerationError, 3, "Error");
  }
}
