/**
 * The mock match simulation (frontend/src/app/app/page.jsx: `simulateMatch`,
 * lines 361-440, and `generateMatchEvents`, lines 443-520) with `Math.random`
 * replaced by an injected stream (module Oracle).
 */
module Simulation {
  import opened Wrappers
  import Oracle
  import Sorting

  datatype Side = Team | Opponent

  /** A `{ team, opponent }` pair of numbers. */
  datatype Pair = Pair(team: int, opponent: int)

  datatype Stats = Stats(
    possession: Pair, shots: Pair, shotsOnTarget: Pair, corners: Pair,
    fouls: Pair, yellowCards: Pair, redCards: Pair)

  /** `type: 'goal'` (with its `assist` field) or `type: 'yellowCard'`. */
  datatype EventKind = Goal(assist: Option<string>) | YellowCard

  /** One timeline entry; `side` is the event's `team` field. */
  datatype MatchEvent = MatchEvent(minute: int, side: Side, kind: EventKind, player: string, description: string)

  datatype SimulationResult = SimulationResult(score: Pair, stats: Stats, events: seq<MatchEvent>)

  const TeamPlayers: seq<string> :=
    ["Smith", "Johnson", "Williams", "Brown", "Jones", "Garcia", "Miller", "Davis",
     "Rodriguez", "Martinez", "Hernandez"]
  const OpponentPlayers: seq<string> :=
    ["Taylor", "Anderson", "Thomas", "Jackson", "White", "Harris", "Martin", "Thompson",
     "Moore", "Young", "Allen"]

  /** `playerNames[side]`. */
  function Players(side: Side): (r: seq<string>)
    ensures |r| == 11
  {
    if side == Team then TeamPlayers else OpponentPlayers
  }

  lemma MulLeft(a: int, b: int, c: nat)
    requires a <= b
    ensures a * c <= b * c
  {
  }

  /** A multiple of `d` below `a` is a lower bound of the quotient. */
  lemma DivLower(x: int, a: nat, d: nat)
    requires 0 < d && x * d <= a
    ensures x <= a / d
  {
    if x > a / d {
      MulLeft(a / d + 1, x, d);
    }
  }

  /** A quotient by `d` of at most `d * b` is at most `b`. */
  lemma DivUpper(a: nat, b: nat, d: nat)
    requires 0 < d && a <= d * b
    ensures a / d <= b
  {
    var r := a / d;
    assert r * d <= a;
    if r > b {
      MulLeft(b + 1, r, d);
    }
  }

  /** `base/100 + Math.random() * spread/100` in thousandths: `Math.random()` is
      taken at a resolution of one thousandth, so the ratio is ten times `base`
      plus a draw of at most ten times `spread`. The upper end is included: the
      double sum of a `Math.random()` just below 1 can round up to it. */
  function Ratio(o: Oracle.Stream, pos: nat, base: nat, spread: nat): (q: nat)
    ensures 10 * base <= q <= 10 * (base + spread)
  {
    10 * base + Oracle.Draw(o, pos, 10 * spread + 1)
  }

  /** `Math.floor(shots * ratio)` for a ratio of `q` thousandths: the largest count
      whose thousandfold does not exceed `shots * q`; below one, it never exceeds
      the shots. */
  function ShotsOnTarget(shots: nat, q: nat): (r: nat)
    requires q <= 1000
    ensures 1000 * r <= shots * q < 1000 * (r + 1)
    ensures r <= shots
  {
    FloorBelowShots(shots, q);
    shots * q / 1000
  }

  lemma FloorBelowShots(shots: nat, q: nat)
    requires q <= 1000
    ensures 0 <= shots * q && shots * q / 1000 <= shots
  {
    var a := shots * q;
    MulLeft(0, q, shots);
    MulLeft(q, 1000, shots);
    assert a <= 1000 * shots;
    DivUpper(a, shots, 1000);
  }

  /** A ratio between `lo` and `hi` percent puts the floor between the floor of
      `lo` percent of the shots and `hi` percent of them. */
  lemma OnTargetPercent(shots: nat, q: nat, lo: nat, hi: nat)
    requires 10 * lo <= q <= 10 * hi <= 1000
    ensures shots * lo / 100 <= ShotsOnTarget(shots, q)
    ensures 100 * ShotsOnTarget(shots, q) <= shots * hi
  {
    var x := shots * lo / 100;
    assert x * 100 <= shots * lo;
    MulLeft(10 * lo, q, shots);
    assert x * 1000 <= shots * q;
    DivLower(x, shots * q, 1000);
    MulLeft(q, 10 * hi, shots);
    assert (10 * hi) * shots == 10 * (shots * hi);
  }

  /** The two score draws (page.jsx:380-381). */
  function DrawScore(o: Oracle.Stream, pos: nat): (score: Pair)
    ensures 0 <= score.team <= 4 && 0 <= score.opponent <= 3
  {
    Pair(Oracle.Draw(o, pos, 5), Oracle.Draw(o, pos + 1, 4))
  }

  /** The thirteen statistics draws that follow the score (page.jsx:383-425). */
  function DrawStats(o: Oracle.Stream, pos: nat): (s: Stats)
    ensures 45 <= s.possession.team <= 74 && s.possession.team + s.possession.opponent == 100
    ensures 8 <= s.shots.team <= 19 && 5 <= s.shots.opponent <= 14
    ensures 0 <= s.shotsOnTarget.team <= s.shots.team && 0 <= s.shotsOnTarget.opponent <= s.shots.opponent
    ensures s.shots.team * 40 / 100 <= s.shotsOnTarget.team && 100 * s.shotsOnTarget.team <= 70 * s.shots.team
    ensures s.shots.opponent * 30 / 100 <= s.shotsOnTarget.opponent && 100 * s.shotsOnTarget.opponent <= 70 * s.shots.opponent
    ensures 0 <= s.corners.team <= 9 && 0 <= s.corners.opponent <= 7
    ensures 5 <= s.fouls.team <= 16 && 5 <= s.fouls.opponent <= 16
    ensures 0 <= s.yellowCards.team <= 2 && 0 <= s.yellowCards.opponent <= 3
    ensures 0 <= s.redCards.team <= 1 && 0 <= s.redCards.opponent <= 1
  {
    var possessionTeam := 45 + Oracle.Draw(o, pos, 30);
    var shotsTeam := 8 + Oracle.Draw(o, pos + 1, 12);
    var shotsOpponent := 5 + Oracle.Draw(o, pos + 2, 10);
    OnTargetPercent(shotsTeam, Ratio(o, pos + 3, 40, 30), 40, 70);
    OnTargetPercent(shotsOpponent, Ratio(o, pos + 4, 30, 40), 30, 70);
    Stats(
      Pair(possessionTeam, 100 - possessionTeam),
      Pair(shotsTeam, shotsOpponent),
      Pair(ShotsOnTarget(shotsTeam, Ratio(o, pos + 3, 40, 30)),
           ShotsOnTarget(shotsOpponent, Ratio(o, pos + 4, 30, 40))),
      Pair(Oracle.Draw(o, pos + 5, 10), Oracle.Draw(o, pos + 6, 8)),
      Pair(Oracle.Draw(o, pos + 7, 12) + 5, Oracle.Draw(o, pos + 8, 12) + 5),
      Pair(Oracle.Draw(o, pos + 9, 3), Oracle.Draw(o, pos + 10, 4)),
      Pair(Oracle.Draw(o, pos + 11, 2), Oracle.Draw(o, pos + 12, 2)))
  }

  /** `Math.floor(Math.random() * 90) + 1`. */
  function MinuteDraw(o: Oracle.Stream, pos: nat): (m: int)
    ensures 1 <= m <= 90
  {
    Oracle.Draw(o, pos, 90) + 1
  }

  /** `s` with every `v` removed. */
  function Without(s: seq<int>, v: int): (r: seq<int>)
    ensures |r| <= |s| && (v in s ==> |r| < |s|)
    ensures forall x :: x in r <==> x in s && x != v
  {
    if s == [] then []
    else if s[0] == v then Without(s[1..], v)
    else [s[0]] + Without(s[1..], v)
  }

  /** A sequence holding every number from 1 to k has at least k elements. */
  lemma {:induction false} CoversRange(s: seq<int>, k: nat)
    requires forall v :: 1 <= v <= k ==> v in s
    ensures k <= |s|
    decreases k
  {
    if k > 0 {
      CoversRange(Without(s, k), k - 1);
    }
  }

  /** Fewer than ninety taken minutes leave a minute free. */
  lemma FreeMinute(taken: seq<int>) returns (v: int)
    requires |taken| < 90
    ensures 1 <= v <= 90 && v !in taken
  {
    if forall w :: 1 <= w <= 90 ==> w in taken {
      CoversRange(taken, 90);
    }
    v :| 1 <= v <= 90 && v !in taken;
  }

  /** The `do { ... } while (goalMinutes.includes(minute))` loop (page.jsx:454-457):
      the first draw, from `pos` on, that is not yet taken. It terminates because the
      stream is fair and a minute is still free. */
  method FreshMinute(o: Oracle.Stream, pos: nat, taken: seq<int>) returns (minute: int, next: nat)
    requires Oracle.Fair(o, 90)
    requires |taken| < 90
    ensures 1 <= minute <= 90 && minute !in taken
    ensures pos < next && minute == MinuteDraw(o, next - 1)
    ensures forall k: nat :: pos <= k < next - 1 ==> MinuteDraw(o, k) in taken
  {
    var free := FreeMinute(taken);
    assert Oracle.Recurs(o, 90, pos, free - 1);
    ghost var w: nat :| w >= pos && Oracle.Draw(o, w, 90) == free - 1;
    minute := MinuteDraw(o, pos);
    next := pos + 1;
    while minute in taken
      invariant pos < next <= w + 1
      invariant minute == MinuteDraw(o, next - 1)
      invariant forall k: nat :: pos <= k < next - 1 ==> MinuteDraw(o, k) in taken
      decreases w + 1 - next
    {
      minute := MinuteDraw(o, next);
      next := next + 1;
    }
  }

  /** A goal of `side` at `minute` (page.jsx:472-482 and 486-496): draws of the scorer,
      the assister, whether `assist` is set and whether the description names the
      assister — the last two are independent. */
  function GoalEvent(side: Side, club: string, minute: int, o: Oracle.Stream, pos: nat): (e: MatchEvent)
    ensures e.minute == minute && e.side == side && e.kind.Goal?
    ensures e.player in Players(side)
    ensures e.kind.assist.Some? ==> e.kind.assist.value in Players(side)
  {
    var scorer := Players(side)[Oracle.Draw(o, pos, |Players(side)|)];
    var assister := Players(side)[Oracle.Draw(o, pos + 1, |Players(side)|)];
    var assist := if Oracle.Chance(o, pos + 2, 3) then Some(assister) else None;
    var mention := if Oracle.Chance(o, pos + 3, 3) then " (assist: " + assister + ")" else "";
    MatchEvent(minute, side, Goal(assist), scorer, scorer + " scores for " + club + mention + "!")
  }

  /** One yellow card (page.jsx:505-515): side, minute and player are drawn. */
  function CardEvent(team: string, opponent: string, o: Oracle.Stream, pos: nat): (e: MatchEvent)
    ensures e.kind.YellowCard? && 1 <= e.minute <= 90 && e.player in Players(e.side)
  {
    var side := if Oracle.Chance(o, pos, 5) then Team else Opponent;
    var player := Players(side)[Oracle.Draw(o, pos + 2, |Players(side)|)];
    MatchEvent(MinuteDraw(o, pos + 1), side, YellowCard, player,
               "Yellow card for " + player + " (" + (if side == Team then team else opponent) + ")")
  }

  /** Goals scored by one side. */
  function ScoredBy(side: Side): MatchEvent -> bool {
    (e: MatchEvent) => e.kind.Goal? && e.side == side
  }

  /** Goals scored at one minute. */
  function GoalAt(minute: int): MatchEvent -> bool {
    (e: MatchEvent) => e.kind.Goal? && e.minute == minute
  }

  function Minute(e: MatchEvent): int {
    e.minute
  }

  function Identity(m: int): int {
    m
  }

  /** Everything `generateMatchEvents` promises of a timeline for a given score. */
  ghost predicate WellFormedTimeline(events: seq<MatchEvent>, teamScore: nat, opponentScore: nat) {
    && Sorting.Count(events, ScoredBy(Team)) == teamScore
    && Sorting.Count(events, ScoredBy(Opponent)) == opponentScore
    && teamScore + opponentScore + 1 <= |events| <= teamScore + opponentScore + 5
    && (forall i, j :: 0 <= i < j < |events| && events[i].kind.Goal? && events[j].kind.Goal? ==>
          events[i].minute != events[j].minute)
    && (forall i :: 0 <= i < |events| ==> 1 <= events[i].minute <= 90 && events[i].player in Players(events[i].side))
    && (forall i, j :: 0 <= i < j < |events| ==> events[i].minute <= events[j].minute)
  }

  /** The goal minutes: `totalGoals` distinct draws (page.jsx:452-460). */
  method DrawGoalMinutes(total: nat, o: Oracle.Stream, pos: nat) returns (minutes: seq<int>, next: nat)
    requires total <= 90
    requires Oracle.Fair(o, 90)
    ensures |minutes| == total && next >= pos
    ensures forall i :: 0 <= i < |minutes| ==> 1 <= minutes[i] <= 90
    ensures forall i, j :: 0 <= i < j < |minutes| ==> minutes[i] != minutes[j]
  {
    minutes := [];
    next := pos;
    while |minutes| < total
      invariant |minutes| <= total && next >= pos
      invariant forall i :: 0 <= i < |minutes| ==> 1 <= minutes[i] <= 90
      invariant forall i, j :: 0 <= i < j < |minutes| ==> minutes[i] != minutes[j]
    {
      var m;
      m, next := FreshMinute(o, next, minutes);
      minutes := minutes + [m];
    }
  }

  /** `goals` are goals at the minutes of `minutes`, in that order, each scored by
      a player of its side; so per minute they are as many as the minute occurs. */
  ghost predicate GoalsAt(goals: seq<MatchEvent>, minutes: seq<int>) {
    && |goals| == |minutes|
    && (forall i :: 0 <= i < |goals| ==>
          goals[i].kind.Goal? && goals[i].minute == minutes[i] && goals[i].player in Players(goals[i].side))
    && (forall m :: Sorting.Count(goals, GoalAt(m)) == multiset(minutes)[m])
  }

  /** The `goalMinutes.forEach` loop (page.jsx:464-500): each sorted minute goes to
      the team while it still owes goals and either the opponent owes none or a coin
      says so; otherwise to the opponent. Every minute gets a goal and the per-side
      counts come out equal to the score. */
  method AssignGoals(team: string, opponent: string, teamScore: nat, opponentScore: nat,
                     sorted: seq<int>, o: Oracle.Stream, pos: nat) returns (goals: seq<MatchEvent>, next: nat)
    requires |sorted| == teamScore + opponentScore
    ensures next >= pos && GoalsAt(goals, sorted)
    ensures Sorting.Count(goals, ScoredBy(Team)) == teamScore
    ensures Sorting.Count(goals, ScoredBy(Opponent)) == opponentScore
  {
    goals := [];
    next := pos;
    var teamGoals, opponentGoals := 0, 0;
    while |goals| < |sorted|
      invariant |goals| <= |sorted| && next >= pos
      invariant teamGoals + opponentGoals == |goals|
      invariant teamGoals <= teamScore && opponentGoals <= opponentScore
      invariant Sorting.Count(goals, ScoredBy(Team)) == teamGoals
      invariant Sorting.Count(goals, ScoredBy(Opponent)) == opponentGoals
      invariant GoalsAt(goals, sorted[..|goals|])
    {
      var e;
      e, next := NextGoal(team, opponent, teamScore, opponentScore, teamGoals, opponentGoals, sorted[|goals|], o, next);
      if e.side == Team {
        teamGoals := teamGoals + 1;
      } else {
        opponentGoals := opponentGoals + 1;
      }
      PrefixStep(sorted, |goals|);
      AppendGoal(goals, e, sorted[..|goals|]);
      goals := goals + [e];
    }
    assert sorted[..|goals|] == sorted;
  }

  /** One step of the `forEach`: the side is the team's while it owes goals and
      either the opponent owes none or the coin (drawn only then) says so; four
      more draws make the goal itself. */
  method NextGoal(team: string, opponent: string, teamScore: nat, opponentScore: nat,
                  teamGoals: nat, opponentGoals: nat, minute: int, o: Oracle.Stream, pos: nat)
    returns (e: MatchEvent, next: nat)
    requires teamGoals <= teamScore && opponentGoals <= opponentScore
    requires teamGoals + opponentGoals < teamScore + opponentScore
    ensures e.kind.Goal? && e.minute == minute && e.player in Players(e.side)
    ensures e.side == Team ==> teamGoals < teamScore
    ensures e.side == Opponent ==> opponentGoals < opponentScore
    ensures opponentGoals == opponentScore ==> e.side == Team
    ensures teamGoals == teamScore ==> e.side == Opponent
    ensures next >= pos
  {
    next := pos;
    var isTeamGoal := false;
    if teamGoals < teamScore {
      if opponentGoals >= opponentScore {
        isTeamGoal := true;
      } else {
        isTeamGoal := Oracle.Chance(o, next, 5);
        next := next + 1;
      }
    }
    if isTeamGoal && teamGoals < teamScore {
      e := GoalEvent(Team, team, minute, o, next);
    } else if opponentGoals < opponentScore {
      e := GoalEvent(Opponent, opponent, minute, o, next);
    } else {
      assert false;
    }
    next := next + 4;
  }

  lemma PrefixStep(s: seq<int>, k: nat)
    requires k < |s|
    ensures s[..k + 1] == s[..k] + [s[k]]
  {
  }

  /** Appending a goal at the next minute keeps `GoalsAt` and adds one to its
      side's count. */
  lemma AppendGoal(goals: seq<MatchEvent>, e: MatchEvent, minutes: seq<int>)
    requires GoalsAt(goals, minutes)
    requires e.kind.Goal? && e.player in Players(e.side)
    ensures GoalsAt(goals + [e], minutes + [e.minute])
    ensures forall side ::
      Sorting.Count(goals + [e], ScoredBy(side)) == Sorting.Count(goals, ScoredBy(side)) + (if e.side == side then 1 else 0)
  {
    forall side
      ensures Sorting.Count(goals + [e], ScoredBy(side)) ==
        Sorting.Count(goals, ScoredBy(side)) + (if e.side == side then 1 else 0)
    {
      Sorting.CountAppend(goals, e, ScoredBy(side));
    }
    forall m
      ensures Sorting.Count(goals + [e], GoalAt(m)) == multiset(minutes + [e.minute])[m]
    {
      Sorting.CountAppend(goals, e, GoalAt(m));
    }
  }

  /** The yellow cards: one to five of them (page.jsx:503-516). */
  method DrawCards(team: string, opponent: string, o: Oracle.Stream, pos: nat) returns (cards: seq<MatchEvent>, next: nat)
    ensures 1 <= |cards| <= 5 && next >= pos
    ensures forall i :: 0 <= i < |cards| ==>
      cards[i].kind.YellowCard? && 1 <= cards[i].minute <= 90 && cards[i].player in Players(cards[i].side)
  {
    var count := Oracle.Draw(o, pos, 5) + 1;
    next := pos + 1;
    cards := [];
    while |cards| < count
      invariant |cards| <= count && next >= pos
      invariant forall i :: 0 <= i < |cards| ==>
        cards[i].kind.YellowCard? && 1 <= cards[i].minute <= 90 && cards[i].player in Players(cards[i].side)
    {
      cards := cards + [CardEvent(team, opponent, o, next)];
      next := next + 3;
    }
  }

  /** `generateMatchEvents` (page.jsx:443-520): the goals, then the cards, sorted by
      minute. The per-side goal counts equal the score, goal minutes are distinct,
      the timeline is in minute order and is a permutation of the generated events. */
  method GenerateMatchEvents(team: string, opponent: string, teamScore: nat, opponentScore: nat,
                             o: Oracle.Stream, pos: nat)
    returns (events: seq<MatchEvent>, next: nat, generated: seq<MatchEvent>)
    requires teamScore + opponentScore <= 90
    requires Oracle.Fair(o, 90)
    ensures next >= pos
    ensures WellFormedTimeline(events, teamScore, opponentScore)
    ensures GoalsThenCards(generated, teamScore + opponentScore)
    ensures multiset(events) == multiset(generated)
    ensures forall k :: Sorting.WithKey(events, Minute, k) == Sorting.WithKey(generated, Minute, k)
  {
    var minutes;
    minutes, next := DrawGoalMinutes(teamScore + opponentScore, o, pos);
    var sorted := Sorting.SortBy(minutes, Identity);
    var goals;
    goals, next := AssignGoals(team, opponent, teamScore, opponentScore, sorted, o, next);
    var cards;
    cards, next := DrawCards(team, opponent, o, next);
    generated := goals + cards;
    events := Sorting.SortBy(generated, Minute);
    TimelineFacts(goals, cards, minutes, sorted, events, teamScore, opponentScore);
    GoalsPushedInOrder(goals, cards, minutes, sorted);
    forall k
      ensures Sorting.WithKey(events, Minute, k) == Sorting.WithKey(generated, Minute, k)
    {
      Sorting.SortByIsStable(generated, Minute, k);
    }
  }

  /** The order in which `generateMatchEvents` pushes its events before sorting:
      first the goals, at strictly increasing minutes, then the cards. */
  ghost predicate GoalsThenCards(generated: seq<MatchEvent>, goalCount: nat) {
    && goalCount <= |generated|
    && (forall i :: 0 <= i < |generated| ==> (generated[i].kind.Goal? <==> i < goalCount))
    && (forall i, j :: 0 <= i < j < goalCount ==> generated[i].minute < generated[j].minute)
  }

  /** Goals at the sorted goal minutes, then the cards, are in push order. */
  lemma GoalsPushedInOrder(goals: seq<MatchEvent>, cards: seq<MatchEvent>, minutes: seq<int>, sorted: seq<int>)
    requires GoalsAt(goals, sorted)
    requires forall i :: 0 <= i < |cards| ==> cards[i].kind.YellowCard?
    requires forall i, j :: 0 <= i < j < |minutes| ==> minutes[i] != minutes[j]
    requires Sorting.SortedBy(sorted, Identity) && multiset(sorted) == multiset(minutes)
    ensures GoalsThenCards(goals + cards, |goals|)
  {
    Sorting.DistinctOccursOnce(minutes);
    StrictlyIncreasing(sorted);
    PushOrder(goals, cards, sorted);
  }

  /** Goals at the sorted distinct minutes followed by cards are in push order. */
  lemma PushOrder(goals: seq<MatchEvent>, cards: seq<MatchEvent>, sorted: seq<int>)
    requires GoalsAt(goals, sorted)
    requires forall i :: 0 <= i < |cards| ==> cards[i].kind.YellowCard?
    requires forall i, j :: 0 <= i < j < |sorted| ==> sorted[i] < sorted[j]
    ensures GoalsThenCards(goals + cards, |goals|)
  {
    var g := goals + cards;
    forall i | 0 <= i < |g|
      ensures g[i].kind.Goal? <==> i < |goals|
    {
      if i >= |goals| {
        assert g[i] == cards[i - |goals|];
      }
    }
  }

  /** A sorted sequence in which nothing occurs twice is strictly increasing. */
  lemma StrictlyIncreasing(sorted: seq<int>)
    requires Sorting.SortedBy(sorted, Identity)
    requires forall x :: multiset(sorted)[x] <= 1
    ensures forall i, j :: 0 <= i < j < |sorted| ==> sorted[i] < sorted[j]
  {
    forall i, j | 0 <= i < j < |sorted|
      ensures sorted[i] < sorted[j]
    {
      assert Identity(sorted[i]) <= Identity(sorted[j]);
      if sorted[i] == sorted[j] {
        TwiceInMultiset(sorted, i, j);
      }
    }
  }

  /** A value at two positions occurs at least twice. */
  lemma TwiceInMultiset(s: seq<int>, i: int, j: int)
    requires 0 <= i < j < |s| && s[i] == s[j]
    ensures multiset(s)[s[i]] >= 2
  {
    assert s == s[..j] + s[j..];
    assert s[i] in s[..j];
    assert s[j..][0] == s[j];
  }

  /** The bookkeeping behind `GenerateMatchEvents`' contract. */
  lemma TimelineFacts(goals: seq<MatchEvent>, cards: seq<MatchEvent>, minutes: seq<int>, sorted: seq<int>,
                      events: seq<MatchEvent>, teamScore: nat, opponentScore: nat)
    requires GoalsAt(goals, sorted) && |sorted| == teamScore + opponentScore && 1 <= |cards| <= 5
    requires Sorting.Count(goals, ScoredBy(Team)) == teamScore
    requires Sorting.Count(goals, ScoredBy(Opponent)) == opponentScore
    requires forall i :: 0 <= i < |minutes| ==> 1 <= minutes[i] <= 90
    requires forall i :: 0 <= i < |cards| ==>
      cards[i].kind.YellowCard? && 1 <= cards[i].minute <= 90 && cards[i].player in Players(cards[i].side)
    requires forall i, j :: 0 <= i < j < |minutes| ==> minutes[i] != minutes[j]
    requires multiset(sorted) == multiset(minutes)
    requires events == Sorting.SortBy(goals + cards, Minute)
    ensures WellFormedTimeline(events, teamScore, opponentScore)
  {
    SideCounts(goals, cards, events, Team);
    SideCounts(goals, cards, events, Opponent);
    Sorting.DistinctOccursOnce(minutes);
    DistinctGoalMinutes(goals, cards, sorted, events);
    SortedMinutesInRange(minutes, sorted);
    EventsInRange(goals, cards, sorted, events);
  }

  /** Sorting the goals and cards keeps each side's goal count, and cards add none. */
  lemma SideCounts(goals: seq<MatchEvent>, cards: seq<MatchEvent>, events: seq<MatchEvent>, side: Side)
    requires forall i :: 0 <= i < |cards| ==> cards[i].kind.YellowCard?
    requires events == Sorting.SortBy(goals + cards, Minute)
    ensures Sorting.Count(events, ScoredBy(side)) == Sorting.Count(goals, ScoredBy(side))
  {
    Sorting.CountSortBy(goals + cards, Minute, ScoredBy(side));
    Sorting.CountConcat(goals, cards, ScoredBy(side));
    Sorting.CountNone(cards, ScoredBy(side));
  }

  /** No two goals of the timeline share a minute when the goal minutes are distinct. */
  lemma DistinctGoalMinutes(goals: seq<MatchEvent>, cards: seq<MatchEvent>, sorted: seq<int>, events: seq<MatchEvent>)
    requires GoalsAt(goals, sorted)
    requires forall x :: multiset(sorted)[x] <= 1
    requires forall i :: 0 <= i < |cards| ==> cards[i].kind.YellowCard?
    requires events == Sorting.SortBy(goals + cards, Minute)
    ensures forall i, j :: 0 <= i < j < |events| && events[i].kind.Goal? && events[j].kind.Goal? ==>
      events[i].minute != events[j].minute
  {
    forall i, j | 0 <= i < j < |events| && events[i].kind.Goal? && events[j].kind.Goal?
      ensures events[i].minute != events[j].minute
    {
      var m := events[i].minute;
      if events[j].minute == m {
        Sorting.CountTwo(events, GoalAt(m), i, j);
        Sorting.CountSortBy(goals + cards, Minute, GoalAt(m));
        Sorting.CountConcat(goals, cards, GoalAt(m));
        Sorting.CountNone(cards, GoalAt(m));
      }
    }
  }

  /** A permutation of in-range minutes is in range. */
  lemma SortedMinutesInRange(minutes: seq<int>, sorted: seq<int>)
    requires forall i :: 0 <= i < |minutes| ==> 1 <= minutes[i] <= 90
    requires multiset(sorted) == multiset(minutes)
    ensures forall i :: 0 <= i < |sorted| ==> 1 <= sorted[i] <= 90
  {
    forall i | 0 <= i < |sorted|
      ensures 1 <= sorted[i] <= 90
    {
      assert sorted[i] in multiset(minutes);
    }
  }

  /** Every timeline entry is one of the goals or cards, so its minute and player are valid. */
  lemma EventsInRange(goals: seq<MatchEvent>, cards: seq<MatchEvent>, sorted: seq<int>, events: seq<MatchEvent>)
    requires GoalsAt(goals, sorted)
    requires forall i :: 0 <= i < |sorted| ==> 1 <= sorted[i] <= 90
    requires forall i :: 0 <= i < |cards| ==> 1 <= cards[i].minute <= 90 && cards[i].player in Players(cards[i].side)
    requires events == Sorting.SortBy(goals + cards, Minute)
    ensures forall i :: 0 <= i < |events| ==> 1 <= events[i].minute <= 90 && events[i].player in Players(events[i].side)
  {
    forall i | 0 <= i < |events|
      ensures 1 <= events[i].minute <= 90 && events[i].player in Players(events[i].side)
    {
      assert events[i] in multiset(goals + cards);
      assert events[i] in goals + cards;
    }
  }

  /** `simulateMatch` (page.jsx:361-440): nothing without both names; otherwise the
      score, the statistics and a timeline whose goals match the score. */
  method SimulateMatch(team: string, opponent: string, o: Oracle.Stream, pos: nat)
    returns (r: Option<SimulationResult>, next: nat)
    requires Oracle.Fair(o, 90)
    ensures r.None? <==> team == [] || opponent == []
    ensures r.None? ==> next == pos
    ensures r.Some? ==> r.value.score == DrawScore(o, pos)
    ensures r.Some? ==>
      && 0 <= r.value.score.team <= 4 && 0 <= r.value.score.opponent <= 3
      && r.value.stats == DrawStats(o, pos + 2)
      && r.value.stats.possession.team + r.value.stats.possession.opponent == 100
      && r.value.stats.shotsOnTarget.team <= r.value.stats.shots.team
      && r.value.stats.shotsOnTarget.opponent <= r.value.stats.shots.opponent
      && WellFormedTimeline(r.value.events, r.value.score.team, r.value.score.opponent)
  {
    if team == [] || opponent == [] {
      return None, pos;
    }
    var score := DrawScore(o, pos);
    var stats := DrawStats(o, pos + 2);
    var events, generated;
    events, next, generated := GenerateMatchEvents(team, opponent, score.team, score.opponent, o, pos + 15);
    r := Some(SimulationResult(score, stats, events));
  }
}
