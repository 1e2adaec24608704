# StatTact tactics core in Dafny

StatTact is a football tactics assistant. Given a team and an opponent, it
asks a backend for a tactical analysis. When the backend returns nothing, it
writes a mock analysis around a randomly chosen formation label. It then reads
the formation label back out of the text and draws the matching eleven-player
layout, which the user may drag about. It also keeps a short history and an
uncapped list of saved formations, and it can simulate a match with random
statistics and a goal timeline. Notifications go through a small toast queue.

This project models that logic as pure Dafny functions and methods and proves
what the code promises about it:

- `wrappers.dfy` (module `Wrappers`): `Option`.
- `oracle.dfy` (module `Oracle`): `Math.random`, replaced by an injected
  stream of naturals. `Math.floor(Math.random() * n)` is `Draw(o, pos, n)`,
  the value at position `pos` taken modulo `n`. `Math.random() > t/10` is
  `Chance(o, pos, t)`. `Fair(o, n)` says that every value below `n` keeps
  recurring in the stream.
- `extraction.dfy` (module `Extraction`): the regular expressions of
  `extractFormation` and `getFormationType`, modelled as JavaScript evaluates
  them:
  - the leftmost match wins;
  - the alternation tries a four-group token, then three groups, then two;
  - `/i` is ASCII case folding.
- `analysis.dfy` (module `Analysis`): the mock analysis template and its round
  trip through both extractors.
- `catalogue.dfy` (module `Catalogue`): `getPlayerPositions`, and how a slot's
  custom position overrides it. Also the drop handler.
- `session.dfy` (module `Session`): a generation, the history, saving and
  loading formations, the progress timer, and the guard of the analysis
  formatter.
- `sorting.dfy` (module `Sorting`): the stable `Array.prototype.sort` used
  for minutes and events, as a stable insertion sort with counting lemmas.
- `simulation.dfy` (module `Simulation`): `simulateMatch` and
  `generateMatchEvents`.
- `toasts.dfy` (module `Toasts`): the `ToastProvider` queue in
  `sonner.jsx`. It covers adding, removing by id, expiry, the visible slice,
  and the position, style and icon fallbacks.

Three facts about the extractors shape the rest of the model:

- `extractFormation` looks only for `formation is: ` followed by a token,
  then for a bare token. Only `getFormationType` also looks for
  `recommended formation`, so the two extractors can disagree
  (`Extraction.FormationTypeCanDiffer`).
- The four-group alternative is tried first, so `formation is: 4-4-2-1`
  yields `4-4-2-1` and not `4-4-2` (`Extraction.LongestTokenWins`). The
  phrase must be followed by a colon (`Extraction.FormationIsNeedsColon`).
- Neither extractor is limited to the catalogue labels. Each returns any token
  of two to four single digits joined by hyphens, such as `1-1`, and every
  match carries such a token (`Extraction.MatchNeedsToken`).

## Model

| member | source | states |
|---|---|---|
| Extraction.TokenAt | frontend/src/app/app/page.jsx:238-241 | A token is found at a position exactly when two digit-hyphen groups start there. The token found is the text at that position. It has seven characters exactly when four groups start there and five or more exactly when three do, so the longest alternative wins. |
| Extraction.Search | frontend/src/app/app/page.jsx:237-245 | The position returned is a match and no earlier position from the start point matches. No position is returned only when nothing at or after the start point matches. |
| Extraction.ExtractFormation | frontend/src/app/app/page.jsx:237-245 | The result is always a token. When a `formation is: ` phrase followed by a token occurs, the result is the token of the first occurrence. Otherwise it is the first bare token. With no token anywhere it is `4-3-3`. |
| Extraction.GetFormationType | frontend/src/app/app/page.jsx:552-573 | Empty text gives `4-3-3`. Otherwise the result is the first `formation is: ` token; failing that the first `recommended formation` token; failing that the first bare token; failing that `4-3-3`. |
| Extraction.NoTokenMeansDefault | frontend/src/app/app/page.jsx:237-245 | Text without any digit immediately followed by a hyphen gives `4-3-3` from both extractors. |
| Extraction.ExtractAgreesWithFormationType | frontend/src/app/app/page.jsx:552-573 | The two extractors agree whenever the `formation is: ` step matches or no `recommended formation` phrase matches. |
| Extraction.FormationTypeCanDiffer | frontend/src/app/app/page.jsx:552-573 | For `1-1 recommended formation 4-4-2`, `extractFormation` gives `1-1` and `getFormationType` gives `4-4-2`. |
| Extraction.LongestTokenWins | frontend/src/app/app/page.jsx:238-239 | `formation is: 4-4-2-1` yields the four-group token `4-4-2-1`, not `4-4-2`. |
| Extraction.FormationIsNeedsColon | frontend/src/app/app/page.jsx:238 | A `formation is` match always has the colon right after the phrase. |
| Extraction.MatchNeedsToken | frontend/src/app/app/page.jsx:238-241 | Every match of a pattern contains a bare token whose capture is the match's capture. For `formation is: ` the token starts right after the phrase. |
| Analysis.TemplateLayout | frontend/src/app/app/page.jsx:199-202 | The mock text opens with the heading naming the team and then the opponent. Right after the lead comes `formation is: `, the label and the end of that line. |
| Analysis.DrawnFormation | frontend/src/app/app/page.jsx:196-197 | The drawn label is one of the six catalogue labels. |
| Analysis.GenerateMockAnalysis | frontend/src/app/app/page.jsx:195-234 | When neither name contains a digit followed by a hyphen, both extractors read back exactly the drawn label from the generated text. |
| Analysis.MockAnalysisRoundTrip | frontend/src/app/app/page.jsx:199-202 | For such names and any token, the template filled with that token extracts back to the token under both extractors. |
| Analysis.RoundTripForPlainNames | frontend/src/app/app/page.jsx:199-202 | The same round trip, stated for any names, conditional on the names having no digit-hyphen start. |
| Analysis.LeadHasNoTokenStart | frontend/src/app/app/page.jsx:199-202 | The text before the formation sentence contains no token start and ends with a space, provided the names contain none. |
| Analysis.FirstFormationIsAfterLead | frontend/src/app/app/page.jsx:202 | In the mock text the first `formation is: ` match is the template's own, and it captures the drawn label. |
| Catalogue.PlayerPositions | frontend/src/app/app/page.jsx:576-689 | Every label gets exactly 11 slots. The last slot is the goalkeeper at (50, 88) and no other slot is `GK`. Every coordinate lies in [0, 100]. |
| Catalogue.UnknownLabelFallsBack | frontend/src/app/app/page.jsx:672-686 | A label outside the six cases gets the same slots as `4-3-3`. |
| Catalogue.OneGoalkeeper | frontend/src/app/app/page.jsx:576-689 | A slot is `GK` exactly when it is the eleventh. |
| Catalogue.PositionsForTactics | frontend/src/app/app/page.jsx:576-581 | The layout for any tactics text has 11 slots ending with the goalkeeper. Empty text gives the `4-3-3` layout. |
| Catalogue.MockAnalysisLayout | frontend/src/app/app/page.jsx:195-234 | The layout drawn for a mock analysis is the layout of the label the mock chose. |
| Catalogue.Placements | frontend/src/app/app/page.jsx:705-706 | A slot is drawn at the override stored under its label when one exists, and at its catalogue position otherwise. |
| Catalogue.NamesakesShareOverride | frontend/src/app/app/page.jsx:705-706 | Two slots with the same label (such as the two CBs) share one override. |
| Catalogue.Drop | frontend/src/app/app/page.jsx:533-549 | Without a dragged label nothing changes. Otherwise the drag ends, only the dragged label's override becomes the drop point, and every other override stays. |
| Catalogue.DropMovesNamesakes | frontend/src/app/app/page.jsx:533-549 | After a drop every slot with the dragged label sits at the drop point, and every other slot is drawn where it was before. |
| Session.PushHistory | frontend/src/app/app/page.jsx:167-168 | The new item is first. The old items follow in order, and the list holds at most five. |
| Session.PushAllKeepsMostRecent | frontend/src/app/app/page.jsx:167-168 | After any run of generations the history is the five most recent items, newest first. |
| Session.BeginGeneration | frontend/src/app/app/page.jsx:131-134 | Tactics and overrides are cleared and nothing else changes. |
| Session.FinalResult | frontend/src/app/app/page.jsx:149-152 | A non-empty backend text is used as is. A missing or empty one is replaced by the mock analysis. |
| Session.Record | frontend/src/app/app/page.jsx:154-171 | The text becomes the tactics. The history gains one item first, naming the teams, the text, the date and the extracted label, and keeps at most five. Nothing else changes. |
| Session.CompleteGeneration | frontend/src/app/app/page.jsx:147-189 | A failed request sets only the fixed error text. A response is recorded as above. |
| Session.MockGenerationRecordsDrawnLabel | frontend/src/app/app/page.jsx:152-165 | With no backend text and plain names, the new history item's formation is the label the mock drew. |
| Session.MockResultNamesDrawnLabel | frontend/src/app/app/page.jsx:152 | The mock fallback text extracts to the drawn label. |
| Session.SaveCurrentFormation | frontend/src/app/app/page.jsx:328-348 | Without a team or tactics nothing changes. Otherwise exactly one entry is put in front and the earlier entries stay unchanged and uncapped. The entry holds the teams, the tactics, the `getFormationType` label and a copy of the overrides. Nothing else changes. |
| Session.LoadHistoryItem | frontend/src/app/app/page.jsx:276-281 | Team, opponent and tactics become the item's. The history panel closes. Overrides, lists, tab and saved panel stay. |
| Session.LoadSavedFormation | frontend/src/app/app/page.jsx:351-358 | Team, opponent and tactics become the entry's. The overrides become the stored ones, or none when absent. The saved panel closes, the create tab opens, and the lists stay. |
| Session.SaveThenLoadRestores | frontend/src/app/app/page.jsx:328-358 | Loading a just-saved entry restores the team, opponent, tactics and overrides it was saved from. |
| Session.SavedFormationMatchesHistory | frontend/src/app/app/page.jsx:158-165 | After a mock generation for plain names, saving records the same label as the history item, although it uses the other extractor. |
| Session.ProgressStep | frontend/src/app/app/page.jsx:138-144 | At 90 or above the progress stays at 90; below it, it grows by 10. |
| Session.ProgressAfterTicks | frontend/src/app/app/page.jsx:137-145 | From 0, after n ticks the progress is min(10n, 90), a multiple of 10 in [0, 90]. |
| Session.Includes | frontend/src/app/app/page.jsx:248 | `text.includes(word)` holds exactly when the word occurs at some position of the text. |
| Session.ShownVerbatim | frontend/src/app/app/page.jsx:248 | The formatter returns the text unchanged exactly when it is empty or contains `Error` somewhere. |
| Session.FailedGenerationShownVerbatim | frontend/src/app/app/page.jsx:180-182 | The error text set on failure contains `Error`, so the formatter shows it unformatted. |
| Sorting.SortBy | frontend/src/app/app/page.jsx:462 | The result is a permutation of the input and its keys never decrease. |
| Sorting.SortByIsStable | frontend/src/app/app/page.jsx:519 | Elements with equal keys keep their original relative order. |
| Sorting.CountSortBy | frontend/src/app/app/page.jsx:519 | Sorting changes no count of elements satisfying any predicate. |
| Simulation.DrawScore | frontend/src/app/app/page.jsx:380-381 | The team score lies in [0, 4] and the opponent's in [0, 3]. |
| Simulation.Ratio | frontend/src/app/app/page.jsx:389-390 | The drawn ratio, in thousandths, lies in [base%, (base + spread)%], both ends included. |
| Simulation.ShotsOnTarget | frontend/src/app/app/page.jsx:389-390 | The result is the floor of shots times the drawn ratio, and never exceeds the shots. |
| Simulation.OnTargetPercent | frontend/src/app/app/page.jsx:389-390 | For a ratio in [lo%, hi%], at least floor(shots·lo/100) shots are on target, and at most hi% of the shots. |
| Simulation.DrawStats | frontend/src/app/app/page.jsx:383-425 | Team possession lies in [45, 74] and the two add up to 100. Shots lie in [8, 19] and [5, 14]. Shots on target never exceed shots. They are at least floor(40%) and floor(30%) of the shots respectively, and at most 70% of them. Corners lie in [0, 9] and [0, 7], fouls in [5, 16], yellow cards in [0, 2] and [0, 3], and red cards in [0, 1]. |
| Simulation.FreshMinute | frontend/src/app/app/page.jsx:454-457 | The minute returned lies in [1, 90] and is not yet taken. It is the first draw that is not taken, and every earlier draw was taken. |
| Simulation.DrawGoalMinutes | frontend/src/app/app/page.jsx:452-460 | As many minutes as goals, pairwise distinct, each in [1, 90]. |
| Simulation.GoalEvent | frontend/src/app/app/page.jsx:471-496 | A goal at the given minute for the given side. Its scorer and any assist come from that side's pool. |
| Simulation.NextGoal | frontend/src/app/app/page.jsx:467-485 | The goal goes to a side that still has goals left. When one side is done, it goes to the other side. |
| Simulation.AssignGoals | frontend/src/app/app/page.jsx:464-500 | The i-th goal is at the i-th sorted minute. Each side gets exactly as many goals as its score. |
| Simulation.CardEvent | frontend/src/app/app/page.jsx:505-515 | A yellow card at a minute in [1, 90] to a player from the carded side's pool. |
| Simulation.DrawCards | frontend/src/app/app/page.jsx:503-516 | One to five yellow cards, each at a minute in [1, 90] to a player of its side. |
| Simulation.GenerateMatchEvents | frontend/src/app/app/page.jsx:443-520 | Each side's goal count equals its score. There are goals+1 to goals+5 events. Goal minutes are distinct and in [1, 90], and scorers come from the side's pool. The events are generated as the goals, at strictly increasing minutes, followed by the cards. The list is sorted by minute, and is a permutation of the generated events that keeps the order of events at the same minute. |
| Simulation.SimulateMatch | frontend/src/app/app/page.jsx:361-440 | There is no result exactly when a name is empty. Otherwise the score is the drawn one and lies in its ranges, the statistics are the drawn ones (possession adds up to 100, shots on target never exceed shots), and the timeline is well formed for the score. |
| Toasts.DecimalRoundTrip | frontend/src/components/ui/sonner.jsx:35 | Reading the decimal id back gives the clock value it was made from. |
| Toasts.DistinctClocksDistinctIds | frontend/src/components/ui/sonner.jsx:35 | Different clock readings give different ids. |
| Toasts.EffectiveDuration | frontend/src/components/ui/sonner.jsx:36 | A given non-zero duration is used. An absent or zero one falls back to the provider's. |
| Toasts.AddToast | frontend/src/components/ui/sonner.jsx:34-46 | The new toast is appended after the unchanged queue. It carries the message, the icon, the type (defaulting to `info`) and the effective duration, and its id is the clock's decimal rendering. That id is returned. |
| Toasts.AddTyped | frontend/src/components/ui/sonner.jsx:57-60 | The helpers append one toast with their type unless the options name another type, and with their message unless the options carry another message. The queue before it is unchanged and the new toast's id is returned. |
| Toasts.Remove | frontend/src/components/ui/sonner.jsx:49-51 | A toast stays exactly when its id differs from the one removed. |
| Toasts.RemoveConcat | frontend/src/components/ui/sonner.jsx:49-51 | Removal works piecewise over concatenation, so order is preserved. |
| Toasts.RemoveAbsent | frontend/src/components/ui/sonner.jsx:49-51 | Removing an id no toast has leaves the queue unchanged. |
| Toasts.RemoveIdempotent | frontend/src/components/ui/sonner.jsx:49-51 | Removing the same id twice is removing it once. |
| Toasts.RemoveCommutes | frontend/src/components/ui/sonner.jsx:49-51 | Removing two ids in either order gives the same queue. |
| Toasts.RemoveCount | frontend/src/components/ui/sonner.jsx:49-51 | Exactly the toasts carrying the id are dropped. |
| Toasts.Expire | frontend/src/components/ui/sonner.jsx:41-43 | Expiry keeps exactly the toasts whose id differs from the expiring one. |
| Toasts.AddThenExpire | frontend/src/components/ui/sonner.jsx:34-46 | Adding a toast whose id is new and letting it expire restores the queue. |
| Toasts.SameInstantExpiresBoth | frontend/src/components/ui/sonner.jsx:35-43 | Two toasts added at the same clock reading share an id, so the first one's expiry removes both and leaves the earlier queue as removing that id would. |
| Toasts.Visible | frontend/src/components/ui/sonner.jsx:75 | The visible toasts are a prefix of the queue, oldest first, with min(maxToasts, length) entries. A negative count drops that many from the end, as `slice` does. |
| Toasts.FullQueueHidesNewToast | frontend/src/components/ui/sonner.jsx:34-75 | When the queue already fills the visible slots, a new toast changes nothing on screen. |
| Toasts.PositionClass | frontend/src/components/ui/sonner.jsx:24-72 | A listed position gets its classes. A name such as `toString`, inherited from `Object.prototype`, yields that member. Any other name gets the `bottom-right` classes. |
| Toasts.StyleClass | frontend/src/components/ui/sonner.jsx:126-162 | A listed type gets its style. An inherited name yields that member. Any other type gets the `info` style. |
| Toasts.IconShown | frontend/src/components/ui/sonner.jsx:134-172 | A non-empty custom icon is shown as given. Without one, or with an empty one, a listed type shows its default icon. A type that is neither listed nor inherited shows none; there is no `info` fallback for icons. |
| Toasts.UnknownTypeStyledAsInfoWithoutIcon | frontend/src/components/ui/sonner.jsx:126-172 | A toast of an unlisted, non-inherited type and no custom icon is styled as `info` yet shows no icon. |

## Left out

- Network: `generateFormationApi` is not part of this model. Its outcome is a
  parameter of `Session.CompleteGeneration`: either a text, an empty text, or a
  failure.
- `localStorage` persistence (page.jsx lines 35-44, 169 and 343): the stored
  arrays are taken to be equal to the in-memory lists.
- Timers: `setTimeout`, `setInterval`, the 2-second and 500 ms delays, and
  `loading` are left out. A generation is one atomic step. Overlapping
  generations are not modelled. `clearInterval` at page.jsx:191 runs as soon as
  the request settles, which is a timing matter.
- The clock: `Date.now()` and `toLocaleString()` are parameters.
- Randomness: `Math.random` is an injected stream. To show that the rejection
  loop for goal minutes terminates, the model assumes a stream in which every
  minute keeps recurring. The loop may also end on other streams, for example
  after one draw when there is one goal.
- Simulation.SimulateMatch: requires a `Fair` stream, which the
  source does not, because its minute loop terminates only with probability 1.
- Simulation.GenerateMatchEvents: requires a `Fair` stream and at
  most 90 goals for the same reason. The scores drawn by `SimulateMatch` never
  exceed 7.
- Simulation.ShotsOnTarget: the floating-point ratio at page.jsx:389-390 is
  modelled in thousandths rather than as an IEEE double. Both ends of the
  ratio's range are included, because a double sum can round up to the upper
  end.
- The drop coordinates of `handleDrop` (page.jsx:539-540) are given points.
  Pixel arithmetic is not modelled.
- `formatTacticalAnalysis`: only its guard (page.jsx:248) is modelled. The
  regular-expression HTML rewriting is presentation.
- Clipboard, `navigator.share`, `window.open`, drag start and drag over, the
  team list fetch, community and leaderboard mock data, and all presentational
  components and animations are left out.
- `useToast` throwing outside its provider, and the rendering of non-string
  messages, are left out.
- Toasts.AddTyped: an options object that holds `type: undefined` or
  `message: undefined` is not distinguished from one without that key. In the
  source the spread copies the `undefined`, so the type falls back to `info`
  and the message is lost; the model keeps the helper's type and message.
- `cn` (lib/utils) is not part of this model. For a position or type that names
  an inherited `Object.prototype` member the model stops at that member
  (`Inherited`); the class string `cn` then builds from it is not modelled.
- The `alert()` calls (page.jsx lines 273, 297, 320 and 347, the last one
  after a save) and the `console.error` calls (lines 61 and 181) are left out:
  they only report to the user or the console and change no state.
- Toasts.EffectiveDuration: falsy durations other than 0 (`NaN`,
  `null`) are not modelled; an absent duration stands for all of them.
- An event's `assist` field and its description use independent draws
  (page.jsx:480-481), so nothing ties them together.
- `stats.yellowCards` is drawn independently of the card events
  (page.jsx:418-421 and 503), so nothing ties them together.
