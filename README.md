# Fantasy draft valuation and roster fit

This project models the core of a fantasy-football draft assistant. That core
has four parts:

- It scores a player's projected weekly statistics.
- It groups the weekly projection records of the decoded JSON file into one
  player per name (`Player.load`).
- It keeps a roster of four position slots. The WR slot and the TE slot share
  one list object.
- It computes a candidate's *net additional score* for a roster, meaning what
  the candidate would add to the best starting lineup week by week. The draft
  re-ranks the available players by that score after every pick.

The model also covers the second copy of the classes in `src/models/models.py`.
There, the roster has no draft history, its drafting method is called `draft`,
and the marginal-value computation is a method of `Player`.

The modules:

- `Stats`: stat parsing, the weekly score formula and the season total.
  `PlayerStats` and `Player.overall_score` are the same text in both source
  files, so they are modelled once. The rest of `Player` differs between the
  files: `load` exists only in `src/models.py` (module `Loading`), and
  `net_additional_score` only in `src/models/models.py` (module
  `PackageModels`).
- `TopK`: `sorted(xs, reverse=True)[:k]` and `sum`. The sort is an insertion
  sort, proved to return a non-increasing permutation of its input.
- `Valuation`: value-level reference definitions.
  - A `Lineup` holds what the three underlying lists contain: QB, RB, and the
    shared receivers list.
  - `HasSpot`, `HasStartingSpot` and `Matching` answer the slot questions for
    a lineup.
  - `WeekGain` is the closed form of one week's marginal value: the
    candidate's margin over the k-th best merged score, never below zero.
  - `BenchGain` and `Net` give the whole net additional score.
- `Models` (`src/models.py`): the classes themselves, as imperative Dafny.
  - `PlayerList` is a Python list as a shared object; Position slots hold a
    reference to one.
  - `Roster` builds its WR and TE slots around one list.
  - `MergeDicts` and `TotalDelta` are the two loops of `net_additional_score`.
    `WeeklyDelta` is one week of the second loop.
  - `Draft` holds the available list.

  Each method is proved against `Valuation`, applied to the roster's `View()`.
- `PackageModels` (`src/models/models.py`): its `Roster` and
  `Player.net_additional_score`. They reuse `Models.Position` and the two
  `Models` loops, since that code is the same text.
- `Loading`: the two nested loops of `Player.load`, proved equal to a fold over
  the file's records. Lemmas then describe the dictionary they build.

Error paths are modelled:

- `float()` rejecting a field gives 0.0 (`RawField.Unparseable`).
- A `KeyError` in the bench loop is `Err(week)`. It happens when a candidate
  week is missing from the merged dictionary.
- A failed lookup in `select` or `lose` is `Status.NotFound`.
- A `KeyError` while re-sorting the available list is `Status.MissingWeek`,
  and the list is left unchanged.

The model follows the code as written, including where it behaves
differently from what a reader of its names and docstrings might expect:

- **A starting player's value can be negative.** The starting branch returns
  `overall_score()` unchanged. That can be negative, for example for a player
  projected only to fumble. So the net additional score is at least 0 only in
  the bench branch, where it is a sum of positive deltas.
  - `Valuation.StarterValueCanBeNegative` exhibits a value of -1.
  - `Valuation.NetCases` proves the bench-branch bound.
- **Receivers are counted twice.** A WR or TE candidate matches both receiver
  slots, and both hold the same list. So `matching_players` returns every
  rostered receiver twice, and every receiver's score is merged twice.
  - `Valuation.ReceiverBenchExample`: a bench receiver scoring 9 against
    rostered receivers scoring 10, 8 and 6 is worth 1.
  - `Valuation.ReceiverCountedOnceExample`: it would be worth 3 if each were
    counted once.
- **A missing week raises.** A candidate week that no matching rostered
  player has data for does not simply contribute nothing. The code indexes the
  merged dictionary directly, which raises a `KeyError`.
  `Valuation.BenchGainFails` characterises exactly when this happens.
- **Removal is by name.** `remove_player_from_available_list` removes *every*
  entry with the picked player's name, not one entry.
- **The WR and TE spot checks always agree.** Each slot has its own capacity
  and starting count, but both slots see one list and have equal constants. So
  their `has_spot` and `has_starting_spot` answers always agree
  (`Valuation.ReceiverSlotsShareCount`).
- **Ties keep their order.** Python's `sorted` is stable. In the model, players
  with equal `(net_additional_score, overall_score)` keys keep their order
  through every re-sort (`Models.RankForStable`). With two equal-keyed players
  of the same name, this order decides which one `find` returns.

## Model

| member | source | states |
|---|---|---|
| Stats.MakeStats | src/models.py:16-25 | each of the eight fields is the parsed value of the parameter of the same name, with `fumbles` taken before the receiving fields |
| Stats.ScoreIsWeightedSum | src/models.py:27-30 | the weekly score is the weighted sum of the eight fields with weights 1/50, 3, -1, 1/30, 3, 1/30, 3, -1 |
| Stats.ScoreExample | src/models.py:27-30 | 300 passing yards, 2 passing touchdowns and 1 interception score 11 |
| Stats.RejectedFieldsCountAsZero | src/models.py:16-37 | a field `float()` rejects acts exactly like a field holding 0: replacing every rejected field by 0 gives the same stats line and the same score |
| Stats.UnparseableWeekScoresZero | src/models.py:16-37 | a week whose eight fields all fail to parse, whatever their texts, scores 0 |
| Stats.ScoreMonotone | src/models.py:27-30 | more yards or touchdowns never lower the score; more interceptions or fumbles never raise it |
| Stats.OverallScoreNoWeeks | src/models.py:51-52 | a player with no weeks has overall score 0 |
| Stats.TotalScoreAppend | src/models.py:51-52 | the season total of two runs of weeks is the sum of their totals |
| Stats.TotalScoreRemove | src/models.py:51-52 | removing one week lowers the total by exactly that week's score |
| Stats.TotalScorePermutation | src/models.py:51-52 | the overall score does not depend on the order of the weeks in the dict |
| TopK.SortDescIsSortedPermutation | src/models.py:148 | `sorted(..., reverse=True)` returns a non-increasing permutation of its input |
| TopK.TopIsLargest | src/models.py:148 | the first `k` of the sorted list have length min(k, n), are non-increasing, come from the input, and no value left out exceeds the smallest value kept |
| TopK.SortDescOfSorted | src/models.py:151 | sorting an already non-increasing list leaves it unchanged |
| TopK.SortAppendBetween | src/models.py:151 | a value appended to a list that sorts to `a + b` lands between `a` and `b` when it fits there |
| TopK.SumInsert | src/models.py:149-151 | inserting a value into a list raises its sum by that value |
| Valuation.MatchesIffSameGroup | src/models.py:89-94 | a slot matches a candidate exactly when both are in the same group (QB, RB, or WR and TE as receivers) |
| Valuation.StartingSpotIsSpot | src/models.py:101-104 | with the league's constants, an open starting spot implies an open spot |
| Valuation.ReceiverSlotsShareCount | src/models.py:100-104 | the WR and TE slots always agree on whether there is a spot and whether there is a starting spot |
| Valuation.AddedSlots | src/models.py:108-109 | drafting appends the player to every slot matching its position (both receiver slots for WR or TE) and to no other slot |
| Valuation.ScoresAtNonEmpty | src/models.py:139-141 | a player contributes a score for week `w` exactly when one of its weeks is `w` |
| Valuation.WeekScoresNonEmpty | src/models.py:137-144 | a week is in the merged dictionary exactly when some matching player has data for it |
| Valuation.WeekScoresAppend | src/models.py:139-142 | merging two lists of players one after the other concatenates their scores for each week |
| Valuation.ReceiverScoresDoubled | src/models.py:120-121 | for a receiver candidate, every week's merged list is the receivers' scores listed twice |
| Valuation.DeltaIsWeekGain | src/models.py:148-154 | the loop's sort, truncate, add-candidate and re-sort computation, kept only when positive, adds the candidate's margin over the k-th best score, capped below at 0, or the whole positive score when fewer than k scores exist |
| Valuation.SortedJoins | src/models.py:151-152 | adding a score to at most `k` sorted scores and keeping the top `k` changes the sum by the new score less the one pushed out |
| Valuation.BenchGainNonNegative | src/models.py:146-155 | the bench value, a sum of only positive deltas, is never negative |
| Valuation.BenchGainFails | src/models.py:147-148 | the bench calculation raises exactly when some candidate week has no merged scores |
| Valuation.BenchGainErrorWeek | src/models.py:147-148 | the week that raises is a candidate week with no merged scores |
| Valuation.BenchGainPrefixErr | src/models.py:147-148 | once an earlier week raises, later weeks do not change the outcome |
| Valuation.NetCases | src/models.py:126-155 | net score is 0 with no spot, the overall score with an open starting spot, and never negative otherwise |
| Valuation.EmptyLineupNet | src/models.py:126-131 | on an empty roster every candidate's net score is its overall score |
| Valuation.StarterValueCanBeNegative | src/models.py:130-131 | a starter's value is its raw overall score, which can be negative (-1 for one fumble) |
| Valuation.RunningBackBenchExample | src/models.py:146-155 | with two rostered RBs scoring 10 and 8, a third RB scoring 9 is worth (10+9)-(10+8) = 1 |
| Valuation.SortDoubledScores | src/models.py:148 | the doubled receiver scores 10, 8, 6, 10, 8, 6 sort to 10, 10, 8, 8, 6, 6 |
| Valuation.ReceiverBenchExample | src/models.py:133-155 | a bench receiver scoring 9 against rostered receivers scoring 10, 8 and 6 is worth 1, because the shared list is matched twice |
| Valuation.ReceiverCountedOnceExample | src/models.py:148-152 | counting each of those receivers once, the candidate would be worth 3 |
| Valuation.BenchGainOneWeek | src/models.py:146-155 | for a candidate with one week, the bench value is that week's gain |
| Models.PlayerList.Append | src/models.py:109 | `list.append` adds the player at the end and changes nothing else |
| Models.Position.constructor | src/models.py:77-81 | a slot stores its position, list reference, capacity and starting count |
| Models.Position.HasStartingSpot | src/models.py:86-87 | true exactly when the list is shorter than the starting count; when starting count does not exceed capacity it implies `HasSpot` |
| Models.Position.MatchingPlayers | src/models.py:89-94 | the slot's list when slot and candidate are in the same group, otherwise nothing |
| Models.Roster.constructor | src/models.py:98-106 | four slots with capacities 3, 10, 11, 11 and starting counts 1, 2, 3, 3; WR and TE share one new list; empty lineup and history |
| Models.Roster.Add | src/models.py:108-110 | the player joins the list of its slot (the shared list for WR or TE) and the history; every slot's list is as `Added` says |
| Models.Roster.HasSpot | src/models.py:112-114 | the candidate's slot list is shorter than that position's capacity |
| Models.Roster.HasStartingSpot | src/models.py:116-118 | the candidate's slot list is shorter than that position's starting count |
| Models.Roster.MatchingPlayers | src/models.py:120-121 | the receivers list twice for a WR or TE candidate, otherwise exactly the candidate's slot list |
| Models.Roster.StartingPositions | src/models.py:123-124 | the starting count of the candidate's position |
| Models.Roster.NetAdditionalScore | src/models.py:126-155 | returns `Net` of the current lists: 0 with no spot, the overall score with a starting spot, otherwise a non-negative bench value or the missing week |
| Models.MergeDicts | src/models.py:137-144 | the merged dict has exactly the weeks some matching player has, each mapped to their scores in player order |
| Models.TotalDelta | src/models.py:146-155 | the loop returns the sum of the weekly gains over the candidate's weeks, or the first week missing from the merged dict |
| Models.WeeklyDelta | src/models.py:148-152 | the positive part of one week's delta is that week's gain |
| Models.TotalDeltaStep | src/models.py:148-154 | a candidate week with merged scores adds its gain to the running total |
| Models.TotalDeltaMiss | src/models.py:148 | a candidate week missing from the merged dict ends the calculation with that week |
| Models.SortRankedIsSortedPermutation | src/models.py:176-177 | the ranking sort returns a permutation that is non-increasing by (net score, overall score) |
| Models.SortRankedPlayers | src/models.py:176-177 | the ranked players are the keyed players rearranged |
| Models.SortRankedStable | src/models.py:176-177 | the sort is stable: for every key, the entries with that key come out in their input order |
| Models.RankForStable | src/models.py:220-222 | after a successful re-sort, for every `(net, overall)` key the players with that key are in their input order |
| Models.KeyedEntries | src/models.py:176-177 | computing the sort keys succeeds exactly when every player's net score succeeds, giving each player's key in order; otherwise it fails with some player's missing week |
| Models.RankForSpec | src/models.py:220-222 | the re-sort succeeds exactly when every net score does; it is then a permutation ranked by (net score, overall score), and otherwise it fails with some player's missing week |
| Models.SortedEntriesRanked | src/models.py:220-222 | sorting the keyed entries ranks the players by their keys |
| Models.WithoutSpec | src/models.py:219 | no entry with the name remains and every other entry keeps its count |
| Models.LastNamedSpec | src/models.py:195-200 | the lookup is absent exactly when no entry has the name, and otherwise is the last entry that has it |
| Models.RerankedSpec | src/models.py:218-222 | after a successful re-sort, the named player is gone, everyone else keeps their count, the list is ranked for the roster, and equal-keyed players keep their order |
| Models.Draft.constructor | src/models.py:174-177 | an empty roster and the given players ranked for it: a permutation sorted by overall score, with equal-keyed players in their given order |
| Models.Draft.Find | src/models.py:195-200 | returns the last available player with the name, or nothing when none has it |
| Models.Draft.RemovePlayerFromAvailableList | src/models.py:218-222 | drops every entry with the name and re-sorts, stably, for the current roster; on a failed sort the list is unchanged |
| Models.Draft.Select | src/models.py:202-209 | on a miss nothing changes; on a hit the last player with the name joins the roster and history, and the list is re-sorted without that name for the new roster |
| Models.Draft.Lose | src/models.py:211-216 | on a miss nothing changes; on a hit the list is re-sorted without that name and the roster is untouched |
| PackageModels.Roster.constructor | src/models/models.py:97-103 | four slots with the league constants, WR and TE built around one new list, all empty |
| PackageModels.Roster.Draft | src/models/models.py:105-106 | appends to exactly the list of the player's slot, so both receiver slots see a new WR or TE |
| PackageModels.Roster.HasSpot | src/models/models.py:108-110 | the candidate's slot list is shorter than that position's capacity |
| PackageModels.Roster.HasStartingSpot | src/models/models.py:112-114 | the candidate's slot list is shorter than that position's starting count |
| PackageModels.Roster.MatchingPlayers | src/models/models.py:116-117 | the receivers list twice for a WR or TE candidate, otherwise the candidate's slot list |
| PackageModels.Roster.StartingPositions | src/models/models.py:119-120 | the starting count of the candidate's position |
| PackageModels.NetAdditionalScore | src/models/models.py:41-70 | the same three cases and bench value as the `src/models.py` method: `Net` of the roster's lists |
| Loading.LineOf | src/models.py:63-70 | each stat field of the new line is the parsed value of the record field passed for it |
| Loading.EntriesVisitEveryRecord | src/models.py:59-60 | the two loops visit exactly the file's records, each tagged with the week it is listed under |
| Loading.Load | src/models.py:59-70 | the two loops build exactly the fold of `Step` over all records in file order |
| Loading.StepCreatesThenSets | src/models.py:61-63 | creating a missing player and then setting the week is one `Step` |
| Loading.SetWeekShape | src/models.py:63 | assigning a week keeps every existing week in place and appends only a new week |
| Loading.SetWeekDistinct | src/models.py:63 | assigning a week keeps the dict's weeks distinct |
| Loading.SetWeekMap | src/models.py:63 | on distinct weeks, assigning a week is map update |
| Loading.AsMapKeys | src/models.py:63 | the dict's keys are exactly the weeks listed in it |
| Loading.GroupAllByName | src/models.py:59-70 | a name is loaded exactly when some record names it, and its player is built from its own records alone |
| Loading.RecordsOfMembers | src/models.py:59-61 | a player's records are exactly the file's records with that name |
| Loading.FoldDistinct | src/models.py:63-70 | a loaded player's weeks are distinct |
| Loading.FoldKeys | src/models.py:63-70 | a loaded player's weeks are exactly the weeks its records are listed under |
| Loading.FoldLast | src/models.py:63-70 | for each week, the loaded line is the one from the last record under that week |
| Loading.LoadedNames | src/models.py:59-62 | a name has a player in the result exactly when some record in the file names it |
| Loading.LoadedPlayer | src/models.py:59-70 | a loaded player has its key as name, the position of its first record, distinct weeks that are exactly its records' weeks, and each week's line from the last record for that week |

## Left out

- File handling, JSON decoding, pickling and printing are not modelled. That
  covers `open`, `json.load`, `Roster.save`/`load`, `Draft.load_players`,
  `Draft.save`, `print_summary` and `add_players`. `Load` takes the decoded
  file as a list of weeks, each with its records. `Draft.constructor` takes
  the player list that `load_players` would return.
- Restoring a pickled roster in `Draft.__init__` is not modelled: the draft
  always starts from a new, empty roster. This is the source's fallback when
  no saved roster can be read.
- The messages printed by `select` and `lose` on a miss become
  `Status.NotFound`.
- An exception raised while re-sorting is not modelled as propagating to the
  caller. A `KeyError` there becomes `Status.MissingWeek`, with the available
  list unchanged and, in `select`, the roster already extended, as in the
  source.
- Floating-point rounding is not modelled: scores are exact reals.
- `float()` raising `TypeError` on non-text input is not modelled; every
  field is text.
- Only the positions QB, RB, WR and TE exist. A player with any other
  position, which would make `self.positions[...]` raise `KeyError`, cannot
  be expressed.
- `Loading.Load` returns a map, not an insertion-ordered dict. The order of
  the players, which would feed the first ranking, is not modelled.
  `Draft.constructor` takes the players in any order.
- Stats.Player: a week may appear twice in a player's stats. A Python dict
  cannot hold repeated keys, and on such a player the scores count every copy.
  Players built by `Loading.Load` have distinct weeks (`Loading.LoadedPlayer`),
  but the `Draft` constructor and `NetAdditionalScore` do not demand it.
- `main.py`, the crawler, `Constants` and the other scripts are not part of
  this model. That includes the multi-participant simulator, turn order and
  look-ahead copies described for the wider application.
- Python's `dict` for `self.positions` is four named fields
  (`qb`, `rb`, `wr`, `te`) plus a lookup by position.
  `matching_players` visits them in the dict's insertion order QB, RB, WR, TE.
