# LeetCode leaderboard dashboard: the data pipeline in Dafny

The dashboard (`main.py`) is a Streamlit page. It tracks a list of LeetCode
usernames, fetches each user's profile and skill breakdown, and shows:

- a leaderboard sorted by problems solved, with a rank delta against the
  previous run of the same session;
- per-user skill tables ordered by level;
- two "top 5" skill views;
- a single-skill comparison;
- a (skill, level) × user heatmap.

This project models the data pipeline inside that page:

- `Text`: the Python string operations the page relies on. These are
  `strip`, `split(",")`, `capitalize` and the decimal rendering of an `int`.
- `Levels`: the level order `LEVEL_ORDER` and level-name normalisation.
- `Skills`: how `get_skill_table` builds skill records from the payload, with
  defaults for missing fields, and how it sorts them. The nested loop is a
  method, proved equal to a prefix-recursive specification function.
- `Ranks`: `rank_change` and the values the session remembers in `prev_ranks`.
- `Users`: the tracked-user list as a class with `Add`, `Remove` and the
  comma-separated bulk add, held in memory.
- `Leaderboard`:
  - the profile payload and `compute_accuracy`'s choice of bucket, as a loop
    proved against a recursive definition;
  - leaderboard rows with their defaults;
  - the positional 1-based index;
  - a `Session` class whose `Run` method is the fetch loop. `Run` updates
    `prevRanks` one user at a time.
- `Frames` and `Sorting`: the data-frame operations used, on sequences. These
  are row selection, `head`, `unique`, a column, and a sort by a two-part key.
- `SkillViews`: the all-skills top-5 views, the single-skill per-user totals
  and the heatmap sums.

HTTP requests are not modelled. Each fetch outcome is a parameter: `None`
stands for any failure, `Some(payload)` for a decoded JSON object.

Points where the code decides the model:

- pandas does not guarantee a stable order, so every sort here promises only
  that its output is ordered by the key and is a permutation of its input.
  This covers the leaderboard sort, the skill sort, the pivot sort and the
  heatmap row order. Nothing is promised about rows with equal keys.
- An empty profile object counts as a failed fetch, because the code tests
  `if prof:`. `Leaderboard.Truthy` models this.
- When a profile has no `ranking`, `prev_ranks` stores Python `None`, not
  "N/A". `Ranks.StoredRank` keeps the two apart. Both make the next delta blank.

## Model

| member | source | states |
|---|---|---|
| Levels.Rank | main.py:18 | Advanced has rank 0, Fundamental 2, and every rank is below 3 |
| Levels.RankOrder | main.py:17-18 | the ranks order Advanced < Intermediate < Fundamental, and no two levels share a rank |
| Levels.Normalize | main.py:81-83 | the level is the capitalized raw name when that names a level; otherwise it is Fundamental |
| Levels.NormalizeCaseInsensitive | main.py:81-83 | a raw name is filed under a level exactly when it spells that level's name up to ASCII case |
| Levels.NormalizeName | main.py:81-83 | every level's own name normalises back to that level |
| Text.Strip | main.py:37 | the stripped text starts and ends with non-space, and is empty exactly when the input is all white space |
| Text.StripSlice | main.py:37 | the stripped text is a slice of the input with only white space before it and after it |
| Text.StripIdempotent | main.py:37 | stripping twice is stripping once |
| Text.Split | main.py:126 | at least one piece; no piece contains the separator; pieces hold only input characters |
| Text.JoinSplit | main.py:126 | joining the pieces of a split with the separator gives back the input |
| Text.SplitJoin | main.py:126 | splitting a join of separator-free pieces gives back the pieces |
| Text.Capitalize | main.py:81 | same length; first character upper-cased, the rest lower-cased |
| Text.CapitalizeIdempotent | main.py:81 | capitalizing twice is capitalizing once |
| Text.CapitalizeLowerAll | main.py:81 | capitalizing ignores the case the input came in |
| Text.Decimal | main.py:107-109 | the rendering of a count is a non-empty string of digits with no leading zero (only 0 starts with "0") |
| Text.DecimalRoundTrip | main.py:107-109 | reading the digits back gives the number |
| Text.DecimalInjective | main.py:107-109 | different counts render differently |
| Ranks.RankChange | main.py:102-110 | blank (Unknown) exactly when no numeric previous rank is on record; an Up or Down delta has a positive step count; a numeric previous rank requires a numeric current rank |
| Ranks.RankChangeDirection | main.py:105-110 | Up iff previous > current, Down iff previous < current, No change iff equal |
| Ranks.RankChangeRecoversPrevious | main.py:105-109 | the previous rank is recovered from the current rank and the delta |
| Ranks.RankChangeOfPrevious | main.py:105-110 | every known delta arises from exactly the previous rank it implies |
| Ranks.RankChangeSwap | main.py:105-109 | swapping the two ranks turns Up n into Down n |
| Ranks.RankChangeText | main.py:102-110 | the text is "Up " + (previous − current), "Down " + (current − previous) or "No change" |
| Ranks.RankChangeBlank | main.py:103-104 | a missing, `None` or "N/A" previous rank gives "" |
| Ranks.DeltaTextHead | main.py:104-110 | the first character of the delta text identifies its kind; only Unknown is blank |
| Ranks.DeltaTextInjective | main.py:102-110 | different deltas show different texts, and only an unknown one is blank |
| Users.AfterAdd | main.py:35-43 | the list gains exactly the stripped name iff it is non-empty and not yet listed, else is unchanged; distinctness is kept |
| Users.AfterAddIdempotent | main.py:35-43 | adding the same name twice is adding it once |
| Users.Without | main.py:45-48 | the name is gone and every other name keeps its number of entries |
| Users.WithoutIsSelection | main.py:47 | removal equals the row selection `username != name`, so the other entries keep their relative order |
| Users.WithoutAppend | main.py:47 | removal works entry by entry over concatenations |
| Users.WithoutAbsent | main.py:45-48 | removing an unlisted name changes nothing |
| Users.WithoutDistinct | main.py:45-48 | removal keeps a duplicate-free list duplicate-free |
| Users.StrippedTokens | main.py:126 | every token is non-empty and already stripped |
| Users.ParseBulk | main.py:126 | every parsed name is non-empty and stripped |
| Users.StrippedTokensMembers | main.py:126 | a text is a token iff it is non-empty and the stripped form of some piece |
| Users.StrippedTokensSingle | main.py:126 | one piece yields its stripped text, or nothing when it is blank |
| Users.ParseBulkNames | main.py:126 | a name is parsed iff it is non-empty and the stripped form of some comma-separated piece of the input |
| Users.ParseBulkBlank | main.py:124-126 | white-space-only input yields no names |
| Users.StrippedTokensOrder | main.py:126 | the tokens of concatenated pieces are the tokens of each part, in input order |
| Users.AddAllAppends | main.py:126-128 | a bulk add appends exactly the reported names to the old list |
| Users.AddAllDistinct | main.py:126-128 | a bulk add creates no duplicate, and every reported name was new |
| Users.AddAllKeeps | main.py:126-128 | a bulk add drops nobody already listed |
| Users.AddAllCovers | main.py:126-128 | after a bulk add every non-blank token is listed |
| Users.UserList.Add | main.py:35-43 | returns true iff the stripped name is admitted, and the list becomes AfterAdd of the old list |
| Users.UserList.Remove | main.py:45-48 | the list becomes Without of the old list |
| Users.UserList.AddBulk | main.py:123-135 | the list becomes the old list plus the added names, token by token through `add_user`; the outcome is "nothing entered" for blank input, else "none added" or the added names |
| Skills.LevelEntries | main.py:84-92 | one record per entry of a level's list, in order, or None exactly when some entry is not an object |
| Skills.BuildRecords | main.py:79-92 | the nested loop returns the records of the payload, or None exactly when an entry of a listed level is not an object |
| Skills.NonListIgnored | main.py:84 | a level whose value is not a list contributes no records |
| Skills.EntryRecordsAt | main.py:85-92 | each object entry yields exactly one record, at its own position |
| Skills.RecordsCount | main.py:84-92 | a well-formed payload yields one record per listed entry |
| Skills.RecordsAt | main.py:81-92 | entry j under key i becomes the record at its position, with the normalised level, tag default "Unknown", count default 0 and the user's name |
| Skills.RecordsUser | main.py:90 | every record carries the user's name |
| Skills.SortSkills | main.py:96 | the output is ordered by level rank ascending, then problems solved descending, and is a permutation of the input |
| Skills.SkillTable | main.py:73-100 | the table is empty on a failed fetch or a malformed payload; otherwise it is a level-ordered permutation of the built records, all carrying the user's name |
| Skills.GetSkillTable | main.py:73-100 | the method returns SkillTable of its inputs |
| Leaderboard.AccuracyFrom | main.py:63-71 | the first pair whose accepted bucket is "All" decides the result (0 when its submissions are 0); with no such pair the result is 0 |
| Leaderboard.ComputeAccuracy | main.py:61-71 | the scan returns AccuracyOf the profile (0 when statistics are missing) |
| Leaderboard.PercentBounds | main.py:68 | with accepted ≤ submissions the percentage lies in [0, 100] |
| Leaderboard.MakeRow | main.py:159-168 | missing counts read as 0, a missing ranking as "N/A"; the delta is `rank_change` of the remembered rank and the ranking, so it is blank iff no numeric previous rank |
| Leaderboard.TruthyNonEmpty | main.py:158-170 | `if prof:` (main.py:158, 170) holds exactly when the fetch succeeded and the profile object has at least one key |
| Leaderboard.Stored | main.py:170 | "N/A" iff the fetch failed; the ranking when present; `None` otherwise |
| Leaderboard.RanksAfterUnfetched | main.py:154-170 | a run leaves a user it did not fetch with the same remembered rank |
| Leaderboard.RanksAfterLast | main.py:170 | after a run, a fetched user's remembered rank is what their last fetch stored |
| Leaderboard.RunUsesPreviousRun | main.py:167 | with no duplicate users, each row's delta compares against the rank remembered before the run |
| Leaderboard.RunStep | main.py:154-170 | one more user extends the remembered ranks, rows and skill tables by exactly that user's contribution |
| Leaderboard.LeaderboardTable | main.py:178-179 | the index runs 1..n by position; Total Solved is non-increasing; the rows are a permutation of the fetched rows |
| Leaderboard.Session.constructor | main.py:113-114 | a new session remembers no ranks |
| Leaderboard.Session.Refresh | main.py:137-140 | refresh forgets every remembered rank |
| Leaderboard.Session.Run | main.py:152-170 | the fetch loop leaves `prevRanks`, the rows and the skill tables equal to the run's specification functions |
| Sorting.SortBy | main.py:96 | the output is sorted by the key and is a permutation of the input |
| Frames.Filter | main.py:258 | every selected row satisfies the mask and comes from the input |
| Frames.FilterCount | main.py:258 | selection keeps every copy of a kept row and no copy of any other |
| Frames.FilterKeepsOrder | main.py:258 | selection keeps the relative order of the rows |
| Frames.Take | main.py:258 | `head(n)` has min(n, size) rows and is a prefix of the input |
| Frames.TakeOrdered | main.py:258 | `head(n)` of an ordered table is ordered and shows only rows of the table |
| Frames.TakeLeavesLater | main.py:258 | a row of an ordered table that `head(n)` leaves out comes after all n rows shown |
| Frames.Unique | main.py:269-270 | each value once, and exactly the values that occur; the pivot's user index here and its (skill, level) index at main.py:294-295 |
| Frames.ColumnPermutation | main.py:301 | reordering rows reorders a column the same way |
| Frames.DistinctPermutation | main.py:301 | reordering a column whose values are distinct keeps them distinct |
| SkillViews.AllSkills | main.py:232 | every record of every user's table is in the concatenation, and nothing else |
| SkillViews.AllSkillsAppend | main.py:232 | concatenating two groups of tables is concatenating their concatenations |
| SkillViews.AllSkillsCopies | main.py:232 | one more table appends exactly its records, so every copy of every record is kept |
| SkillViews.AllSkillsSums | main.py:232 | every pivot and heatmap sum over the concatenation is the sum of the sums over each table |
| SkillViews.SolvedPermutation | main.py:272 | a sum of problems solved does not depend on record order |
| SkillViews.TopFiveFacts | main.py:249-266 | a top-5 view holds min(5, group size) records of its group, taken from the selection, as a prefix of the sorted group |
| SkillViews.AdvancedView | main.py:258 | min(5, number of Advanced records) records, a prefix of the sorted Advanced records, most solved first |
| SkillViews.OtherView | main.py:264 | min(5, number of Intermediate/Fundamental records) records, a prefix of those sorted, in level order |
| SkillViews.TopOfSorted | main.py:249-266 | a record of the group missing from its view is outranked by all five records shown |
| SkillViews.AdvancedViewTop | main.py:258 | an Advanced record left out of the view has no more solved than each of the five shown |
| SkillViews.OtherViewTop | main.py:264 | an Intermediate/Fundamental record left out is outranked by each of the five shown |
| SkillViews.PivotUsers | main.py:269-270 | the pivot's users are exactly those with a record of the selected skill, each once |
| SkillViews.Totals | main.py:269-273 | one entry per user, pairing the user with the sum over their records of the skill; no entry repeats when no user does |
| SkillViews.SkillSumAppend | main.py:269-273 | a user's sum over two tables together is the sum of the sums over each |
| SkillViews.SkillPivot | main.py:269-274 | each user's value is the sum over their records of the skill; values are non-increasing; exactly one entry per user with such a record, and no other entry |
| SkillViews.HeatPairs | main.py:294-295 | the row labels are exactly the (skill, level) pairs that occur, each once |
| SkillViews.HeatRows | main.py:294-300 | one row per occurring pair, with a cell per user equal to the sum over matching records |
| SkillViews.Heatmap | main.py:293-301 | rows in level order; each cell the sum over matching records; the row labels a permutation of the occurring pairs, so no label repeats |
| SkillViews.CellSumZero | main.py:299 | a cell with no matching record is 0 |
| SkillViews.CellSumAppend | main.py:294-298 | the cells over two users' tables together are the sums of the cells over each |
| SkillViews.CellSumPermutation | main.py:250 | cell sums and per-user skill sums do not depend on record order |

## Left out

- HTTP fetches of the profile and the skill payload (main.py:52-59, 74-78). The outcome of each fetch is a parameter, with `None` for every failure. The error messages shown on failure are not modelled.
- The CSV file (main.py:21-33) and the `added_at` timestamp. The user list is held in memory.
- `st.cache_data` and its 30-minute TTL (main.py:15, 51, 73, 138). This is library memoisation whose behaviour is not visible in the source.
- Streamlit UI: sidebar messages, buttons, `st.rerun`, the progress bar, `st.stop`, the download button and the `data_editor` editing. Plotly charts and the heatmap's labels and rendering (main.py:196-226, 302-314) are also out.
- `unique_skills` (main.py:234), the dropdown's skill order. It only feeds the UI choice, and the selected skill is a parameter of the views.
- The "Rank Changes" table (main.py:191-193), which only displays rows whose delta text is non-empty. `Ranks.DeltaTextInjective` states when that text is blank.
- Leaderboard.PercentBounds: the accuracy is modelled as the chosen (accepted, submissions) pair. The floating-point division and `round(…, 2)` are not modelled, and the bound is stated on exact reals.
- Leaderboard.ComputeAccuracy: the `except Exception` path for statistics that are not lists of objects with the expected keys is not modelled. Its shape is typed, and its only modelled failure is a missing `matchedUserStats`.
- Skills.SkillTable: a payload that is not a JSON object, and `problemsSolved` values that are not integers, are not modelled. The payload is a sequence of (key, value) pairs in the order the object lists them, and each entry is either an object or "not an object".
- Leaderboard.Session.Run: requires that no fetched profile without a ranking meets a numeric remembered rank. There the source's `old - None` raises and the page stops, which the model does not represent.
- Sorting.SortBy: no stability is claimed among equal keys, because pandas' default sort does not promise it. Skills.SortSkills, Leaderboard.LeaderboardTable, SkillViews.SkillPivot and SkillViews.Heatmap inherit this.
- Text.Capitalize: case mapping is ASCII only. Python's full Unicode case mapping is not modelled. `Text.IsSpace` lists the white-space code points of `str.isspace`.
- JSON `null` in a skill entry's field is treated as an absent field. A `{"tagName": null}` entry gets the skill "Unknown" in the model, while `s.get("tagName", "Unknown")` (main.py:88) returns `None` in the source; a null `problemsSolved` gets 0 in the model and `None` in the source (main.py:89).
- JSON `null` in a profile field is treated as an absent field. In the source, `prof.get(key, 0)` would return `None` there. This also changes `if prof:` (main.py:158): a profile such as `{"ranking": null}` is truthy in Python, but `Leaderboard.Truthy` is false for it, so the model counts it as a failed fetch.
- Leaderboard.Profile: of the profile object, only the fields the page reads are kept. The rest are counted by `otherKeys`, so that an empty object can be told apart.
- Streamlit's session state across page reruns is the `Session` object. The rerun after a bulk add is not modelled.
