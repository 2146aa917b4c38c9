# IPL dashboard: filter-and-aggregate core

A Dafny model of the logic inside the IPL analytics dashboard (`app.py`). The
dashboard reads two tables. The matches table has one row per match. The
ball-by-ball table has one row per delivery. The sidebar offers three choices:
a team, picked from a searchable list; a player, picked from a searchable
list; and a set of seasons. From these the dashboard filters both tables and
draws four result tables: the top 10 winning teams, the top 10 six hitters,
the top 10 wicket takers, and the number of matches per season.

The model is purely functional, as the script is. Every pandas selection
rebinds `df` / `balls_filtered` to a new frame, and every aggregate is one
expression.

- `Seqs`: boolean-mask selection (`Filter`), order-preserving subsequence,
  occurrence counts, `unique()` (`Distinct`).
- `Order`: strict total orders, sorted duplicate-free sequences
  (`SortedSet`), and Python's string order (`StrLess`).
- `Tables`: the `Match` and `Delivery` rows and column projection
  (`Project`, which drops missing values as `value_counts` does).
- `PickLists`: the team and player pick lists (sentinel first, then the
  case-insensitive substring matches), the sorted player universe, and the
  season options.
- `Filters`: the selection, the four filter stages (season, join on `ID`,
  team, player) and their composition `ApplyFilters`.
- `Ranking`: result-table rows (`Entry`), tally, descending sort, `head(n)`,
  and the specification `IsTopN` of a correct top-n table.
- `Aggregates`: the four result tables and the whole `Dashboard`.
- `Scenarios`: worked examples of the winning-teams and six-hitters tables.

Widget values are parameters: the search strings, the chosen team and player
(compared with the sentinels "All Teams" / "All Players" exactly as the
script does), and the chosen season set. The two tables are parameters too.

## Model

| member | source | states |
|---|---|---|
| `Seqs.Filter` | app.py:79-89 | A boolean-mask selection keeps exactly the rows satisfying the mask. Each is kept as often as it occurs (never duplicated), in input order (an order-preserving subsequence). |
| `Seqs.Distinct` | app.py:67 | `unique()`: the result has no duplicates, and a value is in it exactly when it is in the input. |
| `Tables.Project` | app.py:109 | Selecting a column and dropping its missing values: a value is in the result exactly when some row holds it in that column. |
| `PickLists.Lower` | app.py:63 | `str.lower()`, ASCII only: same length, each upper-case ASCII letter moved to its lower-case form (`LowerChar`), every other character kept. |
| `PickLists.PickList` | app.py:63 | Element 0 is the sentinel. Every later entry is a candidate containing the search text case-insensitively. Every matching candidate is present, with its multiplicity, in candidate order. |
| `PickLists.ContainsIffOccurs` | app.py:63 | `Contains(s, q)`, Python's `q in s`, holds exactly when `q` occurs as a contiguous block of `s` at some position. |
| `PickLists.EmptyQueryKeepsAll` | app.py:63 | An empty search text keeps every candidate: the list is the sentinel followed by all candidates. |
| `PickLists.TeamOptions` | app.py:47-63 | The team list starts with "All Teams" and has at most 11 entries. The rest are exactly the active teams matching the search, in the source's order. |
| `PickLists.AllPlayerNames` | app.py:67 | The player universe is strictly ascending in Python string order, so it has no duplicates. A name is in it exactly when it is the batter or the bowler of some delivery. |
| `Order.StrLessIsStrictOrder` | app.py:67 | Python's string comparison, which `sorted` uses, is irreflexive, transitive and total on distinct strings. |
| `Order.SortedSet` | app.py:67 | `sorted(set(...))` under a strict total order: strictly ascending, hence duplicate-free, and with exactly the input's values. |
| `PickLists.PlayerOptions` | app.py:71 | The player list starts with "All Players". The rest are exactly the names of the player universe matching the search, in sorted order. |
| `PickLists.SeasonOptions` | app.py:75 | The season options are strictly ascending. A season is listed exactly when some match is of that season. |
| `Filters.SeasonStage` | app.py:79-80 | The kept matches are exactly those of a chosen season. The kept deliveries are exactly those whose `ID` is the `ID` of a kept match. Both are order-preserving. No season chosen gives two empty tables. |
| `Filters.TeamStage` | app.py:82-84 | With a team chosen: matches are kept exactly when that team is `Team1` or `Team2`, deliveries exactly when it is the `BattingTeam`. "All Teams" leaves both tables unchanged. |
| `Filters.PlayerStage` | app.py:86-89 | With a player chosen, deliveries are kept exactly when that player is the batter or the bowler, each once. Matches are never changed. "All Players" is the identity. |
| `Filters.ApplyFilters` | app.py:79-89 | The season, team and player stages in the source's order. Its own contract says only that each output table is a row selection (an order-preserving subsequence) of its input. The exact rows kept are stated by `Filters.ApplyFiltersSelects`. |
| `Filters.ApplyFiltersSelects` | app.py:79-89 | The whole filter stage keeps each match exactly when it is of a chosen season and (if a team is chosen) that team played it. It keeps each delivery exactly when its match is of a chosen season, (if a team is chosen) that team batted, and (if a player is chosen) that player batted or bowled. Multiplicities are preserved and both outputs are subsequences of the inputs. |
| `Filters.SeasonSelected` | app.py:79 | Every surviving match is of a chosen season, whatever team and player are chosen. |
| `Filters.TeamSelected` | app.py:82-84 | With a team chosen, every surviving match involves the team and every surviving delivery was batted by it. |
| `Filters.BowlingSideDropped` | app.py:84 | With a team chosen, a delivery on which another side batted is never kept, even a delivery the chosen team bowled. The converse, a delivery the team batted is kept whoever bowled it, is in `Filters.TeamStage` and `Filters.ApplyFiltersSelects`. |
| `Filters.PlayerSelected` | app.py:86-89 | With a player chosen, every surviving delivery was batted or bowled by that player. |
| `Filters.PlayerKeepsMatches` | app.py:86-89 | The filtered matches table does not depend on the chosen player. |
| `Filters.NoSeasonsNoRows` | app.py:79-80 | An empty season selection gives empty matches and empty deliveries, not the whole data set. |
| `Filters.IdentitySelection` | app.py:79-89 | If every season is chosen, with "All Teams" and "All Players", and every delivery belongs to a listed match, both tables come out unchanged. |
| `Ranking.SortDesc` | app.py:124 | `sort_values(ascending=False)`: the result is a permutation of the input with counts non-increasing. |
| `Ranking.Tally` | app.py:109 | The grouped count behind `value_counts` and `groupby(...).apply(...)`: one row per given label, in the given order, whose count is that label's exact number of occurrences. |
| `Ranking.Take` | app.py:109 | `head(n)`: the first `min(n, length)` rows, unchanged. |
| `Ranking.TopCounts` | app.py:109 | The `value_counts().head(n)` table satisfies `IsTopN`. It has at most n rows, with distinct labels drawn from the labels. Each row's count is the label's exact number of occurrences. Counts are non-increasing. A label is left out only when the table is full, and then its count is at most the last row's. |
| `Ranking.TallyTotal` | app.py:156 | Over distinct labels that cover every value, the counts add up to the number of values. |
| `Ranking.TopNOfTwo` | app.py:109 | When exactly two labels occur, with different scores, and more than two rows are allowed, `IsTopN` admits one table only: both labels, the higher score first. |
| `Aggregates.TopWinningTeams` | app.py:109 | A correct top-10 table of winning teams. Each count is the number of filtered matches that team won. Every count is positive, and every label is the winner of some match, so matches without a winner are never counted. |
| `Aggregates.TopSixHitters` | app.py:124 | A correct top-10 table over all batters of the filtered deliveries. Each count is the number of that batter's deliveries with `batsman_run == 6`. A batter without a six can appear when fewer than 10 have hit one. |
| `Aggregates.TopWicketTakers` | app.py:140 | A correct top-10 table of bowlers. Each count is the number of that bowler's filtered wicket deliveries. Every count is positive. |
| `Aggregates.MatchesPerSeason` | app.py:156 | Seasons are strictly ascending, and a season appears exactly when some filtered match is of it. Each count is the number of matches of that season and is positive. The counts add up to the number of filtered matches. |
| `Aggregates.Dashboard` | app.py:79-156 | Filters, then the four aggregates of the filtered tables. Its own contract says each ranked table has at most 10 rows. The rest of its behaviour is stated by `Aggregates.NoSeasonsEmptyReport`, `Aggregates.PerSeasonWithinSelection` and `Aggregates.IdentityReport`. |
| `Aggregates.PerSeasonWithinSelection` | app.py:79-156 | Every season of the dashboard's per-season table is a chosen season, and its counts add up to the size of the filtered matches table. |
| `Aggregates.NoSeasonsEmptyReport` | app.py:79-156 | With no season chosen, all four result tables are empty. |
| `Aggregates.IdentityReport` | app.py:79-156 | If every season is chosen, with "All Teams" and "All Players", on consistent tables, the dashboard shows the aggregates of the unfiltered tables. |
| `Scenarios.WinningTeamsExample` | app.py:109 | Three matches that Rockets won twice and Tigers once give the table [("Rockets", 2), ("Tigers", 1)]. |
| `Scenarios.SixHittersExample` | app.py:124 | Asha hitting two sixes and Bo one single give the table [("Asha", 2), ("Bo", 0)]: a batter without a six is listed when fewer than 10 batters played. |

## Left out

- Streamlit calls (page configuration, HTML headers, the banner image, the sidebar widgets, `section_title`, the success message): presentation only. Widget results are parameters.
- `pd.read_csv` of the two CSV files: file I/O. The tables are input sequences, and only the columns the dashboard uses are modelled.
- Plotly figure construction and rendering: a foreign library used for display only.
- The imports of `fpdf`, `BytesIO`, `plotly.io`, `tempfile` and `os`: unused; the script has no export logic.
- The order among equal counts: pandas' `value_counts` and `sort_values` do not promise one. The model's insertion sort happens to be stable, but the contracts only require non-increasing counts.
- `PickLists.Lower`: only ASCII letters are lower-cased. Python's `str.lower()` also folds non-ASCII letters.
- The selectbox restriction: the dashboard can only select a team or player shown in its pick list. The model accepts any string, which is more general.
- Pandas missing values and dtypes: a missing `WinningTeam` is `None`, `isWicketDelivery == 1` is a boolean, `Season` and `ID` are integers.
- The unfiltered identity (`Filters.IdentitySelection`, `Aggregates.IdentityReport`) assumes every delivery belongs to a listed match. Nothing in the script enforces this property of the data.
