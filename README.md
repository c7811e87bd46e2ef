# FPDB player statistics query builder and installed-site detection

This project is a Dafny model of two parts of FPDB (Free Poker DataBase):

- **The player statistics page**, from `pyfpdb/GuiPlayerStats.py`:
  - `refineQuery` turns a SQL template into a query. It replaces nine named placeholders, in the source's order, with fragments built from the current filters: the player ids, the seat range and grouping, the big-blind levels, the level key and ordering, the detail filters, and the `signed` cast for MySQL InnoDB. The two level placeholders, `<hgameTypeId>` and `<orderbyhgameTypeId>`, are replaced in one order with hole cards and in the other without.
  - The row loop of `addTable` turns a result set into table cells. It decides which cell is blank, builds the game label with its stakes, and looks up each shown column.
  - The site loop of `fillStatsFrame` and its early exits.
- **The installed-site detector**, from `pyfpdb/DetectInstalledSites.py`. It finds the platform name and looks in the hand-history folders of Full Tilt Poker and PokerStars. The hero's name is the first entry there. It fills one status entry per site.

Modules:

- `Text` (text.dfy) covers the string operations the code relies on:
  - Python's `str.replace`, a single left-to-right pass over non-overlapping matches.
  - Substring search and joining.
  - Decimal digits.
- `PyValues` (pyvalues.dfy) covers the Python 2 values that reach the query builder: None, bools, `int`/`long` and strings. It models their truth value, `str()`, `repr()` (a long prints with a trailing `L`) and tuple/list rendering.
- `StatsQuery` (stats_query.dfy):
  - The text each placeholder receives.
  - The refinement as a function.
  - The template theorem: if neither a template's literal text nor any substitution text contains `<`, the sequence of `replace` calls equals filling each placeholder with its substitution.
  - For the values the page itself passes (integer player ids and seat bounds, detail filters whose column names hold no `<` and whose bounds are integers), no substitution text contains `<`, whatever the limits, the hole-card flag and the backend.
  - `DetailClauses`, the loop over the detail filters.
- `StatsTable` (stats_table.dfy):
  - The column configuration.
  - Cell blanking and formatting.
  - `str.title`.
  - The stake formatting and a parser that reads the stakes back.
  - The cells of a row and of a table as functions.
- `StatsFrame` (stats_frame.dfy): the site loop and the early exits of `fillStatsFrame`, as functions, with a reference description of what the loop collects.
- `StatsPage` (stats_page.dfy): the page object, class `PlayerStats`. It holds the detail filters, the backend code and the columns. Its methods carry the imperative code (`RefineQuery`, the row loop, the site loop), and each is proved equal to the function that specifies it.
- `SiteDetection` (detect_sites.dfy): class `DetectInstalledSites`, whose methods update `pathfound`, `herofound` and the status dictionary as the source does. The machine appears as a `Host` value: the platform strings, the two Windows shell folders, the home directory, which paths exist, and directory listings.

Database results, the filter panel's selections, the player-id lookup, hole-card names and floating-point formatting enter as parameters.

**Unresolved placeholders.** One might expect that the refinement never leaves a placeholder in the query. The model proves this when the literal text of the template has no `<` and no substitution text has one either; these conditions are sufficient, not necessary. The page's own values meet the second condition. A `<` in literal text is harmless in most templates, for instance in a comparison such as `h.seats < 10`. What can go wrong is nesting: `str.replace` works in a single pass, so an empty substitution can join the text around it into a new placeholder. For example, `<groupby<groupbyseats>seats>` becomes `<groupbyseats>` once the seat grouping is off. The following lemmas cover this:

- `StatsQuery.EmptySubstitutionSplices` proves this case for one `replace`, and `StatsQuery.RefinedSplices` for the whole refinement.
- `StatsQuery.RefinedFillsTemplate` and `StatsQuery.NoPlaceholderLeft` prove the guarantee under the two `<`-free conditions.
- `StatsQuery.SubstitutionAngleFree` discharges the second condition for the page's values, and `StatsQuery.RefinedLeavesNoPlaceholder` states the guarantee with only the template's condition left.

`fillStatsFrame` defaults the site list to PokerStars (site id 2) when no site is selected. The same condition leaves no player id, so the default never reaches a table (`StatsFrame.DefaultSiteNeverShown`).

## Model

| member | source | states |
|---|---|---|
| StatsQuery.Refined | pyfpdb/GuiPlayerStats.py:311-373 | the nine `replace` calls in source order, or the seats `KeyError`; what it computes is stated by `StatsQuery.RefinedFillsTemplate` (equal to filling every placeholder independently), `StatsQuery.RefinedFails` (when it fails), `StatsQuery.RefinedLeavesNoPlaceholder` and `StatsQuery.RefinedSplices`, and `StatsPage.PlayerStats.RefineQuery` is proved equal to it |
| StatsQuery.PlayerTest | pyfpdb/GuiPlayerStats.py:315-321 | `1 = 2` for no ids, otherwise the tuple repr with `L` and `,)` removed; `StatsQuery.PlayerTestIsInList` proves it is the reference SQL list for integer ids |
| StatsQuery.BlindTest | pyfpdb/GuiPlayerStats.py:336-342 | empty when no limit is all digits, otherwise ` and gt.bigBlind in ` and the cleaned tuple of those limits; `StatsQuery.BlindTestIsInList` proves it is the reference SQL list |
| StatsQuery.LevelStage | pyfpdb/GuiPlayerStats.py:344-353 | with hole cards `<hgameTypeId>` is replaced before `<orderbyhgameTypeId>`, without them after; `StatsQuery.LevelKeyCases` gives the key, and `StatsQuery.RefinedFillsTemplate` shows that both orders fill a well-formed template alike |
| StatsQuery.FilterClause | pyfpdb/GuiPlayerStats.py:359-362 | a three-element filter gives ` and X between Y and Z `, any other nothing; see `StatsQuery.FlagTestIgnoresNonTriples` |
| StatsQuery.FlagTest | pyfpdb/GuiPlayerStats.py:355-363 | the clauses of the filters in list order; see `StatsQuery.FlagTestAppend` and `StatsQuery.DetailClauses` |
| PyValues.Repr | pyfpdb/GuiPlayerStats.py:316 | Python 2 `repr` of one value, a long with a trailing `L`; `PyValues.StripLong` proves that removing `L` leaves the SQL literal |
| PyValues.SqlTuple | pyfpdb/GuiPlayerStats.py:316-318 | `str(tuple(...))` with `L` and then `,)` replaced; `PyValues.SqlTupleIsInList` proves it equals the reference SQL list for plain values, `PyValues.SingleIdCollapses` shows the one-id case |
| Text.Replace | pyfpdb/GuiPlayerStats.py:319 | Python's `str.replace`: one left-to-right pass over non-overlapping matches, never rescanning the replacement; stated by `Text.ReplaceAbsent`, `Text.ReplaceHead`, `Text.ReplaceSkip` and, on templates, `StatsQuery.ReplaceHole` |
| Text.ReplaceSkip | pyfpdb/GuiPlayerStats.py:319 | text that cannot start the pattern is copied unchanged and the scan goes on after it |
| StatsPage.PlayerStats.RefineQuery | pyfpdb/GuiPlayerStats.py:311-373 | the query is exactly `Refined` of the inputs, the page's detail filters and its backend; a non-empty seats dictionary without 'from' or 'to' ends in that `KeyError` |
| StatsPage.PlayerStats.constructor | pyfpdb/GuiPlayerStats.py:121 | the detail filters start empty; the backend and the 20 configured columns are kept |
| StatsQuery.RefinedFillsTemplate | pyfpdb/GuiPlayerStats.py:311-373 | for a template whose literal text has no `<` and whose fragments have none, the nine replacements in source order equal filling every placeholder with its own fragment independently |
| StatsQuery.NoPlaceholderLeft | pyfpdb/GuiPlayerStats.py:311-373 | for a template whose literal text has no `<`, when every placeholder has a fragment and no fragment has `<`, the filled template `Render(Fill(t, subst))` contains no `<`; this is the refined query only through `StatsQuery.RefinedFillsTemplate` |
| StatsQuery.SubstitutionAngleFree | pyfpdb/GuiPlayerStats.py:315-369 | for integer ids and seat bounds and for detail filters with `<`-free column names and integer bounds, no fragment contains `<`, whatever the limits, hole-card flag and backend; the fragments are keyed by exactly the nine placeholder names |
| StatsQuery.RefinedLeavesNoPlaceholder | pyfpdb/GuiPlayerStats.py:311-373 | a template whose literal text has no `<` and whose placeholders are among the nine, refined from such values, gives a query (no `KeyError` once the seat bounds are present) that contains no `<` |
| StatsQuery.RefinedSplices | pyfpdb/GuiPlayerStats.py:311-373 | with seat grouping off, refining `<groupby<groupbyseats>seats>` leaves the query `<groupbyseats>` |
| StatsQuery.EmptySubstitutionSplices | pyfpdb/GuiPlayerStats.py:329-330 | an empty replacement can splice the surrounding text into a new placeholder, so the query can keep a placeholder when the template's literal text has `<` |
| StatsQuery.RefinedFails | pyfpdb/GuiPlayerStats.py:323-324 | the refinement fails exactly when seats is non-empty and lacks 'from' or 'to' |
| StatsQuery.SeatsTest | pyfpdb/GuiPlayerStats.py:323-334 | `KeyError` iff seats is non-empty and lacks a bound ('from' reported first); an empty dictionary gives `between 0 and 100`; otherwise `between <from> and <to>` |
| StatsQuery.SeatsGroup | pyfpdb/GuiPlayerStats.py:325-334 | the grouping is `,h.seats` iff seats is non-empty with a truthy 'show', and empty otherwise |
| StatsQuery.PlayerTestIsInList | pyfpdb/GuiPlayerStats.py:315-321 | no ids give `1 = 2`; otherwise the ids as an SQL list of plain integers, with no `L` suffix and no trailing comma |
| PyValues.SqlTupleIsInList | pyfpdb/GuiPlayerStats.py:316-318 | stripping `L` and `,)` from the tuple repr of plain values gives the parenthesised comma-separated literals |
| PyValues.SingleIdCollapses | pyfpdb/GuiPlayerStats.py:316-318 | a single long id `5L` becomes `(5)` |
| PyValues.StripLong | pyfpdb/GuiPlayerStats.py:317 | removing `L` from a plain value's repr gives its SQL literal |
| PyValues.DigitStr | pyfpdb/GuiPlayerStats.py:336 | `str(x).isdigit()` holds exactly for non-negative integers and digit strings |
| PyValues.ShowInListRepr | pyfpdb/GuiPlayerStats.py:349 | `"show" in str(limits)` holds iff some limit's repr contains `show` |
| StatsQuery.DigitLimits | pyfpdb/GuiPlayerStats.py:336-337 | the kept limits are limits whose `str` is all digits, and every such limit is kept |
| StatsQuery.DigitLimitsAppend | pyfpdb/GuiPlayerStats.py:336-337 | the digit filter distributes over concatenation (order is kept) |
| StatsQuery.BlindTestIsInList | pyfpdb/GuiPlayerStats.py:336-342 | no digit limits give the empty fragment; otherwise ` and gt.bigBlind in ` followed by the SQL list of those limits |
| StatsQuery.LevelKeyCases | pyfpdb/GuiPlayerStats.py:344-353 | hole cards key on `hp.startcards`; otherwise `h.gameTypeId` iff some limit mentions `show`, else `-1` |
| StatsQuery.FlagTestAppend | pyfpdb/GuiPlayerStats.py:355-363 | the detail-filter clauses of two lists concatenate |
| StatsQuery.FlagTestIgnoresNonTriples | pyfpdb/GuiPlayerStats.py:360 | filters that are not triples add nothing |
| StatsQuery.DetailClauses | pyfpdb/GuiPlayerStats.py:355-362 | the loop builds exactly `FlagTest` of the filters |
| StatsQuery.Signed | pyfpdb/GuiPlayerStats.py:365-369 | `signed ` iff the backend is MySQL InnoDB (2); empty otherwise |
| StatsQuery.ReplaceHole | pyfpdb/GuiPlayerStats.py:319 | replacing one well-formed placeholder in a rendered template equals filling that hole |
| StatsQuery.FillWellFormed | pyfpdb/GuiPlayerStats.py:311-373 | filling with `<`-free fragments keeps a template well formed |
| StatsQuery.FillMore | pyfpdb/GuiPlayerStats.py:311-373 | filling in two steps equals filling with the combined substitution |
| Text.ReplaceAbsent | pyfpdb/GuiPlayerStats.py:319 | `replace` leaves a string without the pattern unchanged |
| Text.ReplaceHead | pyfpdb/GuiPlayerStats.py:319 | a pattern at the front is replaced and the scan continues after it |
| StatsPage.PlayerStats.TableRows | pyfpdb/GuiPlayerStats.py:235-306 | the loop fills exactly `Table` of the result with lower-cased column names; it fails as the source does on a missing `hgametypeid` column or a bad game row |
| StatsPage.PlayerStats.RowTexts | pyfpdb/GuiPlayerStats.py:276-303 | the inner loop produces exactly `RowCells` of the row |
| StatsPage.LowerNames | pyfpdb/GuiPlayerStats.py:235 | one name per result column, each of the same length, with no ASCII upper-case letter, agreeing with the original letter by letter up to case and equal to it on every other character |
| StatsTable.Table | pyfpdb/GuiPlayerStats.py:238-239 | a result without `hgametypeid` fails before any row; a finished table has one row per result row |
| StatsTable.RowsFromAppend | pyfpdb/GuiPlayerStats.py:270-306 | one more result row adds its cells as one more table row, or the row's error |
| StatsTable.RowsFromFailed | pyfpdb/GuiPlayerStats.py:270-306 | a failing row ends the table: later rows change nothing |
| StatsTable.RowOfKnownColumns | pyfpdb/GuiPlayerStats.py:276-278 | when the result has every shown column, the row is one cell per column, in order, each the blank-cell rule on that column's value |
| StatsTable.RowCellsAppend | pyfpdb/GuiPlayerStats.py:276-303 | one more column adds its cell, adds nothing when the result lacks it (other than `game`), or fails with the game label's error |
| StatsTable.RowCellsFailed | pyfpdb/GuiPlayerStats.py:284-288 | a failing column ends the row |
| StatsTable.CellOf | pyfpdb/GuiPlayerStats.py:277-299 | a column the result has takes its value by name; `game` otherwise takes the start cards or the label; any other missing column is skipped (`continue`); stated through `StatsTable.RowCellsAppend` and `StatsTable.RowOfKnownColumns` |
| StatsTable.RowCells | pyfpdb/GuiPlayerStats.py:276-303 | the cells of one row, at most one per shown column; `StatsTable.RowCellsAppend`, `StatsTable.RowCellsFailed` and `StatsTable.RowOfKnownColumns` state them, and `StatsPage.PlayerStats.RowTexts` is proved equal to it |
| StatsTable.Format | pyfpdb/GuiPlayerStats.py:300-301 | `fmt % value`: `%s` on text gives the text, `%s` or `%d` on an integer its decimal digits, the float formats come from `numeric`; see `StatsTable.BlankCountCell` |
| StatsTable.CellText | pyfpdb/GuiPlayerStats.py:300-303 | a falsy value or the sentinel -999 gives a blank cell; any other value is formatted with the column's format |
| StatsTable.BlankTextCell | pyfpdb/GuiPlayerStats.py:300-303 | a text cell is blank exactly for the empty string or a single space |
| StatsTable.BlankCountCell | pyfpdb/GuiPlayerStats.py:300-303 | a count cell is blank exactly for 0 and -999 |
| StatsTable.Shown | pyfpdb/GuiPlayerStats.py:238 | the shown columns are configured columns with the show flag, and every such column is shown |
| StatsTable.ShownAppend | pyfpdb/GuiPlayerStats.py:238 | the filter distributes over concatenation, so it keeps the columns' order and multiplicity |
| StatsTable.IndexOf | pyfpdb/GuiPlayerStats.py:278 | `list.index`: the first position of the name |
| StatsTable.GameValue | pyfpdb/GuiPlayerStats.py:284-297 | the label exists iff the label columns are present and typed, and is then the text `GameLabel` of the row's limit type, category, name and two big blinds; a missing column is reported by its name |
| StatsTable.Title | pyfpdb/GuiPlayerStats.py:287 | `str.title` on ASCII; stated by `StatsTable.TitleShape` and `StatsTable.TitleIdempotent` |
| StatsTable.StakeRange | pyfpdb/GuiPlayerStats.py:289-297 | the lower stake, then ` - $` and the upper stake when they differ; stated by `StatsTable.StakeRangeRoundTrip` and `StatsTable.UpperStakeShown` |
| StatsTable.GameLabel | pyfpdb/GuiPlayerStats.py:286-297 | limit type, title-cased category, name, ` $` and the stakes; stated by `StatsTable.GameLabelStakes` |
| StatsTable.TitleShape | pyfpdb/GuiPlayerStats.py:287 | `str.title`: a cased letter is upper-cased at the start of a word and lower-cased inside one; other characters are kept |
| StatsTable.TitleIdempotent | pyfpdb/GuiPlayerStats.py:287 | title-casing twice is title-casing once |
| StatsTable.FractionTest | pyfpdb/GuiPlayerStats.py:289 | `100 * int(c/100.0) != c` holds exactly when c is not a whole number of hundreds |
| StatsTable.StakeDecimals | pyfpdb/GuiPlayerStats.py:289-292 | a stake shows a decimal point exactly when it has cents |
| StatsTable.StakeRoundTrip | pyfpdb/GuiPlayerStats.py:289-292 | the stake text reads back to the stake in cents |
| StatsTable.StakeRangeRoundTrip | pyfpdb/GuiPlayerStats.py:289-297 | the stakes text reads back to both big blinds |
| StatsTable.UpperStakeShown | pyfpdb/GuiPlayerStats.py:293 | the upper stake is left out exactly when it equals the lower |
| StatsTable.GameLabelStakes | pyfpdb/GuiPlayerStats.py:286-297 | the label is limit type, title-cased category, name and ` $`, followed by stakes that read back to both big blinds |
| StatsTable.StakeExamples | pyfpdb/GuiPlayerStats.py:289-292 | 550 cents show as `5.50` and 500 as `5` |
| StatsPage.PlayerStats.FillStatsFrame | pyfpdb/GuiPlayerStats.py:158-179 | the loop and exits give exactly `FillFrame`, including the `KeyError` for a selected site without an id or a hero |
| StatsFrame.FillFrame | pyfpdb/GuiPlayerStats.py:158-179 | the tables are reached iff the scan succeeds with some player id and some limit, with the scan's ids; a `KeyError` iff the scan fails; missing player ids are reported first, and the missing-limits exit only with some player id and no limit |
| StatsFrame.ScanSites | pyfpdb/GuiPlayerStats.py:162-168 | no more player ids than site ids, and no more site ids than sites |
| StatsFrame.ScanMeaning | pyfpdb/GuiPlayerStats.py:162-168 | the scan fails iff a selected site lacks an id or a hero; otherwise the site ids are the selected sites' ids in order and the player ids those of heroes with exactly one row |
| StatsFrame.DefaultSiteNeverShown | pyfpdb/GuiPlayerStats.py:170-176 | with no site selected the frame stops for lack of player ids |
| StatsFrame.MissingStays | pyfpdb/GuiPlayerStats.py:162-165 | after a `KeyError` later sites change nothing |
| SiteDetection.DetectInstalledSites.constructor | pyfpdb/DetectInstalledSites.py:54-105 | the platform is normalised; "All" gives one entry per supported site and leaves the hero, path and flag at their initial values; any other name gives that one entry and copies its fields |
| SiteDetection.DetectInstalledSites.DetectAll | pyfpdb/DetectInstalledSites.py:96-98 | the dictionary gains the detection of every supported site; the found path and hero are left as the last site's detector set them |
| SiteDetection.DetectInstalledSites.Detect | pyfpdb/DetectInstalledSites.py:107-122 | the entry is `Detection` of the site, whatever was found before |
| SiteDetection.DetectInstalledSites.DetectFullTilt | pyfpdb/DetectInstalledSites.py:124-143 | the found path and hero become the probe of the Full Tilt folder from the previous ones |
| SiteDetection.DetectInstalledSites.DetectPokerStars | pyfpdb/DetectInstalledSites.py:145-164 | the found path and hero become the probe of the PokerStars folder from the previous ones |
| SiteDetection.DetectInstalledSites.Look | pyfpdb/DetectInstalledSites.py:135-141 | keeps the folder if it exists, then takes the first entry of the found path; failures change nothing |
| SiteDetection.UserPlatform | pyfpdb/DetectInstalledSites.py:90-94 | Windows becomes "XP" exactly for release XP and "Win7" otherwise; other systems keep their name |
| SiteDetection.PlatformSupported | pyfpdb/DetectInstalledSites.py:85-94 | for a system not itself reported as "XP" or "Win7", the platform is a supported one iff the system is Windows or Linux |
| SiteDetection.ExpandUser | pyfpdb/DetectInstalledSites.py:127 | a `~/` path starts at the home directory; paths not starting with `~` are kept |
| SiteDetection.FullTiltBase | pyfpdb/DetectInstalledSites.py:126-133 | a folder exists exactly for the supported platforms; on Linux it is `/.wine/drive_c/Program Files/Full Tilt Poker/HandHistory/` below the home directory stripped of trailing slashes; on both Windows platforms it is under Program Files |
| SiteDetection.PokerStarsBase | pyfpdb/DetectInstalledSites.py:147-154 | a folder exists exactly for the supported platforms; on Linux `/.wine/drive_c/Program Files/PokerStars/HandHistory/` below the home directory stripped of trailing slashes; under Program Files on XP and under local application data on Win7 |
| SiteDetection.Probe | pyfpdb/DetectInstalledSites.py:135-141 | the folder replaces the found path if it exists; then the first entry of the found path, if it lists, becomes the hero and is appended to the path; stated by `SiteDetection.DetectedMeans` and `SiteDetection.StalePathLeaks`, and `SiteDetection.DetectInstalledSites.Look` is proved equal to it |
| SiteDetection.Found | pyfpdb/DetectInstalledSites.py:109-115 | path and hero start empty and only Full Tilt and PokerStars are probed; stated by `SiteDetection.Detection`, `SiteDetection.DetectedMeans` and `SiteDetection.OnlyTwoDetectors` |
| SiteDetection.Detection | pyfpdb/DetectInstalledSites.py:107-122 | detected iff both path and hero are non-empty; a site that is not detected has an empty entry; only Full Tilt and PokerStars on supported platforms can be detected |
| SiteDetection.DetectedMeans | pyfpdb/DetectInstalledSites.py:107-164 | detected iff the site's folder exists and lists a non-empty first entry; the hero is that entry and the path the folder followed by it |
| SiteDetection.StalePathLeaks | pyfpdb/DetectInstalledSites.py:109-110 | without the reset, a missing folder would let an earlier path be listed |
| SiteDetection.AllStatuses | pyfpdb/DetectInstalledSites.py:96-98 | one entry per listed site, each its detection |
| SiteDetection.OnlyTwoDetectors | pyfpdb/DetectInstalledSites.py:68-83 | every supported site other than Full Tilt and PokerStars is reported not detected |

## Left out

- The GTK interface is not modelled: widgets, headers, column renderers, row colours, the detail-filter dialog, `createStatsTable`, `refreshStats` and the thread. The row loop keeps only the cells it appends.
- Database access (executing the query, fetching rows, the cursor description and the player-id lookup) enters as parameters.
- `Card.twoStartCardString` and the `%3.1f`-style float formats are parameters (`startCards`, `numeric`); floating point is not modelled.
- StatsTable.GameValue: the big blinds are integers of cents, and the stake text is taken to be the integer-cents rendering (`Stake`) that `%.2f` or `%.0f` of `minbb/100.0` prints; the binary floating-point value of `minbb/100.0` and its rounding are not modelled. A non-integer stake or a non-text label part is a `BadValue` error, where Python would format or raise depending on the type.
- StatsTable.Title: letter case covers ASCII letters only. `PyValues.DigitStr` likewise treats only ASCII digits as digits.
- PyValues.Repr: strings are quoted with single quotes and not escaped.
- `sitenos` is passed to `refineQuery` and not used there, as in the source. The list built by `fillStatsFrame` is carried through but not used by the model either.
- Print statements are not modelled.
- StatsQuery.RefinedFillsTemplate, StatsQuery.NoPlaceholderLeft and StatsQuery.RefinedLeavesNoPlaceholder cover only templates whose literal SQL has no `<`, so templates with `<`, `<=` or `<>` comparisons are outside them. The weaker condition, that no literal `<` starts the name of one of the nine placeholders, is not stated.
- StatsTable.RowCells: a shown column that the result lacks (other than `game`) is skipped by `continue`, so the row is shorter than the list store's columns and `ListStore.append` raises `ValueError`; the model returns the shorter row as a success.
- StatsTable.Format: a numeric format applied to text (`'%d' % 'abc'`, `'%3.1f' % 'abc'`) raises `TypeError` in Python; the model hands it to the `numeric` parameter, which returns some text.
- SiteDetection.ExpandUser: only `~/` paths are expanded; `~user` forms and a bare `~` are kept as they are.
- `os.path.exists` and `os.listdir` answer from the `Host` value, which is fixed during a detection. The Windows shell folders are fields of it.
- The `unicode()` conversions of the found path and hero are taken as the identity. In Python 2 the home directory and the listing are byte strings, and a name with non-ASCII bytes makes `unicode()` raise `UnicodeDecodeError`; the model does not capture this exception.
- A listing that raises for a reason other than a missing directory is treated like a missing directory.
