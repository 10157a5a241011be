# TON unlock dashboard: sorting, formatting and theme rules

The dashboard (`app.js`, class `TONUnlockTracker`) shows a token-unlock
schedule: a table of wallet unlock records that the user sorts by clicking
column headers, amounts and market figures abbreviated to K/M/B, wallet
addresses shortened for display, and a light/dark theme that follows the
system until the user picks one. This project models those pure rules in
Dafny and proves what they promise:

- `wrappers.dfy` — `Option`, used for the possibly-absent dataset and the
  possibly-absent saved theme.
- `text.dfy` — lower-casing, the three-way string comparison standing in for
  `localeCompare` (with an independent definition of lexicographic order and
  proofs that the two agree), and the clamping rules of `substring`.
- `formatter.dfy` — the bucket choice of `formatLargeNumber` and
  `formatAmount`, and `truncateAddress`.
- `wallet.dfy` — the wallet record, the enumerated column selector, the sort
  state, and the comparator of `getSortedData`.
- `sorting.dfy` — the sorted copy of the wallet list: a stable functional
  insertion sort, proved to be a permutation ordered by the selected column.
- `table.dfy` — the controller's table state: loading, header clicks
  (`handleTableSort`) and the rows `renderTable` produces.
- `theme.dfy` — `initTheme`, `toggleTheme`, `updateThemeIcon` and the system
  colour-scheme listener as a state machine over the saved preference, the
  applied theme and the toggle glyph.

`truncateAddress` has no minimum-length guard, and the model does not add
one: short addresses go through `substring`'s clamping, so an address of 8
characters or fewer appears twice around the "...".

## Model

| member | source | states |
|---|---|---|
| Table.HandleTableSort | app.js:223-232 | without loaded data a click changes nothing; otherwise the clicked column becomes current, its direction reversed if it already was current and ascending if not; the wallet list is untouched |
| Table.ClickingCurrentFieldTwiceRestores | app.js:227-228 | two clicks on the current column give back the original state |
| Table.ClickingNewFieldTwiceSortsDescending | app.js:227-232 | two clicks on a new column leave it selected and descending |
| Table.ClicksWithoutDataAreIgnored | app.js:223-224 | with no wallet data, any sequence of clicks leaves the state unchanged and the table is not rendered |
| Table.DataLoaded | app.js:62-81 | a successful load installs the wallet list; a failed one leaves the state (and so the empty table) as it was |
| Table.RenderTable | app.js:253-276 | nothing is rendered exactly when the data is absent; otherwise the rows are those of the stored records with the same multiplicities, and they are the rows of a rearrangement of the stored list ordered by the current column's key |
| Table.MakeRow | app.js:263-273 | a row shows the rank, the shortened address, each of the three amounts in the token-amount format of its own field (no dollar sign) and the two dates as loaded |
| Table.MakeRows | app.js:263-275 | one row per record, in the records' order |
| Table.FailedLoadRendersNothing | app.js:10-18 | when the dataset fails to load, the table stays empty whatever headers are clicked afterwards |
| Table.FirstClickAfterLoad | app.js:4-6 | after loading, the sort is rank ascending; a first click on rank makes it descending, a first click elsewhere sorts that column ascending |
| Table.DoubleClickRendersSameTable | app.js:223-238 | after two clicks on the current column the rendered table is identical to the one before |
| Sorting.InsertionSort | app.js:279-281 | the sorted copy is a permutation of the stored list, ordered pairwise by the comparator |
| Sorting.GetSortedData | app.js:278-311 | the result has the stored records with their multiplicities and is ordered by the selected column's key: non-decreasing for asc, non-increasing for desc |
| Sorting.InsertKeepsSorted | app.js:281 | inserting into a list ordered by the comparator keeps it ordered |
| Sorting.SortOfSortedIsIdentity | app.js:279-281 | a list already ordered by the comparator is returned unchanged |
| Sorting.InOrderListIsShownUnchanged | app.js:278-311 | a list already ordered by the selected column's key is shown exactly as stored |
| Sorting.SortIsIdempotent | app.js:278-311 | sorting the sorted list again by the same column changes nothing |
| Sorting.StartDateExample | app.js:294-297 | a start date of 2024-01-01 sorts before 2024-06-01 whichever of the two orders the stored list has |
| Wallet.NumericValue | app.js:293-303 | the rank and each amount column (total, unlocked, locked) are compared as that field's number, the two date columns as their timestamps |
| Wallet.Compare | app.js:281-310 | every comparator result is -1, 0 or 1 |
| Wallet.DescIsSwappedAsc | app.js:289-309 | the descending comparator equals the ascending one with its arguments swapped |
| Wallet.CompareAntisymmetric | app.js:305-309 | comparing b with a gives the negation of comparing a with b |
| Wallet.CompareTransitive | app.js:281-310 | "not after" is transitive, for every column and direction |
| Wallet.CompareMatchesKeyOrder | app.js:282-309 | the comparator puts a no later than b exactly when a's key is at most b's (asc) or at least b's (desc), keys being lower-cased addresses in lexicographic order, timestamps, or numbers |
| Wallet.AddressOrderIgnoresCase | app.js:286-290 | under the address column two records tie exactly when their addresses are equal after lower-casing |
| Wallet.AddressCaseExample | app.js:286-288 | "EQAbC" and "eqaBc" tie |
| Text.LowerChar | app.js:287-288 | upper-case ASCII letters become their lower-case form; nothing else changes and no upper-case letter is left |
| Text.Lower | app.js:287-288 | lower-casing keeps the length and lower-cases each character |
| Text.LexCmp | app.js:290 | the string comparison returns -1, 0 or 1 |
| Text.LexCmpIsLexLe | app.js:290 | the comparison says "not after" exactly when the first string is a prefix of the second or holds the smaller character where they first differ |
| Text.LexCmpZero | app.js:290 | strings compare equal exactly when they are equal |
| Text.LexCmpAntisymmetric | app.js:289-290 | swapping the arguments negates the comparison |
| Text.LexCmpTransitive | app.js:290 | "not after" is transitive on strings |
| Text.Substring | app.js:314 | `substring` clamps both indices to the string and swaps them when reversed |
| Formatter.TruncateAddress | app.js:313-315 | the result is addr[0..min(12,n)] + "..." + addr[max(0,n-8)..n]; for n of at least 20, the first 12 characters, "...", the last 8, length 23 |
| Formatter.TruncationKeepsOnlyEnds | app.js:313-315 | two long addresses are displayed the same exactly when they share the first 12 and last 8 characters |
| Formatter.TruncateExample | app.js:314 | "EQCabcdefghijklmnopqrstuvwxyz0123" is displayed as "EQCabcdefghi...wxyz0123" |
| Formatter.FormatLargeNumber | app.js:111-120 | always a dollar sign; B from 1e9, M in [1e6,1e9), K in [1e3,1e6), none below; one decimal with a suffix and two without; the divisor is the suffix's magnitude (1e9, 1e6, 1e3, or 1 without a suffix); the scaled value is at least 1 with a suffix and below 1000 except in B |
| Formatter.FormatAmount | app.js:317-324 | no dollar sign; M with two decimals from 1e6, K with one decimal in [1e3,1e6), two decimals below; the divisor is the suffix's magnitude (1e6, 1e3, or 1); the scaled value is at least 1 with a suffix and below 1000 except in M |
| Formatter.FormattersShareBucketsBelowBillion | app.js:317-322 | below 1e9 both formatters pick the same suffix and divisor, and their decimals differ exactly in the M bucket |
| Formatter.FormatExamples | app.js:111-119 | 1.25e9 dollars is 1.25 with suffix B and one decimal; 1.25e6 tokens is 1.25 M with two; 500 tokens is 500 with two decimals and no suffix |
| ThemeManager.ApplyTheme | app.js:30-33 | the attribute and the body class both become the given theme; storage and glyph are untouched |
| ThemeManager.UpdateThemeIcon | app.js:54-59 | the glyph becomes a sun for dark and a moon for light; nothing else changes |
| ThemeManager.InitTheme | app.js:21-28 | whatever the page showed before, the applied theme is the saved one if present, else the system one; storage is untouched; attribute, body class and glyph agree |
| ThemeManager.ToggleTheme | app.js:45-52 | the new theme is light exactly when the current one is dark; the saved value equals the applied theme; the page stays consistent |
| ThemeManager.ToggleTwiceRestores | app.js:45-52 | two toggles bring back the theme, and the whole state once a matching preference is saved |
| ThemeManager.ToggleFromDarkSystemExample | app.js:45-52 | from nothing saved and a dark system, one toggle applies and saves light |
| ThemeManager.OnSystemChangeAsWritten | app.js:357-363 | a system change applies the system theme only when nothing is saved, and never touches the glyph |
| ThemeManager.SystemChangeAsWrittenLeavesStaleIcon | app.js:357-363 | with nothing saved, a system change to the other theme leaves a glyph that contradicts the applied theme |
| ThemeManager.OnSystemChange | app.js:357-363 | with a saved preference nothing changes; otherwise the system theme is applied and the page stays consistent |
| ThemeManager.Step | app.js:38-41 | with the corrected system listener, a preference is saved after an event exactly when one was saved before or the event is a toggle |
| ThemeManager.Run | app.js:356-363 | with the corrected system listener, a preference is saved after a series of events exactly when one was saved before or some event is a toggle |
| ThemeManager.StepAsWritten | app.js:357-362 | with the listener as written, a preference is saved after an event exactly when one was saved before or the event is a toggle |
| ThemeManager.RunAsWritten | app.js:356-363 | with the listener as written, a preference is saved after a series of events exactly when one was saved before or some event is a toggle |
| ThemeManager.RunsAgreeExceptIcon | app.js:357-363 | the as-written and the corrected listener lead to the same saved preference, attribute and body class after any events; they differ only in the glyph |
| ThemeManager.RunAsWrittenKeepsSavedIsApplied | app.js:357-362 | as written, a saved preference is always the theme on screen and the body class matches the attribute after any events |
| ThemeManager.SavedPreferenceIgnoresSystemAsWritten | app.js:358 | as written, once a preference is saved it stays saved and the theme depends only on the number of toggles |
| ThemeManager.RunKeepsInvariants | app.js:45-52 | with the corrected listener, across any toggles and system changes the page stays consistent (glyph included) and a saved preference is the theme on screen |
| ThemeManager.SavedPreferenceIgnoresSystem | app.js:358 | with the corrected listener, once a preference is saved it stays saved, and the theme depends only on the number of toggles, not on system changes |
| ThemeManager.UnsavedFollowsSystem | app.js:357-362 | with the corrected listener, before any toggle nothing is saved and the page shows the theme of the latest system change |

## Left out

- Network fetches and JSON parsing in `loadAppData` / `loadLiveMetrics` (app.js:62-109): remote I/O. A load is modelled only by its outcome, an optional wallet list (`Table.DataLoaded`).
- The price string and the `toFixed` digits (app.js:100, 113-119, 319-323): floating-point rendering. Only the currency sign, divisor, suffix and decimal count are modelled.
- Chart.js configuration and instance disposal (app.js:134-208): a wrapper over a library that is not part of this model.
- DOM side effects: header classes (app.js:241-250), row HTML (app.js:259-275, only the cell values are modelled), the error banner and its 5-second timer (app.js:327-348), `showMetricsError` (app.js:122-131), and the listener registration itself (app.js:35-37, 211-221); the handlers' effects are modelled.
- `localeCompare` is modelled as comparison by character code, and `toLowerCase` as ASCII lower-casing; locale collation and non-ASCII case mapping are not modelled.
- Dates are pre-parsed integer timestamps; invalid dates (NaN from `Date`), NaN amounts and the check of only `aVal` before numeric coercion (app.js:300) do not arise with a typed record.
- The saved theme is `Option<Theme>`; a stored string other than "light" or "dark", and a toggle before `initTheme` has set the attribute, are not modelled.
- Column names outside the seven record fields (a `data-sort` attribute naming no field) are not modelled: the field selector is an enumeration.
- Formatter.TruncateAddress: counts characters as Unicode scalar values, while JavaScript's `length` and `substring` count UTF-16 code units; the two agree for addresses without characters outside the Basic Multilingual Plane (wallet addresses are ASCII).
- Sorting.GetSortedData: the sort is stable (ties keep the stored order), but stability is not stated as a contract.

## Findings

| source | as written | input that shows it | evidently intended | confidence | as-written member | corrected member |
|---|---|---|---|---|---|---|
| app.js:357-363 | the system colour-scheme listener sets the attribute and body class but not the toggle glyph | nothing saved, page light with a moon glyph, system switches to dark: the page turns dark and the glyph stays a moon | update the glyph as `initTheme` and `toggleTheme` do | medium; not executed | ThemeManager.SystemChangeAsWrittenLeavesStaleIcon | ThemeManager.OnSystemChange |
