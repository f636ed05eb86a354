# Lottery ticket builder — a Dafny model

This project models the logic of a browser app for writing lottery tickets. A user picks
one or more draws ("tracks") from a USA catalog and a Santo Domingo catalog. The user then
enters plays: a bet number plus straight, box and combo stakes. The app classifies each bet
number into a game mode and prices each row. The grand total is the row totals multiplied
by the number of tracks, and Venezuela tracks are free. A ticket is issued only when every
row is complete.

The model covers these parts:

- the classifier and the pricing engine (`utils/helpers.ts`);
- the session's play-list handlers (`App.tsx`);
- the quick-entry wizard (`components/WizardModal.tsx`);
- the play table's selection, copy/paste and duplicate detection (`components/PlaysTable.tsx`);
- the track selector with its cutoff rule (`components/TrackSelector.tsx`);
- the constant catalog and cutoff tables (`constants.ts`).

Each source file is one module:

| module | file | form |
|---|---|---|
| `Constants` | `constants.dfy` | constant tables, with lemmas about them |
| `Helpers` | `helpers.dfy` | pure functions, plus the `CalcCombos` method with its two loops |
| `App` | `app.dfy` | pure list functions, plus the class `Session` whose methods are the handlers |
| `Wizard` | `wizard.dfy` | the class `WizardState`, whose loop methods are specified by functions |
| `PlaysTable` | `playstable.dfy` | the `DuplicateBetNumbers` loop, plus the class `TableSelection` |
| `TrackSelector` | `trackselector.dfy` | pure functions, plus the class `CategoryPanel` |

Shared modules:

- `Types`: the records of `types.ts`;
- `Wrappers`: `Option`;
- `SeqOps`: counting, removing and toggling in sequences;
- `Digits`: decimal rendering, `padStart` and parsing back.

## Modelling choices

- **Amounts** are exact `real`s. A JavaScript `null` is `None`.
- **Ids** are abstract integers. Each handler that creates rows takes fresh ids as parameters, and its precondition is that they are not already used. The source makes them from `Date.now() + Math.random()`.
- **Game modes** stay strings, as in the source. `calculateRowTotal` has a fallback branch for any other string, and that branch stays reachable.
- **Clock and randomness.** The clock is two parameters: today's date string and the milliseconds since local midnight. The quick-pick random numbers are a sequence of naturals `draws`. Each draw stands for `Math.floor(Math.random() * 10^w)` and is below `10^w`.
- **Dialogs.** An `alert` refusal leaves the state unchanged and returns `false` or `None`. A `window.confirm` answer is a boolean parameter.
- **Quirks reproduced as written:**
  - Changing the track selection does not reclassify existing rows.
  - Rows added from the wizard keep the game mode they came with.
  - Rows added from OCR are reclassified against the current tracks.
  - `isAllSelected` compares only lengths. After single-row deletes, a selection holding stale ids can count as "all selected" (`PlaysTable.AllSelectedByCountStale`).
- **Quick-pick mode.** The `qpMode` select offers exactly four options (components/WizardModal.tsx:117-122), so it is a four-case datatype `QuickMode`. For these four the `if(numStr)` guard at line 60 always holds.
- **Combos.** `calcCombos` is a method with the same two loops: a frequency map, then a product of factorials. It is proved equal to the pure multinomial `Combos(s) = |s|! / Denominator(s)`. A lemma proves that the division is exact.

## Model

| member | source | states |
|---|---|---|
| Constants.CatalogSize | constants.ts:6-48 | the catalog holds 31 tracks |
| Constants.CatalogIdsAreNames | constants.ts:6-48 | every catalog track's id equals its name |
| Constants.CatalogNamesDistinct | constants.ts:6-48 | all 31 track names are pairwise distinct |
| Constants.CategoriesDisjoint | constants.ts:8-46 | no name is listed in both the USA and the Santo Domingo category |
| Constants.CutoffTableFollowsCatalog | constants.ts:50-82 | the cutoff table has one entry per catalog track, in catalog order |
| Constants.CutoffsWellFormed | constants.ts:50-82 | every cutoff is a 24-hour `HH:MM` string (hours < 24, minutes < 60) |
| Constants.CatalogHasCutoffs | constants.ts:50-82 | every catalog track has a cutoff, and it is a valid `HH:MM` time |
| Constants.NoCutoffOutsideCatalog | constants.ts:50-82 | a name outside the catalog has no cutoff entry |
| Constants.CutoffIsClockTime | constants.ts:50-82 | any cutoff found by lookup is a valid clock time |
| Constants.CutoffOf | constants.ts:50-82 | the `CUTOFF_TIMES[name]` lookup, `None` for a missing key; CatalogHasCutoffs, NoCutoffOutsideCatalog and CutoffIsClockTime state what it returns |
| Constants.Lookup | constants.ts:50-82 | the first entry with the key, or `None`; LookupAt, LookupMissing and LookupFound state its meaning |
| Constants.LookupAt | constants.ts:50-82 | with distinct keys, looking up the i-th key yields the i-th value |
| Constants.LookupMissing | constants.ts:50-82 | looking up a key absent from the table yields no value |
| Constants.LookupFound | constants.ts:50-82 | a successful lookup comes from an entry of the table holding that key and value |
| Constants.SantoDomingoTracksMarked | constants.ts:32-46 | every Santo Domingo track name contains one of the Santo Domingo markers of utils/helpers.ts:6 |
| Constants.MarkerOf | constants.ts:32-46 | for each Santo Domingo track, a marker and the position where it occurs in the name |
| Constants.UsaTracksUnmarked | constants.ts:8-29 | no USA track name contains a Santo Domingo marker |
| Constants.NoSdMarker | utils/helpers.ts:6 | a name missing certain letters contains none of the Santo Domingo markers |
| Constants.VenezuelaUnmarked | constants.ts:23 | "Venezuela" sits in the USA category but contains none of the USA markers |
| Constants.UsaSelectionClassifies | constants.ts:8-29 | a USA-only selection is not Santo Domingo, so 2-digit bets are `Pulito` and dash bets `Palé` |
| Constants.SantoDomingoSelectionClassifies | constants.ts:32-46 | any selection that includes a Santo Domingo track makes 2-digit bets `RD-Quiniela` and dash bets `Pale-RD` |
| Helpers.ContainsIff | utils/helpers.ts:5-6 | the substring test holds exactly when the marker occurs at some position |
| Helpers.AbsentChar | utils/helpers.ts:5-6 | a name lacking one character of a marker does not contain that marker |
| Helpers.Contains | utils/helpers.ts:5-6 | `includes`; ContainsIff characterises it as an occurrence at some position |
| Helpers.IsUsa | utils/helpers.ts:5 | the USA flag: some selected track contains a USA marker; ModeDependsOnlyOnSd shows the classifier never depends on it |
| Helpers.IsSd | utils/helpers.ts:6 | the Santo Domingo flag: some selected track contains a Santo Domingo marker; UsaSelectionClassifies and SantoDomingoSelectionClassifies relate it to the catalog |
| Helpers.CleanBet | utils/helpers.ts:8 | the cleaned bet holds only digits and dashes and is no longer than the input; what it keeps, and in what order, is stated by the two lemmas below |
| Helpers.CleanBetCounts | utils/helpers.ts:8 | cleaning keeps every digit and dash of the input as often as it occurs, and no other character |
| Helpers.CleanBetAppend | utils/helpers.ts:8 | cleaning works character by character, so the kept characters stay in input order |
| Helpers.CleanBetKeeps | utils/helpers.ts:8 | cleaning leaves a string of digits and dashes unchanged |
| Helpers.DigitsOnly | utils/helpers.ts:15 | the digit filter yields only digits and is no longer than the input; what it keeps, and in what order, is stated by the two lemmas below |
| Helpers.DigitsOnlyCounts | utils/helpers.ts:15 | the digit filter keeps every digit of the input as often as it occurs, and no other character |
| Helpers.DigitsOnlyAppend | utils/helpers.ts:46 | the digit filter works character by character, so the digits stay in input order |
| Helpers.DigitsOnlyKeeps | utils/helpers.ts:46 | the digit filter leaves an all-digit string unchanged |
| Helpers.CleanWithoutDashes | utils/helpers.ts:8-15 | removing the dashes from the cleaned bet gives exactly its digits |
| Helpers.PaleShapeDigits | utils/helpers.ts:9-15 | a bet whose cleaned form is `DD-DD` has exactly four digits |
| Helpers.DetermineGameMode | utils/helpers.ts:2-22 | the result is always one of the seven mode labels |
| Helpers.EmptyBetIsUnset | utils/helpers.ts:3 | an empty bet classifies as `-` whatever the tracks |
| Helpers.ModeCharacterization | utils/helpers.ts:2-22 | one if-and-only-if per label, giving which bets and selections produce it (`DD-DD` shape, digit count, the Santo Domingo flag) |
| Helpers.DigitBetClassifies | utils/helpers.ts:15-21 | an all-digit bet of length 2, 3 or 4 classifies by its length |
| Helpers.PaleBetClassifies | utils/helpers.ts:9-13 | a `DD-DD` bet is `Pale-RD` under a Santo Domingo selection, else `Palé` |
| Helpers.ModeDependsOnlyOnSd | utils/helpers.ts:5-6 | two selections with the same Santo Domingo flag classify every bet alike; the USA flag plays no part |
| Helpers.PickAndWinIgnoreTracks | utils/helpers.ts:18-19 | a `Pick 3` or `Win 4` classification does not depend on the tracks |
| Helpers.Factorial | utils/helpers.ts:27 | a factorial is at least 1 |
| Helpers.FactorialStep | utils/helpers.ts:27 | n! = n·(n−1)! for n ≥ 1 |
| Helpers.FactorialSplit | utils/helpers.ts:27 | (a+b)! = a!·b!·B(a,b) for the binomial B, so a!·b! divides (a+b)! |
| Helpers.Denominator | utils/helpers.ts:28-29 | the product of the factorials of the character counts is at least 1 |
| Helpers.DenominatorSplit | utils/helpers.ts:28-29 | the product splits off any character's count factorial |
| Helpers.DenominatorPermutation | utils/helpers.ts:28-29 | the product depends only on the multiset of characters |
| Helpers.CombosTimesDenominator | utils/helpers.ts:24-31 | Combos(s) · ∏ cᵢ! = \|s\|!, so the source's division is exact |
| Helpers.CombosExact | utils/helpers.ts:30 | \|s\|! / ∏ cᵢ! equals Combos(s), which lies between 1 and \|s\|! |
| Helpers.Combos | utils/helpers.ts:24-31 | the reference multinomial count, at least 1; CombosTimesDenominator and CombosExact prove it equals \|s\|! / ∏ cᵢ!, and CalcCombos computes it with the source's loops |
| Helpers.CombosPermutation | utils/helpers.ts:24-31 | permuting the string does not change the combo count |
| Helpers.CombosDistinct | utils/helpers.ts:24-31 | with all characters distinct the count is \|s\|! |
| Helpers.DenominatorDistinct | utils/helpers.ts:28-29 | with all characters distinct the product of factorials is 1 |
| Helpers.CombosAllSame | utils/helpers.ts:24-31 | a non-empty string of one repeated character has one arrangement |
| Helpers.CombosPair | utils/helpers.ts:24-31 | the pattern `xxy` has 3 arrangements |
| Helpers.CombosExampleSame | utils/helpers.ts:24-31 | `"111"` gives 1 |
| Helpers.CombosExamplePair | utils/helpers.ts:24-31 | `"112"` gives 3 |
| Helpers.CombosExampleThree | utils/helpers.ts:24-31 | `"123"` gives 6 |
| Helpers.CombosExampleFour | utils/helpers.ts:24-31 | `"1234"` gives 24 |
| Helpers.CombosExampleEmpty | utils/helpers.ts:24-31 | `""` gives 1 |
| Helpers.Keep | utils/helpers.ts:29 | restricting a string to a set of keys keeps those keys' counts and drops every other character |
| Helpers.DenominatorStep | utils/helpers.ts:29 | one iteration of the product loop multiplies in one key's count factorial |
| Helpers.CountFrequencies | utils/helpers.ts:25-26 | the frequency loop yields exactly the characters of the string, each mapped to its count |
| Helpers.CalcCombos | utils/helpers.ts:24-31 | the two-loop computation returns the multinomial Combos(s) |
| Helpers.ScaleIsProduct | utils/helpers.ts:47 | repeated addition of the combo stake equals stake × count |
| Helpers.RowTotalUnset | utils/helpers.ts:35 | an empty bet or mode `-` totals 0 |
| Helpers.RowTotal | utils/helpers.ts:34-51 | the row price; RowTotalUnset, RowTotalIgnoresCombo, RowTotalCounted and RowTotalFallback give its value on every branch |
| Helpers.RowTotalIgnoresCombo | utils/helpers.ts:41-43 | for the four two-digit modes the total is straight + box, and the combo stake is ignored |
| Helpers.RowTotalCounted | utils/helpers.ts:45-48 | for `Pick 3`/`Win 4` the total is straight + box + combo × Combos(digits of the bet) |
| Helpers.RowTotalReorderedDigits | utils/helpers.ts:45-48 | bets whose digits are permutations of each other cost the same |
| Helpers.RowTotalFallback | utils/helpers.ts:50 | any other non-`-` mode totals straight + box + combo |
| Helpers.RowTotalNonNegative | utils/helpers.ts:34-51 | with non-negative (or absent) stakes every total is non-negative |
| Helpers.RowTotalExamples | utils/helpers.ts:34-51 | a `Pulito` row with stakes 5/3/999 costs 8; an empty bet costs 0 |
| Helpers.RowTotalThreeDistinct | utils/helpers.ts:45-48 | three distinct digits multiply the combo stake by 6 |
| Helpers.RowTotalFourDistinct | utils/helpers.ts:45-48 | four distinct digits multiply the combo stake by 24 |
| Helpers.RowTotalOnePair | utils/helpers.ts:45-48 | a `Pick 3` with one repeated digit multiplies the combo stake by 3 |
| Helpers.DistinctDigitsCombos | utils/helpers.ts:46 | 3 or 4 distinct digits give 6 or 24 combos |
| Helpers.PairedDigitsCombos | utils/helpers.ts:46 | digits `xxy` give 3 combos |
| Helpers.TodayDateStringFields | utils/helpers.ts:53-59 | the date string is `YYYY-MM-DD`; its fields read back as the year, the 1-based month and the day |
| Helpers.TodayDateStringInjective | utils/helpers.ts:53-59 | different dates give different strings |
| Helpers.TodayDateString | utils/helpers.ts:53-59 | the `YYYY-MM-DD` rendering of a date given as parameters; TodayDateStringFields and TodayDateStringInjective state its format and that it is one-to-one |
| Digits.NatToString | utils/helpers.ts:56-57 | decimal rendering is non-empty, all digits, with no leading zero |
| Digits.PadStart | utils/helpers.ts:56-57 | padding yields length max(\|s\|, width) |
| Digits.PadStartShape | utils/helpers.ts:56-57 | padding keeps the string as a suffix and fills the front with the fill character |
| Digits.ValueOfNatToString | utils/helpers.ts:56-57 | parsing a rendered number gives the number back |
| Digits.ValueOfLeadingZeros | utils/helpers.ts:56-57 | leading zeros do not change a numeral's value |
| Digits.PaddedRoundTrip | utils/helpers.ts:56-57 | zero-padding n < 10^w to width w gives w digits whose value is n |
| App.Ids | components/PlaysTable.tsx:93 | the ids of a play list, position by position |
| App.RemoveIds | App.tsx:76-82 | a play survives exactly when it was present and its id is not listed |
| App.RemoveIdsAppend | App.tsx:76-82 | removal works row by row, so the survivors keep their order |
| App.RemoveIdsNoMatch | App.tsx:76-82 | removing ids that match no row leaves the list unchanged |
| App.RemoveIdsGone | App.tsx:76-82 | a removed id no longer occurs |
| App.RemoveIdsDistinct | App.tsx:76-82 | removal keeps ids distinct |
| App.SetField | App.tsx:67 | the row with the id gets the new field value; every other row is unchanged |
| App.ReclassifyFirstAt | App.tsx:68-71 | with distinct ids, exactly the edited row's mode is recomputed from its bet |
| App.ReclassifyFirst | App.tsx:68-71 | the `find` and in-place mode assignment: same length and the same ids position by position; ReclassifyFirstAt and ReclassifyFirstMissing give the rows |
| App.UpdatePlay | App.tsx:65-74 | the by-id field edit: same length and the same ids position by position; UpdatePlayAt and UpdatePlayMissing give each row's new content |
| App.UpdatePlayAt | App.tsx:65-74 | only the row with the id changes, and only in the edited field; the mode is recomputed exactly when the bet number is edited |
| App.UpdatePlayMissing | App.tsx:65-74 | an update for an unknown id changes nothing |
| App.PasteAmounts | App.tsx:92-106 | selected rows take each non-null copied amount and keep the old one where it is null; ids, bets and modes never change; unselected rows are unchanged |
| App.PasteIdempotent | App.tsx:92-106 | pasting the same amounts twice is the same as pasting once |
| App.PasteNothing | App.tsx:92-106 | pasting three nulls changes nothing |
| App.FromWizard | App.tsx:155-163 | wizard rows keep their bet, their supplied mode and their stakes, and take the fresh ids in order |
| App.FromOcr | App.tsx:172-180 | OCR rows keep their bet and stakes, and their mode is recomputed against the current tracks |
| App.WizardKeepsStaleMode | App.tsx:155-180 | the same bet keeps a stale `Pulito` from the wizard but becomes `RD-Quiniela` from OCR under a Santo Domingo selection |
| App.AppendFreshDistinct | App.tsx:62 | appending rows with fresh distinct ids keeps ids distinct |
| App.PlaysTotalAppend | App.tsx:109-112 | the sum of row totals is additive over concatenation |
| App.PlaysTotalNonNegative | App.tsx:109-112 | with non-negative stakes the sum is non-negative |
| App.PlaysTotal | App.tsx:109-112 | the `reduce` sum of row totals; PlaysTotalAppend and PlaysTotalNonNegative state that it is additive and non-negative |
| App.TrackMultiplier | App.tsx:114 | the multiplier counts the non-Venezuela tracks, and is 1 when that count is 0 |
| App.GrandTotalIsProduct | App.tsx:108-117 | the grand total is the sum of row totals times the multiplier |
| App.GrandTotal | App.tsx:108-117 | the grand total; GrandTotalIsProduct, GrandTotalAppend, GrandTotalNonNegative and VenezuelaIsFree state its meaning |
| App.VenezuelaIsFree | App.tsx:114 | adding or removing Venezuela never changes the multiplier |
| App.DefaultTracksMultiplier | App.tsx:19 | the default selection (New York Evening, Venezuela) has multiplier 1 |
| App.GrandTotalNonNegative | App.tsx:108-117 | with non-negative stakes the grand total is non-negative |
| App.GrandTotalAppend | App.tsx:108-117 | the grand total is additive over the play list |
| App.BlankPlayCostsNothing | App.tsx:54-62 | a freshly added blank row does not change the grand total |
| App.BlankPlayBlocksTicket | App.tsx:185-195 | a list containing a blank row cannot be issued as a ticket |
| App.TicketReady | App.tsx:186-190 | a non-empty list in which no row has an empty bet or mode `-`; HandleGenerateTicket opens the ticket exactly when it holds |
| App.OcrRowsTicketReady | App.tsx:168-195 | a non-empty OCR import whose bets all classify is ready for the ticket |
| App.Flipped | App.tsx:45-47 | toggling the theme always changes it |
| App.FlipTwice | App.tsx:45-47 | toggling the theme twice restores it |
| App.Session.constructor | App.tsx:17-23 | dark theme, today's date, the default tracks, no plays, all modals closed |
| App.Session.HandleAddPlay | App.tsx:49-63 | refused at `MAX_PLAYS` rows; otherwise exactly one blank row (empty bet, mode `-`, no stakes) is appended and earlier rows are unchanged; the cap and distinct ids are kept |
| App.Session.HandleUpdatePlay | App.tsx:65-74 | the new list is the by-id update against the current tracks |
| App.Session.HandleRemovePlay | App.tsx:76-78 | the new list is the old one without the rows of that id |
| App.Session.HandleRemoveMultiplePlays | App.tsx:80-82 | the new list is the old one without the rows of the listed ids |
| App.Session.HandlePasteAmounts | App.tsx:92-106 | the new list is the paste of the amounts over the listed ids |
| App.Session.HandleAddPlaysFromWizard | App.tsx:151-166 | all or nothing: refused when the rows would exceed `MAX_PLAYS`; otherwise all rows are appended in order with their own modes, and the wizard closes |
| App.Session.HandleAddPlaysFromOcr | App.tsx:168-183 | all or nothing against `MAX_PLAYS`; otherwise all rows are appended reclassified, and the OCR modal closes |
| App.Session.HandleGenerateTicket | App.tsx:185-195 | the ticket opens exactly when the list is non-empty and no row has an empty bet or mode `-` |
| App.Session.HandleReset | App.tsx:84-90 | on confirmation: no plays, today's date, the default tracks; otherwise nothing changes |
| App.Session.ToggleTheme | App.tsx:45-47 | the theme flips |
| App.Session.SetSelectedTracks | App.tsx:19 | the selection is replaced and the plays are untouched, so rows are not reclassified |
| App.Session.SetSelectedDate | App.tsx:18 | the date is replaced |
| App.Session.OpenWizard | App.tsx:22 | the wizard modal opens |
| App.Session.OpenOcr | App.tsx:21 | the OCR modal opens |
| Wizard.Label | components/WizardModal.tsx:61 | each quick-pick option's mode label is one of the classifier's labels and is not `-` |
| Wizard.ClampCount | components/WizardModal.tsx:123 | the count is clamped to 1..50, and kept when already inside |
| Wizard.ClampIdempotent | components/WizardModal.tsx:123 | clamping twice is clamping once |
| Wizard.PaddedDraw | components/WizardModal.tsx:51-56 | a padded draw has exactly w digits |
| Wizard.PaddedDrawValue | components/WizardModal.tsx:51-56 | a padded draw reads back as the drawn number |
| Wizard.PaleDraw | components/WizardModal.tsx:54-57 | two 2-digit draws joined by a dash have the `DD-DD` shape |
| Wizard.PaleDrawValues | components/WizardModal.tsx:54-57 | the two halves read back as the two draws |
| Wizard.PaleJoin | components/WizardModal.tsx:57 | joining two 2-digit strings with a dash gives `DD-DD`, with the halves recoverable |
| Wizard.QuickBetDigits | components/WizardModal.tsx:51-53 | a `Pick 3`/`Win 4`/`Pulito` quick bet is the draw zero-padded to width 3, 4 or 2 |
| Wizard.QuickBetPale | components/WizardModal.tsx:54-57 | a `Pale-RD` quick bet is `DD-DD` built from two consecutive draws |
| Wizard.QuickBet | components/WizardModal.tsx:49-59 | the i-th generated bet; QuickBetDigits, QuickBetPale and QuickBetClassifies state what it is |
| Wizard.QuickPicks | components/WizardModal.tsx:47-63 | the generated rows; QuickPicksStep ties it to one loop iteration and QuickPicksReady states that every row is ready |
| Wizard.QuickBetClassifies | components/WizardModal.tsx:46-65 | classifying a quick bet gives `Pick 3` or `Win 4` for those options; for `Pulito` it gives `RD-Quiniela` or `Pulito`, and for `Pale-RD` it gives `Pale-RD` or `Palé`, by the Santo Domingo flag |
| Wizard.QuickPicksStep | components/WizardModal.tsx:48-63 | one more loop iteration appends exactly one row |
| Wizard.QuickBetNonEmpty | components/WizardModal.tsx:60 | every generated bet is non-empty, so nothing is skipped |
| Wizard.QuickPicksReady | components/WizardModal.tsx:46-65 | every generated row has a non-empty bet and a mode other than `-` |
| Wizard.RoundDownRowsSpan | components/WizardModal.tsx:68-79 | the 10 rows run from `DD0` to `DD9`; row i's number is 10·DD + i, and it classifies as `Pick 3` |
| Wizard.RoundDownRowsReady | components/WizardModal.tsx:73-79 | every round-down row is ready for the ticket |
| Wizard.IsRoundDownRange | components/WizardModal.tsx:68-69 | the `^(\d{2})0-(\d{2})9$` pattern with equal groups; RoundDown accepts exactly when it holds |
| Wizard.RoundDownRows | components/WizardModal.tsx:73-78 | the ten round-down rows; RoundDownRowsSpan and RoundDownRowsReady state their numbers, mode and readiness |
| Wizard.RemoveIndex | components/WizardModal.tsx:145 | exactly index i is removed; the rest keep their order; an index out of range changes nothing |
| Wizard.SubmittedRowsTicketReady | components/WizardModal.tsx:158 | a non-empty submitted list of ready rows gives a play list that is ready for the ticket |
| Wizard.WizardState.constructor | components/WizardModal.tsx:14-21 | empty list and fields, `Pick 3`, count 5 |
| Wizard.WizardState.AddNext | components/WizardModal.tsx:35-44 | an empty bet or mode `-` adds nothing; otherwise one row with the bet, its mode and the current stakes is appended and the bet field is cleared |
| Wizard.WizardState.QuickPick | components/WizardModal.tsx:46-65 | exactly `qpCount` generated rows are appended, in order, with the option's mode and the current stakes |
| Wizard.WizardState.RoundDown | components/WizardModal.tsx:67-80 | accepted exactly for `DD0-DD9` with equal halves; then 10 `Pick 3` rows are appended with the straight stake and no box or combo |
| Wizard.WizardState.RemoveRow | components/WizardModal.tsx:145 | the list loses exactly index i |
| Wizard.WizardState.SetQpCount | components/WizardModal.tsx:123 | the count becomes the clamped input |
| Wizard.WizardState.SetQpMode | components/WizardModal.tsx:117 | the option is replaced |
| Wizard.WizardState.SetBetNumber | components/WizardModal.tsx:109 | the bet field is replaced |
| Wizard.WizardState.SetAmounts | components/WizardModal.tsx:101-103 | the three stakes are replaced |
| Wizard.WizardState.Close | App.tsx:249-256 | closing unmounts the wizard, so the next opening starts from the initial state: empty list, bet field and stakes (as the reset effect at components/WizardModal.tsx:23-31 also clears), `Pick 3` and count 5 |
| Wizard.WizardState.Submit | components/WizardModal.tsx:158 | the rows are handed over exactly when the list is non-empty |
| PlaysTable.Bets | components/PlaysTable.tsx:80-84 | the bet numbers of the list, position by position |
| PlaysTable.DuplicateBetNumbers | components/PlaysTable.tsx:78-86 | the counting loop yields exactly the non-empty bets that occur more than once |
| PlaysTable.TalliesStep | components/PlaysTable.tsx:81-83 | one loop step keeps the map equal to the counts of the non-empty bets seen so far |
| PlaysTable.DuplicateIffTwoRows | components/PlaysTable.tsx:78-86 | a bet is a duplicate exactly when it is non-empty and two different rows carry it |
| PlaysTable.CountTwice | components/PlaysTable.tsx:85 | a count above 1 means two distinct positions |
| PlaysTable.BlankNeverDuplicate | components/PlaysTable.tsx:81 | an empty bet is never flagged |
| PlaysTable.DuplicateAfterAppend | components/PlaysTable.tsx:78-86 | appending a row whose bet already occurs flags that bet |
| PlaysTable.FindById | components/PlaysTable.tsx:107 | the search fails exactly when no row has the id; otherwise it finds a row with that id |
| PlaysTable.FindByIdFirst | components/PlaysTable.tsx:107 | the row found is the first one with the id |
| PlaysTable.FindByIdUnique | components/PlaysTable.tsx:107 | with distinct ids it is the row at the id's position |
| PlaysTable.AmountsOf | components/PlaysTable.tsx:109-113 | the copied triple is the row's three stakes |
| PlaysTable.AllSelectedMeansEveryRow | components/PlaysTable.tsx:141 | for a current, distinct selection, the length test holds exactly when every row is selected |
| PlaysTable.AllSelectedByCountStale | components/PlaysTable.tsx:141 | a stale selection of the right length passes the length test although the row is not selected |
| PlaysTable.AllSelectedByCount | components/PlaysTable.tsx:141 | the length-only test; AllSelectedMeansEveryRow and AllSelectedByCountStale state when it means every row is selected and when it does not |
| PlaysTable.TableSelection.IsAllSelected | components/PlaysTable.tsx:141 | the length-only test applied to the current selection |
| PlaysTable.TableSelection.constructor | components/PlaysTable.tsx:75-76 | nothing selected and nothing copied |
| PlaysTable.TableSelection.ToggleSelect | components/PlaysTable.tsx:88-90 | the id is removed when selected and appended when not; the selection stays duplicate-free |
| PlaysTable.TableSelection.SelectAll | components/PlaysTable.tsx:92-94 | checked selects every id in list order, unchecked clears |
| PlaysTable.TableSelection.CleanupStale | components/PlaysTable.tsx:96-100 | a non-empty selection with no id among the plays is cleared; any other selection is kept |
| PlaysTable.TableSelection.Copy | components/PlaysTable.tsx:102-116 | refused with an empty selection or when the last selected id has no row; otherwise it copies that row's three stakes |
| PlaysTable.TableSelection.Paste | components/PlaysTable.tsx:118-128 | delegates the copied amounts and the selection exactly when both are present |
| PlaysTable.TableSelection.BulkDelete | components/PlaysTable.tsx:130-139 | with a non-empty selection and a confirmation it passes the selected ids on and clears the selection; otherwise nothing changes |
| SeqOps.Toggle | components/TrackSelector.tsx:51-56 | a present element has every occurrence removed; an absent one is appended at the end |
| SeqOps.RemoveAll | components/TrackSelector.tsx:54 | filtering removes every occurrence and keeps the count of every other element |
| SeqOps.RemoveAllAppend | components/TrackSelector.tsx:54 | filtering works element by element, so the others keep their order |
| SeqOps.ToggleTwiceAbsent | components/TrackSelector.tsx:51-56 | toggling an absent element twice restores the list |
| SeqOps.ToggleOthers | components/TrackSelector.tsx:51-56 | toggling one element leaves every other element's count unchanged |
| SeqOps.ToggleDistinct | components/PlaysTable.tsx:89 | toggling keeps a duplicate-free list duplicate-free |
| TrackSelector.HandleToggleTrack | components/TrackSelector.tsx:51-57 | the selection becomes its toggle by the name |
| TrackSelector.ClickTrack | components/TrackSelector.tsx:34-40 | a click on a disabled button leaves the selection as it is; any other click toggles it |
| TrackSelector.ToggleTrackTwice | components/TrackSelector.tsx:51-56 | two clicks on an unselected track restore the selection |
| TrackSelector.CutoffMs | components/TrackSelector.tsx:68-70 | the cutoff instant is hours and minutes at second 0, within the day |
| TrackSelector.IsTrackDisabled | components/TrackSelector.tsx:61-73 | never disabled off today's date, and never without a cutoff entry |
| TrackSelector.DisabledIffPastCutoff | components/TrackSelector.tsx:59-72 | a catalog track is disabled exactly on today's date when the clock is strictly past its cutoff |
| TrackSelector.UnknownTrackNeverDisabled | components/TrackSelector.tsx:64-65 | a name outside the catalog is never disabled |
| TrackSelector.DisabledStaysDisabled | components/TrackSelector.tsx:72 | once disabled, a track stays disabled later that day |
| TrackSelector.OpenBeforeCutoff | components/TrackSelector.tsx:72 | up to and including its cutoff instant a track is still open |
| TrackSelector.VenezuelaOpenUntilLastMinute | constants.ts:64 | Venezuela stays open until 23:59 |
| TrackSelector.NextOpen | components/TrackSelector.tsx:80 | a click on the open category closes it; a click on any other opens that one |
| TrackSelector.ShownTracks | components/TrackSelector.tsx:88-98 | the buttons shown are exactly the tracks of the open category; none when no category is open |
| TrackSelector.UsaPanelShowsUsaTracks | components/TrackSelector.tsx:49 | in the initial state the panel shows the USA tracks |
| TrackSelector.CategoryPanel.constructor | components/TrackSelector.tsx:49 | USA starts open |
| TrackSelector.CategoryPanel.Click | components/TrackSelector.tsx:80 | the open category becomes the next one by the click rule |

## Left out

- `services/geminiService.ts` is not part of this model. It is a network call to an external AI service, so OCR results enter the model as a parameter of `HandleAddPlaysFromOcr`.
- `fileToBase64` (utils/helpers.ts:62-74): asynchronous file reading.
- Saving and loading the session in `localStorage`, with its 500 ms debounce (App.tsx:119-149): browser storage and timers. A loaded list could hold more than `MAX_PLAYS` rows; the model's `Session.Valid` assumes it does not.
- Theme persistence, the `prefers-color-scheme` initial theme and the DOM class toggling (App.tsx:25-39): browser environment. The model starts dark, as the state initialiser does.
- `TicketModal`, `TotalDisplay`, `Header`, `ActionsPanel` and the OCR modal: rendering, animations, a foreign QR-code script, a random ticket number and locale formatting.
- Randomness: ids from `Date.now() + Math.random()` are parameters required to be fresh. In double precision, at present-day epoch values one millisecond offers only about 2^12 distinct ids, so a large wizard or OCR batch can produce equal ids. The model does not capture that case. The functions `App.SetField` and `App.ReclassifyFirst` do follow the source on repeated ids: every matching row is edited, and only the first is reclassified. The lemmas about them assume distinct ids. Quick-pick numbers are the `draws` parameter. The floating-point scaling and `Math.floor` that produce them are not modelled.
- The clock: `new Date()` becomes today's date string and the milliseconds since local midnight. Daylight-saving shifts and sub-millisecond comparisons are not modelled.
- Floating point: stakes are exact reals. `parseFloat` in the row editor, `+e.target.value` in the wizard, `toFixed` display rounding and JavaScript's floating-point addition are not modelled.
- Wizard.WizardState.SetQpCount: takes an integer; the fractional values and the `NaN` a number input can produce are not modelled.
- Wizard.QuickMode: the `qpMode` string is restricted to the four options of the select. A `qpMode` outside them would make `handleQuickPick` skip every row through the `if(numStr)` guard; the select cannot produce one.
- App.UpdatePlay: an edit of the `id` field itself (allowed by `keyof Play`) is not modelled; the value is typed per field (`Field`).
- Dialogs: `alert` messages are not modelled; a refusal is an unchanged state with a `false` or `None` result. `window.confirm` is a boolean parameter.
- String lengths are counted in characters, not in JavaScript's UTF-16 code units; the bet strings concerned are ASCII digits and dashes.
- React rendering, the memoisation of `duplicateBetNumbers`, and effect scheduling: the stale-selection cleanup is a method the caller runs after each change.
