# Trip ledger of the ₱1000 Challenge spending tracker

The app keeps one trip record in the browser: a budget per person, a list of
participants (`people`) and a log of expenses. It shows the total budget, the
total spent, what each person paid, and the expenses sorted by date. This
project models that ledger in Dafny and proves what its operations promise:

- `normalizePeople` never returns an empty list. It falls back to `["Me"]` exactly
  when every comma-separated piece is blank. Names keep their order and
  duplicates, and for a non-empty list of trimmed, non-empty, comma-free names,
  re-normalizing the list the setup form shows gives it back.
- `totalSpent` is the sum of the amounts. The per-person totals have a key for every
  participant and every payer (an empty payer counts as `"Unknown"`), and
  their values add up to `totalSpent` in any key order.
- Adding an expense with an amount that is not positive changes nothing.
  Otherwise one expense with the stated fallbacks goes at the end.
- Deleting by id keeps the other expenses in order. It is a no-op for an absent id
  and idempotent.
- The displayed list is sorted by date, is a permutation of the stored list,
  keeps same-date expenses in insertion order, and has the same total.
- `escapeHtml` leaves no raw `<`, `>`, `"` or `'`, and decoding its output
  gives back the input.
- Loading and importing accept a candidate state only when `people` and
  `expenses` are arrays. A saved state passes that check unchanged.

Money is counted in whole centavos (`Cents = int`), so the default budget of
1000 pesos is `100000`. The typed amount of a new expense is a `real` and is
rounded to centavos exactly as `Math.round(amount * 100)` would round the exact
decimal value.

Modules, one per concern of `app.js`:
`Text` (JavaScript `trim`, `split`, `join`), `Html` (`escapeHtml`), `People`
(`normalizePeople`), `Expenses` (the expense and trip values, the totals, the
delete filter, the defaulting of a new expense), `DisplayOrder` (the
date-sorted view), `Snapshots` (the load/import shape check), `TripLedger` (the
`Ledger` class: the state and the steps the event handlers take on it) and
`OwnProperty` (the finding below). `Wrappers` holds `Option`.

Behaviour of the code worth knowing:
- Delete removes every expense with the id, not only the first.
- An imported trip may have an empty `people` list. The fallback payer then
  becomes `"Me"`.
- Duplicate names are kept.
- After an import whose `people` is empty, or holds a name with a comma or
  surrounding white space, saving the setup form unedited changes `people`:
  `[]` becomes `["Me"]` and `["A,B"]` becomes `["A", "B"]` (app.js:214, 235;
  `People.NormalizeJoinNeedsNames`).
- The positive-amount check comes before rounding, so `0.004` is accepted and
  stored as `0` centavos.
- `19.995` is stored as `20.00`. Exact rounding and IEEE doubles agree here:
  the double nearest `19.995` times `100` rounds to exactly `1999.5`.

## Model

| member | source | states |
|---|---|---|
| Text.Trim | app.js:82 | the result has no white space at either end and is no longer than the input |
| Text.TrimStartShape | app.js:82 | the start trim keeps a suffix, drops only ECMAScript white space and line terminators, and keeps nothing that starts with white space, so it drops exactly the longest leading run |
| Text.TrimEndShape | app.js:82 | the end trim keeps a prefix, drops only white space, and keeps nothing that ends with white space |
| Text.TrimUnique | app.js:82 | trimming white space + a trimmed core + white space yields exactly that core |
| Text.TrimTrimmed | app.js:82 | a trimmed string is left unchanged |
| Text.TrimIdempotent | app.js:82 | trimming twice equals trimming once |
| Text.Split | app.js:81 | splitting yields at least one piece, even for the empty string |
| Text.SplitPiecesWithoutSep | app.js:81 | no piece of a split contains the separator |
| Text.Join | app.js:214 | `xs.join(sep)`: the elements with `sep` between them, starting with the first element; `JoinSplit` makes it the inverse of `Split`, and `NormalizeJoin` uses it for the text the setup field shows |
| Text.JoinSplit | app.js:81 | joining the pieces back with the separator restores the input |
| Text.SplitWithoutSep | app.js:81 | a separator-free string splits into itself alone |
| Text.SplitAtSep | app.js:81 | a separator ends the first piece exactly where it stands |
| Html.EscapeChar | app.js:44-50 | the five special characters become entities starting with `&`, every other character is copied |
| Html.EscapeHtml | app.js:43-51 | the output is at least as long as the input |
| Html.EscapeHasNoMarkup | app.js:43-51 | the output contains no raw `<`, `>`, `"` or `'` |
| Html.UnescapeEscape | app.js:43-51 | decoding the five entities in the escaped text gives back the original text |
| Html.EscapeInjective | app.js:43-51 | two different texts never escape to the same output |
| Html.EscapePlain | app.js:43-51 | text without special characters is left unchanged |
| Html.EscapeAppend | app.js:43-51 | escaping works per character: it distributes over concatenation |
| People.Names | app.js:82-83 | trimming and dropping empty pieces keeps at most as many names as pieces |
| People.NamesAreNames | app.js:80-83 | every kept name is trimmed, non-empty and comma-free |
| People.NamesAppend | app.js:80-83 | the names of concatenated pieces are the names of each part in order, duplicates kept |
| People.NamesSingle | app.js:82-83 | one piece contributes its trimmed text, or nothing when that is blank |
| People.NamesEmpty | app.js:83-86 | no names are kept exactly when every piece is blank |
| People.NormalizePeople | app.js:79-87 | never empty; every name well formed; `["Me"]` when all pieces are blank, else the trimmed non-blank pieces in order |
| People.SplitJoinStep | app.js:81 | splitting names joined by `", "` yields the first name, then the pieces of the rest, each after a space |
| People.NamesJoinStep | app.js:80-83 | if the rest of the joined names normalize back, so does the whole list |
| People.NamesOfJoin | app.js:80-83 | normalizing names joined by `", "`, with white space before them, gives the names back |
| People.NormalizeJoin | app.js:214 | for a non-empty list of trimmed, non-empty, comma-free names, normalizing `people.join(", ")`, the text the setup field shows, gives `people` back |
| People.NormalizeJoinNeedsNames | app.js:214 | without well-formed names the round trip fails: `[]` comes back as `["Me"]`, `["A,B"]` as `["A", "B"]` |
| People.NormalizeEmpty | app.js:80-86 | an empty field gives `["Me"]` |
| People.NormalizeKeepsDuplicates | app.js:80-83 | `"Alice, Bob, Alice"` gives `["Alice", "Bob", "Alice"]` |
| Expenses.PayerKey | app.js:102 | an expense is accounted under its payer, or `"Unknown"` exactly when the payer is empty; never under `""` |
| Expenses.Credit | app.js:103-104 | the key set grows by exactly the payer key and every other key keeps its value; the credited value is fixed by `TotalsStep`, which shows one credit keeps the totals correct |
| Expenses.TotalsKeysSnoc | app.js:101-104 | one more expense adds exactly its payer key to the key set |
| Expenses.TotalsStart | app.js:98-99 | before the expense loop every participant is a key holding 0 |
| Expenses.TotalsAddParticipant | app.js:98-99 | setting one more participant to 0 keeps the totals correct for the participants so far |
| Expenses.TotalsStepAt | app.js:101-105 | creating the payer key at 0 when missing and then adding the amount keeps the totals correct for one more expense |
| Expenses.TotalsStepLast | app.js:101-105 | crediting the last expense to the totals of the ones before it gives the totals of all of them |
| Expenses.TotalsStep | app.js:101-105 | adding an expense under its payer key, created at 0 when missing, keeps the totals correct |
| Expenses.TotalSpent | app.js:93-95 | the amounts summed first to last; never negative when no amount is; additive (`TotalSpentAppend`); equal to the per-person sum (`PerPersonTotalsSum`) and kept by the display order (`SortByDateSpent`) |
| Expenses.TotalSpentAppend | app.js:93-95 | the total of two expense lists is the sum of their totals |
| Expenses.SpentByNonPayer | app.js:101-105 | a name no expense is accounted under has spent 0 |
| Expenses.SumSpentSnoc | app.js:101-105 | one more expense raises the sum over distinct names by its amount exactly when its payer is listed |
| Expenses.SumSpentIsTotal | app.js:93-105 | summing per-payer spending over distinct names that cover every payer gives the total spent |
| Expenses.SumSpentOfNothing | app.js:93-105 | with no expenses every per-name sum is 0 |
| Expenses.SumValuesIsSumSpent | app.js:97-107 | summing the per-person map over names equals summing each name's spending |
| Expenses.PerPersonTotalsSum | app.js:93-107 | the per-person values, summed over any enumeration of the keys, equal `totalSpent` |
| Expenses.RemoveId | app.js:204 | `expenses.filter(x => x.id !== id)`: no longer than the input and no survivor carries `id`; order (`RemoveIdAppend`), membership (`RemoveIdMembers`), no-op (`RemoveAbsentId`), idempotence (`RemoveIdIdempotent`) and totals (`RemoveIdSpent`) are the lemmas below |
| Expenses.RemoveIdAppend | app.js:204 | deleting distributes over concatenation, so survivors keep their order |
| Expenses.RemoveIdMembers | app.js:204 | an expense survives exactly when it was stored and carries another id |
| Expenses.RemoveAbsentId | app.js:204 | deleting an id that no expense carries changes nothing |
| Expenses.RemoveIdIdempotent | app.js:204 | deleting twice is the same as deleting once |
| Expenses.RemoveIdSpent | app.js:93-95 | the remaining total plus the deleted expenses' total is the old total |
| Expenses.RoundToCents | app.js:264 | the stored centavos are the nearest whole number to amount × 100, with halves rounded up |
| Expenses.RoundWholeCents | app.js:264 | an amount already in whole centavos is stored unchanged |
| Expenses.DefaultPayer | app.js:263 | the fallback payer is non-empty: the first participant, or `"Me"` when there is none or it is empty |
| Expenses.MakeExpense | app.js:258-265 | the new expense keeps the given id; date falls back to today; category to `"Other"`; payer to the default payer; description is the trimmed input (`TrimUnique` pins that down); amount is rounded; a positive amount is never stored negative |
| Expenses.DefaultTotals | app.js:53-95 | the default trip (app.js:53-59) has total budget 100000 centavos (app.js:89-91), nothing spent (app.js:93-95), and totals `{"Me": 0}` |
| Expenses.RoundingSamples | app.js:254-264 | 19.995 is stored as 2000 centavos; 0.004 passes the positive check yet is stored as 0 |
| DisplayOrder.DateLe | app.js:158 | the `localeCompare` comparison on dates as character order; reflexive, total, transitive and antisymmetric by the next four lemmas |
| DisplayOrder.DateLeRefl | app.js:158 | every date sorts no later than itself |
| DisplayOrder.DateLeTotal | app.js:158 | any two dates are comparable |
| DisplayOrder.DateLeTrans | app.js:158 | the date order is transitive |
| DisplayOrder.DateLeAntisym | app.js:158 | dates that sort both ways are equal |
| DisplayOrder.Insert | app.js:158 | one step of the stable sort: the expense goes before the first one that does not sort strictly earlier; the list grows by one (`InsertPerm`, `InsertSorted`, `InsertOnDate`) |
| DisplayOrder.SortByDate | app.js:158 | the sorted copy of `expenses`, as long as the stored list; sorted (`SortByDateSorted`), a permutation (`SortByDatePerm`), stable (`SortByDateStable`), same total (`SortByDateSpent`); `expenses` itself is a value and never changes |
| DisplayOrder.InsertPerm | app.js:158 | inserting adds exactly that one expense |
| DisplayOrder.InsertLowerBound | app.js:158 | a date below the inserted expense and every listed one stays below every expense after inserting |
| DisplayOrder.InsertSorted | app.js:158 | inserting into a sorted list keeps it sorted and one longer |
| DisplayOrder.SortByDateSorted | app.js:158 | the displayed list is ordered by non-decreasing date |
| DisplayOrder.SortByDatePerm | app.js:158 | the displayed list holds each stored expense exactly as often as it is stored |
| DisplayOrder.InsertOnDate | app.js:158 | inserting places an expense before every other expense of its date |
| DisplayOrder.SortByDateStable | app.js:158 | expenses of the same date appear in insertion order |
| DisplayOrder.InsertSpent | app.js:158 | inserting adds exactly that expense's amount to the total |
| DisplayOrder.SortByDateSpent | app.js:158 | the displayed list has the same total as the stored one |
| Snapshots.ShapeCheck | app.js:66 | a candidate is accepted exactly when it is a truthy value whose `people` and `expenses` are arrays, and is then taken as is |
| Snapshots.LoadTrip | app.js:61-71 | nothing stored, an unparsable value or a wrong shape gives the default trip; otherwise the stored trip |
| Snapshots.SnapshotRoundTrip | app.js:74 | what `save` writes passes the shape check unchanged and loads back as the same trip |
| Snapshots.EmptyPeopleAccepted | app.js:310 | an empty participant list passes the shape check |
| TripLedger.Ledger.constructor | app.js:77 | the initial state is what `load` returns |
| TripLedger.Ledger.SaveSetup | app.js:233-238 | sets the budget; sets `people` to the normalized input, never empty; leaves the expenses and their payers alone |
| TripLedger.Ledger.ResetAll | app.js:241-247 | the state becomes the default trip |
| TripLedger.Ledger.AddExpense | app.js:250-267 | adds exactly when the amount is positive; the new expense is appended after the unchanged old ones; budget and people unchanged |
| TripLedger.Ledger.DeleteExpense | app.js:200-207 | the expenses become the filtered list; budget and people unchanged |
| TripLedger.Ledger.Import | app.js:302-324 | no file, an unparsable file or a wrong shape leaves the state unchanged with the matching message; a valid shape replaces the whole state |
| TripLedger.Ledger.PerPersonTotals | app.js:97-107 | the keys are every participant and every payer key; each value is what was paid under that key |
| OwnProperty.TotalsAsWritten | app.js:97-107 | `perPersonTotals` as written, `None` where `map.hasOwnProperty(name)` throws; it throws whenever `hasOwnProperty` is a participant and there is an expense; it agrees with the intended totals without that name (`AsWrittenAgrees`) and throws once that name is a key (`AsWrittenThrows`) |
| OwnProperty.AsWrittenSnoc | app.js:101-104 | as written, while `hasOwnProperty` is not a key, one more expense is credited as intended |
| OwnProperty.AsWrittenAgrees | app.js:97-107 | as written, without a name `hasOwnProperty` anywhere, the code computes the intended totals |
| OwnProperty.AsWrittenThrows | app.js:103 | as written, once `hasOwnProperty` is a key, the next expense makes the totals throw |
| OwnProperty.ShadowedByParticipant | app.js:99-103 | as written, a participant named `hasOwnProperty` with one expense makes the totals throw; the intended totals are `{"hasOwnProperty": 25000}` |
| OwnProperty.ShadowedByPayer | app.js:101-104 | as written, two expenses, the first paid under `hasOwnProperty`, make the totals throw |

## Findings

`OwnProperty.TotalsAsWritten` models `perPersonTotals` as the code is written.
It returns `None` where the `map.hasOwnProperty(name)` call would throw.

| source | as written | input that shows it | evidently intended | confidence | as-written member | corrected member |
|---|---|---|---|---|---|---|
| app.js:103 | `map.hasOwnProperty(name)` looks the method up on the totals object itself. A participant or payer named `hasOwnProperty` becomes an own key holding a number, and the next call throws a TypeError. `rerender` has by then written the three totals (app.js:124-126); the per-person rows and the expense list are not refreshed. | people `["hasOwnProperty"]` with one expense; or people `["Me"]` with two expenses, the first paid by `hasOwnProperty` | every payer accumulates under its own name, whatever the name | high; not executed | OwnProperty.TotalsAsWritten, OwnProperty.ShadowedByParticipant | TripLedger.Ledger.PerPersonTotals |

## Left out

- DOM wiring and rendering (`els`, `renderPaidBy`, `renderStats`, the templates of `renderExpenses`, `rerender`, the clear-form handler): user interface. This includes `rerender`'s reset of the payer drop-down. `AddExpense` takes the payer as given.
- `localStorage`, `JSON.parse` and `JSON.stringify`: platform I/O. `Parsed` stands for what parsing produced. `Snapshot` stands for what parsing the saved text gives back.
- TripLedger.Ledger.Import: assumes `save` and `rerender` succeed. In the code they run inside the `try` after `state = incoming` (app.js:315-317), so a throw there, such as the `hasOwnProperty` case under Findings, shows "Could not import file." with the state already replaced in memory. It is also saved when the throw comes from `rerender` (app.js:317); when `save` itself throws (app.js:316), nothing is written and the next `load` brings back the old trip. In both cases the model reports `Imported`.
- The async file read, `alert`, `confirm`, the export download and the service worker: browser glue. `Import`'s outcome names the message it would show. `ResetAll` is the confirmed branch.
- `crypto.randomUUID`, `Date.now` and `todayISO`: not deterministic. The id and today's date are inputs of `AddExpense`.
- `peso` formatting, IEEE double arithmetic, `NaN` and `Number(...)` parsing: amounts are exact reals rounded to integer centavos.
- TripLedger.Ledger.SaveSetup: takes the budget already in centavos. Parsing `Number(value || 0)` and a fractional-centavo budget are not modelled.
- Snapshots.ShapeCheck: a missing `budgetPerPerson` is read as 0, which is how `totalBudget` treats it. The field staying `undefined` in the state is not modelled.
- Snapshots.ShapeCheck: the contents of the arrays are taken as well-formed names and expenses. Imported records with missing, non-string or non-numeric fields are not modelled. Numeric ids are one example: `getAttribute` returns a string, so `!==` never matches them and they could never be deleted.
- `localeCompare` is modelled as ordinal order on characters. That is how it orders `YYYY-MM-DD` dates and the empty date, but not arbitrary text under every locale.
- JavaScript strings are UTF-16 code units; here a character is a Unicode scalar value. Every character `trim` removes is a single code unit, so trimming agrees.
- Other object-key behaviour of `perPersonTotals`: a name `__proto__` does not become a key, so its spending is lost. This is not modelled; only the `hasOwnProperty` case is.
