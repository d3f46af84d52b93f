# settle-with, modelled in Dafny

settle-with is a small browser application. It splits a group's shared
spending fairly. Participants are entered with what each of them spent. The
page then does three things:

- it tells the people who spent less than the average whom to pay and how
  much;
- it shows a statistics card;
- it can share the list through a link.

This project models the logic behind that page. Money is exact `real`
arithmetic, and `toFixed(2)` and `parseFloat` are written out over strings.

- `options.dfy`: `Option`, which stands for JavaScript's `null` and for the
  `NaN` of a failed parse.
- `people.dfy`: the `Person` and `Transaction` records, with the total and
  average spend. A transaction also records which entries of the participant
  list its payer and payee came from, because names need not be unique.
- `strings.dfy`: `String.prototype.trim` with the ECMAScript white-space set.
- `numbers.dfy`:
  - `toFixed(2)`, defined as the number of hundredths, `Cents`, and the
    string it prints, `ToFixed2`;
  - `parseFloat`, as a decimal-literal reader `ParseFloat` and its value
    `ParseNumber`;
  - the proof that reading back what `toFixed(2)` prints gives the amount
    rounded to cents.
- `settlement.dfy`: `calculateSettlements`.
  - The pure prelude covers the balances against the average, the two
    filtered lists and their stable sorts.
  - The greedy matching loop is specified by `Step`, one iteration, and
    `Run`, the loop to its end. The loop itself is the method
    `MatchDebtorsToCreditors`, proved to compute `Run`.
  - The lemmas state what the resulting instructions guarantee.
- `stats.dfy`: the statistics card.
  - The total and the average.
  - The first biggest and first smallest spender.
  - The person closest to the average.
  - The spread between biggest and smallest spender.
  - The sponsor: a dictionary tally, filled by two loops and scanned by a
    third.
- `app.dfy`: the page state.
  - Add, remove and update on the participant list, and the recompute rule.
  - The shape check on a shared payload.
  - A `Session` class whose handlers replace the list and keep the
    instructions up to date.
- `input_form.dfy`: the add form. `HandleSubmit` validates the fields and
  resets them. Typing in a field clears the error.
- `list_item.dfy`: one row of the participant list, with in-place editing of
  the name and of the amount.
  - Committing an edit sends an update only when something changed.
  - An invalid buffer reverts.
  - Escape cancels the edit.

The callbacks a component receives (`onAddPerson`, `onUpdatePerson`) are not
called by the model. The methods return the arguments of the call as an
`Option`, and `None` means no call. Ids are opaque strings given as
parameters. Nothing in the model changes the participant list it is given,
because it is a value, just as `calculateSettlements` only works on copied
balance records.

One property the loop is sometimes credited with does not hold: it does not
bring everyone to within a cent of even. Balances between −0.005 and 0.005
never enter either list, and several of them can add up to more than a cent.
For the spends 0.988, 1.004, 1.004, 1.004 the average is 1.0. No instruction
is given, and the first person stays 0.012 below the average
(`Settlement.ResidualAboveACent`). The model follows the code.
`Settlement.RunSettlesOneSide` states what the loop does guarantee.

## Model

| member | source | states |
|---|---|---|
| `Numbers.Cents` | utils/expenseCalculator.ts:37 | the number of hundredths `toFixed(2)` prints: `x * 100` rounded to the nearest integer, a tie going away from zero |
| `Numbers.ToFixed2` | components/PersonListItem.tsx:36 | `toFixed(2)` as text: a minus sign for a negative amount, then the whole part, a point and two decimals of `Cents` |
| `Numbers.ParseFloat` | components/PersonInputForm.tsx:31 | `parseFloat`'s reading: skip leading white space, an optional sign, the longest decimal literal (digits, point, digits, exponent), the rest ignored; `None` when no digit starts it |
| `Numbers.ParseNumber` | components/PersonInputForm.tsx:31 | the number `parseFloat` returns, with `None` for NaN |
| `Numbers.Round2` | utils/expenseCalculator.ts:37 | the amount rounded to two decimals is within half a cent of it and is a whole number of cents |
| `Numbers.Round2Idempotent` | components/PersonListItem.tsx:62-63 | rounding an amount that is already rounded to cents leaves it unchanged |
| `Numbers.Round2AboveThreshold` | utils/expenseCalculator.ts:32-37 | a transfer above the 0.005 threshold is recorded as at least one cent |
| `Numbers.ParseToFixed2` | utils/expenseCalculator.ts:37 | `parseFloat` of the string `toFixed(2)` prints reads back as the amount rounded to cents, never NaN |
| `Numbers.RoundViaString` | utils/expenseCalculator.ts:37 | formatting with `toFixed(2)` and reading back with `parseFloat` yields the rounded amount |
| `Numbers.ParseNumberNeedsDigit` | components/PersonInputForm.tsx:31-32 | text with no decimal digit, the empty field included, parses to NaN |
| `Strings.Trim` | components/PersonInputForm.tsx:27 | `trim()`: leading and then trailing ECMAScript white space removed |
| `Strings.TrimEmptyIffAllSpace` | components/PersonInputForm.tsx:27 | a name is empty after trimming exactly when it is all white space |
| `Strings.TrimIsSlice` | components/PersonListItem.tsx:41 | the trimmed name is a contiguous slice of the input |
| `Strings.TrimCutsSpace` | components/PersonListItem.tsx:41 | only white space is cut from before and after that slice |
| `Strings.TrimEnds` | components/PersonInputForm.tsx:38 | a trimmed name neither starts nor ends with white space |
| `Strings.TrimIdempotent` | components/PersonListItem.tsx:41 | trimming a trimmed name changes nothing |
| `People.Total` | utils/expenseCalculator.ts:9 | the `reduce` sum of every participant's spend, starting from 0 (the same sum as components/FunStatsDisplay.tsx:43) |
| `People.Average` | utils/expenseCalculator.ts:10 | the total divided by the number of participants, defined only for a nonempty list (components/FunStatsDisplay.tsx:44 guards the empty list with 0) |
| `Settlement.Balances` | utils/expenseCalculator.ts:9-17 | one record per participant, in input order, with its position, id, name and spend minus the average |
| `Settlement.Partition` | utils/expenseCalculator.ts:19-20 | the debtor or creditor list: the balances beyond −0.005 or 0.005, stably sorted by balance |
| `Settlement.Pay` | utils/expenseCalculator.ts:30-42 | the first half of an iteration: the smaller of debt and credit, when above 0.005, is recorded and moved from one to the other |
| `Settlement.Step` | utils/expenseCalculator.ts:27-51 | one iteration: `Pay`, then each cursor moves on when its remaining balance is below a cent |
| `Settlement.ToTransaction` | utils/expenseCalculator.ts:33-38 | the instruction pushed for a transfer: the debtor's name as payer, the creditor's name as payee, and the amount as `parseFloat(amount.toFixed(2))`, that is `Round2` |
| `Settlement.Settlements` | utils/expenseCalculator.ts:4-54 | the whole computation: no instructions for fewer than two people, otherwise the transfers of `Run` from the two sorted lists, each with its amount rounded to cents |
| `Settlement.BalancesSumToZero` | utils/expenseCalculator.ts:9-17 | balances taken against the average of a nonempty list sum to zero |
| `Settlement.Filter` | utils/expenseCalculator.ts:19-20 | an entry is kept exactly when it was in the input and is beyond the threshold on its side |
| `Settlement.Sort` | utils/expenseCalculator.ts:19-20 | the sort is a permutation, ordered by balance (ascending for debtors, descending for creditors), with ties kept in input order |
| `Settlement.PartitionSpec` | utils/expenseCalculator.ts:13-20 | each list holds exactly the participants beyond the threshold on its side, each as its own balance record, sorted stably |
| `Settlement.PartitionSizes` | utils/expenseCalculator.ts:19-20 | together the two lists are no longer than the participant list |
| `Settlement.StepSound` | utils/expenseCalculator.ts:26-51 | one iteration keeps debts ≤ 0, credits ≥ 0 and the cursors in range; it moves at least one cursor forward and appends at most one transfer |
| `Settlement.StepConserves` | utils/expenseCalculator.ts:30-41 | one iteration moves money between debtor and creditor without creating or losing any |
| `Settlement.Run` | utils/expenseCalculator.ts:26-52 | the loop ends with one list exhausted; it keeps earlier transfers and records fewer transfers than the two lists have entries |
| `Settlement.RunConserves` | utils/expenseCalculator.ts:26-52 | over the whole loop the sum of all remaining balances is unchanged |
| `Settlement.RunOrderly` | utils/expenseCalculator.ts:23-51 | every entry passed by a cursor is within a cent of even; every transfer exceeds the threshold and stands in matching order, with no pair repeated |
| `Settlement.RunAccounted` | utils/expenseCalculator.ts:40-41 | every remaining balance equals the starting balance plus what that debtor paid, or minus what that creditor received |
| `Settlement.RunPaysPositive` | utils/expenseCalculator.ts:30-41 | nobody pays or receives a negative total |
| `Settlement.RunPaysWithinBalances` | utils/expenseCalculator.ts:30-41 | no debtor pays more than they owed and no creditor receives more than they were owed |
| `Settlement.RunSettlesOneSide` | utils/expenseCalculator.ts:26-51 | when the loop ends, every debtor or every creditor is within a cent of even |
| `Settlement.SettlementsSound` | utils/expenseCalculator.ts:19-38 | every instruction names two different participants by position and name; the payer is below the average by more than 0.005, the payee above it by more than 0.005, and the amount is at least a cent |
| `Settlement.SettlementsOrdered` | utils/expenseCalculator.ts:26-51 | later instructions have payers who owe no more and payees who are owed no more, and never repeat a payer–payee pair |
| `Settlement.NobodyOwedNothingPaid` | utils/expenseCalculator.ts:20-26 | when nobody is owed more than 0.005 there are no instructions |
| `Settlement.ResidualAboveACent` | utils/expenseCalculator.ts:32-51 | with spends 0.988, 1.004, 1.004, 1.004 there are no instructions, and someone remains 0.012 from even |
| `Settlement.SettlementsFewerThanPeople` | utils/expenseCalculator.ts:4-52 | a nonempty list gets fewer instructions than it has participants; fewer than two people get none |
| `Settlement.CalculateSettlements` | utils/expenseCalculator.ts:4-54 | the method returns exactly the instructions of the specification `Settlements` |
| `Settlement.MatchDebtorsToCreditors` | utils/expenseCalculator.ts:22-53 | the `while` loop produces the rendering of `Run` from the starting balances |
| `Settlement.SettlePair` | utils/expenseCalculator.ts:27-51 | one pass of the loop body is one `Step`; the instruction it appends carries the rounded amount |
| `Stats.BiggestSpender` | components/FunStatsDisplay.tsx:48 | the result spent at least as much as anyone, and strictly more than everyone before them |
| `Stats.SmallestSpender` | components/FunStatsDisplay.tsx:57 | the result spent no more than anyone, and strictly less than everyone before them |
| `Stats.ClosestToAverage` | components/FunStatsDisplay.tsx:66-69 | the result is the first person at the smallest distance from the average |
| `Stats.PercentageInRange` | components/FunStatsDisplay.tsx:51 | with no negative spend, every share of the total is between 0 and 100 percent |
| `Stats.ShareInRange` | components/FunStatsDisplay.tsx:60 | a part between 0 and the total is between 0 and 100 percent of it, and 0 percent when the total is 0 |
| `Stats.PercentageOfTotal` | components/FunStatsDisplay.tsx:51 | a spend as a percentage of the total, `amount / total * 100` when the total is positive and 0 otherwise (the same expression as line 60) |
| `Stats.SpendAtMostTotal` | components/FunStatsDisplay.tsx:43 | with no negative spend, nobody spent more than the total |
| `Stats.NameKeys` | components/FunStatsDisplay.tsx:91 | the tally's starting keys are exactly the participants' names |
| `Stats.PayeeKeys` | components/FunStatsDisplay.tsx:93-95 | the tally's keys become the starting keys plus every payee |
| `Stats.ReceivedStep` | components/FunStatsDisplay.tsx:93-95 | one more instruction adds its amount to its payee's total and leaves everyone else's unchanged |
| `Stats.Leader` | components/FunStatsDisplay.tsx:97-104 | the scan over the keys from "" and 0, replacing the best only on a strictly larger total |
| `Stats.SponsorOf` | components/FunStatsDisplay.tsx:88-108 | no sponsor without instructions; otherwise the scan's best name and total when the total is above 0.005 |
| `Stats.StatsOf` | components/FunStatsDisplay.tsx:29-120 | the card's values: zeros and no extremes for an empty list, otherwise total, average, the extremes with their shares, the spread and the sponsor |
| `Stats.LeaderIsFirstLargest` | components/FunStatsDisplay.tsx:97-104 | the scan returns the largest total among the keys, or 0; when positive, it is the first key holding that total |
| `Stats.SponsorIsTopPayee` | components/FunStatsDisplay.tsx:88-108 | a sponsor is a payee who is owed more than 0.005 and at least as much as any participant or payee; with no sponsor, no payee is owed more than 0.005 |
| `Stats.SponsorWhenPaymentsDue` | components/FunStatsDisplay.tsx:89-107 | if there are instructions and all are at least a cent, there is a sponsor |
| `Stats.TallySponsor` | components/FunStatsDisplay.tsx:88-108 | the dictionary tally and its scan give the sponsor of the specification `SponsorOf` |
| `Stats.StartTally` | components/FunStatsDisplay.tsx:90-91 | the dictionary holds every participant's name at 0 and nothing else |
| `Stats.AddPayments` | components/FunStatsDisplay.tsx:93-95 | afterwards the dictionary holds, for each name, what the instructions tell others to pay it; names without an entry received nothing |
| `Stats.ScanForSponsor` | components/FunStatsDisplay.tsx:97-104 | the `for … in` scan yields the first key with the strictly largest total, starting from "" and 0 |
| `Stats.ComputeStats` | components/FunStatsDisplay.tsx:29-120 | the card's values are those of the specification `StatsOf`; an empty list gives zeros and no extremes |
| `Stats.StatsExtremes` | components/FunStatsDisplay.tsx:46-72 | on a nonempty list every extreme is present; the spread is biggest minus smallest, never negative, and bounds every spend |
| `App.AddPerson` | App.tsx:58-65 | exactly one record, with the given id, name and amount, is appended after the unchanged list |
| `App.RemovePerson` | App.tsx:67-69 | the records kept are exactly those whose id differs |
| `App.RemoveSplits` | App.tsx:67-69 | removal works on each part of a list in place, so the records that remain keep their order |
| `App.RemoveAbsent` | App.tsx:67-69 | removing an id nobody has changes nothing |
| `App.RemoveIdempotent` | App.tsx:67-69 | removing twice is the same as removing once |
| `App.UpdatePerson` | App.tsx:71-79 | length and ids are kept; records with the id get the new name and amount; all others are unchanged |
| `App.UpdateAbsent` | App.tsx:71-79 | updating an id nobody has changes nothing |
| `App.RemoveAfterUpdate` | App.tsx:71-79 | an update touches only the records with its id |
| `App.UpdateTwice` | App.tsx:71-79 | of two updates to one id, the later one wins |
| `App.TransactionsFor` | App.tsx:101-108 | the recompute effect: no instructions for an empty list, otherwise `calculateSettlements(people)` |
| `App.TransactionsAreSettlements` | App.tsx:101-108 | the recompute effect's empty-list guard agrees with the engine, so the instructions are always `calculateSettlements(people)` |
| `App.SponsorWhenSettling` | App.tsx:101-108 | whenever the recomputed settlement has instructions, the statistics card names a sponsor |
| `App.PeopleOf` | App.tsx:39-43 | an accepted payload is an array, and it gives one participant per element |
| `App.RecordOf` | App.tsx:88 | one participant as `JSON.stringify` writes it: an object with string `id`, string `name` and numeric `amountSpent` |
| `App.Payload` | App.tsx:88 | the list as `JSON.stringify` writes it: an array of those objects, in order |
| `App.IsPersonRecord` | App.tsx:40-42 | one element passes the shape check exactly when its `id` and `name` are strings and its `amountSpent` is a number |
| `App.ShareRoundTrip` | App.tsx:39-44 | a list written out as the share payload passes the shape check and reads back as the same list |
| `App.AcceptedRecords` | App.tsx:39-44 | each element of an accepted payload has a string id, a string name and a numeric amount, and becomes that participant |
| `App.RejectsBadRecord` | App.tsx:39-47 | one malformed element rejects the whole payload |
| `App.Session.constructor` | App.tsx:17-18 | the page starts with no participants and no instructions |
| `App.Session.Recompute` | App.tsx:101-108 | the effect leaves the list alone and makes the instructions those of the current list |
| `App.Session.HandleAddPerson` | App.tsx:58-65 | the list gains the new record at the end, and the instructions are recomputed |
| `App.Session.HandleRemovePerson` | App.tsx:67-69 | the list loses the records with the id, and the instructions are recomputed |
| `App.Session.HandleUpdatePerson` | App.tsx:71-79 | the records with the id are updated, and the instructions are recomputed |
| `App.Session.LoadShared` | App.tsx:30-55 | a payload that passes the check replaces the list; otherwise the list is kept; the instructions match the list either way |
| `InputForm.Submit` | components/PersonInputForm.tsx:27-38 | the name error for a blank name; then the amount error for NaN or a negative amount; otherwise the trimmed name and the amount |
| `InputForm.SubmitAcceptsValid` | components/PersonInputForm.tsx:25-41 | a submission is accepted exactly when the name is not all white space and the amount parses to a non-negative number; the trimmed name and that number are added |
| `InputForm.BlankNameFirst` | components/PersonInputForm.tsx:27-30 | a blank name gives "Name cannot be empty." whatever the amount, so the name is checked first |
| `InputForm.AmountNeedsDigit` | components/PersonInputForm.tsx:31-35 | once the name is fine, an amount with no digit gives "Please enter a valid non-negative amount." |
| `InputForm.PersonInputForm.constructor` | components/PersonInputForm.tsx:15-17 | both fields start empty, with no error |
| `InputForm.PersonInputForm.HandleSubmit` | components/PersonInputForm.tsx:25-41 | on a fault the error is set, nothing is added and the fields are kept; otherwise the error is cleared, the trimmed name and amount are handed on once, and both fields are emptied |
| `InputForm.PersonInputForm.OnNameChange` | components/PersonInputForm.tsx:54 | typing a name replaces the field and clears the error |
| `InputForm.PersonInputForm.OnAmountChange` | components/PersonInputForm.tsx:69 | typing an amount replaces the field and clears the error |
| `ListItem.NameCommit` | components/PersonListItem.tsx:41-43 | the update a name commit sends: the trimmed buffer when it is not empty and differs from the name, with the amount unchanged |
| `ListItem.AmountCommit` | components/PersonListItem.tsx:60-64 | the update an amount commit sends: the parsed amount rounded to cents when valid and different in cents from the current amount, with the name unchanged |
| `ListItem.AmountValid` | components/PersonListItem.tsx:61 | the amount buffer is accepted exactly when `parseFloat` reads a number from it (not NaN) and that number is not negative |
| `ListItem.NameCommitMeaning` | components/PersonListItem.tsx:40-46 | a name commit updates exactly when the buffer is not all white space and its trimmed text differs from the name; the update keeps id and amount, and its name has no white space at either end |
| `ListItem.AmountCommitMeaning` | components/PersonListItem.tsx:59-65 | an amount commit updates exactly when the buffer is a non-negative number whose cents differ from the current amount's; the update keeps id and name, and carries a whole number of cents within half a cent of what was typed |
| `ListItem.DisplayedAmountIsNoChange` | components/PersonListItem.tsx:36 | committing the amount text the row shows never sends an update |
| `ListItem.CommitSettles` | components/PersonListItem.tsx:42-64 | once the page applies a commit's update, committing the same buffer again sends nothing |
| `ListItem.PersonListItem.constructor` | components/PersonListItem.tsx:12-17 | the row starts with neither field being edited and the buffers holding the name and the amount's text |
| `ListItem.PersonListItem.SyncFromPerson` | components/PersonListItem.tsx:34-37 | a buffer that is not being edited shows the current name, or the current amount to two decimals |
| `ListItem.PersonListItem.ReceivePerson` | components/PersonListItem.tsx:34-37 | a new participant record from the page refreshes the buffers that are not being edited |
| `ListItem.PersonListItem.StartEditingName` | components/PersonListItem.tsx:112 | clicking the name starts editing it and changes nothing else |
| `ListItem.PersonListItem.StartEditingAmount` | components/PersonListItem.tsx:138 | clicking the amount starts editing it and changes nothing else |
| `ListItem.PersonListItem.OnNameChange` | components/PersonListItem.tsx:103 | typing replaces the name buffer |
| `ListItem.PersonListItem.OnAmountChange` | components/PersonListItem.tsx:127 | typing replaces the amount buffer |
| `ListItem.PersonListItem.HandleNameSubmit` | components/PersonListItem.tsx:40-48 | the update sent is `NameCommit`; a blank buffer reverts to the name; name editing ends |
| `ListItem.PersonListItem.HandleNameKeyDown` | components/PersonListItem.tsx:50-57 | Enter commits as `HandleNameSubmit` does, reverting a blank buffer; Escape restores the name and ends editing without an update; other keys change nothing |
| `ListItem.PersonListItem.HandleAmountSubmit` | components/PersonListItem.tsx:59-70 | the update sent is `AmountCommit`, with both amounts rounded through `toFixed(2)` and `parseFloat`; an invalid buffer reverts to the amount to two decimals; amount editing ends |
| `ListItem.PersonListItem.HandleAmountKeyDown` | components/PersonListItem.tsx:72-79 | Enter commits as `HandleAmountSubmit` does, reverting an invalid buffer; Escape restores the amount to two decimals and ends editing without an update; other keys change nothing |

## Left out

- IEEE-754 doubles. Money is exact `real` arithmetic, so rounding error in sums, averages and `amount / total * 100` is not modelled. Neither are `Infinity`, `-0` or `parseFloat`'s `"Infinity"` literal. `toFixed(2)` rounds the exact value half away from zero. The real method rounds the nearest double, which can fall on either side of a tie.
- Numbers.ToFixed2: `toFixed` switches to exponent notation from 1e21 upwards; the model always writes fixed-point digits.
- Numbers.ParseToFixed2: because `Numbers.ToFixed2` never writes exponent notation, the round trip is stated for all reals, not only below 1e21 as in the source.
- Stats.ScanForSponsor: `for … in` visits integer-like keys (names such as "7") first, in numeric order, before the other keys in insertion order. The model scans all keys in insertion order, so when names tie, the sponsor can differ from the one the engine picks for such names.
- Stats.StartTally: the tally is a plain object literal in the source, so a participant named `__proto__` hits the inherited accessor and is never stored. The model's dictionary stores every name, so its sponsor can differ from the card's for such a name.
- Stats.AddPayments: for the same reason, a payee named `__proto__` is never credited in the source's object literal. The model credits every payee, so its sponsor can differ from the card's for such a name.
- App.SponsorWhenSettling: it holds for the model's dictionary tally. Because of the `__proto__` key described under `Stats.StartTally` and `Stats.AddPayments`, it does not hold of the card when the only creditors are named `__proto__`.
- App.Session.LoadShared: the `console.warn` and `console.error` logging on a rejected or unreadable payload is left out. An unreadable payload is not modelled, because decoding happens before the check; in both cases the list is kept.
- Stats.ClosestToAverage: modelled directly as the first arg-min of the distance, which is the head of the stable sort the component performs. The sort itself is not modelled.
- ListItem.PersonListItem.constructor: the initial amount buffer, `amountSpent.toString()`, is a parameter, because number-to-text conversion other than `toFixed(2)` is not modelled. `SyncFromPerson` overwrites it right after mounting.
- Transaction ids and participant ids, built from `Date.now()` and `Math.random()`, are left out. Participant ids are parameters. Transactions carry no id.
- The random debug participants, the `DEBUG_MODE` switch and the random placeholder name are left out.
- `spendingEquality` (standard deviation and `Math.sqrt`), `getPercentageColor` and the ring geometry of the card are floating-point presentation and are left out.
- Base64, `JSON.stringify`/`JSON.parse`, `URLSearchParams`, `history.replaceState`, the clipboard and the share notifications are I/O. `App.Session.LoadShared` takes the already parsed JSON value. JSON numbers cannot be NaN, so the `!isNaN` test always passes in the model.
- React scheduling is not modelled: when effects and `useMemo` run, the `appReady` timer, the notification timeouts, and focus or selection of inputs. Effects are methods the caller invokes (`Recompute`, `SyncFromPerson`). The input's `onBlur` submit is the same `HandleNameSubmit`/`HandleAmountSubmit`.
- All rendering (JSX, CSS, the list and settlement views) is left out.
