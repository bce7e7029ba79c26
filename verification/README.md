# Babki: a verification model of the family finance engines

The program keeps a family's money: journals of accounts, credit cards, deposits, investments, a
budget and savings goals. This project models the engines that decide what those journals mean and
proves what they promise:

- **The credit card.** A day-by-day walk over a card's journal: a queue of debits paid oldest first,
  the family's own money on the card, installments billed by statements, minimums missed, a grace
  that is taken off and restored, and four rules for the last day of a purchase, moved off days off.
  The status it ends in promises that paying each listed due by its day keeps every purchase's grace.
- **Corporate actions.** The rows a registry of splits, conversions and spin-offs asks a journal to
  hold are recomputed and compared with the rows written before. One run leaves exactly the rows
  asked for, a second finds nothing to do, and sweeping the whole registry comes to rest within the
  longest chain of papers producing papers.
- **Deposits.** A quote swept over breakpoints is the rate each kopeck would get by itself; interest
  is reckoned day by day with bounded rounding; a memo of rates changes nothing exactly while a rate
  struck holds to the end of its month and stage.
- **Allocation.** Money shared in proportion to what each kind of asset lacks, by topping up or by
  selling too, and the gain on lots sold first in, first out.
- **The money report and the budget.** Rows classified into a two-level tree lose nothing; the
  budget takes its limits away from the report and counts each rouble once; a pot carried from month
  to month has a closed form.
- **The sign-in limiter, the progressive tax, the goals.** Bounds over whole runs, banded
  arithmetic, and the inverse of compound growth.

## How it is laid out

Each module is one file. What the program does in place is a `class` or a `method` with loops and
is proved equal to a function of its inputs or of its old state (`CardMachine.Walker`, whose
`View()` is a `CardWalk.Walk`; `CashReport.Report`; `LoginGuard.Guard`; `Earn.RateBook`;
`Share.ShareInto` on an array); what the program promises is then proved of those functions.

- Calendar: `calendar`, `workdays`, `rounding`, `tally`.
- Card: `card_terms`, `card_walk`, `card_machine`, `card_invariants`, `card_fifo`,
  `grace_promise`, `card_status`.
- Corporate actions: `registry_names`, `materialize`, `reconcile`, `fixpoint`, `local_wants`,
  `sweeps`, `sweep_exists`, `sweep_bound`.
- Deposits: `deposit_rate`, `deposit_quote`, `deposit_programme`, `interest`, `earn`,
  `memo_exact`, `memo_run`.
- Allocation: `share`, `allocation`, `rebalance`, `topup`, `lots`.
- Report and budget: `cashflow`, `cash_lines`, `cash_report`, `cash_sections`, `cash_totals`, `ordered`,
  `covers`, `expected`, `spending`, `budget`, `unlimited`, `pot`.
- The rest: `login_guard`, `banded_tax`, `goals`.

Modelling choices. Days are numbered in the proleptic Gregorian calendar with real month lengths and
leap years; months are `12 * year + month - 1`. The calendar of working days is the one the program
ships. Money is whole minor units. Exact decimals are reals: the sixteen decimals `decimal.Div` keeps
are idealised away, except where the whole part of a quotient decides (`Share.Div16Floors` shows it
is the integer quotient). A zero `time.Time` is `None`. The engine that folds a journal into holdings,
the builders of exchanges and spin-offs and the catalog are abstract functions
(`Materialize.Engine`); a pair's transfer group stands for the id it is hashed from. Key rates and
conditions are functions of the day and the month.

## Where the code and its words differ

The model follows the code. Each difference has a lemma.

- `TopUp` and `Rebalance` say the money never exceeds what is lacking. Rounding each target to
  whole minor units can make it exceed by up to half a unit a target, and then nothing may be placed
  (`Rebalance.KopeckOverThirds`, `TopUp.KopeckOverThirds`). The lacks reach the money if and only if
  what is held back, the untargeted and the rounding are together not below nought
  (`Rebalance.LacksCoverTheMoney`, `TopUp.LacksCoverTheMoney`).
- `reach` says its day is the earliest first of a month that, set as the date, is on track. The
  status rounds what the plan comes to, so an earlier one may be
  (`Goals.EarlierMayBeOnTrack`; the exact condition is in `Goals.ReachDayIsOnTrack`).
- `run` takes the rate to move only with the month and the schedule's stage. A key rate that changes
  within a month makes it pay another sum (`MemoExact.KeyRateMovesUnderTheMemo`). The memo changes
  nothing if and only if a rate once struck holds to the end of its month and stage
  (`MemoRun.RunsAreExact` for runs as `run` makes them, `MemoRun.RunIsExact` for one amount,
  `MemoExact.MemoIsExact` for any marks of the balance); for a variant with one rate for the whole balance, if and only if within
  each month the key rate that counts leaves every cell reached at its rate
  (`MemoExact.MemoIsExactWhileKeyHolds`); for an account that earns the key rate itself, if and only if
  that key rate stays the same to six decimals (`MemoExact.KeyAccountMemoIsExact`). A flat key rate
  and one edition are enough for any terms (`MemoExact.FlatKeyIsSteady`, `MemoExact.SteadyIsEnough`).
- `lotsGain` leaves out the cost of a lot with nothing left in it (`Lots.EmptiedLotIsNotCounted`), so
  a full sale gains the worth less all the costs only when those lots cost nothing together
  (`Lots.FullSaleCountsAllCosts`).

## Model

| member | source | states |
|---|---|---|
| `Workdays.Workday` | internal/platform/dates/workdays.go:69-74 | The first day on or after the given one that is not a day off. |
| `Workdays.MidMonthWorkday` | internal/platform/dates/workdays.go:10-66 | Every month of every year, decreed or not, has a working day after its first, so the search for one always ends. |
| `Workdays.FindWorkday` | internal/platform/dates/workdays.go:69-74 | The loop ends with that first working day. |
| `Workdays.WorkdayMonotone` | internal/platform/dates/workdays.go:69-74 | Moving days off days off keeps their order. |
| `CardTerms.StatementsIncrease` | internal/creditcard/card.go:365-370 | Statement days, cut to short months, follow one another as the months do. |
| `CardTerms.PeriodsTile` | internal/creditcard/card.go:372-382 | For every statement day 1-31 each day is in exactly one period, and the next period starts where it ends. |
| `CardTerms.WindowsTile` | internal/creditcard/card.go:408-420 | Each day, those before the contract too, is in exactly one window, and the next starts where it ends: the code's truncating division corrected below zero is a floor. |
| `CardTerms.PayDayIsFirst` | internal/creditcard/card.go:396-404 | The pay-day search finds the first pay day of a month after the statement. |
| `CardTerms.SearchPayDay` | internal/creditcard/card.go:396-404 | The unbounded loop ends, with a pay day after the statement and no earlier one. |
| `CardTerms.DueOnMonotone` | internal/creditcard/card.go:390-406 | Of two statements the later is never due earlier. |
| `CardTerms.DeadlineMonotone` | internal/creditcard/card.go:431-452 | For one grace and one number of statements later, a later purchase never has an earlier deadline. |
| `CardTerms.MinimumBounds` | internal/creditcard/card.go:1089-1107 | The minimum is never below nought nor above the debt; unless it is the whole debt it holds, above the charges taken in full, the floor and the percent of the rest to within half a unit, passes the greater of them by less than the rounding, and is a multiple of it. |
| `CardMachine.SortIsStable` | internal/creditcard/card.go:612-618 | The journal sorted by day has the same rows, each day's in their first order. |
| `CardMachine.Select` | internal/creditcard/card.go:612-617 | Exactly the rows of the card's currency with money in them, dated today or before. |
| `CardMachine.Walker.constructor` | internal/creditcard/card.go:620-693 | A walk begins with nothing owed, nothing kept and the grace on. |
| `CardMachine.Walker.Pay` | internal/creditcard/card.go:624-634 | A payment, in place, leaves the state `CardWalk.Pay` gives, whose properties are below. |
| `CardMachine.Walker.TakeOff` | internal/creditcard/card.go:649-662 | The grace taken off from a day, in place. |
| `CardMachine.Walker.Miss` | internal/creditcard/card.go:663-679 | The purchases past their last day lost, in place, and the rest with them where the terms say so. |
| `CardMachine.Walker.CloseMinimum` | internal/creditcard/card.go:700-717 | A minimum whose day is past is closed, and what was missed of it is overdue. |
| `CardMachine.Walker.LosePeriod` | internal/creditcard/card.go:706-714 | The purchases of the missed minimum's period lose their grace, and those still to come into it will. |
| `CardMachine.Walker.ShowStatement` | internal/creditcard/card.go:718-732 | A statement shows each installment's next part and states the minimum. |
| `CardMachine.Walker.ShowParts` | internal/creditcard/card.go:719-729 | The loop over the installments shows each one's part and sums them. |
| `CardMachine.Walker.TakeIn` | internal/creditcard/card.go:743-760 | Money in goes to the parts, then to the oldest debits, and toward the minimum once what is overdue is taken. |
| `CardMachine.Walker.TakeOut` | internal/creditcard/card.go:761-791 | Money out takes the family's own first; the rest becomes an installment or a debit with its deadline, lost from the start while the grace is off. |
| `CardMachine.Walker.EndDay` | internal/creditcard/card.go:793-805 | The end of a day, in place; what was repaid restores the grace from the next day, and lateness is counted. |
| `CardInvariants.EndDaySteps` | internal/creditcard/card.go:793-805 | The end of a day keeps the walk sound, raises no remainder, gives no lost purchase its grace again and moves no debt. |
| `CardMachine.WalkDay` | internal/creditcard/card.go:699-806 | One turn of the loop takes exactly the day's rows, with the index moved past them. |
| `CardMachine.WalkSorted` | internal/creditcard/card.go:694-806 | The loop with one index over the sorted rows is the walk that takes each day's rows by their date. |
| `CardMachine.WalkJournal` | internal/creditcard/card.go:611-806 | The walk of any journal, sorted or not, is the walk of its rows day by day. |
| `CardInvariants.PayKeeps` | internal/creditcard/card.go:624-634 | A payment leaves something over only when nothing is owed any more, and raises no debit. |
| `CardInvariants.PayConserves` | internal/creditcard/card.go:624-634 | What is owed falls by the payment less what is left over. |
| `CardInvariants.ShownKeepsSound` | internal/creditcard/card.go:188-200 | Showing a part moves exactly it from what is left of the installment to what is due, with its fee. |
| `CardInvariants.PartsAddUp` | internal/creditcard/card.go:188-200 | An installment's parts add up to its sum exactly: nothing is left when and only when the last is shown. |
| `CardInvariants.MissClears` | internal/creditcard/card.go:663-679 | After it no purchase with its grace is past its last day. |
| `CardInvariants.WalkIsSound` | internal/creditcard/card.go:624-806 | After every day of every journal: no remainder below nought, own money only when nothing is owed, while the grace is off every covered purchase still owed is lost, and the day it is off since is set exactly then. |
| `CardInvariants.DebtIsConserved` | internal/creditcard/card.go:699-835 | Over every journal the debt is minus the sum of the rows plus the installment fees shown. |
| `CardInvariants.NothingIsUnlost` | internal/creditcard/card.go:569-596 | Over every stretch of every run no remainder grows and no lost purchase has its grace again. |
| `CardInvariants.GraceIsOnTime` | internal/creditcard/card.go:665-679 | On every day a purchase dated before it that has its grace has its last day that day or later. |
| `CardFifo.PayTakesOldest` | internal/creditcard/card.go:624-634 | The first k debits together owe what they did less the payment, not below nought, for every k. |
| `CardFifo.RemaindersAreClamps` | internal/creditcard/card.go:606-634 | On every day each debit's remainder is the clamp of all debited up to it less all paid, and the own money is what was paid past what was spent. |
| `GracePromise.PaidSince` | internal/creditcard/card.go:624-634 | By any later day today's debits are paid down by all that came in since, whatever was bought in between. |
| `GracePromise.LostSince` | internal/creditcard/card.go:665-679 | A covered purchase of today is lost by a later day exactly when its last day is past and what came in by it did not reach what was owed up to it. |
| `GracePromise.PromiseIsExact` | internal/creditcard/card.go:606-679 | With nothing lost and no debt outside the grace, no purchase of today is lost by a later day if and only if by each due day the payments reach all due by it. |
| `CardStatus.Gather` | internal/creditcard/card.go:844-882 | Each debit is counted once: under its due day, under its lost period, or as never covered; a lost period is told with the end of its first debit's period, and as early when all its debits are. |
| `CardStatus.ListDues` | internal/creditcard/card.go:883-899 | The dues are listed each once and by day. |
| `CardStatus.ListLost` | internal/creditcard/card.go:900-908 | The lost periods are listed each once, by start and last day. |
| `CardStatus.SumPlans` | internal/creditcard/card.go:823-834 | What is left of the installments and those still showing. |
| `CardStatus.Work` | internal/creditcard/card.go:606-909 | The status tells the state the walk of the journal ends in, each lost period with its start, end, last day, amount and whether it is early. |
| `CardStatus.StatusBalances` | internal/creditcard/card.go:818-882 | The debt is the dues, the lost, the never covered, the installments left and their parts due, less the family's own money. |
| `CardStatus.DebtIsTheJournals` | internal/creditcard/card.go:818-835 | The debt is minus the sum of the journal's rows plus the installment fees shown. |
| `CardStatus.StatusPromise` | internal/creditcard/card.go:856-899 | Whatever is bought later, today's purchases all keep their grace to a later day if and only if for each listed due before it the payments by its day reach the dues listed up to it. |
| `RegistryNames.PrintRoundTrip` | internal/corporateaction/materialize.go:475-504 | A printed id parses back to itself and holds no colon. |
| `RegistryNames.InIdIsSuffixed` | internal/corporateaction/materialize.go:475-486 | The arriving leg's name is the departing one's with the suffix. |
| `RegistryNames.PaperReadsBack` | internal/corporateaction/materialize.go:475-504 | The paper read out of a row's name is the one it was written for, on both legs. |
| `RegistryNames.NamesDistinct` | internal/corporateaction/materialize.go:475-486 | Rows of different events or papers, and the two legs of one, never share a name. |
| `Materialize.Desired` | internal/corporateaction/materialize.go:265-333 | The loops ask for each event on each paper over the journal the earlier ones left, or fail as the engine does. |
| `Materialize.AskedWellNamed` | internal/corporateaction/materialize.go:363-435 | Every row asked for is the registry's, on the account, named after its event and paper, and no two share a name. |
| `Materialize.AskedIsOwned` | internal/corporateaction/materialize.go:488-504 | What is asked for is what the next run takes for its own. |
| `Reconcile.UnitsOf` | internal/corporateaction/materialize.go:617-636 | The rows grouped by event: each in one group, in their order. |
| `Reconcile.CompareUnit` | internal/corporateaction/materialize.go:576-586 | An event matches exactly when each of its rows is stored as it is asked for. |
| `Reconcile.StampsInherited` | internal/corporateaction/materialize.go:593-603 | A rewritten row is one asked for, and its stamp is a removed row's or none. |
| `Reconcile.RemoveRest` | internal/corporateaction/materialize.go:605-613 | Every owned row is in the end kept or removed, each removed once, and none that is not owned. |
| `Reconcile.Diff` | internal/corporateaction/materialize.go:554-615 | The delta removes exactly the owned rows of no matching event, and writes exactly the rows of the events that do not match. |
| `Fixpoint.ForAccount` | internal/corporateaction/materialize.go:191-225 | The delta is that difference for what is asked over the journal without the rows owned. |
| `Fixpoint.AfterRun` | internal/corporateaction/materialize.go:201-227 | A run leaves the rows it does not own as they were, in their order, and of its own the kept and the written. |
| `Fixpoint.OneRunIsExact` | internal/corporateaction/materialize.go:191-246 | After one run with nothing refused the account's registry rows are exactly those asked for, and what is asked for has not changed. |
| `Fixpoint.SecondRunIsEmpty` | internal/corporateaction/materialize.go:227-233 | A second run adds and removes nothing. |
| `Fixpoint.LegsGoTogether` | internal/corporateaction/materialize.go:572-604 | Both legs of an event are kept or rewritten together. |
| `LocalWants.InsertNaming` | internal/corporateaction/materialize.go:326-329 | In a journal in fold order, putting a row in keeps every paper's rows in the order they fold by themselves. |
| `LocalWants.WantIsLocal` | internal/corporateaction/materialize.go:268-333 | Where the engine reads only a paper's rows, what is asked for a paper follows from the rows, not its own, that name it. |
| `Sweeps.AskedInPlace` | internal/corporateaction/materialize.go:363-416 | What is asked for is on the source paper or on one its events produce. |
| `Sweeps.RunSettles` | internal/corporateaction/materialize.go:193-246 | A run settles its own paper and leaves none of its rows where no event of it reaches. |
| `Sweeps.RunKeepsUnlinked` | internal/corporateaction/materialize.go:193-246 | A run keeps settled every paper it does not produce. |
| `Sweeps.SettledRunIsEmpty` | internal/corporateaction/materialize.go:231-233 | A run of a settled paper leaves the journal as it is. |
| `Sweeps.SweepAdvances` | internal/corporateaction/materialize.go:170-189 | One sweep, in whatever order of papers, settles them one link further. |
| `Sweeps.SweepsComeToRest` | internal/corporateaction/materialize.go:170-189 | With acyclic links, after as many sweeps as the longest chain has papers, and one more when rows are left over from links that are no more, every paper is settled and every further sweep changes nothing. |
| `SweepBound.SweepsFallShort` | internal/corporateaction/materialize.go:170-189 | That many are needed: over a chain of any number of papers gone through from its end, from a journal in fold order with nothing left over, before each sweep short of as many some paper is not settled. |
| `SweepBound.ChainIsSwept` | internal/corporateaction/materialize.go:170-189 | Such sweeps are there, as many as wanted. |
| `SweepExists.RunIsThere` | internal/corporateaction/materialize.go:193-246 | Where the engine answers there is a run of any paper over any journal with its ids distinct. |
| `SweepExists.SweepsAreThere` | internal/corporateaction/materialize.go:170-189 | And as many sweeps one after another as wanted. |
| `DepositRate.BestIsGreatest` | internal/deposit/rate.go:289-318 | Each group of bonuses counts the greatest of those met, and only groups with one. |
| `DepositRate.SumTakesAny` | internal/deposit/rate.go:319-325 | The sum over the groups does not depend on the order the map gives them in. |
| `DepositRate.SameRate` | internal/deposit/rate.go:107-151 | Kopecks with no threshold between them earn one rate. |
| `DepositQuote.FindRate` | internal/deposit/rate.go:242-263 | The loop finds the last of the highest steps the amount reaches. |
| `DepositQuote.FindBonuses` | internal/deposit/rate.go:289-326 | The loop's maps come to the sum of each group's best, and name those. |
| `DepositQuote.FindPeriod` | internal/deposit/rate.go:189-210 | The loop finds the period of the schedule the day falls in, passed over when its requirement was not met. |
| `DepositQuote.FindBounds` | internal/deposit/rate.go:212-240 | The breakpoints rise from nought, stay below the balance and hold every threshold there is. |
| `DepositQuote.NoneInside` | internal/deposit/rate.go:212-240 | No threshold lies inside a part. |
| `DepositQuote.RatePart` | internal/deposit/rate.go:110-148 | The rate struck for a part is the one its first kopeck would get by itself. |
| `DepositQuote.SweepParts` | internal/deposit/rate.go:107-151 | The parts are struck in order up to the first that has no rate, whose error is told. |
| `DepositQuote.Sweep` | internal/deposit/rate.go:101-163 | The parts tile the balance, every kopeck of a part would get its rate by itself; a failure is that of the first kopeck with none. |
| `DepositQuote.SweepIsPerKopeck` | internal/deposit/rate.go:149-156 | The quote's percent is the one struck kopeck by kopeck. |
| `DepositQuote.PercentIsKopeckSum` | internal/deposit/rate.go:149-153 | Percent times balance is the kopecks' sum to within half a millionth of a percent a kopeck. |
| `DepositProgramme.NthWorkdayRises` | internal/deposit/rate.go:354-361 | A later working day of a month is not earlier. |
| `DepositProgramme.KeyDayFollows` | internal/deposit/rate.go:328-352 | A lagged key rate is of an earlier day, and its day never goes back as the days go on. |
| `DepositProgramme.QuoteOn` | internal/deposit/rate.go:60-163 | The quote of a programme on a day is sound for the edition, variant and terms of that day, and there is one exactly when every kopeck has a rate. |
| `Interest.SplitsAtMonthEnd` | internal/interest/interest.go:43-87 | For a monthly payer reckoning a stretch is reckoning to a month's end and restarting from the balance then held. |
| `Interest.RoundingIsBounded` | internal/interest/interest.go:72-84 | The payments differ from the exact accrual by at most half a unit a pay day. |
| `Interest.PlainAddsNothing` | internal/interest/interest.go:76-82 | Without capitalizing the balance is always the last mark's. |
| `Interest.CapitalizingEarnsNoLess` | internal/interest/interest.go:76-82 | At a rate independent of the balance capitalizing never earns less. |
| `Earn.StageIsPeriodIndex` | internal/compare/earn.go:156-180 | The stage over the boundaries is the index of the period the day falls in. |
| `Earn.PeriodByIndex` | internal/deposit/rate.go:189-210 | The period picked on a day is the one at that index, or none past the schedule or without its requirement. |
| `Earn.RateBook.Rate` | internal/compare/earn.go:131-145 | A rate kept under its month, stage and balance is given again; else it is struck, and kept when there is one. |
| `Earn.EarnDay` | internal/interest/interest.go:57-85 | One day of the loop marks, accrues and pays by the memo's rate, whatever moves. |
| `Earn.Earned` | internal/interest/interest.go:43-87 | The payments, and the first day with no rate, of the account told day by day out of the memo. |
| `Earn.FindBoundaries` | internal/compare/earn.go:156-170 | The days the schedule moves from one period to the next. |
| `Earn.Run` | internal/compare/earn.go:118-154 | A holding earns the payments of that account from an empty memo, or has no rate, for every programme, key rate and way of paying. |
| `Earn.MemoIsPlain` | internal/compare/earn.go:131-145 | While a rate struck holds to the end of its month and stage, the account with the memo is day by day the account with the rate asked every day. |
| `Earn.RunIsPlain` | internal/compare/earn.go:115-154 | Then a holding earns with the memo what it earns without. |
| `MemoExact.KeyDecides` | internal/compare/earn.go:124-145 | Days of one month and one stage earn one rate on a balance, where the terms, and the key rate if they read it, are steady within months. |
| `MemoExact.SteadyIsEnough` | internal/compare/earn.go:115-117 | Steady terms are enough for a rate struck to hold. |
| `MemoExact.FlatKeyIsSteady` | internal/compare/earn.go:115-117 | A flat key rate and one edition over the stretch are steady. |
| `MemoExact.MemoIsExact` | internal/compare/earn.go:131-145 | The memo changes no account of interest, whatever the marks of the balance and the way of paying, if and only if a rate struck holds to the end of its month and stage. |
| `MemoRun.RunIsExact` | internal/compare/earn.go:115-154 | The runs of one amount paid out, however often and to whatever end, are those with the rate asked every day if and only if, to the first day with no rate, each day earns on it what the earlier days of its month and stage did. |
| `MemoRun.RunsAreExact` | internal/compare/earn.go:115-154 | Where every day has a rate on every sum held, all runs of every amount, capitalizing or not, are so if and only if a rate struck holds to the end of its month and stage. |
| `MemoExact.OnePart` | internal/deposit/rate.go:101-163 | A balance with no threshold inside it is quoted its first kopeck's rate, or that kopeck's failure. |
| `MemoExact.RateByCell` | internal/deposit/rate.go:101-163 | A variant with one rate for the whole balance quotes its cell by the key rate that counts, with the bonuses, to six decimals. |
| `MemoExact.KeyHoldsExactly` | internal/compare/earn.go:115-145 | For such a variant a rate struck holds if and only if the key rate that counts leaves every cell reached at its rate to the end of the month. |
| `MemoExact.MemoIsExactWhileKeyHolds` | internal/compare/earn.go:115-145 | So for it the memo changes nothing if and only if it does. |
| `MemoExact.KeyAccountMemoIsExact` | internal/compare/earn.go:115-145 | For an account that earns the key rate itself, if and only if the key rate that counts, once known, is the same to six decimals to the end of each month. |
| `MemoExact.KeyRateMovesUnderTheMemo` | internal/compare/earn.go:115-145 | A run over a key rate that rises within a month is paid 20 kopecks with the memo and 30 without. |
| `Share.Div16Floors` | internal/allocation/topup.go:90 | The floor of the quotient kept to sixteen decimals is the whole quotient for totals under 2 * 10^16. |
| `Share.WeighUp` | internal/allocation/topup.go:77-84 | The total of the weights and the first of the heaviest. |
| `Share.ShareInto` | internal/allocation/topup.go:73-95 | Each place is added its share, in place, nothing when the weights are all nought. |
| `Share.ShareConserves` | internal/allocation/topup.go:73-95 | The shares come to the amount exactly whenever any weight is above nought, else to nothing. |
| `Share.ShareBounds` | internal/allocation/topup.go:73-95 | Each share is within a unit below and a unit a weight above its exact proportion, never below nought, and nought for no weight. |
| `Allocation.LacksBalance` | internal/allocation/topup.go:20-27 | What is lacking is the new money, what is over elsewhere, what the untargeted hold, and the rounding of the targets. |
| `Allocation.SlipIsSmall` | internal/allocation/topup.go:52 | With targets adding up to 100 that rounding is at most half a unit a target. |
| `Rebalance.SellDown` | internal/allocation/rebalance.go:46-67 | The first pass leaves what each kind lacks and each kind's sale, and the money of the sales with the new. |
| `Rebalance.Rebalance` | internal/allocation/rebalance.go:28-80 | The moves or the refusal, for every view and every sum. |
| `Rebalance.LacksCoverTheMoney` | internal/allocation/rebalance.go:68-71 | The lacks are the money with all held back and untargeted and the rounding; they reach it if and only if those three are together not below nought, and fall short by at most half a unit a target. |
| `Rebalance.MovesConserveMoney` | internal/allocation/rebalance.go:68-79 | The moves come to the new money exactly whenever some kind lacks anything. |
| `Rebalance.MoveFollowsTarget` | internal/allocation/rebalance.go:55-75 | No target, no move; above it, sold to it less what is held back, deposits never; below it, only bought. |
| `Rebalance.NoSaleBelowTarget` | internal/allocation/rebalance.go:60-66 | No sale goes below the target or into what cannot be sold, and what is kept is only that. |
| `Rebalance.NoKindPastTarget` | internal/allocation/rebalance.go:70-73 | No kind is bought past its exact target by more than two units a target. |
| `Rebalance.UnplacedIsRounding` | internal/allocation/rebalance.go:68-71 | When nothing lacks the money is at most half a unit a target. |
| `Rebalance.KopeckOverThirds` | internal/allocation/rebalance.go:68-71 | A kopeck over three near-third targets lacks nothing, and the moves come to nothing. |
| `TopUp.TopUp` | internal/allocation/topup.go:28-71 | The changes or the refusal, the refusals in the order they are made. |
| `TopUp.LacksCoverTheMoney` | internal/allocation/topup.go:20-27 | The lacks are the money put in with what is over, the untargeted and the rounding; they reach it if and only if those three are together not below nought, and fall short by at most half a unit a target. |
| `TopUp.KopeckOverThirds` | internal/allocation/topup.go:24-26 | A kopeck put in over three near-third targets lacks nothing, and the changes come to nothing. |
| `TopUp.ChangesConserveMoney` | internal/allocation/topup.go:57-69 | The changes come to the new money exactly whenever some kind lacks anything: the brokers' money only moves. |
| `TopUp.NothingIsSold` | internal/allocation/topup.go:20-27 | Nothing is sold, what is at its target gets nothing, and the brokers' money never goes below nought. |
| `TopUp.NoKindPastTarget` | internal/allocation/topup.go:57-58 | No kind is topped up past its exact target by more than two units a target. |
| `Lots.LotsGain` | internal/allocation/rebalance.go:148-182 | The gain, its free and taxed parts and whether it is known. |
| `Lots.SellLots` | internal/allocation/rebalance.go:159-180 | The loop over the lots sells them the earliest first, up to the amount. |
| `Lots.GainSplits` | internal/allocation/rebalance.go:173-179 | The gain is always the free and the taxed parts, and the free is never a loss. |
| `Lots.FullSaleGainsWorthLessCost` | internal/allocation/rebalance.go:148-182 | A full sale with every cost known gains the worth less the cost of the lots with something in them. |
| `Lots.FullSaleCountsAllCosts` | internal/allocation/rebalance.go:169-172 | It gains the worth less all the costs if and only if the empty lots cost nothing together. |
| `Lots.EmptiedLotIsNotCounted` | internal/allocation/rebalance.go:169-172 | A holding with an emptied lot that cost 5: sold in full it gains 40, while the worth less all costs is 35. |
| `Lots.TwoSalesAreOne` | internal/allocation/rebalance.go:148-182 | Selling a part and then a part of the rest gains, frees and taxes what one sale of both does. |
| `CashFlow.PartsBalance` | internal/cashflow/cashflow.go:166-177 | A row's parts move its month's balance by their sum, whatever their kinds. |
| `CashFlow.FeeBalances` | internal/cashflow/cashflow.go:156-163 | A fee lowers its month's balance by itself, on a broker's account or not, and no other month's. |
| `CashFlow.PartBalances` | internal/cashflow/cashflow.go:167-175 | A part of either kind moves its month's balance by its amount, and no other month's. |
| `CashFlow.UnfiledBalances` | internal/cashflow/cashflow.go:179-207 | An unfiled row of any type the report reads moves its month's balance by its amount, on a broker's account or not. |
| `CashFlow.ReportLosesNothing` | internal/cashflow/cashflow.go:116-208 | In every month income less spending with the unfiled and the investments is what the rows come to less their fees. |
| `CashReport.Report.TakeFee` | internal/cashflow/cashflow.go:156-163 | A fee, in place; `CashFlow.FeeBalances` says what it does to the balance. |
| `CashReport.Report.TakePart` | internal/cashflow/cashflow.go:167-175 | A part, in place; `CashFlow.PartBalances` says what it does to the balance. |
| `CashReport.Report.TakeUnfiled` | internal/cashflow/cashflow.go:179-207 | An unfiled row, in place; `CashFlow.UnfiledBalances` says what it does to the balance. |
| `CashReport.Report.Assemble` | internal/cashflow/cashflow.go:116-220 | The rows read in their order and the sections laid out as lines. |
| `CashReport.FindParts` | internal/cashflow/cashflow.go:222-241 | A row counts by its parts when all are known, else by its own category, else by none. |
| `CashReport.ConvertParts` | internal/cashflow/service.go:176-198 | The converted parts add up to the row's amount exactly, each but the last the nearest whole at the rate. |
| `CashLines.Lines` | internal/cashflow/cashflow.go:252-285 | One kind's filed flows laid out as the tree, unused categories left out. |
| `CashLines.TopLineAdds` | internal/cashflow/cashflow.go:261-279 | A top line is its own flow and its children's lines, month by month. |
| `CashLines.TreeSpreads` | internal/cashflow/cashflow.go:255-285 | In a two-level tree each category is laid out under its own kind. |
| `CashLines.SpreadDistinct` | internal/cashflow/cashflow.go:255-285 | No category is laid out twice. |
| `CashSections.SectionsAreTheirLines` | internal/cashflow/cashflow.go:210-219 | Income and spending are in every month the sums of their lines. |
| `CashTotals.TotalsAreMonths` | internal/cashflow/cashflow.go:49-52 | Every flow's total is the sum of its months, whatever rows were read: the report's own flows and those of every line of both sections, a top line's merged ones, its direct ones and its children's. |
| `CashTotals.SectionTotals` | internal/cashflow/cashflow.go:210-219 | In a two-level tree each section's total is the sum of its lines' totals. |
| `CashTotals.TopTotal` | internal/cashflow/cashflow.go:261-292 | A top line's total is its own direct total and its children's totals. |
| `Ordered.Order` | internal/budget/service.go:191-216 | The categories gathered by parent, each list laid out by `Ordered.ByPosition`; `Ordered.OrderIsByPosition` says what order that is. |
| `Ordered.ByPositionIsStable` | internal/budget/service.go:213-216 | The sort leaves positions rising and the categories of each position in the order they came. |
| `Ordered.OrderIsByPosition` | internal/budget/service.go:191-211 | Of the order the top categories are the list's, sorted so, and the children of each top category are its children, sorted so. |
| `Ordered.OrderLists` | internal/budget/service.go:191-216 | In a tree the order lists each category once, a parent before its children. |
| `Covers.CoversAre` | internal/budget/expect.go:60-67 | A category covers itself and its children, and no more. |
| `Covers.CoveredByItsCoverer` | internal/budget/service.go:176-179 | An id's spending is counted by one category's limit at most: its parent's when that is limited, else its own. |
| `Expected.Expect` | internal/budget/expect.go:43-90 | The months' entries: of the first month what is left of each limit, of later ones the limit. |
| `Expected.CoveredOnce` | internal/budget/expect.go:22-27 | In no month do two expected entries cover the same category. |
| `Expected.CoversDistinct` | internal/budget/expect.go:60-67 | No entry covers a category twice. |
| `Spending.Walk` | internal/budget/service.go:143-153 | The recursive walk notes each line before its children. |
| `Spending.ExpenseWalked` | internal/budget/service.go:143-153 | It notes of each spending category what its own line says, and nothing of any other. |
| `Budget.Assemble` | internal/budget/service.go:139-189 | The lines of the limited categories and the sums over those counted. |
| `Budget.LeftIsLinesLeft` | internal/budget/service.go:174-184 | What is left of the month is the sum of the counted lines' leftovers. |
| `Unlimited.FreeIdsAre` | internal/budget/service.go:176-179 | The categories outside the limits are those with neither their own nor a parent's, each once. |
| `Unlimited.UnlimitedIsDirect` | internal/budget/service.go:185-187 | The unlimited spending, got by subtraction, is the direct sum over those categories and the fee and tax groups. |
| `Pot.FindInForce` | internal/budget/budget.go:63-74 | The latest limit from the month or before, unless it takes the limit off. |
| `Pot.MonthLine` | internal/budget/budget.go:76-107 | The month's line, with what the pot carried, for any months and spending. |
| `Pot.CarriedIsGreatestSum` | internal/budget/budget.go:76-104 | What is carried is the greatest of nought and every sum of limits less spending ending just before the month within the unbroken stretch. |
| `Pot.BreakForgets` | internal/budget/budget.go:91-98 | Spending up to a month without a pot no longer counts after it. |
| `LoginGuard.Guard.Wait` | internal/family/loginguard.go:60-69 | How long the pair must wait, to its lock's end; how long that is after many failures `LoginGuard.StepHolds` says. |
| `LoginGuard.Guard.Fail` | internal/family/loginguard.go:71-101 | A failure counted, the lock set, the table swept when large. |
| `LoginGuard.Guard.Sweep` | internal/family/loginguard.go:94-100 | Exactly the forgotten entries are cleared. |
| `LoginGuard.Guard.Succeed` | internal/family/loginguard.go:103-108 | A success, in place: the pair's entry and no other's; `LoginGuard.StepCovers` says what it keeps. |
| `LoginGuard.StepCovers` | internal/family/loginguard.go:60-108 | Every event keeps a swept table short of an unswept one by forgotten entries only. |
| `LoginGuard.StepHolds` | internal/family/loginguard.go:60-108 | Every event leaves a pair that failed so many times since a moment counted with as many and locked for all their locks since it, or fifteen minutes past it. |
| `LoginGuard.SweepIsUnobservable` | internal/family/loginguard.go:94-100 | After any events every pair waits as long as with a guard that never sweeps. |
| `LoginGuard.NineFailuresTakeFifteenMinutes` | internal/family/loginguard.go:10-30 | From any table and among any other pairs' events, nine failures of a pair each tried at no wait, with no success among them, take fifteen minutes or more. |
| `BandedTax.Banded` | internal/family/taxresidency.go:295-319 | One pass over the bands is each minor unit at its own band's rate, rounded once. |
| `BandedTax.TaxIsUnitByUnit` | internal/family/taxresidency.go:295-319 | The tax is that sum to within half a unit, in whole units. |
| `BandedTax.TaxNeverFalls` | internal/family/taxresidency.go:295-319 | The tax never falls as the sum grows. |
| `BandedTax.RussianInvestmentTax` | internal/family/taxresidency.go:154-177 | Russia's investment bands are 13 % up to 2.4 million roubles and 15 % above, in whole roubles. |
| `BandedTax.RussianMainTax` | internal/family/taxresidency.go:154-184 | Russia's main bands are 13, 15, 18, 20 and 22 % up to 2.4, 5, 20 and 50 million roubles and above, in whole roubles. |
| `BandedTax.Added` | internal/compare/tax.go:80-103 | The sum over the years the payments fall in, in any order, of the tax with them less the tax without. |
| `BandedTax.AddedTaxBounds` | internal/compare/tax.go:80-103 | New interest never lowers the tax, and adds at most the top rate on it and one unit a year. |
| `Goals.FutureIsGrowth` | internal/goals/goals.go:82-92 | The closed form is the month-by-month growth, at any yield. |
| `Goals.NeededIsLeast` | internal/goals/goals.go:154-171 | With a month or more left a whole contribution reaches the target if and only if it is at least the needed one. |
| `Goals.Reach` | internal/goals/goals.go:138-152 | The least number of months up to fifty years, and its day. |
| `Goals.ReachDayIsMonthsOff` | internal/goals/goals.go:67-75 | The reach day is a first of a month so many whole months off. |
| `Goals.MakeProgress` | internal/goals/goals.go:94-136 | The progress filled step by step, every branch. |
| `Goals.AtRiskExactly` | internal/goals/goals.go:122-134 | A dated goal is at risk exactly when its plan falls short by more than half a unit. |
| `Goals.NeededIsNeverAtRisk` | internal/goals/goals.go:116-134 | Contributing the needed or more is never at risk with a month left; with none it always is. |
| `Goals.ReachDayIsOnTrack` | internal/goals/goals.go:138-152 | The reach day as the date gives back its months and is on track; every earlier first of a month falls short, and is at risk unless by no more than half a unit. |
| `Goals.EarlierMayBeOnTrack` | internal/goals/goals.go:138-140 | A plan for which the first of a month before the reach day is on track. |

## Left out

- CardStatus.Work: does not tell the last statement's minimum, the next one, the penalty, the interest estimates, the extension's fee, the free cash of the first days, the yearly fee or the cashback; the walk's own minimums, overdue sums and days late are in.
- GracePromise.PromiseIsExact: does not take a category's own number of statements, a running grace, flags that take the grace off what was paid on time, or installments; with them deadlines do not follow the debits' order.
- Materialize.Desired: does not build the pairs nor replay the journal; those come from outside the engine's own package and are abstract.
- Fixpoint.OneRunIsExact: does not model a row the journal refuses, nor released lots struck again by the operation service.
- Sweeps.SweepsComeToRest: takes it that a paper's holding follows from the rows that name it, and one account at a time; runs of different accounts touch different journals.
- RegistryNames.PrintRoundTrip: parses the canonical 36-character form only; the other forms a uuid may be written in are never printed here.
- DepositQuote.FindBounds: keeps the breakpoints in order as they are added where the program sorts them at the end.
- Earn.Run: tells a day with no rate and the quote's other errors alike (both end the run with no payments), and does not model `earn`, `prolonged`, `terms` and `better`, which try the terms of a grid and prolong a deposit.
- Rebalance.Rebalance: does not model the estimate of the tax on its sales past the gain on each paper's lots.
- Lots.TwoSalesAreOne: takes a lot's cost to go with what is sold of it exactly, where the program keeps costs in whole minor units between sales.
- CashReport.Report.Assemble: flows are values in the report's fields, so that a line's own flow shares its months with the gathered one, as the program's copies do, is not told; nothing is written to either after.
- Budget.Assemble: takes a report whose last month is the budget's, as its only caller asks for; how far back the report reaches is the caller's.
- Expected.Expect: takes a two-level tree of categories, as the program keeps; a cycle of parents would not end in the program either.
- LoginGuard.NineFailuresTakeFifteenMinutes: takes an attempt to be let in and counted at one instant; attempts let in together before any is counted are not bounded.
- BandedTax.Banded: 64-bit overflow of the sum times the rate is not modelled.
- Int64 overflow of money sums is not modelled anywhere.
- The order in which a map gives its keys is arbitrary, and so it is in the model, but for the owned row of a name: where owned rows share a name `Reconcile.Stored` takes the last of them in the journal, the program whichever its map gives last. A run writes no two rows of one name.
- Comparing variants of deposits, extended valuations, treaties, split ratios as published, the category store, and everything that reads or writes files, the database or the network.
