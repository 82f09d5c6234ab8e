# Loan calculator cashflow engine, modelled in Dafny

This project models the core of a home-loan comparison calculator. For one
project (property, capital, income, costs, settlement date, stamp duty) and
one loan offer (rate, borrowed share, duration, fees, optional fixed-rate
window, optional offset account), the engine builds several series. The
monthly rate series comes from the base rate, the forward-filled rate changes
and the fixed-rate window. The monthly expense series comes from the dated
one-off expenses. It then runs a month-by-month recurrence that re-derives the
annuity payment every month on a "no offset" shadow balance, caps it at the
principal still owed, and charges interest on the principal net of the offset
balance. The result is a timeseries of principal paid, offset balance,
principal payment, interest, fee and repayment, with the deposit and stamp
duty in the first month, plus a feasibility flag. Around the engine, the home
page keeps a name-keyed store of offers, a comparison selection, a search
filter and a four-figure comparison table.

Modules, one per part of the program:

- `Wrappers`: `Option` and `Result`.
- `Numeric`: `Pow`, `Min`, `Max` and facts about powers and quotients.
- `Calendar`: dates reduced to month numbers. Loan month `i` is the `i`-th
  month start on or after settlement.
- `DataModels`: the `Offer`, `Project`, `RateDelta` and `Expense` records,
  their field bounds, defaults and the fixed-rate validator.
- `Repayments`: the recurrence. `CarryBefore` and `MonthRow` specify it;
  `CalculateRepayments` is the imperative kernel over preallocated arrays,
  with `Month` as its loop body.
- `RepaymentProperties`: what the recurrence guarantees.
- `RateSeries`: the monthly rate series, the fixed-rate window and the
  re-baselining of historical changes.
- `ExpenseSeries`: the monthly expense series.
- `LoanTimeseries`: the assembly of one offer's timeseries and the
  feasibility flag.
- `Sequences`: order-preserving filtering, shared by the home-page modules.
- `OfferStore`: the offer store, selection, search, rate-change cleaning and
  parameter merge.
- `ComparisonSummary`: the comparison table.

Money is `real`. A figure the program would get as NaN, infinity or an
exception is `None`.

## Model

| member | source | states |
|---|---|---|
| Repayments.CalculateRepayments | loan_calculator/analytics.py:97-155 | the six returned columns have one entry per month, and entry i of each is the corresponding field of month i's row of the recurrence |
| Repayments.Month | loan_calculator/analytics.py:118-153 | one pass of the loop yields the row and the new shadow principal paid that the recurrence specifies for the carry it is entered with |
| RepaymentProperties.RowIdentities | loan_calculator/analytics.py:130-153 | principal payment + interest = loan payment; repayment = loan payment + fee; fee = monthly fee exactly when the payment is positive; the payment is at most the principal owed and at most the annuity on the shadow balance; interest is on max(0, principal - offset - principal paid); principal paid = previous principal paid + principal payment |
| RepaymentProperties.PrincipalPaidIsRunningSum | loan_calculator/analytics.py:146-150 | principal paid after k months is the sum of the first k principal payments |
| RepaymentProperties.RepeatedIsProduct | loan_calculator/analytics.py:149 | adding the monthly net income k times is k times the monthly net income |
| RepaymentProperties.OffsetStep | loan_calculator/analytics.py:149 | with an offset account, each month's offset is the previous one + income - costs - repayment - expense |
| RepaymentProperties.OffsetBalance | loan_calculator/analytics.py:118-149 | with an offset account, offset after k months = start offset + k months of (income - costs) - all repayments so far - all expenses so far |
| RepaymentProperties.NoOffsetCarry | loan_calculator/analytics.py:140-149 | without an offset account (start offset 0), the offset stays 0 and principal paid equals the shadow principal paid in every month |
| RepaymentProperties.NoOffsetRows | loan_calculator/analytics.py:140-149 | without an offset account, every row's offset is 0, its interest is the shadow interest and its principal paid is the shadow principal paid |
| RepaymentProperties.InterestNonNegative | loan_calculator/analytics.py:140 | at a positive rate, interest on max(0, owed) is never negative |
| RepaymentProperties.InterestPositive | loan_calculator/analytics.py:140 | at a positive rate, interest on a positive amount owed is positive |
| RepaymentProperties.PrincipalPaidAtMostPrincipal | loan_calculator/analytics.py:137-146 | with positive rates, principal paid never exceeds the principal |
| RepaymentProperties.NeverFullyRepaid | loan_calculator/analytics.py:137-146 | without an offset account and with positive rates, principal paid stays strictly below a positive principal in every month |
| RepaymentProperties.AnnuityEquation | loan_calculator/analytics.py:130-135 | the annuity is the unique x with x * ((1 + r)^k - 1) = balance * r * (1 + r)^k |
| RepaymentProperties.AnnuityOneMonth | loan_calculator/analytics.py:130-135 | over one remaining month the annuity is balance * (1 + r), at least the balance for a non-negative balance and positive rate |
| RepaymentProperties.LastMonthLeavesInterest | loan_calculator/analytics.py:130-146 | without an offset account and with positive rates, the last month's payment is capped at the principal owed, so that month's interest, which is positive, is what remains unpaid at the end |
| RepaymentProperties.AnnuityLevel | loan_calculator/analytics.py:130-135 | after a month in which the annuity is paid on a balance bearing interest at the same rate, the annuity over the remaining months is unchanged |
| RepaymentProperties.ReAmortise | loan_calculator/analytics.py:130-147 | the same statement with the interest written as the engine computes it |
| RepaymentProperties.LevelPayment | loan_calculator/analytics.py:130-147 | while the cap does not bind and the rate stays the same, the next month's annuity on the shadow balance equals this month's, whatever the offset does |
| Numeric.PowAwayFromOne | loan_calculator/analytics.py:133-134 | for a rate above -100% other than 0, (1 + r)^k differs from 1, so the annuity denominator is never 0 |
| Numeric.DivisionCharacterization | loan_calculator/analytics.py:130-135 | a quotient is the one number that times the divisor gives the dividend |
| LoanTimeseries.ComputeLoanTimeseries | loan_calculator/analytics.py:11-94 | a result exists exactly when the inputs are computable; the rows are then the recurrence's rows on the derived principal, start offset, fee, rate series and expense series, with deposit and stamp duty in the first month, and the flag is feasibility |
| LoanTimeseries.BuildFrame | loan_calculator/analytics.py:64-90 | the frame built from the kernel's columns, with its one-time cells written in the first month, equals the specified frame |
| LoanTimeseries.OneTimeCostsInFirstMonth | loan_calculator/analytics.py:76-90 | deposit and stamp duty appear in the first month and are 0 in every later month |
| LoanTimeseries.UpfrontCostSplits | loan_calculator/analytics.py:88-92 | the upfront cost is the deposit plus the stamp duty |
| LoanTimeseries.FeasibleIffCapitalCovers | loan_calculator/analytics.py:92 | an offer is feasible exactly when the starting capital covers deposit and stamp duty |
| LoanTimeseries.FeasibleMonotone | loan_calculator/analytics.py:92 | more starting capital never makes a feasible offer infeasible |
| LoanTimeseries.StartOffsetIsShortfall | loan_calculator/analytics.py:47-49 | with an offset account, the start offset is capital - deposit - stamp duty, and is non-negative exactly when the offer is feasible |
| LoanTimeseries.NoOffsetAccountRows | loan_calculator/analytics.py:47-49 | for an offer without an offset account, every month's offset is 0 and its interest is the shadow interest |
| LoanTimeseries.DefaultProjectPaysNoStampDuty | loan_calculator/data_models/project.py:13 | a project built with the default stamp duty rate has a zero stamp-duty entry in every month |
| LoanTimeseries.WorkedExample | loan_calculator/analytics.py:43-92 | a 780000 property, 70% borrowed, 5.5% stamp duty and 300000 capital: feasible, upfront 276900, deposit 234000, stamp duty 42900, principal 546000 |
| LoanTimeseries.MonthlyRates | loan_calculator/analytics.py:51-59 | the rate series has one entry per loan month |
| LoanTimeseries.Frame | loan_calculator/analytics.py:76-90 | the frame has one row per loan month |
| RateSeries.MonthlyRateSeries | loan_calculator/analytics.py:198-217 | one entry per month, each the month's annual rate (fixed rate inside the window, else base rate + forward-filled change) divided by 12 and by 100 |
| RateSeries.LatestChangeIsLatest | loan_calculator/analytics.py:205-207 | the change found for a month is in force there (dated on a month start at or before it) and at least as late as every other change in force; none is found exactly when none is in force |
| RateSeries.ForwardFill | loan_calculator/analytics.py:205-207 | the adjustment of a month is the value of the latest change in force, replacing rather than adding to earlier ones |
| RateSeries.CarriedForward | loan_calculator/analytics.py:206 | a month without a change of its own carries the previous month's adjustment |
| RateSeries.NoChanges | loan_calculator/analytics.py:198-199 | without changes the adjustment is 0 |
| RateSeries.FixedRateWindow | loan_calculator/analytics.py:208-213 | the loan months starting before the settlement anniversary D years on (i.e. up to one day before it) are exactly the first 12 * D |
| RateSeries.MonthStartBefore | loan_calculator/analytics.py:213 | a month start lies before a date exactly when its month is earlier, or is that date's month and the date is not the 1st |
| RateSeries.MonthStartDate | loan_calculator/analytics.py:36-41 | the month start of a month number is a valid first-of-month date with that month number |
| RateSeries.FirstOnOrAfter | loan_calculator/analytics.py:192 | finds the first historical change dated on or after settlement, every earlier one being before it; none exactly when all are before |
| RateSeries.Rebaseline | loan_calculator/analytics.py:191-192 | the cumulative history is shifted so that it is 0 at the first date on or after settlement, keeping dates and month-to-month differences; none (the source raises) when no date is on or after settlement |
| RateSeries.ChangesInEffect | loan_calculator/analytics.py:178-196 | for a past settlement, the re-baselined history (exactly `Rebaseline`'s result) followed by the forecast, and None when no past rate is on or after settlement; otherwise the forecast alone |
| ExpenseSeries.ExpensesSeries | loan_calculator/analytics.py:220-231 | one entry per loan month |
| ExpenseSeries.ExpenseAtLanding | loan_calculator/analytics.py:226-229 | a month where no expense lands holds 0; with distinct months, a month where an expense lands holds its value |
| ExpenseSeries.ExpensesSeriesContents | loan_calculator/analytics.py:220-231 | every expense landing inside the horizon appears at its landing index with its value; every other month is 0 |
| ExpenseSeries.ExpenseOnSettlementDay | loan_calculator/analytics.py:226 | an expense dated on settlement lands in month 1 when settlement is on the 1st and in month 0 otherwise |
| Calendar.SameMonthStart | loan_calculator/analytics.py:206 | two month starts with the same month number are the same date |
| DataModels.ValidateOffer | loan_calculator/data_models/offer.py:4-21 | an offer is accepted exactly when its bounds hold and a fixed-rate offer has both fixed rate and duration, and is then returned unchanged; a rejection carries at least one error; the fixed-rate error is raised exactly when the bounds hold and the rule fails; without a fixed rate no extra check applies |
| DataModels.DefaultOffer | loan_calculator/data_models/offer.py:7-15 | the default offer is valid, named as given, at 3% over 25 years with 80% borrowed, no yearly fees, no fixed rate or fixed-rate duration and no offset account |
| DataModels.ValidateProject | loan_calculator/data_models/project.py:4-13 | a project is accepted exactly when the stamp-duty rate lies in [0, 100], and is returned unchanged; otherwise that one error is reported |
| DataModels.DefaultProject | loan_calculator/data_models/project.py:8-13 | the required fields are as given, stamp duty defaults to 0 and settlement to the given day, and the result is valid |
| OfferStore.Save | loan_calculator/pages/home.py:282-286 | the saved offer is stored under its name; every other name keeps exactly its entry; an absent store gives a store of that offer alone |
| OfferStore.Delete | loan_calculator/pages/home.py:279-281 | the name is removed and every other entry is kept unchanged; an absent store gives no update |
| OfferStore.OnStoreEvent | loan_calculator/pages/home.py:275-287 | no trigger gives no update; a delete button deletes; a save button saves |
| OfferStore.SaveIntoEmpty | loan_calculator/pages/home.py:285 | saving into an absent or empty store yields a one-entry map |
| OfferStore.SaveOverwrites | loan_calculator/pages/home.py:286 | a second save under the same name replaces the first |
| OfferStore.DeleteUndoesSave | loan_calculator/pages/home.py:280-286 | deleting a just-saved name gives the store without that name, the original store when the name was new |
| OfferStore.DeleteAbsent | loan_calculator/pages/home.py:280 | deleting a name that is not stored changes nothing |
| OfferStore.Selection | loan_calculator/pages/home.py:326-330 | the selectable names are exactly the non-empty stored names; a current selection is refreshed to its still-stored names, an absent one is left alone; an absent store clears both |
| OfferStore.SelectionKeepsStoredInOrder | loan_calculator/pages/home.py:329 | the refreshed selection holds exactly the selected names still stored, in the selection's order |
| OfferStore.LowerString | loan_calculator/pages/home.py:232 | lower-casing maps each character, keeping the length |
| OfferStore.LowerStringIdempotent | loan_calculator/pages/home.py:232 | lower-casing twice is lower-casing once |
| OfferStore.ContainsHasPosition | loan_calculator/pages/home.py:232 | where `in` holds, the search text occurs at some position of the name |
| OfferStore.PositionGivesContains | loan_calculator/pages/home.py:232 | where the search text occurs at a position, `in` holds |
| OfferStore.ContainsIffOccurs | loan_calculator/pages/home.py:232 | `in` holds exactly when the search text is a slice of the name |
| OfferStore.VisibleOffers | loan_calculator/pages/home.py:231-232 | the cards shown are exactly the offers whose name matches the search, ignoring case |
| OfferStore.EmptySearchShowsAll | loan_calculator/pages/home.py:232 | an absent or empty search shows every offer |
| OfferStore.SearchIgnoresCase | loan_calculator/pages/home.py:232 | searching for a text and for its lower-case form shows the same offers |
| OfferStore.SearchKeepsOrder | loan_calculator/pages/home.py:231-232 | the cards keep the order of the stored offers |
| OfferStore.CleanRateChanges | loan_calculator/pages/home.py:377 | exactly the rows with a non-empty date and a change (0 included) are passed on; an absent table gives none |
| OfferStore.CleanRateChangesKeepsOrder | loan_calculator/pages/home.py:377 | cleaning keeps the rows' order and keeps a table of usable rows whole |
| OfferStore.Merge | loan_calculator/pages/home.py:382 | the merged parameters have the keys of both; a project parameter overrides an offer field of the same name; other offer fields are kept |
| Sequences.Filter | loan_calculator/pages/home.py:231-232 | the result is no longer than the input and holds exactly the input's elements that pass the test |
| Sequences.FilterAppend | loan_calculator/pages/home.py:231-232 | filtering distributes over concatenation, so order is kept |
| ComparisonSummary.MonthlyRepayment | loan_calculator/pages/home.py:398-403 | none exactly when no month has a positive principal payment + interest + fee; otherwise the mean of those positive outlays (mean * count = total), which is positive |
| ComparisonSummary.PaidTotalPositive | loan_calculator/pages/home.py:398-403 | the total of the positive outlays is non-negative, and positive exactly when some month's outlay is positive |
| ComparisonSummary.LevelOutlayTotal | loan_calculator/pages/home.py:398-403 | when every paying month costs the same x, the total is x times the number of paying months |
| ComparisonSummary.LevelOutlayIsMean | loan_calculator/pages/home.py:398-403 | when every paying month costs the same x, the monthly repayment is x |
| ComparisonSummary.CumulativeInterestFees | loan_calculator/pages/home.py:405-412 | the running sum has one entry per row, starting at the first row's interest + fee and adding each row's |
| ComparisonSummary.CumulativeIsPrefixSum | loan_calculator/pages/home.py:405-412 | entry i of the running sum is the interest and fees of rows 0 to i |
| ComparisonSummary.InterestFeesAtYearTen | loan_calculator/pages/home.py:405 | present exactly when the series has more than 120 rows |
| ComparisonSummary.TotalInterestFees | loan_calculator/pages/home.py:412 | present exactly when the series is not empty |
| ComparisonSummary.InterestFiguresAreSums | loan_calculator/pages/home.py:405-412 | the year-10 figure is the sum over rows 0..120 inclusive and the loan-end figure the sum over all rows |
| ComparisonSummary.InterestFeesOverMonotone | loan_calculator/pages/home.py:405-412 | with no negative interest or fee, summing over more rows gives no less |
| ComparisonSummary.YearTenAtMostTotal | loan_calculator/pages/home.py:405-412 | with no negative interest or fee, the year-10 figure is at most the loan-end figure, equal for a 121-month series |
| ComparisonSummary.PercentOwnedAtYearTen | loan_calculator/pages/home.py:407-409 | present exactly when row 120 exists and the end denominator (last principal paid + deposit) is not 0; then percent * denominator = (principal paid at row 120 + deposit) * 100 |
| ComparisonSummary.PercentOwnedBounds | loan_calculator/pages/home.py:407-409 | the percentage lies in [0, 100] when the year-10 amount lies between 0 and the end amount, and is 100 for a 121-month series |
| ComparisonSummary.OutlayIsRepayment | loan_calculator/pages/home.py:398-400 | on the engine's rows, principal payment + interest + fee is the repayment column |

## Left out

- Floating point: money is exact `real`. numba's `fastmath` rounding is not modelled. A zero monthly rate divides 0 by 0 in the annuity formula; the compiled source raises `ZeroDivisionError` there, and `ComputeLoanTimeseries` returns `None`.
- LoanTimeseries.ComputeLoanTimeseries: a monthly rate at or below -100% also gives `None`, although the source computes a frame there (mostly finite), because the model's annuity proofs need 1 + r > 0.
- Repayments.CalculateRepayments: the seven preallocated numpy arrays are modelled as one array of six-field rows plus one array for the shadow column. The loop body is the separate method `Month`.
- Calendar arithmetic: `pd.date_range` over 365-day years is not modelled. The number of loan months `n` is a parameter. Nor are the Feb-29 construction of the fixed-rate end date or the `MonthEnd`/`MonthBegin` offsets beyond their effect on month numbers. Dates are (year, month, day) with a month number.
- Rate changes dated on another day than the 1st are dropped by the month-start resampling, as in the source. Several changes on the same date make pandas raise; the model returns `None` for duplicate dates (and duplicate expense months) rather than inventing a rule.
- Historical rates: fetching (`read_historical_rates`, web or CSV) and the clock are not modelled. Today's date and the past changes are parameters. The past changes are taken as already parsed, shifted to month starts, filtered to non-zero values and summed per date, so those pandas steps are not modelled.
- `dropna` on rate changes and expenses: typed records cannot hold missing values, so there is nothing to drop.
- Settlement date defaulting to today is a parameter of `DataModels.DefaultProject`.
- `analytics.get_loan_data`, which turns a merged parameter dictionary into the engine's records, is not part of this model. So the comparison run is modelled as its pieces: `OfferStore.CleanRateChanges`, `OfferStore.Merge`, `LoanTimeseries.ComputeLoanTimeseries` and the `ComparisonSummary` figures.
- UI: layouts, modals, charts, table formatting and the timeline widget-state callbacks are not modelled.
- OfferStore.Save: the offer's name is a parameter. The source reads it from the saved form's name field.
- Store key order: Python dicts keep insertion order and JavaScript objects keep it for non-numeric keys (integer-like keys come first, ascending), but the store is a `map`. So the selectable names are a set. The search runs over the stored names given as a sequence in the store's order.
- OfferStore.Lower: lower-casing is ASCII only. Python's `str.lower` also folds non-ASCII letters.
- RepaymentProperties.OffsetBalance: "k months of net income" is stated with `Repeated`. `RepaymentProperties.RepeatedIsProduct` proves it equals k times the amount.
- ExpenseSeries.ExpenseOnSettlementDay: an expense dated on a first-of-month settlement day lands in month 1, not month 0, because `+ MonthBegin()` always rolls forward to the next month start. The model follows the code.
