# Recurring-charge calendar of a subscription tracker

A Dafny model of the date and analytics library of a subscription tracker
(`frontend/src/lib`). It covers:

- **Dates.** Subscriptions carry a billing cycle (weekly, monthly, yearly or
  every n days) and a next billing date written `YYYY-MM-DD`.
- **Day arithmetic** on UTC midnights: `daysUntil`, `addDaysToIsoDate` and
  the window test.
- **Upcoming renewals** and the rounded monthly and yearly cost totals.
- **Analytics:**
  - a six-month spend forecast that walks every subscription's charge dates;
  - the spend per category, with shares;
  - four renewal buckets for the coming 30 days;
  - the headline summary.
- **Reminders:** which subscriptions call for a reminder today, and the
  once-a-day marker kept in the browser's local storage.
- **Calendar export:** the iCalendar (RFC 5545) text of one subscription,
  with its text escaping, DATE values, recurrence rule and alarms.
- **Display labels** for due dates, categories and billing cycles.

Modules:

| module | what it models |
|---|---|
| `Gregorian` | `Date.UTC` and the `getUTC*` accessors at day granularity. |
| `Text`, `IsoText` | Number and date text, and string order. |
| `Seqs` | `filter`, `reduce` and the stable `sort`. |
| `Types` | The subscription record. |
| `Dates` | `date.ts`. |
| `Recurrence` | `addDays`, `addMonths`, `nextChargeDate` and `monthlyEquivalent` of `analytics.ts`. |
| `SpendTrend`, `CategorySpend`, `RenewalBuckets`, `Summary` | The four builders of `analytics.ts`. |
| `Notifications` | `notifications.ts`. |
| `Ics` | `ics.ts`. |
| `Format` | `format.ts`. |

How the model is shaped:

- Pure code is written as functions.
- Loops that update state are methods proved equal to a reference function:
  - `buildSpendTrend`'s result array and its catch-up and accumulation loops;
  - the category totals loop;
  - the renewal bucket array.
- The local storage marker is a class whose `items` map the method updates.

## Model

| member | source | states |
|---|---|---|
| Gregorian.FromDayNumber | frontend/src/lib/date.ts:18-23 | The UTC fields of a day count are a valid calendar date whose day count is that number. |
| Gregorian.FromDayNumberOfDayNumber | frontend/src/lib/date.ts:5-8 | Reading the fields of a valid date's own UTC day count gives the date back. |
| Gregorian.FieldsBeforeIsChronological | frontend/src/lib/date.ts:5-8 | On valid dates, field order and day-count order agree, and equal day counts mean equal dates. |
| IsoText.ParseIsoDate | frontend/src/lib/date.ts:18-24 | The zero-padded text of a valid four-digit-year date parses back to that date. |
| IsoText.ParseStoredIsoText | frontend/src/lib/date.ts:5-8 | Any fields the `YYYY-MM-DD` pattern admits, calendar-valid or not, are read back from their stored text. |
| IsoText.IsoDateInjective | frontend/src/lib/date.ts:18-24 | Two valid four-digit-year dates have the same ISO text exactly when they are equal. |
| IsoText.IsoDateOrder | frontend/src/lib/analytics.ts:131 | String order of ISO date texts is chronological order, so the `<` tests of the trend loops compare dates. |
| Text.NatTextValue | frontend/src/lib/date.ts:21-23 | The decimal text of n reads back as n. |
| Text.IntTextInjective | frontend/src/lib/notifications.ts:9-16 | Different integers have different decimal texts. |
| Text.FixedDigitsOrder | frontend/src/lib/date.ts:21-23 | Zero-padded numbers of one width compare as text exactly as they compare as numbers. |
| Text.JoinAppend | frontend/src/lib/ics.ts:42-44 | Joining two non-empty lists puts exactly one separator between their joins. |
| Dates.IsoDateFromTime | frontend/src/lib/date.ts:18-24 | The text of an instant parses back to the UTC date of that instant. |
| Dates.DateFromTimeOfMidnight | frontend/src/lib/date.ts:5-8 | Any instant within a date's UTC day has that date. |
| Dates.AddDays | frontend/src/lib/date.ts:26-28 | Adding n days gives a valid date whose day count is n more. |
| Dates.AddDaysIsMillisecondArithmetic | frontend/src/lib/date.ts:26-28 | Adding n days equals adding n times DAY_MS to the UTC midnight and reading its date. |
| Dates.AddDaysToIsoDate | frontend/src/lib/date.ts:26-28 | The result is zero-padded `YYYY-MM-DD` text that parses to the shifted date. |
| Dates.DaysUntilIsMillisecondArithmetic | frontend/src/lib/date.ts:30-32 | The floored millisecond difference of the two UTC midnights divided by DAY_MS is the day-count difference. |
| Dates.DaysUntilAntisymmetric | frontend/src/lib/date.ts:30-32 | A date is 0 days from itself, and swapping the arguments negates the result. |
| Dates.DaysUntilAddDays | frontend/src/lib/date.ts:26-32 | From any date, `daysUntil(addDays(d, n), d)` is n. |
| Dates.AddDaysRoundTrip | frontend/src/lib/date.ts:26-32 | `daysUntil(addDays(d, n), d)` is n, and adding `daysUntil(e, d)` days to d reaches e. |
| Dates.AddDaysReaches | frontend/src/lib/date.ts:26-32 | Adding n days to d gives e exactly when e is n days from d. |
| Dates.InWindowMeansReachable | frontend/src/lib/date.ts:34-41 | A date is in the window exactly when adding some k between 0 and the window length to the start reaches it. |
| Dates.DaysUntilWithinMonth | frontend/src/lib/date.test.ts:25-28 | 2026-02-10 is 2 days after 2026-02-08, and a date is 0 days from itself. |
| Dates.DaysUntilAcrossLeapDay | frontend/src/lib/date.ts:30-32 | 2024-03-01 to 2026-03-01 is 730 days. |
| Dates.DaysUntilOverLeapDay | frontend/src/lib/date.ts:30-32 | 2024-02-28 to 2024-03-01 is 2 days, across the leap day. |
| Dates.AverageMonthlyCost | frontend/src/lib/date.ts:43-58 | The monthly average of a non-negative amount is non-negative. |
| Dates.AverageYearlyCost | frontend/src/lib/date.ts:60-75 | The yearly average of a non-negative amount is non-negative. |
| Dates.YearlyIsTwelveMonthly | frontend/src/lib/date.ts:43-75 | For a non-zero amount, the yearly average is 12 times the monthly one exactly when the cycle is not custom days (365/i against 360/i). |
| Dates.Round | frontend/src/lib/date.ts:78 | `Math.round` gives the integer within one half of x, halves rounding up. |
| Dates.YearlySumIsTwelveMonthly | frontend/src/lib/date.ts:77-91 | Without custom cycles, the yearly sum is 12 times the monthly sum. |
| Dates.CostSumsNonNegative | frontend/src/lib/date.ts:77-91 | Sums of non-negative amounts are non-negative. |
| Dates.TotalsOfAppended | frontend/src/lib/date.ts:77-91 | One more subscription adds its averages to both sums when active, and nothing when inactive. |
| Dates.TotalsOfInactive | frontend/src/lib/date.ts:77-91 | A list without active subscriptions (the empty list included) totals 0 monthly and 0 yearly. |
| Dates.TotalsExample | frontend/src/lib/date.test.ts:30-51 | The test's monthly 1000, yearly 24000 and weekly 500 plans total 5167 a month and 62000 a year. |
| Dates.UpcomingRenewalsContents | frontend/src/lib/date.ts:93-102 | The result is in the order of the stored date texts, is a permutation of the active subscriptions in the window, and holds exactly those. |
| Dates.UpcomingRenewalsStable | frontend/src/lib/date.ts:101 | Subscriptions with the same stored date keep their input order; there is no other tie-break. |
| Dates.BillingKeyIsFieldOrder | frontend/src/lib/date.ts:101 | The sort key orders dates by year, then month, then day, and equal keys mean equal dates. |
| Dates.BillingKeyIsTextOrder | frontend/src/lib/date.ts:101 | On any date the `YYYY-MM-DD` pattern admits, calendar-valid or not, key order is the order of the stored texts, and equal keys are equal texts. |
| Dates.BillingKeyIsChronological | frontend/src/lib/date.ts:101 | On calendar-valid dates, key order is chronological order. |
| Dates.CalendarInvalidSortsAsText | frontend/src/lib/date.ts:101 | 2026-02-30 sorts before 2026-03-01, as its text does, though it falls on 2 March. |
| Dates.RenewalTestWindow | frontend/src/lib/date.test.ts:53-74 | 2026-02-15 lies in the 10-day window from 2026-02-08 and 2026-03-18 does not. |
| Dates.UpcomingRenewalsExample | frontend/src/lib/date.test.ts:53-74 | The test's active, inactive and late subscriptions give only the first. |
| Recurrence.MonthKeyInjective | frontend/src/lib/analytics.ts:40 | Two valid four-digit-year dates have the same `YYYY-MM` key exactly when they share year and month. |
| Recurrence.DaysInMonthUtcIsCalendar | frontend/src/lib/analytics.ts:60-62 | Day 0 of the following month is the last day of the month, so `daysInMonth` is the calendar month length. |
| Recurrence.NormalizedMonthIndex | frontend/src/lib/analytics.ts:68 | `((i % 12) + 12) % 12` with JavaScript's truncating remainder is the Euclidean remainder of i by 12. |
| Recurrence.AddMonthsFields | frontend/src/lib/analytics.ts:64-72 | The result is in year y + floor((m-1+k)/12) and month (m-1+k) mod 12 + 1, is k months later, and its day is the input day clamped to the month length, never larger. |
| Recurrence.AddMonthsValidAndLater | frontend/src/lib/analytics.ts:64-72 | On a valid date the result is valid, strictly later for k of at least 1, and the same date for k = 0. |
| Recurrence.AddMonthsClampsToMonthEnd | frontend/src/lib/analytics.ts:69 | January 31 plus one month is February 28, or February 29 in a leap year. |
| Recurrence.NextChargeDateSteps | frontend/src/lib/analytics.ts:74-91 | Weekly adds 7 days, monthly and yearly add 1 and 12 clamped months, and custom adds the interval (default 30). The result is later exactly when the interval is positive. |
| Recurrence.MonthlyEquivalent | frontend/src/lib/analytics.ts:93-106 | Except for custom cycles, 12 times the monthly equivalent is the yearly average; it is non-negative for non-negative amounts. |
| SpendTrend.IndexByMonthKeyIndexes | frontend/src/lib/analytics.ts:124 | The month-key map points every key at a point with that key, and with distinct keys finds each point at its own position. |
| SpendTrend.CatchUpLoop | frontend/src/lib/analytics.ts:128-138 | The catch-up loop ends at the date and guard value of the reference catch-up walk. |
| SpendTrend.AccumulateLoop | frontend/src/lib/analytics.ts:140-152 | The accumulation loop leaves the array equal to the fold of bumps over the counted charge dates. |
| SpendTrend.BuildSpendTrend | frontend/src/lib/analytics.ts:108-156 | The forecast built in the array equals the reference definition. |
| SpendTrend.SpendTrendShape | frontend/src/lib/analytics.ts:112-123 | There are max(1, monthsAhead ?? 6) points. The i-th point has the key of the month i months after the start month and the label of that key. All amounts are 0 without active subscriptions. |
| SpendTrend.MonthStartFields | frontend/src/lib/analytics.ts:113-116 | The i-th forecast month starts on the first of the month i months after the start date's month. |
| SpendTrend.MonthKeysDistinct | frontend/src/lib/analytics.ts:115-124 | While years keep four digits, the forecast months have pairwise different keys. |
| SpendTrend.SpendTrendAmounts | frontend/src/lib/analytics.ts:125-152 | Each month's amount is the sum, over the active subscriptions, of the amount times the number of counted charge dates in that month. |
| SpendTrend.SpendTrendAppend | frontend/src/lib/analytics.ts:127-153 | An extra active subscription adds its own charges on top of the others; an inactive one changes nothing. |
| SpendTrend.ChargesWalk | frontend/src/lib/analytics.ts:128-152 | The skipped dates are the first charge dates, all before the start. The counted dates follow them step by step, all before the end. Both loops share one guard, at most 400 and 1200 steps. Unless the 1200-step guard runs out, the date after the last counted one is not before the end. |
| SpendTrend.ChargesAreWindowDates | frontend/src/lib/analytics.ts:128-152 | While neither guard runs out and the dates keep four-digit years, a date is counted exactly when it is a charge date of the subscription on or after the start and before the end. |
| SpendTrend.ChargesIncrease | frontend/src/lib/analytics.ts:140-152 | With a positive interval the counted dates strictly increase, so no date is counted twice. |
| SpendTrend.MonthlyYearCharges | frontend/src/lib/analytics.ts:128-152 | A monthly subscription renewing in the start month, not before the start, skips nothing and is counted exactly 12 times in a 12-month forecast, at its first 12 charge dates. |
| SpendTrend.SingleMonthlyAmounts | frontend/src/lib/analytics.ts:108-156 | Such a subscription, alone and active, puts its amount into each of the 12 forecast months. |
| SpendTrend.SpendTrendConservation | frontend/src/lib/analytics.ts:108-156 | Projection conservation: the 12 month amounts of that forecast add up to 12 times the subscription's amount. |
| SpendTrend.StepsMonotone | frontend/src/lib/analytics.ts:74-91 | With a positive interval, later steps of the charge walk are never earlier. |
| SpendTrend.ChargesNotBeforeFrom | frontend/src/lib/analytics.ts:131-152 | When the catch-up loop ends by reaching the start date, no counted charge lies before it. |
| SpendTrend.CatchUpStopsShort | frontend/src/lib/analytics.ts:131 | A subscription more than 400 intervals overdue exhausts the catch-up guard, and its first counted charge still lies before the start date. |
| CategorySpend.CategoryOrderContents | frontend/src/lib/analytics.ts:159-166 | The map's key order lists exactly the categories present, each once. |
| CategorySpend.RawPoints | frontend/src/lib/analytics.ts:168-173 | A raw point is a listed category with its rounded total, kept only when that is positive. |
| CategorySpend.TotalsOfHoldsCategoryTotals | frontend/src/lib/analytics.ts:159-166 | The totals map has exactly the listed categories, each mapped to the sum of its subscriptions' monthly equivalents. |
| CategorySpend.CategoryTotalsLoop | frontend/src/lib/analytics.ts:159-166 | The loop builds the reference order and totals. |
| CategorySpend.BuildCategorySpend | frontend/src/lib/analytics.ts:158-186 | The method returns the reference result. |
| CategorySpend.FinishFacts | frontend/src/lib/analytics.ts:175-185 | On positive raw points with distinct categories, the result is empty only for no points. It holds exactly the points, each with its share, largest first, no category twice, and the shares sum to 1. |
| CategorySpend.CategorySpendCategories | frontend/src/lib/analytics.ts:158-186 | A category appears, once, exactly when it has active subscriptions and a positive rounded total. Its amount is the total rounded after summation, and its share is that amount over the sum of the listed amounts. |
| CategorySpend.CategorySpendOrder | frontend/src/lib/analytics.ts:175-185 | Amounts descend, a non-empty result's shares sum to 1, and the result is empty exactly when no category's rounded total is positive. |
| CategorySpend.CategorySpendExample | frontend/src/lib/analytics.test.ts:62-98 | The test's four subscriptions give utilities 2167, productivity 2000 and health 900, in that order. |
| RenewalBuckets.BuildRenewalBuckets | frontend/src/lib/analytics.ts:188-220 | The four-element array after the counting loop equals the reference buckets. |
| RenewalBuckets.InBucketExactlyOne | frontend/src/lib/analytics.ts:203-216 | A subscription in the window is in some bucket, no subscription is in two buckets, and one outside the window is in none. |
| RenewalBuckets.BucketRanges | frontend/src/lib/analytics.ts:204-216 | The buckets hold deltas 0-7, 8-14, 15-21 and 22 up to the window end. |
| RenewalBuckets.BucketsAddUp | frontend/src/lib/analytics.ts:200-217 | The four counts add up to the number of active subscriptions in the window. |
| RenewalBuckets.RenewalBucketsShape | frontend/src/lib/analytics.ts:193-198 | The four labels come in fixed order, and all counts are 0 without active subscriptions. |
| RenewalBuckets.BucketsTestExample | frontend/src/lib/analytics.test.ts:100-117 | The test's six subscriptions give one subscription per bucket. |
| Summary.BuildAnalyticsSummary | frontend/src/lib/analytics.ts:222-240 | The method's summary is the reference summary assembled from the other builders. |
| Summary.SummaryRenewalCount | frontend/src/lib/analytics.ts:232 | The 30-day renewal count is the total of the default renewal buckets and never exceeds the active count. |
| Summary.SummaryOnlySeesActive | frontend/src/lib/analytics.ts:222-240 | Dropping the inactive subscriptions first does not change the summary. |
| Summary.SummaryOfInactive | frontend/src/lib/analytics.test.ts:132-139 | A list without active subscriptions gives the all-zero summary. |
| Notifications.HitsForShape | frontend/src/lib/notifications.ts:25-31 | On the renewal day there is one hit with 0 days before, whatever the lead list. Otherwise there is one hit per lead entry equal to the days left, duplicates included. |
| Notifications.CollectAppend | frontend/src/lib/notifications.ts:22-32 | The hits of two lists one after the other are the hits of the first followed by the hits of the second. |
| Notifications.CollectReminderHitsMembers | frontend/src/lib/notifications.ts:18-33 | Every hit is for an active input subscription, carries its days left, and is either a renewal-day hit or one of its lead times. With non-negative lead times, past-due subscriptions give no hit. |
| Notifications.ReminderLeadExample | frontend/src/lib/notifications.ts:25-31 | With leads 1, 3 and 7, five days ahead gives no hit and three days ahead gives one hit with 3. |
| Notifications.StorageKeyInjective | frontend/src/lib/notifications.ts:9-16 | For ids without ':', two keys are equal exactly when all four components are. |
| Notifications.ReminderStore.ShouldDispatchReminder | frontend/src/lib/notifications.ts:74-88 | The method answers true exactly when the key was not marked, and then stores "1" under it and nothing else. Otherwise it leaves the store alone. Either way the key is marked afterwards. |
| Notifications.ReminderStore.DispatchTwice | frontend/src/lib/notifications.ts:74-88 | A second call for the same hit and day answers false and leaves the store as the first call left it. |
| Ics.CleanTextIsEscape | frontend/src/lib/ics.ts:3-5 | The four chained replacements equal escaping each character once (backslash, line feed, comma, semicolon; section 3.3.11 of RFC 5545). |
| Ics.CleanTextRoundTrip | frontend/src/lib/ics.ts:3-5 | Unescaping the cleaned text gives the input back; nothing is escaped twice. |
| Ics.CleanTextHasNoLineFeed | frontend/src/lib/ics.ts:3-5 | Cleaned text holds no raw line feed. |
| Ics.IsoToIcsDateLayout | frontend/src/lib/ics.ts:11-13 | Removing the hyphens gives the 8-digit `YYYYMMDD` DATE form of section 3.3.4 of RFC 5545. |
| Ics.IsoToIcsDateInjective | frontend/src/lib/ics.ts:11-13 | Different valid dates give different DATE values. |
| Ics.RecurrenceRuleInjective | frontend/src/lib/ics.ts:15-28 | Two subscriptions get the same rule exactly when they have the same cycle and, for custom cycles, the same interval (default 30). |
| Ics.AlarmsFollowLeads | frontend/src/lib/ics.ts:33-43 | The i-th alarm belongs to the i-th strictly positive lead time. It is the VALARM block with `TRIGGER:-P{n}D`, a display action and the escaped "Upcoming charge" description. |
| Ics.AlarmsExample | frontend/src/lib/ics.ts:33-44 | Leads 0 and 3 give a single alarm, for 3 days. |
| Ics.RemindersEmpty | frontend/src/lib/ics.ts:33-44 | The reminders text is empty exactly when no lead time is positive. |
| Ics.IcsLayout | frontend/src/lib/ics.ts:30-66 | The output is its non-empty lines joined with CRLF plus a final CRLF. It starts with `BEGIN:VCALENDAR`, has the UID, DTSTART and RRULE lines, and ends with `END:VEVENT` and `END:VCALENDAR`. The joined entries number 14 when some lead time is positive and 13 otherwise. All the alarm blocks form the one entry before `END:VEVENT`, itself several CRLF-separated lines. No entry is empty. |
| Ics.IcsEnds | frontend/src/lib/ics.ts:46-65 | The text starts with `BEGIN:VCALENDAR` and a CRLF, and ends with a CRLF, `END:VCALENDAR` and a CRLF. |
| Format.FormatRelativeDueInjective | frontend/src/lib/format.ts:23-31 | Different day counts, negative ones included, give different labels. |
| Format.CapitalizeWordsFacts | frontend/src/lib/format.ts:13 | Capitalising moves no word boundary, so doing it twice changes nothing. |
| Format.ReplaceFirstUnderscoreFacts | frontend/src/lib/format.ts:13 | Only the first underscore becomes a space. |
| Format.CategoryLabelIsCapitalisedName | frontend/src/lib/format.ts:12-14 | A category's label is its wire name with the first letter upper-cased. |
| Format.BillingCycleLabels | frontend/src/lib/format.ts:16-21 | The cycles read "Weekly", "Monthly", "Yearly" and "Custom (days)"; without the special case, "custom_days" would read "Custom Days". |
| Seqs.SortBySorted | frontend/src/lib/date.ts:101 | The stable sort orders by key. |
| Seqs.SortByPermutes | frontend/src/lib/analytics.ts:185 | The sort permutes its input. |
| Seqs.SortByStable | frontend/src/lib/date.ts:101 | Elements with equal keys keep their relative order. |
| Seqs.FilterTwice | frontend/src/lib/date.ts:98-100 | Filtering twice by the same test is filtering once. |

## Left out

- Clock reads are parameters:
  - `nowIsoDate` and the default arguments that call it are a `today` date;
  - `formatUtcStamp` is the `stamp` text passed to the calendar export.
- Intl formatting:
  - `toMonthLabel` is a function parameter `monthLabel` from month key to label;
  - `formatCurrencyMinor` is not modelled.
- Browser effects are not modelled: `Notification` and its permission, `setTimeout`, `supportsNotifications`, `dispatchBrowserReminder` and `downloadTextFile`'s DOM and Blob work. Only the local storage marker is modelled, as a map from keys to values with JavaScript truthiness.
- `Date.UTC` maps years 0 to 99 into the 1900s. The model does not. The text and order lemmas assume four-digit years, as the `YYYY-MM-DD` date format admits.
- Dates enter the model already parsed into year, month and day; the `split("-").map(Number)` step is not modelled.
- Floating point is replaced by exact reals: the normalising factors 52/12, 30/i and 365/i, and the shares. `Math.round` is floor(x + 1/2). The share sum is exactly 1 rather than close to 1.
- The `default` branches of the cycle switches cannot be reached with the four cycles of the type, so they are absent.
- Custom intervals must be positive wherever an average or a monthly equivalent divides by them. This is what the form and API validation guarantee (`customIntervalDays` positive), so those functions require it.
- Upcoming renewals with the same stored date keep their input order: the sort is stable and compares only the date texts, with no name tie-break. The sort key is the year, month and day of the stored text, so calendar-invalid dates such as 2026-02-30, which the text pattern admits, sort as their text does (`CalendarInvalidSortsAsText`).
- The last bucket is labelled "22-30 days". With `daysAhead` above 30 it still counts every delta up to `daysAhead`, as the code does; `BucketRanges` states this.
- SpendTrend.SpendTrendConservation: stated for start years up to 9998, so that all twelve months keep four-digit years and their texts compare as dates. The sum is exact: amounts are whole minor units and no rounding happens per month.
- SpendTrend.SpendTrendAmounts: the month totals are stated only when the forecast months have distinct keys. `MonthKeysDistinct` gives that for four-digit years.
- The mixed-cycle trend test (amounts 3100, 3900, 16400, 4200, 3900, 4400) is not proved as a concrete example. `SpendTrendAmounts` reduces each month's amount to the counted charge dates; `ChargesAreWindowDates` and `ChargesIncrease` say which dates are counted, each once.
- SpendTrend.ChargesNotBeforeFrom holds only when the catch-up loop stops by reaching the start date rather than by its guard. `CatchUpStopsShort` shows that the guard can stop it early, in which case past charges are counted.
- The storage key is built from the parsed next billing date and its ISO text, which is the stored string for valid four-digit-year dates.
