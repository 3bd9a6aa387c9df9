# MoneyHoney finance core in Dafny

MoneyHoney is a personal-finance app. It records expenses and income, keeps a
set of accounts with transfers between them, and lets the user define
spending categories with monthly goals. The app ships as two UI trees,
`src/` and `my-sweet-spend/src/`. This project models the logic inside the
app's pages:

- **Account ledger** (`Accounts`, accounts page). This is a class over the
  account list and the transfer log. Adding an account is guarded by the
  blank-name and empty-balance checks. Deleting an account keeps at least
  one account. A transfer runs the handler's guards in the order the
  handler checks them, debits the source, credits the destination and puts
  one record in front of the log.
- **Category and goal registry**, which comes in two versions.
  - `Settings` models the main settings page. It appends goals, so a
    category can carry several goals, and it deletes a goal by its id.
  - `SweetSpendSettings` models the my-sweet-spend settings page. It
    upserts the goal of a category. It keeps one goal per category and only
    positive targets.
  - `CategorySettings` holds what the two pages share: the blank-name
    guard and the cascading delete of a category together with its goals.
- **Dashboard folds** (`Dashboard`).
  - The income and expense totals and the balance.
  - Spending per category, with the order of first occurrence kept.
  - The five most recent expenses. They come from an in-place, stable,
    newest-first sort of the caller's array, modelled as an insertion sort
    on an `array`.
- **Analytics page** (`Analytics`).
  - The period filter: preset periods, a `YYYY-MM` month picker value, or a
    custom range.
  - The pie chart of spending per category.
  - Goal progress, with the JavaScript number semantics of `x / 0`.
  - The month-end projection.
  - The twelve month-picker options, built by a loop.
- **Supporting modules.**
  - `FinanceTypes`: the records and the built-in categories.
  - `Calendar`: dates and the normalising `new Date(y, m, d)`.
  - `Text`: `trim`, `String(n)`, `padStart`, `split` and `parseInt`.
  - `Seqs`: `filter`.

Modelling choices:

- Money is counted in integer cents, so sums are exact.
- Percentages and the projection are `real`. A quotient is a `Number`
  (finite, plus or minus infinity, or NaN), as JavaScript's `/` produces
  it.
- Dates are calendar triples. An instant is a date plus the milliseconds
  since its midnight. Stored dates are read as midnight.
- Ids that the app draws from `Date.now()` are parameters.
- A form field that may be empty is an `Option`.

These behaviours of the code as written are kept as they are:

- A custom range with a missing bound collapses to the current instant.
  Only a record dated today passes it, and only when the current time is
  exactly midnight (`CustomWindowMeaning`).
- The transfer handler looks up only the source account. A transfer to an
  id that names no account debits the source and credits nobody
  (`TransferToMissingAccountLosesAmount`).
- The balance check is `balance < amount`. A negative amount therefore
  passes the check (`CheckTransferCompleted`).
- On the analytics page, goal spending is measured over the filtered
  period, while the projection uses the current month
  (`GoalSpentIsCategoryTotal`, `ProjectionBounds`).
- The main settings page accepts a target of 0. The status of such a goal
  then follows the sign of the spending (`StatusThresholds`).

## Model

| member | source | states |
|---|---|---|
| Text.Trim | src/components/settings/settings-page.tsx:45 | the trimmed text is no longer than the input and neither starts nor ends with whitespace |
| Text.IsBlank | src/components/settings/settings-page.tsx:45 | the blank-name guard; `BlankIffAllWhitespace` states when it holds |
| Text.BlankIffAllWhitespace | src/components/settings/settings-page.tsx:45 | the `!name.trim()` guard holds exactly when every character of the name is JavaScript whitespace |
| Text.PadStart | src/components/analytics/analytics-page.tsx:133 | the padded text has length max(width, \|s\|), ends with `s` and is filled with the pad character in front |
| Text.Split | src/components/analytics/analytics-page.tsx:59 | splitting always yields at least one part; `SplitAtFirstSeparator` states how a `YYYY-MM` value splits |
| Text.ParseInt | src/components/analytics/analytics-page.tsx:60-61 | a number is read exactly when the text starts with a digit; `ParseIntString` and `ParseIntPad2` read back the text the app writes |
| Text.ParseIntString | src/components/analytics/analytics-page.tsx:59-61 | `parseInt(String(n))` reads back `n` for every natural number |
| Text.ParseIntPad2 | src/components/analytics/analytics-page.tsx:133 | the two-digit padded month is all digits and parses back to the month number |
| Text.SplitAtFirstSeparator | src/components/analytics/analytics-page.tsx:59 | splitting at the first `-` yields the text before it followed by the parts of the rest |
| Calendar.DaysInMonth | src/components/analytics/analytics-page.tsx:106 | a month has 28 to 31 days, and has 29 exactly in February of a leap year |
| Calendar.OrdinalOrder | src/components/analytics/analytics-page.tsx:72 | the ordinal orders valid dates by month first, and equal ordinals mean the same date |
| Calendar.NewDate | src/components/analytics/analytics-page.tsx:60-61 | `new Date(year, monthIndex, day)` always yields a valid calendar date |
| Calendar.NewDateFirstDay | src/components/analytics/analytics-page.tsx:132 | day 1 of a month index is the first day of exactly that month, with the month index carrying into the year |
| Calendar.NewDateDayZero | src/components/analytics/analytics-page.tsx:61 | day 0 of a month index is the last day of the month before it |
| Calendar.NewDateLanding | src/components/analytics/analytics-page.tsx:46-55 | a day below 1 counts back from the last day of the previous month; a day the month has stays on that day; a day past the month's end lands that many days into the next month, at most three |
| Calendar.DateFromParts | src/components/analytics/analytics-page.tsx:60-61 | the constructor gives a valid date, equal to the normalised date for every year from 100 on |
| Seqs.Filter | src/components/analytics/analytics-page.tsx:70-77 | `filter` keeps exactly the elements its test accepts, each drawn from the input |
| Seqs.FilterSingleton | src/components/analytics/analytics-page.tsx:70-77 | a one-element list keeps its element exactly when the test accepts it |
| Seqs.FilterConcat | src/components/analytics/analytics-page.tsx:70-77 | filtering a concatenation filters each part and puts the results together, so kept elements stay in their original order |
| Seqs.FilterSnoc | src/components/analytics/analytics-page.tsx:70-77 | filtering a list with one more element at the end appends that element exactly when the test accepts it |
| Seqs.FilterMultiset | src/components/analytics/analytics-page.tsx:70-77 | each accepted element is kept as often as it occurs, and each rejected one never |
| Seqs.FilterIdempotent | src/components/settings/settings-page.tsx:82 | filtering twice with the same test is filtering once |
| FinanceTypes.ExpenseCategory.Index | src/types/finance.ts:27-35 | each of the categories has a position below eight |
| FinanceTypes.AllExpenseCategories | src/types/finance.ts:27-35 | there are exactly eight categories, each at its own position, pairwise distinct |
| FinanceTypes.LabelsAndIdsDistinct | src/types/finance.ts:37-46 | distinct categories have distinct labels and distinct ids |
| FinanceTypes.ExpenseCategory.ColorClass | src/types/finance.ts:48-57 | every category's color class is `bg-category-` followed by its id |
| FinanceTypes.FindCategory | src/components/analytics/analytics-page.tsx:91 | `find` is `undefined` exactly when no category has the id, and otherwise returns the first category with it |
| FinanceTypes.ColorOr | src/components/analytics/analytics-page.tsx:95 | `category?.color \|\| fallback` is the category's color when the category exists with a non-empty color, and the fallback in every other case |
| Accounts.TotalBalance | src/components/accounts/accounts-page.tsx:147 | the sum of the balances; `TotalBalanceConcat`, `TotalBalanceNonNegative` and `TransferConservesTotal` state its properties |
| Accounts.TotalBalanceNonNegative | src/components/accounts/accounts-page.tsx:147 | with no account overdrawn the total is not negative |
| Accounts.TotalBalanceConcat | src/components/accounts/accounts-page.tsx:147 | the total balance of two lists put together is the sum of their totals |
| Accounts.FindAccount | src/components/accounts/accounts-page.tsx:88 | the lookup finds an account exactly when some account has the id, and the account found has it |
| Accounts.FindAccountUnique | src/components/accounts/accounts-page.tsx:88 | with unique ids the lookup returns the one account carrying the id |
| Accounts.AdjustBalance | src/components/accounts/accounts-page.tsx:106-114 | only the balance of an account can change, and an account that is neither source nor destination is returned unchanged |
| Accounts.AdjustBalances | src/components/accounts/accounts-page.tsx:106-114 | the source loses the amount and the destination gains it; the other accounts, every non-balance field, the length and the order are unchanged |
| Accounts.TotalAfterAdjust | src/components/accounts/accounts-page.tsx:106-114 | the total changes by the amount times the number of destination accounts, minus the amount times the number of source accounts |
| Accounts.CheckTransfer | src/components/accounts/accounts-page.tsx:81-93 | the missing-field outcome comes exactly when a field is empty; the same-account outcome only for equal ids; completion only with distinct ids, an amount and an existing source |
| Accounts.CheckTransferCompleted | src/components/accounts/accounts-page.tsx:81-93 | a transfer goes through exactly when all fields are filled in, the accounts differ and the source exists with at least the amount |
| Accounts.TransferConservesTotal | src/components/accounts/accounts-page.tsx:106-114 | between two existing, distinct accounts a transfer leaves the total balance unchanged |
| Accounts.TransferToMissingAccountLosesAmount | src/components/accounts/accounts-page.tsx:106-114 | a transfer to an unknown destination lowers the total by the amount |
| Accounts.TransferNeverOverdrawsSource | src/components/accounts/accounts-page.tsx:90-108 | an accepted transfer never leaves the source below zero, and a whole-balance transfer leaves it at exactly zero |
| Accounts.WholeBalanceTransferAccepted | src/components/accounts/accounts-page.tsx:90 | the strict balance check accepts a transfer of the whole source balance |
| Accounts.TransferDescription | src/components/accounts/accounts-page.tsx:101 | an empty description becomes `Transfer`, and a non-empty one is kept as typed |
| Accounts.RemoveAccountCount | src/components/accounts/accounts-page.tsx:76 | the filter drops one account per occurrence of the id |
| Accounts.RemoveAccountLength | src/components/accounts/accounts-page.tsx:76 | with unique ids, deleting drops exactly one account if the id occurs and none otherwise |
| Accounts.FilterOfUniqueIsUnique | src/components/accounts/accounts-page.tsx:76 | deleting accounts keeps the remaining ids unique |
| Accounts.AccountsPage.constructor | src/components/accounts/accounts-page.tsx:18-26 | the page opens on the saved accounts and transfers |
| Accounts.AccountsPage.AddAccount | src/components/accounts/accounts-page.tsx:54-69 | blank name or empty balance changes nothing; otherwise exactly one account is appended, ids stay unique and transfers are untouched |
| Accounts.AccountsPage.DeleteAccount | src/components/accounts/accounts-page.tsx:71-78 | with at most one account nothing changes; otherwise the accounts with the id go, the rest keep their order, and at least one account remains |
| Accounts.AccountsPage.HandleTransfer | src/components/accounts/accounts-page.tsx:80-121 | a refused transfer changes nothing; an accepted one adjusts the balances, prepends exactly one record with the chosen accounts, amount and description, and keeps the total when the destination exists (lowering it by the amount when it does not) |
| Dashboard.TotalExpenses | src/components/dashboard/dashboard-overview.tsx:15 | the sum of the expense amounts; `TotalExpensesConcat` and `TotalExpensesNonNegative` state its properties |
| Dashboard.TotalExpensesNonNegative | src/components/dashboard/dashboard-overview.tsx:15 | with no negative amount the expense total is not negative |
| Dashboard.TotalIncome | src/components/dashboard/dashboard-overview.tsx:16 | the sum of the income amounts; `TotalIncomeConcat` states that it is additive |
| Dashboard.Balance | src/components/dashboard/dashboard-overview.tsx:17 | with no expenses the balance is the income total, and with non-negative expenses it never exceeds it |
| Dashboard.TotalExpensesConcat | src/components/dashboard/dashboard-overview.tsx:15 | the expense total is additive over concatenation |
| Dashboard.TotalIncomeConcat | src/components/dashboard/dashboard-overview.tsx:16 | the income total is additive over concatenation |
| Dashboard.BalanceAfterSaving | src/components/dashboard/dashboard-overview.tsx:17 | a saved expense lowers the balance by its amount and saved income raises it by its amount |
| Dashboard.CategoryTotalAbsent | src/components/dashboard/dashboard-overview.tsx:20-23 | a category no expense carries totals zero |
| Dashboard.CategoriesMeaning | src/components/dashboard/dashboard-overview.tsx:20-23 | the listed categories are distinct and are exactly those some expense carries |
| Dashboard.CategoriesDistinct | src/components/dashboard/dashboard-overview.tsx:20-23 | no category is listed twice |
| Dashboard.SpendByCategory | src/components/dashboard/dashboard-overview.tsx:20-23 | spending per category; `SpendByCategoryKey`, `SpendByCategoryMeaning` and `SpendByCategorySumsToTotal` state its keys, values and sum |
| Dashboard.SpendByCategoryKey | src/components/dashboard/dashboard-overview.tsx:20-23 | a category is a key of the spending map exactly when it is listed |
| Dashboard.SpendByCategoryMeaning | src/components/dashboard/dashboard-overview.tsx:20-23 | the spending map has keys for exactly the occurring categories, each mapped to that category's total |
| Dashboard.SpendByCategorySumsToTotal | src/components/dashboard/dashboard-overview.tsx:15-23 | the per-category sums add up to the expense total |
| Dashboard.InsertByDatePermutes | src/components/dashboard/dashboard-overview.tsx:33 | inserting keeps every expense, as often as it occurs, and adds the new one |
| Dashboard.SortByDateDesc | src/components/dashboard/dashboard-overview.tsx:33 | the sort keeps the length; `SortByDateDescSorted`, `SortByDateDescPermutes` and `SortByDateDescStable` state that it is the stable newest-first permutation |
| Dashboard.SortByDateDescPermutes | src/components/dashboard/dashboard-overview.tsx:33 | the sort is a permutation of the expenses |
| Dashboard.InsertByDateSorted | src/components/dashboard/dashboard-overview.tsx:33 | inserting into a newest-first list keeps it newest first |
| Dashboard.SortByDateDescSorted | src/components/dashboard/dashboard-overview.tsx:33 | the sort puts the expenses newest first |
| Dashboard.SortByDateDescOfSorted | src/components/dashboard/dashboard-overview.tsx:33 | sorting a newest-first list changes nothing, so equal dates keep their order |
| Dashboard.InsertByDateKeepsDayOrder | src/components/dashboard/dashboard-overview.tsx:33 | inserting keeps the expenses of each day in their order and puts the new one behind those of its own day |
| Dashboard.SortByDateDescStable | src/components/dashboard/dashboard-overview.tsx:33 | the sort is stable: the expenses of any one day come out in the order the array held them |
| Dashboard.SortByDateDescIdempotent | src/components/dashboard/dashboard-overview.tsx:33 | sorting twice is sorting once |
| Dashboard.InsertIntoPrefix | src/components/dashboard/dashboard-overview.tsx:33 | one step of the in-place sort inserts the next expense into the sorted prefix and leaves the rest of the array alone |
| Dashboard.SortExpensesByDate | src/components/dashboard/dashboard-overview.tsx:33 | the caller's array is reordered in place into the stable newest-first order |
| Dashboard.RecentOf | src/components/dashboard/dashboard-overview.tsx:32-34 | the feed holds at most five expenses and never more than the list, and all of them when the list has at most five |
| Dashboard.RecentOfMeaning | src/components/dashboard/dashboard-overview.tsx:32-34 | the feed holds min(5, n) expenses, newest first, drawn from the list, and none left out is newer than any shown |
| Dashboard.RecentExpenses | src/components/dashboard/dashboard-overview.tsx:32-34 | the array is sorted in place and the feed is its first five entries |
| Analytics.FilterWindow | src/components/analytics/analytics-page.tsx:38-66 | a preset window has a start and ends now; a bound is invalid only when both are, and only for a month value that does not parse |
| Analytics.ParseSelectedMonth | src/components/analytics/analytics-page.tsx:59-61 | a year and month are read only from text that starts with a digit; `MonthValueRoundTrip` reads back every option value |
| Analytics.PresetStart | src/components/analytics/analytics-page.tsx:43-57 | a preset start is a valid instant at the current time of day |
| Analytics.PresetWindowEndsNow | src/components/analytics/analytics-page.tsx:43-57 | a preset window ends now and starts on an earlier date, one, one, three or twelve months back (one more when the day overflowed) |
| Analytics.ExpensesIn | src/components/analytics/analytics-page.tsx:70-73 | every expense kept comes from the list and lies inside the window, and the list never grows |
| Analytics.IncomeIn | src/components/analytics/analytics-page.tsx:74-77 | every income record kept comes from the list and lies inside the window, and the list never grows |
| Analytics.GetFilteredData | src/components/analytics/analytics-page.tsx:38-79 | the filtered expenses and income are exactly the records inside the window the filter selects, in their original order |
| Analytics.MonthValue | src/components/analytics/analytics-page.tsx:133 | the value of a month with a non-negative year parses back to that year and month |
| Analytics.MonthValueRoundTrip | src/components/analytics/analytics-page.tsx:59 | the `YYYY-MM` value of a month splits and parses back to its year and month |
| Analytics.MonthWindowIsWholeMonth | src/components/analytics/analytics-page.tsx:59-61 | the month window admits a date exactly when it lies in the chosen month, from day 1 to the last day |
| Analytics.UnparsedMonthShowsNothing | src/components/analytics/analytics-page.tsx:59-61 | a month value that does not parse gives invalid bounds, and no record passes |
| Analytics.CustomWindowMeaning | src/components/analytics/analytics-page.tsx:62-66 | with both dates the window is the inclusive day range; with either missing it is the current instant only |
| Analytics.SliceOf | src/components/analytics/analytics-page.tsx:90-96 | a slice shows the category's amount with a non-empty color, named after the id with the default color when the category is unknown |
| Analytics.SlicesTotal | src/components/analytics/analytics-page.tsx:90-97 | the slice values add up to the spending map summed over its keys |
| Analytics.PieData | src/components/analytics/analytics-page.tsx:89-97 | no expenses give no slices; `PieDataMeaning` states the slices and their total |
| Analytics.PieDataMeaning | src/components/analytics/analytics-page.tsx:84-97 | one slice per occurring category, each slice shows its category's total, and the slices add up to the filtered expense total |
| Analytics.Divide | src/components/analytics/analytics-page.tsx:102 | the quotient is finite exactly for a non-zero divisor, and is NaN exactly for 0/0; a finite quotient times the divisor is the dividend |
| Analytics.StatusOf | src/components/analytics/analytics-page.tsx:120 | NaN progress is good, positive infinity exceeded and negative infinity good; a finite progress is exceeded above 100, warning above 80 up to 100, and good up to 80 |
| Analytics.GoalReportOf | src/components/analytics/analytics-page.tsx:100-121 | the report keeps the goal; spent is 0 without spending; remaining is target - spent while spending is within the target and 0 once it reaches or passes it |
| Analytics.GoalProgress | src/components/analytics/analytics-page.tsx:100-122 | one report per goal, in the order of the goals |
| Analytics.GoalSpentIsCategoryTotal | src/components/analytics/analytics-page.tsx:101 | a goal's spending is its category's total over the filtered expenses |
| Analytics.StatusThresholds | src/components/analytics/analytics-page.tsx:102-120 | for a positive target: exceeded above 100%, warning above 80% up to 100%, good up to 80%; the cases of a zero and a negative target as well |
| Analytics.DaysInCurrentMonth | src/components/analytics/analytics-page.tsx:106 | day 0 of the next month gives the length of the current month |
| Analytics.ProjectedSpending | src/components/analytics/analytics-page.tsx:106-109 | the projection has the sign of the spending; `ProjectionBounds` bounds it by the spending |
| Analytics.ProjectionBounds | src/components/analytics/analytics-page.tsx:106-109 | non-negative spending projects to at least itself, non-positive to at most itself, and on the month's last day to exactly itself |
| Analytics.MonthOptions | src/components/analytics/analytics-page.tsx:128-136 | exactly twelve options; `MonthOptionsAreLastTwelveMonths` states which |
| Analytics.GetMonthOptions | src/components/analytics/analytics-page.tsx:128-137 | the loop pushes the value of each of the last twelve months, newest first |
| Analytics.MonthOptionAt | src/components/analytics/analytics-page.tsx:132-133 | option i parses back to a valid month exactly i months before today |
| Analytics.MonthOptionsAreLastTwelveMonths | src/components/analytics/analytics-page.tsx:128-137 | twelve distinct options; the first is the current month and equals the picker's initial value; option i is i months back |
| CategorySettings.WithoutCategory | src/components/settings/settings-page.tsx:60 | every category kept comes from the list and has another id; `DeleteCategoryCascades` states that all the others are kept |
| CategorySettings.WithoutGoalsOf | src/components/settings/settings-page.tsx:61 | every goal kept comes from the list and names another category |
| CategorySettings.WithoutGoal | src/components/settings/settings-page.tsx:82 | every goal kept comes from the list and has another id |
| CategorySettings.WithNewCategory | my-sweet-spend/src/components/settings/settings-page.tsx:59-72 | a blank name changes nothing; otherwise exactly the new category is appended and the others are kept |
| CategorySettings.FilterKeepsOneGoalPerCategory | my-sweet-spend/src/components/settings/settings-page.tsx:74-78 | dropping goals keeps at most one goal per category |
| CategorySettings.DeleteCategoryCascades | src/components/settings/settings-page.tsx:59-63 | after the delete neither the category nor any goal naming it remains, and every other category and goal is kept |
| CategorySettings.DeleteUndoesAddCategory | src/components/settings/settings-page.tsx:44-63 | deleting a category just added under an unused id restores both lists |
| CategorySettings.DeleteUndoesAppendGoal | src/components/settings/settings-page.tsx:65-84 | deleting a goal just appended under an unused id restores the goals |
| CategorySettings.DeleteGoalIdempotent | src/components/settings/settings-page.tsx:81-84 | deleting a goal twice is deleting it once, and afterwards no goal has that id |
| SweetSpendSettings.FindGoalFor | my-sweet-spend/src/components/settings/settings-page.tsx:81 | the lookup finds a goal exactly when some goal names the category, and the goal found names it |
| SweetSpendSettings.Retarget | my-sweet-spend/src/components/settings/settings-page.tsx:85-89 | the length and every field but the target are kept, and the target is replaced exactly for the goals of the category |
| SweetSpendSettings.SetGoal | my-sweet-spend/src/components/settings/settings-page.tsx:80-100 | afterwards the category has a goal, the list grows by at most one, and goals of other categories keep their places |
| SweetSpendSettings.SetGoalMeaning | my-sweet-spend/src/components/settings/settings-page.tsx:80-100 | with goals for the category, the length stays and each of them is kept with only the target replaced; without one, exactly one goal is appended with the fresh id, the target, the category's color (or the default) and no description; other goals keep their places |
| SweetSpendSettings.SetGoalIdempotent | my-sweet-spend/src/components/settings/settings-page.tsx:80-100 | setting the same target twice is setting it once |
| SweetSpendSettings.SetGoalKeepsOneGoalPerCategory | my-sweet-spend/src/components/settings/settings-page.tsx:84-97 | the upsert never gives a category a second goal |
| SweetSpendSettings.SetGoalKeepsTargetsPositive | my-sweet-spend/src/components/settings/settings-page.tsx:237-243 | a positive target keeps every target positive |
| SweetSpendSettings.RemoveGoalUndoesSetGoal | my-sweet-spend/src/components/settings/settings-page.tsx:102-105 | removing the goal of a category that had none before restores the goals |
| SweetSpendSettings.SettingsPage.constructor | my-sweet-spend/src/components/settings/settings-page.tsx:22-30 | the page opens on the saved categories and goals, and satisfies the one-goal-per-category, positive-target predicate when no goals are saved |
| SweetSpendSettings.SettingsPage.AddCategory | my-sweet-spend/src/components/settings/settings-page.tsx:59-72 | reports whether the name was non-blank, adds the category as described, and leaves goals alone |
| SweetSpendSettings.SettingsPage.DeleteCategory | my-sweet-spend/src/components/settings/settings-page.tsx:74-78 | removes the category and its goals and keeps one goal per category with positive targets |
| SweetSpendSettings.SettingsPage.SetGoalForCategory | my-sweet-spend/src/components/settings/settings-page.tsx:80-100 | the goals become the upsert of the target, the categories stay, and one goal per category is kept |
| SweetSpendSettings.SettingsPage.RemoveGoal | my-sweet-spend/src/components/settings/settings-page.tsx:102-105 | every goal of the category goes, the categories stay, and the page invariant is kept |
| SweetSpendSettings.SettingsPage.SubmitGoal | my-sweet-spend/src/components/settings/settings-page.tsx:237-243 | only a positive number reaches the upsert; anything else changes nothing; the page invariant is kept |
| Settings.NewGoal | src/components/settings/settings-page.tsx:65-74 | a goal is built exactly when category and target are filled in, with the fresh id, that target and description; its color is the category's when the category is known and has one, and the default otherwise |
| Settings.AddGoalCanDuplicateCategory | src/components/settings/settings-page.tsx:76 | adding a goal for a category that has one leaves it with two |
| Settings.SettingsPage.constructor | src/components/settings/settings-page.tsx:22-30 | the page opens on the saved categories and goals |
| Settings.SettingsPage.AddCategory | src/components/settings/settings-page.tsx:44-57 | reports whether the name was non-blank, adds the category as described, and leaves goals alone |
| Settings.SettingsPage.DeleteCategory | src/components/settings/settings-page.tsx:59-63 | removes the category and every goal naming it |
| Settings.SettingsPage.AddGoal | src/components/settings/settings-page.tsx:65-79 | an unfilled form changes nothing; otherwise exactly one goal is appended, whether or not the category has one |
| Settings.SettingsPage.DeleteGoal | src/components/settings/settings-page.tsx:81-84 | removes the goals with the id, leaves no goal with it and keeps the categories |

## Left out

- Persistence is not modelled: the `localStorage` reads and writes, `JSON.parse` and the save effects. Each page class is constructed from the saved lists. The `DEFAULT_ACCOUNTS` and `DEFAULT_CATEGORIES` contents are not part of this model.
- Presentation is not modelled: toasts, dialogs, icons, badges, `toFixed`, the `toLocaleDateString` labels of the month options, and the dashboard's pie data (labels and CSS color strings). On the analytics page the pie's names and colors are modelled; its rendering is not.
- The theme toggle and the dashboard visibility switches of the my-sweet-spend settings page are not modelled. They are display preferences.
- Amounts are integer cents rather than floating-point numbers. Rounding is absent, so conservation and the per-category sum are exact.
- Time zones are not modelled: every date is read as UTC. `new Date(string)` parsing of stored dates and custom range fields is not modelled either. Records carry a `Date`, and a custom field is an `Option<Date>`.
- Ids drawn from `Date.now()` are parameters. Uniqueness is required where it matters (`AddAccount`, `DeleteUndoesAddCategory`, `DeleteUndoesAppendGoal`).
- Accounts.AccountsPage.constructor: requires the saved accounts to have unique ids. Storage does not promise this, but the page's invariant needs it.
- Accounts.AccountsPage.AddAccount: requires the fresh id to be unused. `Date.now()` cannot promise this, but the page's unique-id invariant needs it.
- Accounts.AccountsPage.HandleTransfer: the amount is `Option<int>`. Text that `Number` turns into `NaN` passes the real guard, because `balance < NaN` is false; that case is not modelled.
- Settings.SettingsPage.AddGoal: the target field is `Option<int>`. Non-numeric text, which `Number` turns into `NaN`, is not modelled.
- SweetSpendSettings.SettingsPage.SubmitGoal: `parseFloat` of the input is `Option<int>` in cents. Fractions of a cent are not modelled.
- Analytics.GetFilteredData: the three `new Date()` calls of the handler are taken to be one instant `now`.
- Analytics.ParseSelectedMonth: `parseInt` is modelled for text that starts with a digit. Leading whitespace and signs read as `NaN`; the picker never produces them.
- Analytics.MonthWindowIsWholeMonth: stated for years from 100 on. For years 0 to 99, `new Date(y, m, d)` reads the year as 1900 + y; `DateFromParts` models that, but this lemma does not cover it.
- Analytics.ProjectionBounds: stated for years from 100 on, for the same reason.
- Analytics.MonthOptionsAreLastTwelveMonths: stated for years from 100 on, for the same reason.
- Analytics.GoalReportOf: its contract covers the goal, spent and remaining. The status is stated by `StatusThresholds` and the projection by `ProjectionBounds`; the progress values themselves have no separate contract.
- Analytics.PresetWindowEndsNow: states the month range of a preset's start, not its exact day. The exact day is `PresetStart`, which normalises as `setDate`, `setMonth` and `setFullYear` do for the day offsets the presets use.
- Analytics.PieData: the slices follow the order in which categories first occur. `Object.entries` would list integer-like keys (such as a `Date.now()` id) first, in numeric order; that reordering is not modelled.
- The per-account reconciliation of expenses and income against balances is not part of this model: the app records an expense's account but never adjusts a balance for it.
