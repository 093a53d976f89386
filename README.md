# Budget tracker core in Dafny

A model of the personal budget tracker's core: the user store and the session kept in the
browser's storage, the authentication provider, the sign-up and sign-in forms, and the
dashboard's budgets, analytics, overview and settings pages. Each page's logic is modelled as
the source writes it. Calculations become functions over sequences of transactions and budgets.
Handlers that write to storage or page state become methods on classes: `Browser` holds
`local` and `session` storage, and `AuthProvider`, `BudgetsPage` and `SettingsPage` hold page
state.

Conventions used throughout:

- **Amounts** are exact `real`s.
- **Dates** are integer millisecond instants.
  - `DayOf` gives the calendar day of an instant.
  - `WeekdayOf` gives the weekday the way `getDay` does, with 0 meaning Sunday.
- **Date windows** are inclusive intervals supplied by the caller. This covers the current
  week, month and year, the months counted back from today, and the analytics range clock.
- **User and session objects** are maps from field names to strings (`Storage.Record`).
  - A JavaScript object spread is map union.
  - `u.id === user.id` compares two `Option`s, so two missing ids compare equal, as two
    `undefined`s do.
- **Storage** is a map from key to a typed value.
  - A missing list key reads as the empty list, as `JSON.parse(getItem(k) || '[]')` does.
- **Category accumulation** is shared by the analytics and overview pages. Both pages use
  `Grouping.AccumulateByCategory`, which keeps first-seen order like a JavaScript object's
  keys.
- **Sorting** of the analytics breakdown is a stable insertion sort by non-increasing value.

Behaviours of the code that the model keeps:

- **Budget edits skip the duplicate-category check.** Only creation refuses a category that
  already has a budget. `Budgets.EditMayDuplicateCategory` exhibits an edit that yields two
  budgets for one category.
- **Storage keys differ between pages.**
  - The budgets and overview pages read per-user keys (`budget_<email>`,
    `transactions_<email>`).
  - The settings page reads the fixed keys `transactions` and `budgets`; the analytics page
    reads only the fixed key `transactions`.
  - `BudgetsPage` therefore takes its keys as constructor arguments. The settings model uses
    the fixed keys, as the code does.
- **The analytics trend sums every transaction of each month**, ignoring the selected range.
  The daily average divides by the length of the daily pattern, which is at most 30 days.
- **The overview's budget usage always counts the current month**, whatever the budget's
  period.
- **Two paths create a session after sign-up, and they differ.**
  - The registration form stores `{id, fullName, email}` in local storage, with no login time.
  - The provider's `register` stores the session together with a login time, also in local
    storage.

## Model

| member | source | states |
|---|---|---|
| Ledger.WeekdayOf | src/components/Dashboard/Analytics.jsx:153 | the weekday index of a date lies in 0..6 |
| Ledger.SavingsRate | src/components/Dashboard/Overview.jsx:49 | the rate is 0 without income; with income, rate times income equals (income − expenses) × 100, so it is at most 100 for non-negative expenses, non-negative exactly when expenses do not exceed income, and 100 exactly when nothing was spent |
| Ledger.TotalAppend | src/components/Dashboard/Analytics.jsx:168-174 | a `reduce` sum over a concatenation is the sum of the parts |
| Ledger.TotalNonNegative | src/components/Dashboard/Analytics.jsx:168-174 | non-negative amounts sum to a non-negative total |
| Ledger.FilterTotalBounded | src/components/Dashboard/Analytics.jsx:168-174 | filtering non-negative transactions keeps them non-negative and never raises the total |
| Ledger.KindPartition | src/components/Dashboard/Analytics.jsx:168-174 | income total plus expense total is the total of all transactions |
| Grouping.CategoriesSpec | src/components/Dashboard/Analytics.jsx:89-105 | the accumulated object's keys are distinct and are exactly the categories that occur |
| Grouping.Tabulate | src/components/Dashboard/Analytics.jsx:102-103 | `Object.entries` yields one entry per key, carrying that category's total |
| Grouping.CategoryTotalIsFilter | src/components/Dashboard/Budgets.jsx:110-146 | a category's accumulated total equals the sum of the transactions filtered by that category |
| Grouping.AbsentCategoryTotal | src/components/Dashboard/Analytics.jsx:89-105 | a category that never occurs totals 0 |
| Grouping.GroupTotal | src/components/Dashboard/Analytics.jsx:89-105 | the entries of the breakdown sum to the total of the transactions grouped |
| Grouping.TabulateBounded | src/components/Dashboard/Budgets.jsx:176-180 | for distinct categories and non-negative amounts, the per-category totals sum to at most the overall total |
| Grouping.GroupByCategorySpec | src/components/Dashboard/Analytics.jsx:89-105 | the breakdown has distinct names, exactly the occurring categories, each with its category total, and sums to the total |
| Grouping.AccumulateByCategory | src/components/Dashboard/Analytics.jsx:93-100 | the `forEach` accumulation loop computes exactly the breakdown specification |
| Ranking.Insert | src/components/Dashboard/Analytics.jsx:104 | one insertion step keeps the elements as a multiset plus the inserted entry |
| Ranking.InsertSorted | src/components/Dashboard/Analytics.jsx:104 | inserting into a list sorted by non-increasing value keeps it sorted |
| Ranking.SortByValue | src/components/Dashboard/Analytics.jsx:104 | `sort((a, b) => b.value - a.value)` yields a permutation sorted by non-increasing value |
| Ranking.InsertTied | src/components/Dashboard/Analytics.jsx:104 | an inserted entry passes only larger entries, so it lands in front of the entries tied with it |
| Ranking.SortStable | src/components/Dashboard/Analytics.jsx:104 | the sort is stable: for every value, the entries carrying it keep their input order |
| Ranking.SortMembers | src/components/Dashboard/Analytics.jsx:104 | sorting neither adds nor drops entries |
| Ranking.SortTotal | src/components/Dashboard/Analytics.jsx:104 | sorting keeps the sum of the values |
| Ranking.SortNames | src/components/Dashboard/Analytics.jsx:104 | sorting keeps category names distinct |
| Analytics.DateRange | src/components/Dashboard/Analytics.jsx:24-46 | the range ends now and starts 30 days, 3, 12 or (for any other value) 6 months back |
| Analytics.FilteredTransactions | src/components/Dashboard/Analytics.jsx:49-55 | the filtered list holds exactly the transactions dated inside the range and is no longer than the list |
| Analytics.FilteredIsOrderedSubsequence | src/components/Dashboard/Analytics.jsx:49-55 | the filtered list keeps the original order: it splits over concatenation and filtering again changes nothing |
| Analytics.IncomeExpensesTrend | src/components/Dashboard/Analytics.jsx:58-86 | one point per month, in order; each point's income and expenses are the income and expense totals of all transactions dated in that month, and profit is income minus expenses |
| Analytics.TrendAgreesWithStatistics | src/components/Dashboard/Analytics.jsx:58-86 | for a month lying inside the selected range, the trend point (read over all transactions) has the same income, expenses and profit as the statistics of that month computed over the range's transactions |
| Analytics.CategoryBreakdown | src/components/Dashboard/Analytics.jsx:89-105 | the breakdown is sorted by non-increasing value with distinct names; it has exactly the expense categories in range, each with its total, and sums to the expenses in range |
| Analytics.TopCategories | src/components/Dashboard/Analytics.jsx:139-142 | the first min(5, n) entries of the breakdown; on a sorted breakdown none left out exceeds one kept |
| Analytics.SlotsPartition | src/components/Dashboard/Analytics.jsx:145-162 | the seven weekday buckets together count every expense and sum to the expense total |
| Analytics.WeekdaySpending | src/components/Dashboard/Analytics.jsx:145-162 | seven slots, Sunday first, each with its weekday's expense amount and count and their average; counts sum to the number of expenses and amounts to the expense total |
| Analytics.QuietDayIsZero | src/components/Dashboard/Analytics.jsx:108-136 | a day without expenses shows 0 |
| Analytics.DayCountExact | src/components/Dashboard/Analytics.jsx:122-133 | the day count of an interval is the number of fixed 24-hour steps from its start instant that stay within its end (23:00 on day 1 to 01:00 on day 3 gives 2) |
| Analytics.DailySpendingPattern | src/components/Dashboard/Analytics.jsx:108-136 | the last min(30, days) days of the range, in order, each with the sum of that day's expenses |
| Analytics.Share | src/components/Dashboard/Analytics.jsx:176-177 | `x / Math.max(1, n)`: times max(1, n) gives x back, non-negative for non-negative x |
| Analytics.Statistics | src/components/Dashboard/Analytics.jsx:165-189 | income and expenses are the income and expense totals of the transactions in range, net savings is their difference, the rate is the savings rate of the two (0 without income), the count is the number of transactions in range, and the two averages divide by the expense count and by the daily pattern's length |
| Analytics.StatisticsSavingsRate | src/components/Dashboard/Analytics.jsx:165-189 | with income in range, the savings rate times the income equals net savings × 100 |
| Analytics.StatisticsBounds | src/components/Dashboard/Analytics.jsx:165-189 | income plus expenses is the range's total; with non-negative amounts the expenses and averages are non-negative and a positive income gives a rate of at most 100 |
| Storage.StoredUsers | src/utils/initializeData.js:31-38 | a missing `users` key reads as the empty list |
| Storage.TransactionsAt | src/components/Dashboard/Budgets.jsx:31-36 | a stored transaction list is read back as it is; a missing key reads as the empty list |
| Storage.BudgetsAt | src/components/Dashboard/Budgets.jsx:31-36 | a stored budget list is read back as it is; a missing key reads as the empty list |
| Storage.RestoredSession | src/context/AuthContext.jsx:22-40 | a remembered session in local storage wins over the tab's session |
| Storage.SessionData | src/context/AuthContext.jsx:57-62 | the session keeps id, name and e-mail and adds the login time; it never holds the password, the creation time or the phone |
| Storage.StartSession | src/context/AuthContext.jsx:65-71 | "remember me" writes the session and the flag to local storage; otherwise it writes the tab's session and drops the flag |
| Storage.SessionRestored | src/context/AuthContext.jsx:22-40 | a session just started, remembered or not, is the one restored |
| Storage.ClearSession | src/context/AuthContext.jsx:120-126 | removes the session from both stores and the flag, and nothing else; no session is restored afterwards |
| UserStore.SeedingIdempotent | src/utils/initializeData.js:2-21 | seeding twice is seeding once, leaves an existing list alone, and otherwise stores the demo account only |
| UserStore.InitializeUserData | src/utils/initializeData.js:2-21 | local storage becomes the seeded store and nothing else changes |
| UserStore.ClearAuthData | src/utils/initializeData.js:24-28 | removes exactly the session keys; no session is restored afterwards |
| UserStore.GetAllUsers | src/utils/initializeData.js:31-38 | returns the stored users, or no users when there is no list |
| UserStore.FindCredentials | src/utils/initializeData.js:66-79 | finds the first user whose e-mail and password both match, and finds none exactly when none matches |
| UserStore.ValidateUser | src/utils/initializeData.js:66-79 | succeeds exactly when some stored user matches, and then returns the first stored user that matches both e-mail and password; otherwise fails with 'Invalid credentials' |
| UserStore.DemoUserSignsIn | src/utils/initializeData.js:2-21 | after seeding an empty store, the demo credentials sign in to the demo account |
| UserStore.NewUser | src/utils/initializeData.js:50-54 | the new record holds all of the data's fields plus an id and the creation time; an id in the data wins, the creation time never yields |
| UserStore.AddUser | src/utils/initializeData.js:41-63 | a taken e-mail fails with 'Email already registered' and writes nothing; otherwise the new user is appended and returned |
| UserStore.AddKeepsEmailsUnique | src/utils/initializeData.js:41-63 | the e-mail check keeps e-mails unique across the stored users |
| UserStore.AddedUserSignsIn | src/utils/initializeData.js:41-79 | a user just added can sign in with the e-mail and password given |
| UserStore.IndexOfId | src/utils/initializeData.js:85 | the first index with that id, or -1 exactly when no user has it |
| UserStore.UpdateUser | src/utils/initializeData.js:82-98 | an unknown id fails with 'User not found' and writes nothing; otherwise that one user is merged with the updates and the rest are untouched |
| UserStore.UpdateThenLookup | src/utils/initializeData.js:82-98 | after an update the same id still finds the same position, which holds the updated fields |
| UserStore.WithoutId | src/utils/initializeData.js:104 | the filter keeps exactly the users with another id |
| UserStore.DeleteSpec | src/utils/initializeData.js:101-115 | deletion shortens the list exactly when the id was present, and leaves a list without it unchanged |
| UserStore.DeleteUser | src/utils/initializeData.js:101-115 | the remaining users are stored and the call succeeds |
| Auth.Registration | src/context/AuthContext.jsx:91-97 | the stored user holds the name, e-mail and password given plus a fresh id and creation time, and no other field |
| Auth.AuthProvider.constructor | src/context/AuthContext.jsx:13-15 | starts with no user and loading |
| Auth.AuthProvider.CheckAuthStatus | src/context/AuthContext.jsx:22-40 | adopts the restored session when there is one and always stops loading |
| Auth.AuthProvider.Login | src/context/AuthContext.jsx:42-78 | wrong credentials fail with 'Invalid email or password' and change nothing; otherwise the session of the first matching user is started as remembered or not, and it never carries the password; the loading flag is unchanged |
| Auth.AuthProvider.Register | src/context/AuthContext.jsx:80-118 | a taken e-mail fails with 'Email already registered'; otherwise the user is appended and signed in with a remembered session; the loading flag is unchanged |
| Auth.AuthProvider.Logout | src/context/AuthContext.jsx:120-126 | clears the user and the session keys; no session is restored afterwards; the loading flag is unchanged |
| Auth.AuthProvider.UpdateProfile | src/context/AuthContext.jsx:128-161 | fails with 'No user logged in' or 'User not found'; otherwise merges the updates into that user and the session, writing the session where it is remembered; the loading flag is unchanged |
| Auth.IndexOfUser | src/context/AuthContext.jsx:136 | the first user with the session's id, or -1 exactly when none has it |
| Auth.RegisteredUserSignsIn | src/context/AuthContext.jsx:80-118 | a user just registered can sign in with the e-mail and password given |
| Forms.EmailLikeNotBlank | src/components/Register.jsx:30-31 | an address that passes the e-mail pattern is never blank |
| Forms.EmailLikeInContext | src/components/Register.jsx:31 | the pattern is unanchored: text around a matching address still matches |
| Forms.EmailExamples | src/components/Register.jsx:31 | `test@example.com` matches and `test.example.com` does not |
| SignUp.ValidateForm | src/components/Register.jsx:27-38 | each field has an error, with its message, exactly when its check fails |
| SignUp.ValidIff | src/components/Register.jsx:27-38 | the form is valid exactly when the name is not blank, the e-mail matches, the password has 6 or more characters and the confirmation is present and equal |
| SignUp.Account | src/components/Register.jsx:53-59 | the stored account has exactly the id, name, e-mail, password and creation time, taken from the form and the parameters |
| SignUp.SignUpSession | src/components/Register.jsx:62-66 | the session holds the id, name and e-mail and no password |
| SignUp.HandleSubmit | src/components/Register.jsx:40-77 | an invalid form only reports errors; a taken e-mail reports 'Email already registered'; otherwise the account is appended and its session stored |
| SignUp.SignedUpUserSignsIn | src/components/Register.jsx:40-77 | an account just created signs in with the form's e-mail and password |
| SignIn.ValidateForm | src/components/Login.jsx:27-42 | the e-mail error appears exactly when the pattern fails, and the password error exactly when it is empty |
| SignIn.ValidIff | src/components/Login.jsx:27-42 | the form is valid exactly when the e-mail matches and a password is given |
| SignIn.HandleSubmit | src/components/Login.jsx:44-98 | an invalid form only reports errors; unknown credentials report 'Invalid email or password'; otherwise the first matching user's session is started |
| Budgets.PeriodWindow | src/components/Dashboard/Budgets.jsx:110-146 | weekly and yearly use the current week and year; any other period uses the current month |
| Budgets.CalculateSpent | src/components/Dashboard/Budgets.jsx:110-146 | a budget's spending is its category's total among the expenses dated inside its period's window |
| Budgets.SpentIsCategoryTotal | src/components/Dashboard/Budgets.jsx:110-146 | spending equals the category's total among the expenses in the period |
| Budgets.SpentBounds | src/components/Dashboard/Budgets.jsx:110-146 | with non-negative amounts, spending lies between 0 and the period's expense total; an unknown period spends as monthly |
| Budgets.Classify | src/components/Dashboard/Budgets.jsx:148-161 | exceeded at 100% or more, a warning from the alert threshold up, otherwise good |
| Budgets.Percentage | src/components/Dashboard/Budgets.jsx:150 | percentage times amount is spent times 100; it reaches 100 exactly when spending reaches the amount |
| Budgets.PercentageReaches | src/components/Dashboard/Budgets.jsx:150 | reaching a threshold percentage is reaching that share of the amount |
| Budgets.StateOf | src/components/Dashboard/Budgets.jsx:148-161 | remaining is amount minus spent, percentage times amount is spent times 100; exceeded exactly when spending reaches the amount, warning exactly when it reaches the threshold's share but not the amount, good otherwise |
| Budgets.GetBudgetStatus | src/components/Dashboard/Budgets.jsx:148-161 | the spending shown is the period's spending in the budget's category, and the state is the one that spending gives |
| Budgets.TotalBudget | src/components/Dashboard/Budgets.jsx:176 | the left-to-right sum of the amounts equals the sum taken from the front, and is non-negative for non-negative amounts |
| Budgets.TotalSpent | src/components/Dashboard/Budgets.jsx:177-180 | for every list, whatever the periods, total spending is the first budget's `spent` plus the total of the rest, and 0 for no budgets |
| Budgets.MonthlySpentIsTabulated | src/components/Dashboard/Budgets.jsx:177-180 | with monthly budgets, total spending is the tabulated per-category expense of the month |
| Budgets.TotalSpentWithinMonth | src/components/Dashboard/Budgets.jsx:176-180 | with monthly budgets on distinct categories and non-negative amounts, total spending is at most the month's expenses |
| Budgets.Saved | src/components/Dashboard/Budgets.jsx:57-64 | an edited budget keeps its id and creation time; a new one takes the new id and now; both take the form's category, period and notes, the parsed amount and threshold, and now as update time |
| Budgets.SubmitBudget | src/components/Dashboard/Budgets.jsx:43-77 | missing fields fail; creating fails exactly for a category that has a budget, and otherwise appends; editing replaces the budget with that id and leaves the rest |
| Budgets.CreateKeepsCategoriesUnique | src/components/Dashboard/Budgets.jsx:51-77 | creation keeps budget categories unique |
| Budgets.EditMayDuplicateCategory | src/components/Dashboard/Budgets.jsx:51-70 | an edit may move a budget onto a category another budget already has |
| Budgets.TotalBudgetAppend | src/components/Dashboard/Budgets.jsx:176 | the budgeted total splits over concatenation |
| Budgets.DeleteBudget | src/components/Dashboard/Budgets.jsx:105 | the filter keeps exactly the budgets with another id, and leaves a list without the id unchanged |
| Budgets.DeleteSpec | src/components/Dashboard/Budgets.jsx:103-108 | deletion splits over concatenation, so the kept budgets stay in order |
| Budgets.DeleteTotal | src/components/Dashboard/Budgets.jsx:103-108 | the totals of the budgets kept and of those deleted add up to the old budgeted total |
| Budgets.SplitTotal | src/components/Dashboard/Budgets.jsx:105 | the budgets with another id and those with the id share the total between them |
| Budgets.BudgetsPage.constructor | src/components/Dashboard/Budgets.jsx:31-36 | loads both lists from their keys, with nothing being edited |
| Budgets.BudgetsPage.HandleEdit | src/components/Dashboard/Budgets.jsx:91-101 | marks the budget as being edited and changes no list |
| Budgets.BudgetsPage.HandleSubmit | src/components/Dashboard/Budgets.jsx:43-77 | failures leave everything as it was; success saves the submitted list and ends the edit |
| Budgets.BudgetsPage.HandleDelete | src/components/Dashboard/Budgets.jsx:103-108 | once confirmed, the budgets with that id are gone and the list is saved; otherwise nothing changes |
| Budgets.BudgetsPage.Save | src/components/Dashboard/Budgets.jsx:38-41 | the page and its storage key hold the new list, and nothing else changes |
| Overview.MonthSummary | src/components/Dashboard/Overview.jsx:33-56 | income and expenses of the month, balance is their difference, the savings rate is the savings rate of the two, and it follows the balance's sign |
| Overview.SummaryOfMonth | src/components/Dashboard/Overview.jsx:33-56 | income plus expenses is the month's total; a transaction outside the month changes nothing |
| Overview.LastSixMonths | src/components/Dashboard/Overview.jsx:60-88 | five months back through this month, oldest first |
| Overview.MonthlyTrend | src/components/Dashboard/Overview.jsx:60-88 | six entries, oldest first: entry k holds the income, expenses and savings of the month five minus k months back; they agree with the analytics trend, and the last equals this month's summary |
| Overview.MonthCategoryBreakdown | src/components/Dashboard/Overview.jsx:90-112 | the month's expense breakdown: distinct names, exactly the categories spent on, each with that category's spending, summing to the month's expenses |
| Overview.BreakdownMember | src/components/Dashboard/Overview.jsx:90-112 | a category appears in the month's expenses exactly when some expense of the month has it |
| Overview.BudgetStatus | src/components/Dashboard/Overview.jsx:114-137 | one row per budget, in order, with this month's spending in its category and the matching percentage |
| Overview.BudgetStatusAgrees | src/components/Dashboard/Overview.jsx:114-137 | the overview's spending equals the budgets page's monthly figure, and equals it outright for monthly budgets; it is 0 for a category missing from the breakdown and the breakdown's value otherwise |
| Settings.PasswordCheck | src/components/Dashboard/Settings.jsx:93-130 | mismatch first, then fewer than 6 characters; it succeeds exactly when the first user with the session's id has the current password |
| Settings.ProfileKeepsCredentials | src/components/Dashboard/Settings.jsx:67-91 | a profile change keeps exactly the same credentials valid |
| Settings.WithProfile | src/components/Dashboard/Settings.jsx:71-78 | the users with the session's id get the new name and phone and keep every other field; the others are unchanged |
| Settings.WithPassword | src/components/Dashboard/Settings.jsx:110-117 | the users with the session's id get the new password and keep every other field; the others are unchanged |
| Settings.WithoutAccount | src/components/Dashboard/Settings.jsx:190 | keeps exactly the users with another id |
| Settings.ChangedPasswordSignsIn | src/components/Dashboard/Settings.jsx:106-118 | after a change, with unique e-mails, the user signs in with the new password and gets their record with only the password replaced |
| Settings.Imported | src/components/Dashboard/Settings.jsx:167-174 | each list present in the file overwrites its key and an absent one keeps the stored list; no other key changes |
| Settings.ExportImportRoundTrip | src/components/Dashboard/Settings.jsx:142-174 | importing what was just exported keeps both lists, and keeps the whole store when both were stored |
| Settings.SettingsPage.constructor | src/components/Dashboard/Settings.jsx:43-53 | the page's user is the restored session |
| Settings.SettingsPage.HandleProfileUpdate | src/components/Dashboard/Settings.jsx:67-91 | the users with the session's id get the new name and phone; the session takes the new name and is written where a session is remembered, otherwise to the tab |
| Settings.SettingsPage.HandlePasswordChange | src/components/Dashboard/Settings.jsx:93-130 | the outcome is the password check; only success writes, and it sets the new password on the users with the session's id |
| Settings.SettingsPage.HandleExportData | src/components/Dashboard/Settings.jsx:142-148 | the file holds both stored lists, the session's user and the export time |
| Settings.SettingsPage.HandleImportData | src/components/Dashboard/Settings.jsx:161-184 | local storage becomes the imported store and the tab's session is untouched |
| Settings.SettingsPage.HandleDeleteAccount | src/components/Dashboard/Settings.jsx:186-205 | once confirmed, the account is removed from the users, the session is removed from both stores and both lists are removed, and no session is restored afterwards; otherwise nothing changes |
| Settings.SettingsPage.HandleClearData | src/components/Dashboard/Settings.jsx:207-214 | once confirmed, exactly the two lists are removed and read as empty; otherwise nothing changes |

## Left out

- Reading and writing storage is not modelled as JSON. A value that fails to parse, or a
  stored value of the wrong shape, is outside the model. The `catch` branches that report
  'Registration failed', 'Login failed' or an import error are left out for the same reason.
- Fresh ids (`Date.now().toString()`), timestamps (`new Date().toISOString()`) and the
  current time are parameters. The simulated delay (`setTimeout`) before sign-in and
  registration is left out.
- `alert` is not modelled. `window.confirm` is a boolean parameter.
- Navigation (`window.location`) is not modelled, nor are React state the logic does not read,
  modals or chart rendering.
- `toFixed` rounding of displayed figures is not modelled. Amounts are exact reals.
- `parseFloat` and `parseInt` of form fields are not modelled. The budget form passes the
  parsed amount and threshold as parameters, next to the raw strings that the "required"
  check reads.
- Time zones, daylight-saving time and calendar arithmetic are not modelled: the date-fns
  calls `startOfMonth`, `endOfMonth`, `subMonths`, `subDays` and `eachMonthOfInterval`, the
  budgets page's week start built with `setDate(getDate() - getDay())` and `setHours`, and
  the `setDate` day stepping of the daily pattern. Every window and day boundary is an
  input; days are counted in fixed 24-hour steps.
- The per-user storage key names (`budget_<email>`, `transactions_<email>`) are not built from
  the session. The budgets page takes its keys as constructor arguments. The overview and
  analytics functions take the loaded lists.
- The e-mail pattern's `\S` uses the JavaScript whitespace set, character by character on
  `seq<char>`. UTF-16 surrogate pairs and password length in UTF-16 code units are not
  modelled.
- JavaScript's ordering of integer-like keys in `Object.entries` is not modelled. A category
  named like a number would be listed first by the source; here categories keep first-seen
  order.
- Budgets.GetBudgetStatus: requires a positive budget amount. The source divides by it and
  shows `Infinity` or `NaN` for a zero amount.
- Budgets.Percentage: requires a positive amount, for the same reason.
- Budgets.StateOf: requires a positive amount, for the same reason.
- Overview.BudgetStatus: requires positive budget amounts, for the same reason.
- Settings.SettingsPage.HandleProfileUpdate, Settings.SettingsPage.HandlePasswordChange and
  Settings.SettingsPage.HandleDeleteAccount require a loaded session. The settings page sits
  behind `ProtectedRoute` (src/App.jsx:25-33), which redirects to the landing page when neither
  store holds a session, so the page always has one. Without it the source reads `user.id` of
  `null` inside the users loop, which throws only when the users list is non-empty; that path
  is not modelled. The export handler does not dereference the user and needs no session.
- Grouping.AccumulateByCategory: treats every category name as a fresh key. The source
  accumulates into a plain `{}`, so `!categories[t.category]` also reads names inherited from
  `Object.prototype`: a category named `constructor` or `toString` starts from a function
  value and accumulates a string, and `__proto__` is never listed by `Object.entries`, so the
  breakdown then no longer sums to the expense total. Imported data can hold any category
  string.
- `handleNotificationUpdate` and `handlePreferencesUpdate` only save display preferences and
  are not part of this model. Loading those preferences in `loadUserData` is left out too.
- The page components that only render (navigation, landing sections, dashboard shell) are not
  part of this model.
