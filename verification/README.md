# Budget book: a verified model of its ledger and session gate

The budget book is a small Flask and SQLite web application. Users register,
log in, record income and expense transactions, and view a dashboard and a
monthly report. This project models its core in Dafny, without the web and
database plumbing:

- **Users table** (`Ledger.User`): rows with an id, a unique non-empty
  username and a password hash.
- **Transactions table** (`Ledger.Txn`): rows with an id, the owning user's
  id, a date string, an amount, a type (`kind`), a category and a
  description.
- **Session slot** (`Ledger.Session`): `Anonymous`, or `Authenticated(userId)`.
- **Handlers**: `BudgetApp.BudgetBook` is a class whose fields are the two
  tables and the session. Its methods are the request handlers that change
  them: register, login, logout and add-transaction. It also has the two
  read-only pages behind the `login_required` guard.
- **Queries**: the dashboard and report queries are pure functions over the
  transaction sequence, in modules `Dashboard` and `Report`. Lemmas state what
  these functions return.

Modules, one per concern:

| file | module | contents |
|---|---|---|
| wrappers.dfy | Wrappers | `Option`, `Result` |
| text.dfy | Text | SQLite's text order (`Le`, `Lt`) and its laws; `MonthKey` |
| ledger.dfy | Ledger | rows, password check, user lookups, `CurrentUser`, row selection (`Select` by a `Criterion`), `Sum`, `Limit` |
| dashboard.dfy | Dashboard | totals and balance; the ten most recent transactions |
| report.dfy | Report | the monthly breakdown; the top five expense categories of a month |
| app.dfy | BudgetApp | the `BudgetBook` class and the add-transaction validation cascade |
| scenario.dfy | Scenario | a verified client: register, log in, add two rows, read both pages, log out |

Modelling choices:

- **Amounts** are exact `real`s.
- **Parsing the amount.** Python's `float(amount)` is a function parameter
  `parse: string -> Option<real>`. `None` means the conversion raised
  `ValueError`.
- **Month key.** A date's month key is its first seven characters. For an ISO
  `YYYY-MM-DD` date this is what `strftime('%Y-%m', date)` returns.
- **Text order.** Date and month ordering use SQLite's default text order:
  code points compared from the left, with a proper prefix first.
- **Current month.** The report takes the current month as a parameter.
- **Ids** are rowids. A new row gets one more than the number of rows in its
  table, because no row is ever deleted.
- **Password hash.** The hash records which password it was made from.
  `CheckPassword` therefore accepts exactly that password.
- **Transaction type.** The code stores `type` as any non-empty string, and
  the model does the same. Only the sums compare it with `'Income'` and
  `'Expense'`. The intended data model says the type is one of those two
  values, but nothing enforces that on insert.
- **Session validity.** A session may name a user id that no longer resolves.
  `CurrentUser` then yields nothing, and every guarded view redirects to
  login. So `Valid()` puts no constraint on the session.
- **Login messages.** "Unknown username" and "wrong password" stay two
  distinct errors, as in the code. The documented intent was to make them
  indistinguishable.
- **Recent list.** The dashboard lists only the ten latest rows. A newly
  added transaction therefore appears there only if it is among the user's
  ten latest dates.

## Model

| member | source | states |
|---|---|---|
| Text.MonthKey | app.py:237 | the month key of a date is its prefix of seven characters, or the whole date when it is shorter; the order facts about it are MonthKeyMonotone and MonthKeysOrdered |
| Text.LeTotal | app.py:151 | any two strings are comparable in the text order used by the date and month sorts |
| Text.LeTransitive | app.py:151 | the text order is transitive |
| Text.LeAntisymmetric | app.py:243 | strings each at most the other are equal, so a strict month order has no repeats |
| Text.MonthKeyMonotone | app.py:237 | a later date never has an earlier month key |
| Ledger.HashPassword | app.py:69 | the stored hash verifies, through `CheckPassword` (the check_password_hash of app.py:95), the password it was made from and no other |
| Ledger.FindUserByName | app.py:89-91 | the lookup finds a row with that username, and finds none exactly when no such row exists |
| Ledger.FindUserById | app.py:124-126 | the lookup finds a row with that id, and finds none exactly when no such row exists |
| Ledger.FindUserByIdFindsEach | app.py:124-126 | with unique ids, every stored user is found by its own id |
| Ledger.CurrentUser | app.py:116-128 | no current user when the session is empty or its id matches no row; otherwise the row with the session's id |
| Ledger.FindUserByNameAppend | app.py:67-71 | after inserting a user under a fresh name, that name resolves to the new row |
| Ledger.RegisteredUserAuthenticates | app.py:66-96 | a user registered under a fresh name is found at login, with the new id, and its hash accepts exactly the registered password |
| Ledger.Select | app.py:151 | a filter keeps exactly the rows matching its condition |
| Ledger.SelectNone | app.py:161 | a condition no row meets selects nothing |
| Ledger.SelectAppend | app.py:207 | filtering distributes over appending rows |
| Ledger.SumAppend | app.py:160-168 | the sum of appended rows is the sum of the parts |
| Ledger.SumNonNegative | app.py:160-168 | a sum of positive amounts is non-negative, and zero exactly for no rows |
| Dashboard.TotalsOf | app.py:159-173 | the two SUM queries and the balance: the balance is income minus expense; the sums themselves are specified by TotalsOfEmpty, TotalsNonNegative, TotalsAfterAppend and MonthlyBreakdownConserves |
| Dashboard.TotalsOfEmpty | app.py:159-173 | a user without rows sees income, expense and balance all 0 |
| Dashboard.TotalsNonNegative | app.py:159-173 | over positive amounts, income and expense are non-negative |
| Dashboard.TotalsAfterAppend | app.py:159-173 | appending a row changes only its owner's totals, by exactly its amount, on the side its type names |
| Dashboard.InsertByDate | app.py:151 | inserting into the date order adds exactly that row |
| Dashboard.SortByDate | app.py:151 | sorting by date is a permutation of the rows |
| Dashboard.InsertByDateNewestFirst | app.py:151 | insertion keeps rows latest date first |
| Dashboard.SortByDateNewestFirst | app.py:151 | the sorted rows are latest date first |
| Dashboard.RecentTransactions | app.py:150-153 | the recent-list query holds at most 10 rows; what they are is RecentTransactionsSpec |
| Dashboard.NewestRowsFromInput | app.py:151-152 | the first n rows of the date sort are rows of its input, none more often than stored |
| Dashboard.LeftOutRowIsOlder | app.py:151-152 | a row left out of the first n rows of the date sort is no later than every row kept |
| Dashboard.RecentTransactionsSpec | app.py:150-153 | the recent list holds min(10, n) of the user's n rows, only theirs, latest first, no row more often than stored; any row left out is no later than every row shown |
| Report.InsertMonth | app.py:242 | adding a key to the month list adds exactly that key |
| Report.MonthKeys | app.py:237-242 | the month list holds exactly the month keys of the rows |
| Report.InsertMonthOrdered | app.py:243 | insertion keeps month keys strictly descending |
| Report.MonthKeysOrdered | app.py:243 | the month keys are strictly descending |
| Report.MonthlyBreakdownOrdered | app.py:242-243 | the monthly rows are strictly latest month first, so no month appears twice |
| Report.MonthlyBreakdownCovers | app.py:235-244 | every row of the user falls in some monthly row |
| Report.MonthlyBreakdownFromOwnRows | app.py:235-244 | every monthly row comes from a row of the user in that month, so no row is empty |
| Report.MonthlyBreakdown | app.py:235-244 | each monthly row carries that month's exact income and expense totals for the user; its order, coverage and conservation are MonthlyBreakdownOrdered, MonthlyBreakdownCovers, MonthlyBreakdownFromOwnRows and MonthlyBreakdownConserves |
| Report.ColumnsAreMonthsTotals | app.py:238-239 | the income and expense columns add up the per-month sums |
| Report.MonthSumCons | app.py:238-239 | a row contributes its amount to its own month and type only |
| Report.MonthsTotalCons | app.py:242 | over distinct months, a row contributes its amount once if its month is listed, else not at all |
| Report.MonthsTotalCovers | app.py:242 | per-month sums over distinct months covering all rows add up to the plain total |
| Report.MonthsTotalZero | app.py:238-239 | no rows give zero in every month |
| Report.MonthlyBreakdownConserves | app.py:235-244 | the monthly income and expense columns add up to the dashboard's income and expense totals, so each transaction is counted once |
| Report.MonthExpensesMember | app.py:253 | the category query reads exactly the user's 'Expense' rows of the given month |
| Report.Categories | app.py:254 | the category list holds each category of the rows exactly once |
| Report.InsertByTotal | app.py:255 | inserting into the total order adds exactly that row |
| Report.SortByTotal | app.py:255 | sorting by total is a permutation of the rows |
| Report.InsertByTotalKeepsOrder | app.py:255 | insertion keeps rows largest total first, with distinct categories |
| Report.InsertedRowFrom | app.py:255 | a row of an insertion result is the inserted row or one of the old rows |
| Report.TailBelowHead | app.py:255 | in a largest-first list with distinct categories, every later row is at most the first and names another category |
| Report.SortByTotalKeepsOrder | app.py:255 | the sorted category rows are largest first, with distinct categories |
| Report.CategoryTableOrdered | app.py:254-255 | before truncation, the category rows are largest total first, one per category |
| Report.CategoryTableRow | app.py:248-255 | each category row names a category of the selected rows and carries its exact total |
| Report.CategoryTableCovers | app.py:254 | each category of the selected rows has a category row |
| Report.TopCategories | app.py:248-257 | the category query returns at most 5 rows; what they are is TopCategoriesSpec, TopCategoriesFromOwnExpenses and TopCategoriesComplete |
| Report.TopCategoriesSpec | app.py:248-257 | at most 5 rows, distinct categories, largest total first, each total the exact spending of that category in that month |
| Report.TopCategoriesFromOwnExpenses | app.py:253 | every category shown is one the user spent on, as 'Expense', in that month |
| Report.LimitLargestFirst | app.py:255-256 | a row of a largest-first list is either among the first n, or those n are all at least as large |
| Report.TopCategoriesComplete | app.py:255-256 | a category spent on in that month is shown, or else 5 rows are shown, each at least its total |
| BudgetApp.FormError | app.py:193-201 | a form is accepted exactly when all four fields are non-empty and the amount parses to a positive number; which message a rejected form gets is FormErrorPrecedence |
| BudgetApp.FormErrorPrecedence | app.py:193-201 | a parse failure gives "Invalid amount entered.", a parsed amount at most 0 gives "Amount must be greater than zero.", each replacing a missing-field message; a missing field is reported only for a positive amount |
| BudgetApp.ValidateTransaction | app.py:191-201 | the sequential cascade ends with the message the precedence prescribes, and yields the parsed positive amount on success |
| BudgetApp.BudgetBook.Register | app.py:54-76 | username checked first, then password; a taken name fails with "already registered" and leaves the table alone; otherwise exactly one user is appended with the hashed password |
| BudgetApp.BudgetBook.Login | app.py:84-102 | unknown name gives "Incorrect username.", a failing password check gives "Incorrect password.", both leaving the session unchanged; on success the session holds exactly the user's id and resolves to that user; the tables stay well formed |
| BudgetApp.BudgetBook.Logout | app.py:107-111 | the session is empty afterwards, whatever it held, and resolves to no user; the tables stay well formed |
| BudgetApp.BudgetBook.AddTransaction | app.py:184-217 | behind the login guard (app.py:131-139): without a current user it redirects and inserts nothing; an invalid form returns the cascade's message and leaves the table unchanged; a valid form appends exactly one row with the next id, the current user's id, the form's fields, the parsed amount and the description or "" |
| BudgetApp.BudgetBook.ShowDashboard | app.py:141-179 | redirects exactly when no user resolves; otherwise shows that user's recent list and totals |
| BudgetApp.BudgetBook.ShowReport | app.py:227-265 | redirects exactly when no user resolves; otherwise shows that user's monthly rows and top categories for the given month |
| Scenario.MonthlyOfSalaryAndGroceries | app.py:235-244 | May income 100 and expense 30 give the single monthly row (2024-05, 100, 30) |
| Scenario.TopCategoriesOfSalaryAndGroceries | app.py:248-257 | the same rows give the top-category list [Groceries: 30] |
| Scenario.RegisterAlice | app.py:54-76 | registering alice gives id 1; a second registration under her name and one with an empty name are refused, leaving one user |
| Scenario.RegisterAndLogIn | app.py:84-102 | an insert before login redirects and stores nothing; an unknown name and a wrong password are refused; the right password puts id 1 in the session |
| Scenario.RecordSalary | app.py:141-217 | right after login the dashboard totals are (0, 0, 0); the salary form adds row 1 with exactly its fields, after which the totals are (100, 0, 100) |
| Scenario.RecordSalaryAndGroceries | app.py:184-217 | the groceries form then adds row 2 with exactly its fields; a blank amount is refused with nothing stored |

`Scenario.SalaryAndGroceries` (app.py:141-179, 227-265) is a verified client with no contract of its own: continuing that session, it shows from the contracts above that the dashboard totals are (100, 30, 70), that the report holds the row (2024-05, 100, 30) and the category list [Groceries: 30], and that both pages redirect to the login page after logout.

## Left out

- Routing, `render_template`, `flash` and `redirect` are left out (app.py:51-111, 175-179, 222, 265). Outcomes are values instead: `Result`, `Guarded`, `DashboardPage` and `ReportPage`. GET requests only render a form and are not modelled.
- The database connection and its teardown are left out (`get_db`, `close_connection`, app.py:17-33). They are plumbing.
- `init_db` and the schema file are left out (app.py:35-47, 273-274). schema.sql is not part of this model. The tables always exist, with the columns the queries use.
- The `OperationalError` fallbacks are left out (app.py:127-128, 154-155, 169-171, 213-215, 259-262). These cover a missing table, which the model never has. So there is no "Database error" outcome for an insert, and no empty-read fallback.
- Missing form keys are left out. `request.form[...]` raises on a missing key, which Flask answers with an HTTP 400. In the model every required field is present, possibly empty.
- werkzeug's salted hashing is not modelled (app.py:69, 95). Salt and digest algorithm are foreign-library details. Only the check's contract is kept: it accepts exactly the original password.
- Python's `float()` grammar is abstracted into the `parse` parameter (app.py:197).
- `float('nan')` and `float('inf')` are not modelled. The code would accept both, because `nan <= 0` is false. The model's parser returns only real numbers.
- Floating-point summation is replaced by exact sums.
- `datetime.now()` and `os.urandom` are nondeterministic and are not modelled (app.py:12, 222, 247). The current month is a parameter.
- The session cookie's signing and any other keys the session holds are not modelled. Flask keeps flashed messages in the session, and `session.clear()` also drops them. The model has only the `user_id` slot.
- Dates that are not ISO `YYYY-MM-DD` are left out. app.py:193 only checks that the date is non-empty, so any text can be stored, and SQLite's `strftime('%Y-%m', ...)` gives such text a month of its own. A time of day alone (`12:30`, `12:30:05`) is read as a time on 2000-01-01, so its month is `2000-01`. The word `now` is read when the query runs, so that row moves to whichever month the report is opened in. A bare number such as `2460000` is a Julian day number and falls in the month of that day. Text that SQLite cannot read as a time at all gives NULL, and those rows form a NULL month group. In every one of these cases the monthly groups (app.py:237) and the month filter of the category query (app.py:253) follow SQLite's month. The model's `MonthKey` instead keys every row by the first seven characters of its date, and it cannot express a row whose month changes with the time the query runs.
- Day overflow in dates is left out. app.py:193 only checks that the date is non-empty, so a date such as `2024-02-30` can be stored. Depending on the SQLite version, `strftime('%Y-%m', ...)` normalizes a day past the end of the month into the next month (`2024-03`) or keeps the written month. That affects the monthly groups (app.py:237) and the month filter of the category query (app.py:253). The model always keeps the written month.
- Row order among equal dates or equal category totals is not stated. SQL leaves it unspecified. The model's insertion sorts fix one order, and no lemma depends on it.
- The suggested category list is not modelled (app.py:220). It only fills the form and is not checked on insert.
- The `login_required` decorator is not a separate member. Each guarded handler (`AddTransaction`, `ShowDashboard`, `ShowReport`) begins with the same `CurrentUser` check the decorator performs.
- Concurrent requests are not modelled. Every handler runs alone against the current state.
