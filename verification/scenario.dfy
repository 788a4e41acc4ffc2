/** A client of BudgetBook: what its contracts let a caller conclude about
    one session of use (register, log in, record a salary and a grocery
    bill, look at both pages, log out). */
module Scenario {
  import opened Wrappers
  import opened Text
  import opened Ledger
  import Dashboard
  import Report
  import opened BudgetApp

  /** float() on the two amounts the client types. */
  function ParseAmount(s: string): Option<real>
  {
    if s == "100.00" then Some(100.0) else if s == "30.00" then Some(30.0) else None
  }

  const Salary := Txn(1, 1, "2024-05-17", 100.0, Income, "Salary", "")
  const Groceries := Txn(2, 1, "2024-05-18", 30.0, Expense, "Groceries", "market")

  /** The monthly summary of a May salary of 100 and May groceries of 30. */
  lemma MonthlyOfSalaryAndGroceries()
    ensures Report.MonthlyBreakdown([Salary] + [Groceries], 1) == [Report.MonthRow("2024-05", 100.0, 30.0)]
  {
    var ts := [Salary] + [Groceries];
    assert MonthKey(Salary.date) == "2024-05" && MonthKey(Groceries.date) == "2024-05";
    assert ts[0] == Salary && ts[1..] == [Groceries] && [Groceries][1..] == [] && [Salary][1..] == [];
    assert Select([Groceries], OwnedBy(1)) == [Groceries];
    assert Select(ts, OwnedBy(1)) == ts;
    assert Select([Groceries], InMonth("2024-05")) == [Groceries];
    assert Select(ts, InMonth("2024-05")) == ts;
    assert Select([Salary], OfKind(Expense)) == [];
    assert Select([Groceries], OfKind(Income)) == [];
    assert Report.MonthKeys([Groceries]) == ["2024-05"];
    assert Report.MonthKeys(ts) == ["2024-05"];
    assert Select(Select(ts, InMonth("2024-05")), OfKind(Income)) == [Salary];
    assert Select(Select(ts, InMonth("2024-05")), OfKind(Expense)) == [Groceries];
    assert Sum([Salary]) == 100.0 && Sum([Groceries]) == 30.0;
  }

  /** The top categories of the same two rows in May. */
  lemma TopCategoriesOfSalaryAndGroceries()
    ensures Report.TopCategories([Salary] + [Groceries], 1, "2024-05") == [Report.CategoryRow("Groceries", 30.0)]
  {
    var ts := [Salary] + [Groceries];
    assert MonthKey(Groceries.date) == "2024-05";
    assert ts[0] == Salary && ts[1..] == [Groceries] && [Groceries][1..] == [];
    assert Select([Groceries], OwnedBy(1)) == [Groceries];
    assert Select(ts, OwnedBy(1)) == ts;
    assert Select([Groceries], OfKind(Expense)) == [Groceries];
    assert Select(ts, OfKind(Expense)) == [Groceries];
    assert Select([Groceries], InMonth("2024-05")) == [Groceries];
    var es := Report.MonthExpenses(ts, 1, "2024-05");
    assert es == [Groceries];
    assert Report.Categories(es) == ["Groceries"];
    assert Select(es, InCategory("Groceries")) == [Groceries];
    assert Sum([Groceries]) == 30.0;
    var row := Report.CategoryRow("Groceries", 30.0);
    assert Report.CategoryRows(es, ["Groceries"]) == [row];
    assert [row][1..] == [];
    assert Report.SortByTotal([row]) == [row];
  }

  /** Registration of alice; a second registration under her name and one
      without a name are refused. */
  method RegisterAlice() returns (book: BudgetBook)
    ensures fresh(book) && book.Valid()
    ensures book.users == [User(1, "alice", HashPassword("pw123"))]
    ensures book.txns == [] && book.session == Anonymous
  {
    book := new BudgetBook();
    var reg := book.Register("alice", "pw123");
    assert reg == Success(1);
    var again := book.Register("alice", "other");
    assert again == Failure(AlreadyRegistered("alice"));
    var empty := book.Register("", "");
    assert empty == Failure(UsernameRequired);
  }

  /** Login of alice after a refused insert, with the failures on the way. */
  method RegisterAndLogIn() returns (book: BudgetBook)
    ensures fresh(book) && book.Valid()
    ensures book.users == [User(1, "alice", HashPassword("pw123"))]
    ensures book.txns == [] && book.session == Authenticated(1)
  {
    book := RegisterAlice();
    var denied := book.AddTransaction(TxnForm("2024-05-17", "100.00", Income, "Salary", None), ParseAmount);
    assert denied == RedirectToLogin && book.txns == [];

    var unknown := book.Login("bob", "pw123");
    assert unknown == Failure(IncorrectUsername) && book.session == Anonymous;
    var wrong := book.Login("alice", "pw");
    assert wrong == Failure(IncorrectPassword) && book.session == Anonymous;
    var ok := book.Login("alice", "pw123");
    assert ok == Success(1);
  }

  /** alice sees a zero balance after logging in, records her salary, and
      then sees it as income and balance. */
  method RecordSalary() returns (book: BudgetBook)
    ensures fresh(book) && book.Valid()
    ensures book.users == [User(1, "alice", HashPassword("pw123"))]
    ensures book.txns == [Salary] && book.session == Authenticated(1)
  {
    book := RegisterAndLogIn();
    var empty := book.ShowDashboard();
    Dashboard.TotalsOfEmpty([], 1);
    assert empty.Rendered? && empty.page.totals == Dashboard.Totals(0.0, 0.0, 0.0);

    var salary := book.AddTransaction(TxnForm("2024-05-17", "100.00", Income, "Salary", None), ParseAmount);
    assert salary == Rendered(Success(1)) && book.txns == [Salary];
    var paid := book.ShowDashboard();
    Dashboard.TotalsAfterAppend([], Salary, 1);
    assert [] + [Salary] == [Salary];
    assert paid.Rendered? && paid.page.totals == Dashboard.Totals(100.0, 0.0, 100.0);
  }

  /** alice adds her groceries; a blank amount is refused. */
  method RecordSalaryAndGroceries() returns (book: BudgetBook)
    ensures fresh(book) && book.Valid()
    ensures book.users == [User(1, "alice", HashPassword("pw123"))]
    ensures book.txns == [Salary] + [Groceries] && book.session == Authenticated(1)
  {
    book := RecordSalary();
    var groceries := book.AddTransaction(TxnForm("2024-05-18", "30.00", Expense, "Groceries", Some("market")), ParseAmount);
    assert groceries == Rendered(Success(2)) && book.txns == [Salary] + [Groceries];
    var blank := book.AddTransaction(TxnForm("2024-05-18", "", Expense, "Groceries", None), ParseAmount);
    assert blank == Rendered(Failure(InvalidAmount));
  }

  /** Both pages for alice, then the redirect once she has logged out. */
  method SalaryAndGroceries()
  {
    var book := RecordSalaryAndGroceries();
    var dashboard := book.ShowDashboard();
    Dashboard.TotalsOfEmpty([], 1);
    Dashboard.TotalsAfterAppend([], Salary, 1);
    assert [] + [Salary] == [Salary];
    Dashboard.TotalsAfterAppend([Salary], Groceries, 1);
    assert dashboard.Rendered? && dashboard.page.totals == Dashboard.Totals(100.0, 30.0, 70.0);

    var report := book.ShowReport("2024-05");
    MonthlyOfSalaryAndGroceries();
    TopCategoriesOfSalaryAndGroceries();
    assert report == Rendered(ReportPage([Report.MonthRow("2024-05", 100.0, 30.0)],
                                         [Report.CategoryRow("Groceries", 30.0)]));

    book.Logout();
    var gone := book.ShowReport("2024-05");
    var goneToo := book.ShowDashboard();
    assert gone == RedirectToLogin && goneToo == RedirectToLogin;
  }
}
