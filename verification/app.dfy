/** The request handlers of the budget book: registration, login, logout,
    the login_required guard, adding a transaction, and the two read-only
    pages. The database and the session cookie are the fields of one
    BudgetBook object. */
module BudgetApp {
  import opened Wrappers
  import opened Ledger
  import Dashboard
  import Report

  datatype RegisterError =
    | UsernameRequired                  // "Username is required."
    | PasswordRequired                  // "Password is required."
    | AlreadyRegistered(username: string) // "User {username} is already registered."

  datatype LoginError =
    | IncorrectUsername                 // "Incorrect username."
    | IncorrectPassword                 // "Incorrect password."

  datatype TxnError =
    | RequiredFieldsMissing             // "All required fields must be filled."
    | InvalidAmount                     // "Invalid amount entered."
    | AmountNotPositive                 // "Amount must be greater than zero."

  /** The fields POSTed by the add-transaction form; `description` may be
      absent. */
  datatype TxnForm = TxnForm(
    date: string,
    amount: string,
    kind: string,
    category: string,
    description: Option<string>)

  /** What a view wrapped by login_required produces: a redirect to the login
      page, or the view's own outcome. */
  datatype Guarded<T> = RedirectToLogin | Rendered(page: T)

  datatype DashboardPage = DashboardPage(recent: seq<Txn>, totals: Dashboard.Totals)

  datatype ReportPage = ReportPage(monthly: seq<Report.MonthRow>, topCategories: seq<Report.CategoryRow>)

  predicate RequiredFieldsPresent(form: TxnForm)
  {
    form.date != [] && form.amount != [] && form.kind != [] && form.category != []
  }

  /** The message add_transaction ends with, by precedence: a failed parse of
      the amount, then a parsed amount that is not positive, then a missing
      required field. `parse` stands for Python's float(). */
  function FormError(form: TxnForm, parse: string -> Option<real>): (r: Option<TxnError>)
    ensures r.None? <==> RequiredFieldsPresent(form) && parse(form.amount).Some? && parse(form.amount).value > 0.0
  {
    match parse(form.amount)
    case None => Some(InvalidAmount)
    case Some(v) =>
      if v <= 0.0 then Some(AmountNotPositive)
      else if !RequiredFieldsPresent(form) then Some(RequiredFieldsMissing)
      else None
  }

  /** Which message a rejected form gets: an amount problem hides a missing
      field, so an empty amount that does not parse reports an invalid
      amount, not a missing field; a missing field is reported only when
      the amount parses to a positive number. */
  lemma FormErrorPrecedence(form: TxnForm, parse: string -> Option<real>)
    ensures parse(form.amount).None? ==> FormError(form, parse) == Some(InvalidAmount)
    ensures parse(form.amount).Some? && parse(form.amount).value <= 0.0
        ==> FormError(form, parse) == Some(AmountNotPositive)
    ensures parse(form.amount).Some? && parse(form.amount).value > 0.0 && !RequiredFieldsPresent(form)
        ==> FormError(form, parse) == Some(RequiredFieldsMissing)
  {
  }

  /** The validation cascade of add_transaction: `error` is set for a missing
      field, then overwritten by the outcome of converting the amount. */
  method ValidateTransaction(form: TxnForm, parse: string -> Option<real>) returns (error: Option<TxnError>, amount: real)
    ensures error == FormError(form, parse)
    ensures error.None? ==> parse(form.amount) == Some(amount) && amount > 0.0
  {
    error := None;
    amount := 0.0;
    if !RequiredFieldsPresent(form) {
      error := Some(RequiredFieldsMissing);
    }
    match parse(form.amount) {
      case Some(v) =>
        amount := v;
        if v <= 0.0 {
          error := Some(AmountNotPositive);
        }
      case None =>
        error := Some(InvalidAmount);
    }
  }

  function DescriptionOf(form: TxnForm): string
  {
    match form.description
    case Some(d) => d
    case None => ""
  }

  class BudgetBook {
    var users: seq<User>
    var txns: seq<Txn>
    var session: Session

    ghost predicate Valid()
      reads this
    {
      UsersWellFormed(users) && LedgerWellFormed(txns, users)
    }

    /** Empty tables and no session. */
    constructor ()
      ensures Valid()
      ensures users == [] && txns == [] && session == Anonymous
    {
      users := [];
      txns := [];
      session := Anonymous;
    }

    /** register() on POST. The duplicate check stands for the UNIQUE
        constraint on users.username, whose IntegrityError the source turns
        into a message. */
    method Register(username: string, password: string) returns (result: Result<nat, RegisterError>)
      requires Valid()
      modifies this`users
      ensures Valid()
      ensures username == [] ==> result == Failure(UsernameRequired)
      ensures username != [] && password == [] ==> result == Failure(PasswordRequired)
      ensures username != [] && password != [] && FindUserByName(old(users), username).Some?
          ==> result == Failure(AlreadyRegistered(username))
      ensures result.Success? <==>
          username != [] && password != [] && FindUserByName(old(users), username).None?
      ensures result.Success? ==>
          && result.value == |old(users)| + 1
          && users == old(users) + [User(result.value, username, HashPassword(password))]
      ensures result.Failure? ==> users == old(users)
    {
      var error: Option<RegisterError> := None;
      if username == [] {
        error := Some(UsernameRequired);
      } else if password == [] {
        error := Some(PasswordRequired);
      }
      if error.None? {
        if FindUserByName(users, username).Some? {
          error := Some(AlreadyRegistered(username));
        } else {
          var id := |users| + 1;
          users := users + [User(id, username, HashPassword(password))];
          return Success(id);
        }
      }
      return Failure(error.value);
    }

    /** login() on POST: on success the session is cleared and then holds
        exactly the user's id, so that user is the current user. */
    method Login(username: string, password: string) returns (result: Result<nat, LoginError>)
      requires Valid()
      modifies this`session
      ensures Valid()
      ensures FindUserByName(users, username).None? ==> result == Failure(IncorrectUsername)
      ensures FindUserByName(users, username).Some?
          && !CheckPassword(FindUserByName(users, username).value.passwordHash, password)
          ==> result == Failure(IncorrectPassword)
      ensures result.Success? <==>
          && FindUserByName(users, username).Some?
          && CheckPassword(FindUserByName(users, username).value.passwordHash, password)
      ensures result.Success? ==>
          && result.value == FindUserByName(users, username).value.id
          && session == Authenticated(result.value)
          && CurrentUser(session, users) == FindUserByName(users, username)
      ensures result.Failure? ==> session == old(session)
    {
      var user := FindUserByName(users, username);
      var error: Option<LoginError> := None;
      if user.None? {
        error := Some(IncorrectUsername);
      } else if !CheckPassword(user.value.passwordHash, password) {
        error := Some(IncorrectPassword);
      }
      if error.None? {
        session := Anonymous;
        session := Authenticated(user.value.id);
        FindUserByIdFindsEach(users, user.value);
        return Success(user.value.id);
      }
      return Failure(error.value);
    }

    /** logout(): the session is emptied whatever it held. */
    method Logout()
      requires Valid()
      modifies this`session
      ensures Valid()
      ensures session == Anonymous
      ensures CurrentUser(session, users).None?
    {
      session := Anonymous;
    }

    /** add_transaction() on POST, behind login_required: without a current
        user nothing runs; otherwise exactly one row is appended, tagged with
        that user's id, when the form is valid, and nothing changes when it
        is not. */
    method AddTransaction(form: TxnForm, parse: string -> Option<real>) returns (outcome: Guarded<Result<nat, TxnError>>)
      requires Valid()
      modifies this`txns
      ensures Valid()
      ensures CurrentUser(session, users).None? ==> outcome == RedirectToLogin && txns == old(txns)
      ensures CurrentUser(session, users).Some? && FormError(form, parse).Some? ==>
          && outcome == Rendered(Failure(FormError(form, parse).value))
          && txns == old(txns)
      ensures CurrentUser(session, users).Some? && FormError(form, parse).None? ==>
          && outcome.Rendered? && outcome.page.Success? && outcome.page.value == |old(txns)| + 1
          && txns == old(txns) + [Txn(|old(txns)| + 1, CurrentUser(session, users).value.id, form.date,
                                      parse(form.amount).value, form.kind, form.category, DescriptionOf(form))]
    {
      var user := CurrentUser(session, users);
      if user.None? {
        return RedirectToLogin;
      }
      var error, amount := ValidateTransaction(form, parse);
      if error.Some? {
        return Rendered(Failure(error.value));
      }
      var id := |txns| + 1;
      txns := txns + [Txn(id, user.value.id, form.date, amount, form.kind, form.category, DescriptionOf(form))];
      return Rendered(Success(id));
    }

    /** dashboard(), behind login_required. */
    method ShowDashboard() returns (outcome: Guarded<DashboardPage>)
      ensures outcome == RedirectToLogin <==> CurrentUser(session, users).None?
      ensures outcome.Rendered? ==>
          var id := CurrentUser(session, users).value.id;
          outcome.page == DashboardPage(Dashboard.RecentTransactions(txns, id), Dashboard.TotalsOf(txns, id))
    {
      var user := CurrentUser(session, users);
      if user.None? {
        return RedirectToLogin;
      }
      var id := user.value.id;
      return Rendered(DashboardPage(Dashboard.RecentTransactions(txns, id), Dashboard.TotalsOf(txns, id)));
    }

    /** report(), behind login_required; `currentMonth` is
        the month of the clock at request time, given as a parameter. */
    method ShowReport(currentMonth: string) returns (outcome: Guarded<ReportPage>)
      ensures outcome == RedirectToLogin <==> CurrentUser(session, users).None?
      ensures outcome.Rendered? ==>
          var id := CurrentUser(session, users).value.id;
          outcome.page == ReportPage(Report.MonthlyBreakdown(txns, id), Report.TopCategories(txns, id, currentMonth))
    {
      var user := CurrentUser(session, users);
      if user.None? {
        return RedirectToLogin;
      }
      var id := user.value.id;
      return Rendered(ReportPage(Report.MonthlyBreakdown(txns, id), Report.TopCategories(txns, id, currentMonth)));
    }
  }
}
