/** The two tables of the budget book (users and transactions), the session
    slot, and the row filters and sums that the queries are built from. */
module Ledger {
  import opened Wrappers
  import opened Text

  /** What generate_password_hash stores. The salt and the digest are not
      modelled: the value only remembers which password it was made from, so
      that CheckPassword accepts exactly that password. */
  datatype PasswordHash = SaltedHash(preimage: string)

  /** generate_password_hash: the hash verifies the password it was made
      from and no other. */
  function HashPassword(password: string): (h: PasswordHash)
    ensures forall attempt :: CheckPassword(h, attempt) <==> attempt == password
  {
    SaltedHash(password)
  }

  /** check_password_hash. */
  predicate CheckPassword(hash: PasswordHash, password: string)
  {
    hash.preimage == password
  }

  /** A row of table `users`. */
  datatype User = User(id: nat, username: string, passwordHash: PasswordHash)

  /** A row of table `transactions`; `kind` is the column `type`. */
  datatype Txn = Txn(
    id: nat,
    userId: nat,
    date: string,
    amount: real,
    kind: string,
    category: string,
    description: string)

  /** The `type` values the aggregations look for. Nothing on insert
      restricts `type` to them. */
  const Income := "Income"
  const Expense := "Expense"

  /** The session cookie: either empty, or holding `user_id`. */
  datatype Session = Anonymous | Authenticated(userId: nat)

  /** The invariants the users table keeps: ids are rowids 1, 2, ... in
      insertion order, usernames are non-empty and unique. */
  ghost predicate UsersWellFormed(users: seq<User>)
  {
    && (forall i :: 0 <= i < |users| ==> users[i].id == i + 1 && users[i].username != [])
    && (forall i, j :: 0 <= i < j < |users| ==> users[i].username != users[j].username)
  }

  /** The invariants the transactions table keeps: ids are rowids, every row
      belongs to an existing user, has its required fields and a positive
      amount. */
  ghost predicate LedgerWellFormed(txns: seq<Txn>, users: seq<User>)
  {
    forall i :: 0 <= i < |txns| ==>
      && txns[i].id == i + 1
      && 1 <= txns[i].userId <= |users|
      && txns[i].amount > 0.0
      && txns[i].date != [] && txns[i].kind != [] && txns[i].category != []
  }

  /** The user row with this username, looked up by login and by the
      uniqueness check of registration. */
  function FindUserByName(users: seq<User>, username: string): (r: Option<User>)
    ensures r.Some? ==> r.value in users && r.value.username == username
    ensures r.None? <==> forall u :: u in users ==> u.username != username
  {
    if users == [] then None
    else if users[0].username == username then Some(users[0])
    else FindUserByName(users[1..], username)
  }

  /** The user row with this id, looked up for the session's user. The two
      lookups are two different queries of the `users` table (by the unique
      username and by the primary key), so each has its own function. */
  function FindUserById(users: seq<User>, id: nat): (r: Option<User>)
    ensures r.Some? ==> r.value in users && r.value.id == id
    ensures r.None? <==> forall u :: u in users ==> u.id != id
  {
    if users == [] then None
    else if users[0].id == id then Some(users[0])
    else FindUserById(users[1..], id)
  }

  /** load_logged_in_user: the user the session names, if it still exists. */
  function CurrentUser(session: Session, users: seq<User>): (r: Option<User>)
    ensures r.None? <==> session.Anonymous? || forall u :: u in users ==> u.id != session.userId
    ensures r.Some? ==> session.Authenticated? && r.value in users && r.value.id == session.userId
  {
    match session
    case Anonymous => None
    case Authenticated(id) => FindUserById(users, id)
  }

  /** In a well-formed users table every user is found by its own id. */
  lemma {:induction false} FindUserByIdFindsEach(users: seq<User>, u: User)
    requires forall i, j :: 0 <= i < j < |users| ==> users[i].id != users[j].id
    requires u in users
    ensures FindUserById(users, u.id) == Some(u)
  {
    if users[0] != u {
      var k :| 0 <= k < |users| && users[k] == u;
      assert users[1..][k - 1] == u;
      FindUserByIdFindsEach(users[1..], u);
    }
  }

  /** Appending a user with a fresh name makes that name resolve to it,
      whatever was there before. */
  lemma {:induction false} FindUserByNameAppend(users: seq<User>, u: User)
    requires FindUserByName(users, u.username).None?
    ensures FindUserByName(users + [u], u.username) == Some(u)
  {
    if users != [] {
      assert (users + [u])[1..] == users[1..] + [u];
      FindUserByNameAppend(users[1..], u);
    }
  }

  /** A user registered under a fresh name with password `password` is found
      by that name, and its stored hash accepts exactly `password`. */
  lemma RegisteredUserAuthenticates(users: seq<User>, username: string, password: string, attempt: string)
    requires FindUserByName(users, username).None?
    ensures var found := FindUserByName(users + [User(|users| + 1, username, HashPassword(password))], username);
      && found.Some?
      && found.value.id == |users| + 1
      && (CheckPassword(found.value.passwordHash, attempt) <==> attempt == password)
  {
    FindUserByNameAppend(users, User(|users| + 1, username, HashPassword(password)));
  }

  /** One WHERE condition on a transaction row. */
  datatype Criterion =
    | OwnedBy(userId: nat)
    | OfKind(kind: string)
    | InMonth(month: string)
    | InCategory(category: string)

  predicate Matches(t: Txn, c: Criterion)
  {
    match c
    case OwnedBy(uid) => t.userId == uid
    case OfKind(k) => t.kind == k
    case InMonth(m) => MonthKey(t.date) == m
    case InCategory(cat) => t.category == cat
  }

  /** The rows of `ts` that satisfy `c`, in table order. */
  function Select(ts: seq<Txn>, c: Criterion): (r: seq<Txn>)
    ensures forall t :: t in r <==> t in ts && Matches(t, c)
  {
    if ts == [] then []
    else if Matches(ts[0], c) then [ts[0]] + Select(ts[1..], c)
    else Select(ts[1..], c)
  }

  /** A query limit: the first n rows, or all of them when there are fewer. */
  function Limit<T>(s: seq<T>, n: nat): (r: seq<T>)
    ensures |r| == if |s| <= n then |s| else n
    ensures r == s[..|r|]
  {
    if |s| <= n then s else s[..n]
  }

  /** The total amount of the rows; an empty selection totals 0, as the
      dashboard's fallback for an empty sum does. */
  function Sum(ts: seq<Txn>): real
  {
    if ts == [] then 0.0 else ts[0].amount + Sum(ts[1..])
  }

  /** A condition no row satisfies selects nothing. */
  lemma {:induction false} SelectNone(ts: seq<Txn>, c: Criterion)
    requires forall t :: t in ts ==> !Matches(t, c)
    ensures Select(ts, c) == []
  {
    if ts != [] {
      SelectNone(ts[1..], c);
    }
  }

  lemma {:induction false} SelectAppend(a: seq<Txn>, b: seq<Txn>, c: Criterion)
    ensures Select(a + b, c) == Select(a, c) + Select(b, c)
  {
    if a == [] {
      assert a + b == b;
    } else {
      assert (a + b)[0] == a[0] && (a + b)[1..] == a[1..] + b;
      SelectAppend(a[1..], b, c);
    }
  }

  lemma {:induction false} SumAppend(a: seq<Txn>, b: seq<Txn>)
    ensures Sum(a + b) == Sum(a) + Sum(b)
  {
    if a == [] {
      assert a + b == b;
    } else {
      assert (a + b)[0] == a[0] && (a + b)[1..] == a[1..] + b;
      SumAppend(a[1..], b);
    }
  }

  /** A sum of positive amounts is never negative, and is zero only for an
      empty selection. */
  lemma {:induction false} SumNonNegative(ts: seq<Txn>)
    requires forall t :: t in ts ==> t.amount > 0.0
    ensures Sum(ts) >= 0.0
    ensures Sum(ts) == 0.0 <==> ts == []
  {
    if ts != [] {
      SumNonNegative(ts[1..]);
    }
  }
}
