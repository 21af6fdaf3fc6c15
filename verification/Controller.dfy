/**
A model of the UniFi Access controller: users, card bindings and the card list,
and its answer to each request the client sends.
*/
module Controller {
  import opened Models
  import opened Text

  type UserId = nat
  type Token = nat

  const ACTIVE := "ACTIVE"
  const DEACTIVATED := "DEACTIVATED"

  lemma StatusesDiffer()
    ensures DEACTIVATED != ACTIVE
  {
    assert DEACTIVATED[0] != ACTIVE[0];
  }

  const CODE_HAS_BIND_USER := "CODE_CREDS_NFC_HAS_BIND_USER"
  const CODE_EMAIL_EXIST := "CODE_ADMIN_EMAIL_EXIST"
  const CODE_NOT_FOUND := "CODE_NOT_FOUND"

  datatype UserRecord = UserRecord(
    first: string, last: string, email: string,
    employee: Option<ContactId>, status: string, policies: seq<string>)

  datatype CardRow = CardRow(alias: string, token: Token)

  /** `bound` says who holds each card token; ids and tokens are issued from the two counters. */
  datatype State = State(
    users: map<UserId, UserRecord>,
    bound: map<Token, UserId>,
    cards: seq<CardRow>,
    adminEmails: set<string>,
    nextUser: UserId,
    nextToken: Token)

  datatype Fields = Fields(name: Option<(string, string)>, employee: Option<ContactId>, email: Option<string>)
  datatype ImportLine = ImportLine(nfcId: string, alias: string)
  datatype ImportRow = ImportRow(nfcId: string, token: Token)

  datatype Request =
    | GetUsers(page: nat)
    | GetCards(page: nat)
    | CreateUser(fields: Fields)
    | UpdateUser(user: UserId, fields: Fields)
    | SetStatus(user: UserId, status: string)
    | SetPolicies(user: UserId, policies: seq<string>)
    | DeleteCard(user: UserId, token: Token)
    | BindCard(user: UserId, token: Token, force: bool)
    | ImportCards(lines: seq<ImportLine>)

  datatype Reply = Done | Created(user: UserId) | Imported(rows: seq<ImportRow>) | Failed(code: Option<string>)

  // ---- answers ----

  /** Emails are unique across users and administrators, ignoring case. */
  predicate EmailTaken(c: State, self: Option<UserId>, email: string) {
    email != "" &&
    (Lower(email) in c.adminEmails ||
     exists u :: u in c.users && Some(u) != self && Lower(c.users[u].email) == Lower(email))
  }

  function Written(r: UserRecord, f: Fields): UserRecord {
    var r1 := match f.name { case Some(n) => r.(first := n.0, last := n.1) case None => r };
    var r2 := match f.employee { case Some(k) => r1.(employee := Some(k)) case None => r1 };
    match f.email { case Some(e) => r2.(email := e) case None => r2 }
  }

  const NEW_USER := UserRecord("", "", "", None, ACTIVE, [])

  function Exec(c: State, r: Request): (State, Reply) {
    match r
    case GetUsers(_) => (c, Done)
    case GetCards(_) => (c, Done)
    case CreateUser(f) =>
      if f.email.Some? && EmailTaken(c, None, f.email.value) then (c, Failed(Some(CODE_EMAIL_EXIST)))
      else (c.(users := c.users[c.nextUser := Written(NEW_USER, f)], nextUser := c.nextUser + 1), Created(c.nextUser))
    case UpdateUser(u, f) =>
      if u !in c.users then (c, Failed(Some(CODE_NOT_FOUND)))
      else if f.email.Some? && EmailTaken(c, Some(u), f.email.value) then (c, Failed(Some(CODE_EMAIL_EXIST)))
      else (c.(users := c.users[u := Written(c.users[u], f)]), Done)
    case SetStatus(u, status) =>
      if u !in c.users then (c, Failed(Some(CODE_NOT_FOUND)))
      else (c.(users := c.users[u := c.users[u].(status := status)]), Done)
    case SetPolicies(u, ps) =>
      if u !in c.users then (c, Failed(Some(CODE_NOT_FOUND)))
      else (c.(users := c.users[u := c.users[u].(policies := ps)]), Done)
    case DeleteCard(u, t) =>
      if Holds(c, u, t) then (c.(bound := c.bound - {t}), Done)
      else (c, Failed(Some(CODE_NOT_FOUND)))
    case BindCard(u, t, force) =>
      if u !in c.users || t >= c.nextToken then (c, Failed(Some(CODE_NOT_FOUND)))
      else if t in c.bound && c.bound[t] != u && !force then (c, Failed(Some(CODE_HAS_BIND_USER)))
      else (c.(bound := c.bound[t := u]), Done)
    case ImportCards(lines) =>
      (c.(cards := c.cards + NewCards(lines, c.nextToken), nextToken := c.nextToken + |lines|),
       Imported(NewRows(lines, c.nextToken)))
  }

  function NewCards(lines: seq<ImportLine>, first: Token): seq<CardRow> {
    seq(|lines|, i requires 0 <= i < |lines| => CardRow(lines[i].alias, first + i))
  }

  function NewRows(lines: seq<ImportLine>, first: Token): seq<ImportRow> {
    seq(|lines|, i requires 0 <= i < |lines| => ImportRow(lines[i].nfcId, first + i))
  }

  predicate Holds(c: State, u: UserId, t: Token) {
    t in c.bound && c.bound[t] == u
  }

  // ---- what the controller keeps ----

  /** Users and tokens come from the counters, and cards are held by users. */
  ghost predicate WellFormed(c: State) {
    && (forall u :: u in c.users ==> u < c.nextUser)
    && (forall t :: t in c.bound ==> t < c.nextToken && c.bound[t] in c.users)
    && (forall i :: 0 <= i < |c.cards| ==> c.cards[i].token < c.nextToken)
    && (forall i, j :: 0 <= i < j < |c.cards| ==> c.cards[i].token != c.cards[j].token)
  }

  predicate Managed(employee: Option<ContactId>) {
    employee.Some? && employee.value > 0
  }

  /** Each contact has at most one user. */
  ghost predicate UniqueContacts(c: State) {
    forall u, v :: u in c.users && v in c.users && u != v && Managed(c.users[u].employee) ==>
      c.users[u].employee != c.users[v].employee
  }

  /** Contact `k` has two users. */
  ghost predicate Doubled(c: State, k: ContactId) {
    exists u, v :: u in c.users && v in c.users && u != v && c.users[u].employee == Some(k) == c.users[v].employee
  }

  lemma UniqueIsNotDoubled(c: State)
    ensures UniqueContacts(c) <==> forall k :: k > 0 ==> !Doubled(c, k)
  {
    forall u, v | && (forall k :: k > 0 ==> !Doubled(c, k))
                  && u in c.users && v in c.users && u != v && Managed(c.users[u].employee)
      ensures c.users[u].employee != c.users[v].employee
    {
      assert !Doubled(c, c.users[u].employee.value);
    }
  }

  lemma ExecKeepsWellFormed(c: State, r: Request)
    requires WellFormed(c)
    ensures WellFormed(Exec(c, r).0)
  {
  }

  // ---- reading users ----

  /** One row of the user listing: the record as listed, and the tokens of the cards held. */
  datatype UserRow = UserRow(id: UserId, record: UserRecord, cards: seq<Token>)

  /** The policies that count: those door-sync owns, or all of them when no set was given. */
  function ManagedOf(policies: seq<string>, managed: Option<set<string>>): seq<string> {
    if policies == [] then []
    else
      var p := policies[|policies| - 1];
      ManagedOf(policies[..|policies| - 1], managed) +
      if managed.None? || p in managed.value then [p] else []
  }

  /** A row shows its user, with unmanaged policies coming and going and cards in any order. */
  ghost predicate Shows(row: UserRow, c: State, managed: Option<set<string>>) {
    && row.id in c.users
    && row.record.(policies := c.users[row.id].policies) == c.users[row.id]
    && ManagedOf(row.record.policies, managed) == ManagedOf(c.users[row.id].policies, managed)
    && NoDup(row.cards)
    && forall t :: t in row.cards <==> Holds(c, row.id, t)
  }

  /** A faithful listing of all users, in any order. */
  ghost predicate Lists(rows: seq<UserRow>, c: State, managed: Option<set<string>>) {
    && (forall i :: 0 <= i < |rows| ==> Shows(rows[i], c, managed))
    && (forall i, j :: 0 <= i < j < |rows| ==> rows[i].id != rows[j].id)
    && (forall u :: u in c.users ==> exists i :: 0 <= i < |rows| && rows[i].id == u)
  }
}
