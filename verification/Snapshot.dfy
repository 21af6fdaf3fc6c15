/**
What the client knows after fetching the users: the reader, and the caches it fills.
*/
module Snapshot {
  import opened Models
  import opened Codec
  import opened Controller
  import opened Protocol

  // ---- the reader ----

  function FirstOf(xs: seq<string>): Option<string> {
    if xs == [] then None else Some(xs[0])
  }

  /** A row as a UniFi user; rows without a positive employee number are not door-sync's. */
  function ReadUser(row: UserRow, cardOf: map<Token, CardId>, managed: Option<set<string>>): Option<UnifiUser> {
    var r := row.record;
    if !Managed(r.employee) then None
    else Some(UnifiUser(
      r.employee.value,
      JoinName(r.first, r.last),
      if row.cards == [] then None else Lookup(cardOf, row.cards[0]),
      r.status == ACTIVE,
      FirstOf(ManagedOf(r.policies, managed)),
      if r.email == "" then None else Some(r.email)))
  }

  function ReadUsers(rows: seq<UserRow>, cardOf: map<Token, CardId>, managed: Option<set<string>>): seq<UnifiUser> {
    if rows == [] then []
    else
      var front := ReadUsers(rows[..|rows| - 1], cardOf, managed);
      match ReadUser(rows[|rows| - 1], cardOf, managed) case None => front case Some(u) => front + [u]
  }

  lemma {:induction false} ManagedConcat(a: seq<string>, b: seq<string>, managed: Option<set<string>>)
    ensures ManagedOf(a + b, managed) == ManagedOf(a, managed) + ManagedOf(b, managed)
  {
    if b == [] {
      assert a + b == a;
    } else {
      assert (a + b)[..|a + b| - 1] == a + b[..|b| - 1];
      ManagedConcat(a, b[..|b| - 1], managed);
    }
  }

  lemma {:induction false} NoneManaged(ps: seq<string>, managed: set<string>)
    requires forall p :: p in ps ==> p !in managed
    ensures ManagedOf(ps, Some(managed)) == []
  {
    if ps != [] {
      NoneManaged(ps[..|ps| - 1], managed);
    }
  }

  /** The policy door-sync wrote is read back, however many unmanaged ones stand around it. */
  lemma PolicyReadBack(before: seq<string>, policy: string, after: seq<string>, managed: set<string>)
    requires policy in managed && forall p :: p in before || p in after ==> p !in managed
    ensures FirstOf(ManagedOf(before + [policy] + after, Some(managed))) == Some(policy)
  {
    ManagedConcat(before + [policy], after, Some(managed));
    ManagedConcat(before, [policy], Some(managed));
    NoneManaged(before, managed);
    NoneManaged(after, managed);
    assert [policy][..0] == [];
  }

  // ---- the caches, filled row by row ----

  function IndexUserIds(rows: seq<UserRow>): map<ContactId, UserId> {
    if rows == [] then map[]
    else
      var row := rows[|rows| - 1];
      var front := IndexUserIds(rows[..|rows| - 1]);
      if Managed(row.record.employee) then front[row.record.employee.value := row.id] else front
  }

  function IndexCardLists(rows: seq<UserRow>): map<ContactId, seq<Token>> {
    if rows == [] then map[]
    else
      var row := rows[|rows| - 1];
      var front := IndexCardLists(rows[..|rows| - 1]);
      if Managed(row.record.employee) then front[row.record.employee.value := row.cards] else front
  }

  /** Every listed user holds its cards, managed or not. */
  function IndexHolders(rows: seq<UserRow>): map<Token, Holder> {
    if rows == [] then map[]
    else
      var row := rows[|rows| - 1];
      RecordHolders(IndexHolders(rows[..|rows| - 1]), row, row.cards)
  }

  function RecordHolders(m: map<Token, Holder>, row: UserRow, tokens: seq<Token>): map<Token, Holder> {
    if tokens == [] then m
    else RecordHolders(m, row, tokens[..|tokens| - 1])
           [tokens[|tokens| - 1] := Holder(row.id, row.record.employee, row.record.status)]
  }

  /** The whole card list is indexed both ways. */
  ghost predicate CardsLoaded(cache: Cache, c: State) {
    cache.tokenMap == Some(IndexCards(map[], SyncEntries(c.cards))) &&
    cache.cardOf == CardNumbers(c)
  }

  /** The card number behind each token of the card list. */
  function CardNumbers(c: State): map<Token, CardId> {
    IndexTokens(map[], SyncEntries(c.cards))
  }

  ghost predicate HasManagedCards(rows: seq<UserRow>) {
    exists i :: 0 <= i < |rows| && Managed(rows[i].record.employee) && rows[i].cards != []
  }

  /** The caches after a fetch; the card list is read only when some managed user has a card. */
  ghost predicate FetchedFrom(cache: Cache, c: State, rows: seq<UserRow>) {
    && cache.userIds == IndexUserIds(rows)
    && cache.cards == IndexCardLists(rows)
    && cache.holders == IndexHolders(rows)
    && (if HasManagedCards(rows) then CardsLoaded(cache, c) else cache.tokenMap == None && cache.cardOf == map[])
  }

  /** The card list was loaded on top of the numbers known before. */
  ghost predicate LoadedOver(start: Cache, cache: Cache, c: State) {
    cache.tokenMap == Some(IndexCards(map[], SyncEntries(c.cards))) &&
    cache.cardOf == IndexTokens(start.cardOf, SyncEntries(c.cards))
  }

  /** The caches after a fetch on top of earlier ones: users are added or replaced, none is forgotten. */
  ghost predicate FetchedOver(start: Cache, cache: Cache, c: State, rows: seq<UserRow>) {
    && cache.userIds == start.userIds + IndexUserIds(rows)
    && cache.cards == start.cards + IndexCardLists(rows)
    && cache.holders == start.holders + IndexHolders(rows)
    && (if start.tokenMap.None? && HasManagedCards(rows) then LoadedOver(start, cache, c)
        else cache.tokenMap == start.tokenMap && cache.cardOf == start.cardOf)
  }

  const NO_CACHE := Cache(map[], map[], None, map[], map[])

  /** The first fetch of a client. */
  lemma FetchedFirst(cache: Cache, c: State, rows: seq<UserRow>)
    ensures FetchedOver(NO_CACHE, cache, c, rows) <==> FetchedFrom(cache, c, rows)
  {
    assert map[] + IndexUserIds(rows) == IndexUserIds(rows) && map[] + IndexCardLists(rows) == IndexCardLists(rows);
    assert map[] + IndexHolders(rows) == IndexHolders(rows);
  }

  // ---- what the caches say about the controller ----

  ghost predicate UserIdsAgree(userIds: map<ContactId, UserId>, c: State) {
    && (forall k :: k in userIds ==> k > 0 && userIds[k] in c.users && c.users[userIds[k]].employee == Some(k))
    && (forall u :: u in c.users && Managed(c.users[u].employee) ==>
          c.users[u].employee.value in userIds && userIds[c.users[u].employee.value] == u)
  }

  ghost predicate CardListsAgree(cards: map<ContactId, seq<Token>>, userIds: map<ContactId, UserId>, c: State) {
    cards.Keys == userIds.Keys &&
    forall k :: k in cards ==> NoDup(cards[k]) && forall t :: t in cards[k] <==> Holds(c, userIds[k], t)
  }

  ghost predicate HoldersAgree(holders: map<Token, Holder>, c: State) {
    && (forall t :: t in holders <==> t in c.bound)
    && (forall t :: t in holders ==> c.bound[t] in c.users)
    && (forall t :: t in holders ==>
          holders[t] == Holder(c.bound[t], c.users[c.bound[t]].employee, c.users[c.bound[t]].status))
  }

  /** The caches are a snapshot of the controller. */
  ghost predicate Agrees(cache: Cache, c: State) {
    && UserIdsAgree(cache.userIds, c)
    && CardListsAgree(cache.cards, cache.userIds, c)
    && HoldersAgree(cache.holders, c)
    && (cache.tokenMap.Some? ==> CardsLoaded(cache, c))
    && (cache.tokenMap.None? ==> cache.cardOf == map[])
  }

  lemma {:induction false} IndexedUser(rows: seq<UserRow>, k: ContactId)
    ensures k in IndexUserIds(rows) <==> k in IndexCardLists(rows)
    ensures k in IndexUserIds(rows) <==>
              exists i :: 0 <= i < |rows| && Managed(rows[i].record.employee) && rows[i].record.employee.value == k
    ensures k in IndexUserIds(rows) ==>
              exists i :: 0 <= i < |rows| && Managed(rows[i].record.employee) && rows[i].record.employee.value == k &&
                          IndexUserIds(rows)[k] == rows[i].id && IndexCardLists(rows)[k] == rows[i].cards
  {
    if rows != [] {
      var n := |rows| - 1;
      var front := rows[..n];
      IndexedUser(front, k);
      if Managed(rows[n].record.employee) && rows[n].record.employee.value == k {
        assert IndexUserIds(rows)[k] == rows[n].id && IndexCardLists(rows)[k] == rows[n].cards;
      } else if k in IndexUserIds(front) {
        var i :| 0 <= i < n && Managed(front[i].record.employee) && front[i].record.employee.value == k &&
                 IndexUserIds(front)[k] == front[i].id && IndexCardLists(front)[k] == front[i].cards;
        assert rows[i] == front[i];
      }
    }
  }

  lemma {:induction false} RecordedHolders(m: map<Token, Holder>, row: UserRow, tokens: seq<Token>, t: Token)
    ensures t in RecordHolders(m, row, tokens) <==> t in m || t in tokens
    ensures t in tokens ==>
              RecordHolders(m, row, tokens)[t] == Holder(row.id, row.record.employee, row.record.status)
    ensures t in m && t !in tokens ==> RecordHolders(m, row, tokens)[t] == m[t]
  {
    if tokens != [] {
      var front := tokens[..|tokens| - 1];
      RecordedHolders(m, row, front, t);
      assert tokens == front + [tokens[|tokens| - 1]];
    }
  }

  lemma {:induction false} IndexedHolder(rows: seq<UserRow>, t: Token)
    ensures t in IndexHolders(rows) <==> exists i :: 0 <= i < |rows| && t in rows[i].cards
    ensures t in IndexHolders(rows) ==>
              exists i :: 0 <= i < |rows| && t in rows[i].cards &&
                IndexHolders(rows)[t] == Holder(rows[i].id, rows[i].record.employee, rows[i].record.status)
  {
    if rows != [] {
      var n := |rows| - 1;
      var front := rows[..n];
      IndexedHolder(front, t);
      RecordedHolders(IndexHolders(front), rows[n], rows[n].cards, t);
      if t !in rows[n].cards && t in IndexHolders(front) {
        var i :| 0 <= i < n && t in front[i].cards &&
                 IndexHolders(front)[t] == Holder(front[i].id, front[i].record.employee, front[i].record.status);
        assert rows[i] == front[i];
      }
    }
  }

  /** From a faithful listing, with one user per contact, the caches agree with the controller. */
  lemma FetchAgrees(cache: Cache, c: State, rows: seq<UserRow>, managed: Option<set<string>>)
    requires WellFormed(c) && UniqueContacts(c) && Lists(rows, c, managed)
    requires FetchedFrom(cache, c, rows)
    ensures Agrees(cache, c)
  {
    UserIdsFromRows(c, rows, managed);
    CardListsFromRows(c, rows, managed);
    HoldersFromRows(c, rows, managed);
  }

  lemma RowOf(c: State, rows: seq<UserRow>, managed: Option<set<string>>, i: nat)
    requires Lists(rows, c, managed) && i < |rows|
    ensures rows[i].id in c.users
    ensures rows[i].record.employee == c.users[rows[i].id].employee
    ensures rows[i].record.status == c.users[rows[i].id].status
  {
  }

  lemma UserIdsFromRows(c: State, rows: seq<UserRow>, managed: Option<set<string>>)
    requires UniqueContacts(c) && Lists(rows, c, managed)
    ensures UserIdsAgree(IndexUserIds(rows), c)
  {
    var ids := IndexUserIds(rows);
    forall k | k in ids ensures k > 0 && ids[k] in c.users && c.users[ids[k]].employee == Some(k) {
      IndexedUser(rows, k);
      var i :| 0 <= i < |rows| && Managed(rows[i].record.employee) && rows[i].record.employee.value == k &&
               ids[k] == rows[i].id && IndexCardLists(rows)[k] == rows[i].cards;
      RowOf(c, rows, managed, i);
    }
    forall u | u in c.users && Managed(c.users[u].employee)
      ensures c.users[u].employee.value in ids && ids[c.users[u].employee.value] == u
    {
      var i :| 0 <= i < |rows| && rows[i].id == u;
      RowOf(c, rows, managed, i);
      IndexedUser(rows, c.users[u].employee.value);
    }
  }

  lemma CardListsFromRows(c: State, rows: seq<UserRow>, managed: Option<set<string>>)
    requires UniqueContacts(c) && Lists(rows, c, managed)
    ensures CardListsAgree(IndexCardLists(rows), IndexUserIds(rows), c)
  {
    var ids, cards := IndexUserIds(rows), IndexCardLists(rows);
    forall k ensures k in cards <==> k in ids {
      IndexedUser(rows, k);
    }
    forall k | k in cards ensures NoDup(cards[k]) && forall t :: t in cards[k] <==> Holds(c, ids[k], t) {
      IndexedUser(rows, k);
      var i :| 0 <= i < |rows| && Managed(rows[i].record.employee) && rows[i].record.employee.value == k &&
               ids[k] == rows[i].id && cards[k] == rows[i].cards;
      assert Shows(rows[i], c, managed);
    }
  }

  lemma HoldersFromRows(c: State, rows: seq<UserRow>, managed: Option<set<string>>)
    requires WellFormed(c) && Lists(rows, c, managed)
    ensures HoldersAgree(IndexHolders(rows), c)
  {
    var holders := IndexHolders(rows);
    forall t ensures t in holders <==> t in c.bound {
      IndexedHolder(rows, t);
      if t in holders {
        var i :| 0 <= i < |rows| && t in rows[i].cards;
        assert Shows(rows[i], c, managed);
      }
      if t in c.bound {
        var i :| 0 <= i < |rows| && rows[i].id == c.bound[t];
        assert Shows(rows[i], c, managed);
      }
    }
    forall t | t in holders
      ensures holders[t] == Holder(c.bound[t], c.users[c.bound[t]].employee, c.users[c.bound[t]].status)
    {
      IndexedHolder(rows, t);
      var i :| 0 <= i < |rows| && t in rows[i].cards &&
               holders[t] == Holder(rows[i].id, rows[i].record.employee, rows[i].record.status);
      assert Shows(rows[i], c, managed);
      RowOf(c, rows, managed, i);
    }
  }
}
